/** The CP engine of pokemon/cp.go: the level tables, the CP formula wrapper, the
    quality percentage, the chart row type with its ordering, and the in-place sort. */
module CP {
  import opened Wrappers
  import StrConv

  /** The raw CP product `int(attack * sqrt(defense) * sqrt(stamina) * multiplier^2 / 10)`,
      computed in float64 by the program, as a function of the three effective stats and
      the level multiplier. The model leaves it uninterpreted: every member that needs it
      takes it as a parameter, so every property holds whatever the product is. */
  type CPFormula = (int, int, int, real) -> int

  /** A half-integer level between 1.0 and 40.0: exactly the keys of NewMultiplierMap. */
  predicate IsHalfLevel(x: real)
  {
    1.0 <= x <= 40.0 && (2.0 * x).Floor as real == 2.0 * x
  }

  /** The values of NewMultiplierMap, indexed by twice the level (2 for level 1.0 up to
      80 for level 40.0). */
  function MultiplierAtHalfStep(h: int): real
    requires 2 <= h <= 80
  {
    if h == 2 then 0.094
    else if h == 3 then 0.135137432
    else if h == 4 then 0.16639787
    else if h == 5 then 0.192650919
    else if h == 6 then 0.21573247
    else if h == 7 then 0.236572661
    else if h == 8 then 0.25572005
    else if h == 9 then 0.273530381
    else if h == 10 then 0.29024988
    else if h == 11 then 0.335445036
    else if h == 12 then 0.3210876
    else if h == 13 then 0.335445036
    else if h == 14 then 0.34921268
    else if h == 15 then 0.362457751
    else if h == 16 then 0.37523559
    else if h == 17 then 0.387592406
    else if h == 18 then 0.39956728
    else if h == 19 then 0.411193551
    else if h == 20 then 0.42250001
    else if h == 21 then 0.432926419
    else if h == 22 then 0.44310755
    else if h == 23 then 0.4530599578
    else if h == 24 then 0.46279839
    else if h == 25 then 0.472336083
    else if h == 26 then 0.48168495
    else if h == 27 then 0.4908558
    else if h == 28 then 0.49985844
    else if h == 29 then 0.508701765
    else if h == 30 then 0.51739395
    else if h == 31 then 0.525942511
    else if h == 32 then 0.53435433
    else if h == 33 then 0.542635767
    else if h == 34 then 0.55079269
    else if h == 35 then 0.558830576
    else if h == 36 then 0.56675452
    else if h == 37 then 0.574569153
    else if h == 38 then 0.58227891
    else if h == 39 then 0.589887917
    else if h == 40 then 0.59740001
    else if h == 41 then 0.604818814
    else if h == 42 then 0.61215729
    else if h == 43 then 0.619399365
    else if h == 44 then 0.62656713
    else if h == 45 then 0.633644533
    else if h == 46 then 0.64065295
    else if h == 47 then 0.647576426
    else if h == 48 then 0.65443563
    else if h == 49 then 0.661214806
    else if h == 50 then 0.667934
    else if h == 51 then 0.674577537
    else if h == 52 then 0.68116492
    else if h == 53 then 0.687680648
    else if h == 54 then 0.69414365
    else if h == 55 then 0.700538673
    else if h == 56 then 0.70688421
    else if h == 57 then 0.713164996
    else if h == 58 then 0.71939909
    else if h == 59 then 0.725571552
    else if h == 60 then 0.7317
    else if h == 61 then 0.734741009
    else if h == 62 then 0.73776948
    else if h == 63 then 0.740785574
    else if h == 64 then 0.74378943
    else if h == 65 then 0.746781211
    else if h == 66 then 0.74976104
    else if h == 67 then 0.752729087
    else if h == 68 then 0.75568551
    else if h == 69 then 0.758630378
    else if h == 70 then 0.76156384
    else if h == 71 then 0.764486065
    else if h == 72 then 0.76739717
    else if h == 73 then 0.770297266
    else if h == 74 then 0.7731865
    else if h == 75 then 0.776064962
    else if h == 76 then 0.77893275
    else if h == 77 then 0.781790055
    else if h == 78 then 0.78463697
    else if h == 79 then 0.787473578
    else 0.79030001
  }

  /** Lookup in NewMultiplierMap, the level-to-multiplier table the CP formula uses: its
      keys are the 79 levels 1.0, 1.5, ..., 40.0. */
  function NewMultiplierMap(level: real): (m: Option<real>)
    ensures m.Some? <==> IsHalfLevel(level)
  {
    if IsHalfLevel(level) then Some(MultiplierAtHalfStep((2.0 * level).Floor)) else None
  }

  /** Lookup in MultiplierMap, the older table keyed by whole levels 1 to 40. */
  function MultiplierMap(n: int): (r: Option<real>)
    ensures r.Some? <==> 1 <= n <= 40
    ensures r.Some? ==> 0.09 < r.value < 0.8
  {
    if n == 1 then Some(0.094)
    else if n == 2 then Some(0.16639787)
    else if n == 3 then Some(0.21573247)
    else if n == 4 then Some(0.25572005)
    else if n == 5 then Some(0.29024988)
    else if n == 6 then Some(0.3210876)
    else if n == 7 then Some(0.34921268)
    else if n == 8 then Some(0.37523559)
    else if n == 9 then Some(0.39956728)
    else if n == 10 then Some(0.42250001)
    else if n == 11 then Some(0.44310755)
    else if n == 12 then Some(0.46279839)
    else if n == 13 then Some(0.48168495)
    else if n == 14 then Some(0.49985844)
    else if n == 15 then Some(0.51739395)
    else if n == 16 then Some(0.53435433)
    else if n == 17 then Some(0.55079269)
    else if n == 18 then Some(0.56675452)
    else if n == 19 then Some(0.58227891)
    else if n == 20 then Some(0.59740001)
    else if n == 21 then Some(0.61215729)
    else if n == 22 then Some(0.62656713)
    else if n == 23 then Some(0.64065295)
    else if n == 24 then Some(0.65443563)
    else if n == 25 then Some(0.667934)
    else if n == 26 then Some(0.68116492)
    else if n == 27 then Some(0.69414365)
    else if n == 28 then Some(0.70688421)
    else if n == 29 then Some(0.71939909)
    else if n == 30 then Some(0.7317)
    else if n == 31 then Some(0.73776948)
    else if n == 32 then Some(0.74378943)
    else if n == 33 then Some(0.74976104)
    else if n == 34 then Some(0.75568551)
    else if n == 35 then Some(0.76156384)
    else if n == 36 then Some(0.76739717)
    else if n == 37 then Some(0.7731865)
    else if n == 38 then Some(0.77893275)
    else if n == 39 then Some(0.78463697)
    else if n == 40 then Some(0.79030001)
    else None
  }

  /** Lookup in StardustMap: the stardust cost of a power-up, mapped to the levels a
      creature with that cost can be at. */
  function StardustMap(dust: int): (r: Option<seq<real>>)
    ensures r.Some? ==> 200 <= dust <= 10000 && dust % 100 == 0
    ensures r.Some? ==> |r.value| == (if dust == 10000 then 2 else 4)
    ensures r.Some? ==> 1.0 <= r.value[0] && r.value[|r.value| - 1] < 40.0
  {
    if dust == 200 then Some([1.0, 1.5, 2.0, 2.5])
    else if dust == 400 then Some([3.0, 3.5, 4.0, 4.5])
    else if dust == 600 then Some([5.0, 5.5, 6.0, 6.5])
    else if dust == 800 then Some([7.0, 7.5, 8.0, 8.5])
    else if dust == 1000 then Some([9.0, 9.5, 10.0, 10.5])
    else if dust == 1300 then Some([11.0, 11.5, 12.0, 12.5])
    else if dust == 1600 then Some([13.0, 13.5, 14.0, 14.5])
    else if dust == 1900 then Some([15.0, 15.5, 16.0, 16.5])
    else if dust == 2200 then Some([17.0, 17.5, 18.0, 18.5])
    else if dust == 2500 then Some([19.0, 19.5, 20.0, 20.5])
    else if dust == 3000 then Some([21.0, 21.5, 22.0, 22.5])
    else if dust == 3500 then Some([23.0, 23.5, 24.0, 24.5])
    else if dust == 4000 then Some([25.0, 25.5, 26.0, 26.5])
    else if dust == 4500 then Some([27.0, 27.5, 28.0, 28.5])
    else if dust == 5000 then Some([29.0, 29.5, 30.0, 30.5])
    else if dust == 6000 then Some([31.0, 31.5, 32.0, 32.5])
    else if dust == 7000 then Some([33.0, 33.5, 34.0, 34.5])
    else if dust == 8000 then Some([35.0, 35.5, 36.0, 36.5])
    else if dust == 9000 then Some([37.0, 37.5, 38.0, 38.5])
    else if dust == 10000 then Some([39.0, 39.5])
    else None
  }

  /** The stardust cost of each band of StardustMap, in increasing order (an index into
      the bands, used to state that the bands do not overlap). */
  function BandCost(b: int): int
  {
    if b == 0 then 200
    else if b == 1 then 400
    else if b == 2 then 600
    else if b == 3 then 800
    else if b == 4 then 1000
    else if b == 5 then 1300
    else if b == 6 then 1600
    else if b == 7 then 1900
    else if b == 8 then 2200
    else if b == 9 then 2500
    else if b == 10 then 3000
    else if b == 11 then 3500
    else if b == 12 then 4000
    else if b == 13 then 4500
    else if b == 14 then 5000
    else if b == 15 then 6000
    else if b == 16 then 7000
    else if b == 17 then 8000
    else if b == 18 then 9000
    else 10000
  }

  /** The stardust cost whose band holds a level below 40.0. */
  function StardustForLevel(x: real): int
  {
    BandCost(((2.0 * x).Floor - 2) / 4)
  }

  /** The 79 keys of NewMultiplierMap, in increasing order. The program ranges over the map,
      in the order Go chooses; see SortedUnique and Pokemon.GetIVDeterministic for why that order does not
      change any output. */
  const AllLevels: seq<real> := seq(79, i => (i + 2) as real / 2.0)

  /** AllLevels lists every key of NewMultiplierMap, each once, in increasing order. */
  lemma {:induction false} AllLevelsAreTheKeys()
    ensures |AllLevels| == 79
    ensures forall x :: x in AllLevels <==> NewMultiplierMap(x).Some?
    ensures forall i, j :: 0 <= i < j < |AllLevels| ==> AllLevels[i] < AllLevels[j]
  {
    forall x | x in AllLevels ensures IsHalfLevel(x) {
      var i :| 0 <= i < 79 && AllLevels[i] == x;
      assert 2.0 * x == (i + 2) as real;
    }
    forall x | IsHalfLevel(x) ensures x in AllLevels {
      var i := (2.0 * x).Floor - 2;
      assert 0 <= i < 79 && AllLevels[i] == x;
    }
  }

  /** The level table is not monotone: level 5.5 has a larger multiplier than level 6.0
      (it repeats the value of level 6.5). */
  lemma MultiplierNotMonotone()
    ensures NewMultiplierMap(5.5).value > NewMultiplierMap(6.0).value
    ensures NewMultiplierMap(5.5).value == NewMultiplierMap(6.5).value
  {
  }

  /** The two tables agree at every whole level from 1 to 40. */
  lemma TablesAgree()
    ensures forall n :: 1 <= n <= 40 ==> MultiplierMap(n).Some? && NewMultiplierMap(n as real) == MultiplierMap(n)
  {
    forall n | 1 <= n <= 40
      ensures MultiplierMap(n).Some? && NewMultiplierMap(n as real) == MultiplierMap(n)
    {
      assert (2.0 * n as real).Floor == 2 * n;
    }
  }

  lemma BandLevelA(dust: int, i: int)
    requires dust in {200, 400, 600, 800, 1000}
    requires 0 <= i < |StardustMap(dust).value|
    ensures IsHalfLevel(StardustMap(dust).value[i])
    ensures StardustForLevel(StardustMap(dust).value[i]) == dust
    ensures StardustMap(dust).value[i] == StardustMap(dust).value[0] + i as real / 2.0
  {
    if dust == 200 { assert StardustMap(dust) == StardustMap(200); }
    else if dust == 400 { assert StardustMap(dust) == StardustMap(400); }
    else if dust == 600 { assert StardustMap(dust) == StardustMap(600); }
    else if dust == 800 { assert StardustMap(dust) == StardustMap(800); }
    else if dust == 1000 { assert StardustMap(dust) == StardustMap(1000); }
  }

  lemma BandLevelB(dust: int, i: int)
    requires dust in {1300, 1600, 1900, 2200, 2500}
    requires 0 <= i < |StardustMap(dust).value|
    ensures IsHalfLevel(StardustMap(dust).value[i])
    ensures StardustForLevel(StardustMap(dust).value[i]) == dust
    ensures StardustMap(dust).value[i] == StardustMap(dust).value[0] + i as real / 2.0
  {
    if dust == 1300 { assert StardustMap(dust) == StardustMap(1300); }
    else if dust == 1600 { assert StardustMap(dust) == StardustMap(1600); }
    else if dust == 1900 { assert StardustMap(dust) == StardustMap(1900); }
    else if dust == 2200 { assert StardustMap(dust) == StardustMap(2200); }
    else if dust == 2500 { assert StardustMap(dust) == StardustMap(2500); }
  }

  lemma BandLevelC(dust: int, i: int)
    requires dust in {3000, 3500, 4000, 4500, 5000}
    requires 0 <= i < |StardustMap(dust).value|
    ensures IsHalfLevel(StardustMap(dust).value[i])
    ensures StardustForLevel(StardustMap(dust).value[i]) == dust
    ensures StardustMap(dust).value[i] == StardustMap(dust).value[0] + i as real / 2.0
  {
    if dust == 3000 { assert StardustMap(dust) == StardustMap(3000); }
    else if dust == 3500 { assert StardustMap(dust) == StardustMap(3500); }
    else if dust == 4000 { assert StardustMap(dust) == StardustMap(4000); }
    else if dust == 4500 { assert StardustMap(dust) == StardustMap(4500); }
    else if dust == 5000 { assert StardustMap(dust) == StardustMap(5000); }
  }

  lemma BandLevelD(dust: int, i: int)
    requires dust in {6000, 7000, 8000, 9000, 10000}
    requires 0 <= i < |StardustMap(dust).value|
    ensures IsHalfLevel(StardustMap(dust).value[i])
    ensures StardustForLevel(StardustMap(dust).value[i]) == dust
    ensures StardustMap(dust).value[i] == StardustMap(dust).value[0] + i as real / 2.0
  {
    if dust == 6000 { assert StardustMap(dust) == StardustMap(6000); }
    else if dust == 7000 { assert StardustMap(dust) == StardustMap(7000); }
    else if dust == 8000 { assert StardustMap(dust) == StardustMap(8000); }
    else if dust == 9000 { assert StardustMap(dust) == StardustMap(9000); }
    else if dust == 10000 { assert StardustMap(dust) == StardustMap(10000); }
  }

  lemma BandLevel(dust: int, i: int)
    requires StardustMap(dust).Some? && 0 <= i < |StardustMap(dust).value|
    ensures IsHalfLevel(StardustMap(dust).value[i])
    ensures StardustForLevel(StardustMap(dust).value[i]) == dust
    ensures StardustMap(dust).value[i] == StardustMap(dust).value[0] + i as real / 2.0
  {
    if dust <= 1000 { BandLevelA(dust, i); }
    else if dust <= 2500 { BandLevelB(dust, i); }
    else if dust <= 5000 { BandLevelC(dust, i); }
    else { BandLevelD(dust, i); }
  }

  /** Every level of every stardust band is a key of NewMultiplierMap and belongs to that
      band: IsHalfLevel is exactly the key set of NewMultiplierMap, and StardustForLevel
      inverts the band lookup. */
  lemma StardustBandLevels(dust: int, x: real)
    requires StardustMap(dust).Some? && x in StardustMap(dust).value
    ensures IsHalfLevel(x) && StardustForLevel(x) == dust
  {
    var band := StardustMap(dust).value;
    var i :| 0 <= i < |band| && band[i] == x;
    BandLevel(dust, i);
  }

  /** Each stardust band lists its levels in increasing order, so none twice. */
  lemma StardustBandIncreasing(dust: int)
    requires StardustMap(dust).Some?
    ensures forall i, j :: 0 <= i < j < |StardustMap(dust).value| ==>
      StardustMap(dust).value[i] < StardustMap(dust).value[j]
  {
    forall i, j | 0 <= i < j < |StardustMap(dust).value|
      ensures StardustMap(dust).value[i] < StardustMap(dust).value[j]
    {
      BandLevel(dust, i);
      BandLevel(dust, j);
    }
  }

  /** No level is in two stardust bands. */
  lemma StardustBandsDisjoint(d1: int, d2: int, x: real)
    requires StardustMap(d1).Some? && x in StardustMap(d1).value
    requires StardustMap(d2).Some? && x in StardustMap(d2).value
    ensures d1 == d2
  {
    var i :| 0 <= i < |StardustMap(d1).value| && StardustMap(d1).value[i] == x;
    var j :| 0 <= j < |StardustMap(d2).value| && StardustMap(d2).value[j] == x;
    BandLevel(d1, i);
    BandLevel(d2, j);
  }

  /** Every band holds four levels except 10000, which holds two; level 40.0 is in no band,
      and 0 is not a stardust cost. */
  lemma StardustBandSizes()
    ensures forall dust :: StardustMap(dust).Some? ==>
      |StardustMap(dust).value| == (if dust == 10000 then 2 else 4) && 40.0 !in StardustMap(dust).value
    ensures StardustMap(0).None?
  {
  }

  /** GetStatValue: the effective stat is the base stat plus the IV, whatever the level. */
  function GetStatValue(base: int, iv: int, level: real): (value: int)
    ensures value - iv == base
  {
    base + iv
  }

  /** CalculateCP: the raw product at the level's multiplier, never below 10. A level that
      is not a key of NewMultiplierMap leaves the product at 0, which is then raised to 10. */
  function CalculateCP(f: CPFormula, attack: int, defense: int, stamina: int, level: real): (cp: int)
    ensures cp >= 10
    ensures NewMultiplierMap(level).None? ==> cp == 10
    ensures NewMultiplierMap(level).Some? && f(attack, defense, stamina, NewMultiplierMap(level).value) >= 10 ==>
      cp == f(attack, defense, stamina, NewMultiplierMap(level).value)
    ensures NewMultiplierMap(level).Some? && f(attack, defense, stamina, NewMultiplierMap(level).value) < 10 ==> cp == 10
  {
    var raw := match NewMultiplierMap(level)
      case Some(m) => f(attack, defense, stamina, m)
      case None => 0;
    if raw < 10 then 10 else raw
  }

  /** round: `int(f + Copysign(0.5, f))`, rounding half away from zero. */
  function Round(f: real): (r: int)
    ensures f >= 0.0 ==> r as real - 0.5 <= f < r as real + 0.5
    ensures f < 0.0 ==> r as real - 0.5 < f <= r as real + 0.5
  {
    if f >= 0.0 then (f + 0.5).Floor else -((0.5 - f).Floor)
  }

  /** The quality percentage of an IV triple: round((a + d + s) * 100 / 45). */
  function QualityPercent(a: int, d: int, s: int): (r: int)
    ensures 0 <= a + d + s <= 45 ==> 0 <= r <= 100
    ensures a + d + s == 45 ==> r == 100
  {
    Round(((a + d + s) * 100) as real / 45.0)
  }

  /** For an IV sum between 0 and 45 the rounded percentage is (40 * sum + 9) div 18; it lies
      in 0..100, is 100 only for a perfect triple, and is at least 90 exactly when the sum is
      at least 41. */
  lemma {:induction false} QualityPercentClosedForm(a: int, d: int, s: int)
    requires 0 <= a + d + s <= 45
    ensures QualityPercent(a, d, s) == (40 * (a + d + s) + 9) / 18
    ensures 0 <= QualityPercent(a, d, s) <= 100
    ensures QualityPercent(a, d, s) == 100 <==> a + d + s == 45
    ensures QualityPercent(a, d, s) >= 90 <==> a + d + s >= 41
  {
    var sum := a + d + s;
    var q := (40 * sum + 9) / 18;
    var f := (sum * 100) as real / 45.0;
    assert 18 * q <= 40 * sum + 9 < 18 * q + 18;
    assert f + 0.5 == (40 * sum + 9) as real / 18.0;
    assert q as real <= f + 0.5 < q as real + 1.0;
  }

  /** One row of an IV chart (ivStat). A request uses level, cp, stardust and best; a result
      row uses level, the IVs, the percentage and, in the raid chart, cp20 and cp25. */
  datatype IvStat = IvStat(
    stardust: int,
    attack: int,
    defense: int,
    stamina: int,
    percent: int,
    cp: int,
    cp20: int,
    cp25: int,
    level: real,
    best: string)

  /** The ordering of SortChart: true when `s1` goes before `s2`. Descending on level, then
      CP at 25, CP at 20, percentage, attack, defense and stamina. */
  predicate Precedes(s1: IvStat, s2: IvStat)
    ensures Precedes(s1, s2) ==> s1.level >= s2.level
  {
    if s1.level == s2.level then
      if s1.cp25 == s2.cp25 then
        if s1.cp20 == s2.cp20 then
          if s1.percent == s2.percent then
            if s1.attack == s2.attack then
              if s1.defense == s2.defense then
                s1.stamina > s2.stamina
              else s1.defense > s2.defense
            else s1.attack > s2.attack
          else s1.percent > s2.percent
        else s1.cp20 > s2.cp20
      else s1.cp25 > s2.cp25
    else s1.level > s2.level
  }

  /** Two rows that agree on all seven sort keys. */
  predicate SameKey(s1: IvStat, s2: IvStat)
  {
    s1.level == s2.level && s1.cp25 == s2.cp25 && s1.cp20 == s2.cp20 && s1.percent == s2.percent
    && s1.attack == s2.attack && s1.defense == s2.defense && s1.stamina == s2.stamina
  }

  /** The ordering is irreflexive, and of two rows exactly one goes first unless they agree
      on every key, in which case neither does. */
  lemma PrecedesTrichotomy(s1: IvStat, s2: IvStat)
    ensures !Precedes(s1, s1)
    ensures SameKey(s1, s2) ==> !Precedes(s1, s2) && !Precedes(s2, s1)
    ensures !SameKey(s1, s2) ==> Precedes(s1, s2) != Precedes(s2, s1)
  {
  }

  lemma PrecedesTransitive(s1: IvStat, s2: IvStat, s3: IvStat)
    requires Precedes(s1, s2) && Precedes(s2, s3)
    ensures Precedes(s1, s3)
  {
  }

  /** No row of the sequence goes before an earlier one. */
  predicate Sorted(xs: seq<IvStat>)
  {
    forall i, j :: 0 <= i < j < |xs| ==> !Precedes(xs[j], xs[i])
  }

  /** Two sorted orderings of the same rows are equal when rows that agree on every sort
      key are equal rows: the output of SortChart does not depend on the sorting algorithm or
      on the order of its input. */
  lemma {:induction false} SortedUnique(xs: seq<IvStat>, ys: seq<IvStat>)
    requires Sorted(xs) && Sorted(ys) && multiset(xs) == multiset(ys)
    requires forall i, j :: 0 <= i < |xs| && 0 <= j < |xs| && SameKey(xs[i], xs[j]) ==> xs[i] == xs[j]
    ensures xs == ys
  {
    assert |xs| == |multiset(xs)| == |multiset(ys)| == |ys|;
    if |xs| > 0 {
      SortedHeads(xs, ys);
      MultisetTails(xs, ys);
      var tl := xs[1..];
      forall i, j | 0 <= i < |tl| && 0 <= j < |tl| && SameKey(tl[i], tl[j]) ensures tl[i] == tl[j] {
        assert tl[i] == xs[i + 1] && tl[j] == xs[j + 1];
      }
      SortedTail(xs);
      SortedTail(ys);
      SortedUnique(xs[1..], ys[1..]);
    }
  }

  lemma MultisetTails(xs: seq<IvStat>, ys: seq<IvStat>)
    requires |xs| > 0 && |ys| > 0 && xs[0] == ys[0] && multiset(xs) == multiset(ys)
    ensures multiset(xs[1..]) == multiset(ys[1..])
  {
    assert xs == [xs[0]] + xs[1..] && ys == [ys[0]] + ys[1..];
    assert multiset(xs) == multiset{xs[0]} + multiset(xs[1..]);
    assert multiset(ys) == multiset{ys[0]} + multiset(ys[1..]);
    assert multiset(xs[1..]) == multiset(xs) - multiset{xs[0]};
    assert multiset(ys[1..]) == multiset(ys) - multiset{ys[0]};
  }

  /** The first rows of two such orderings are equal. */
  lemma SortedHeads(xs: seq<IvStat>, ys: seq<IvStat>)
    requires |xs| > 0 && |ys| > 0 && Sorted(xs) && Sorted(ys) && multiset(xs) == multiset(ys)
    requires forall i, j :: 0 <= i < |xs| && 0 <= j < |xs| && SameKey(xs[i], xs[j]) ==> xs[i] == xs[j]
    ensures xs[0] == ys[0]
  {
    assert ys[0] in multiset(xs) && xs[0] in multiset(ys);
    var k :| 0 <= k < |xs| && xs[k] == ys[0];
    var m :| 0 <= m < |ys| && ys[m] == xs[0];
    PrecedesTrichotomy(xs[0], ys[0]);
    if k != 0 && m != 0 {
      assert !Precedes(xs[k], xs[0]);
      assert !Precedes(ys[m], ys[0]);
      assert SameKey(xs[0], xs[k]);
    }
  }

  lemma SortedTail(xs: seq<IvStat>)
    requires |xs| > 0 && Sorted(xs)
    ensures Sorted(xs[1..])
  {
    forall i, j | 0 <= i < j < |xs| - 1 ensures !Precedes(xs[1..][j], xs[1..][i]) {
      assert xs[1..][j] == xs[j + 1] && xs[1..][i] == xs[i + 1];
    }
  }

  /** statSorter.Swap */
  method Swap(a: array<IvStat>, i: int, j: int)
    requires 0 <= i < a.Length && 0 <= j < a.Length
    modifies a
    ensures a[..] == old(a[..])[i := old(a[j])][j := old(a[i])]
    ensures multiset(a[..]) == multiset(old(a[..]))
  {
    a[i], a[j] := a[j], a[i];
  }

  /** SortChart: sorts the rows in place by Precedes, changing the array only by swaps.
      Go's sort.Sort uses a different swap-based algorithm; whenever no two rows agree on
      every key the sorted result is the same (SortedUnique). */
  method SortChart(a: array<IvStat>)
    modifies a
    ensures Sorted(a[..])
    ensures multiset(a[..]) == multiset(old(a[..]))
  {
    var i := 0;
    while i < a.Length
      invariant 0 <= i <= a.Length
      invariant multiset(a[..]) == multiset(old(a[..]))
      invariant forall p, q :: 0 <= p < q < i ==> !Precedes(a[q], a[p])
      invariant forall p, q :: 0 <= p < i <= q < a.Length ==> !Precedes(a[q], a[p])
    {
      var m := i;
      var j := i + 1;
      PrecedesTrichotomy(a[i], a[i]);
      while j < a.Length
        invariant i <= m < a.Length && i + 1 <= j <= a.Length
        invariant forall k :: i <= k < j ==> !Precedes(a[k], a[m])
      {
        if Precedes(a[j], a[m]) {
          forall k | i <= k < j
            ensures !Precedes(a[k], a[j])
          {
            if Precedes(a[k], a[j]) {
              PrecedesTransitive(a[k], a[j], a[m]);
            }
          }
          m := j;
        }
        j := j + 1;
      }
      Swap(a, i, m);
      i := i + 1;
    }
  }

  /** PrintChartRow: a raid chart line; the percent sign is left out of a 100% row. */
  function PrintChartRow(s: IvStat): (r: string)
    ensures '%' in r <==> s.percent != 100
  {
    var pct := StrConv.Itoa(s.percent);
    assert '%' !in pct;
    var r := "`| " + pct + (if s.percent == 100 then "" else "%") + " | " + StrConv.Itoa(s.attack)
      + " | " + StrConv.Itoa(s.defense) + " | " + StrConv.Itoa(s.stamina) + " | "
      + StrConv.Itoa(s.cp20) + " | " + StrConv.Itoa(s.cp25) + " |`";
    r
  }

  /** `%2d`: the text right-aligned in a field of two characters. */
  function Pad2(x: string): (r: string)
    ensures |r| == if |x| < 2 then 2 else |x|
    ensures r[|r| - |x|..] == x
    ensures forall i :: 0 <= i < |r| - |x| ==> r[i] == ' '
  {
    if |x| == 0 then "  " else if |x| == 1 then " " + x else x
  }

  /** PrintIVRow: an IV chart line. The level is printed with `%4.1f`, which is the
      parameter `levelText`; the three IVs are right-aligned in two columns each. */
  function PrintIVRow(levelText: real -> string, s: IvStat): (r: string)
    ensures |r| >= 2 && r[0] == '`' && r[|r| - 2..] == "%`"
  {
    "`" + levelText(s.level) + " | " + Pad2(StrConv.Itoa(s.attack)) + " | " + Pad2(StrConv.Itoa(s.defense))
    + " | " + Pad2(StrConv.Itoa(s.stamina)) + " ---> " + StrConv.Itoa(s.percent) + "%`"
  }

  /** An IV between 0 and 15 takes exactly two columns, so the IV columns of the chart line
      up; the line ends with the percentage and a percent sign. */
  lemma PrintIVRowColumns(levelText: real -> string, s: IvStat)
    requires 0 <= s.attack <= 15 && 0 <= s.defense <= 15 && 0 <= s.stamina <= 15
    ensures |Pad2(StrConv.Itoa(s.attack))| == 2 && |Pad2(StrConv.Itoa(s.defense))| == 2
    ensures |Pad2(StrConv.Itoa(s.stamina))| == 2
    ensures var r := PrintIVRow(levelText, s); |r| >= 2 && r[0] == '`' && r[|r| - 2..] == "%`"
  {
  }
}
