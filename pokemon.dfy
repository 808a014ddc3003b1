/** The creature record of pokemon/pokemon.go and its IV searches: the brute-force IV
    solver behind `!iv`, the raid CP chart and the raid IV search, plus CP lookups and the
    type relations of a creature. */
module Pokemon {
  import opened Wrappers
  import opened CP
  import Text
  import StrConv
  import Types
  import Moves

  datatype PokemonStats = PokemonStats(baseStamina: int, baseAttack: int, baseDefense: int)

  /** A creature as loaded from the creature table. */
  datatype Pokemon = Pokemon(
    name: string,
    id: string,
    dex: int,
    types: Types.TypeList,
    stats: PokemonStats,
    moves: Moves.Moves,
    maxCP: int)

  /** GetCP: the CP of the creature at a level with the given IVs. Each effective stat is
      the base stat plus the IV, whatever the level; the level only selects the multiplier. */
  function GetCP(f: CPFormula, p: Pokemon, level: real, a: int, d: int, s: int): (cp: int)
    ensures cp >= 10
    ensures NewMultiplierMap(level).None? ==> cp == 10
    ensures NewMultiplierMap(level).Some? ==>
      cp == Max10(f(p.stats.baseAttack + a, p.stats.baseDefense + d, p.stats.baseStamina + s, NewMultiplierMap(level).value))
  {
    var attack := GetStatValue(p.stats.baseAttack, a, level);
    var defense := GetStatValue(p.stats.baseDefense, d, level);
    var stamina := GetStatValue(p.stats.baseStamina, s, level);
    CalculateCP(f, attack, defense, stamina, level)
  }

  /** The clamp of CalculateCP: values below 10 become 10. */
  function Max10(x: int): int
  {
    if x < 10 then 10 else x
  }

  /** GetMaxCP: 0 for the placeholder base stats 1/1/1, otherwise the CP at level 40 with
      perfect IVs. */
  function GetMaxCP(f: CPFormula, p: Pokemon): (cp: int)
    ensures cp == 0 <==> p.stats == PokemonStats(1, 1, 1)
    ensures cp != 0 ==> cp >= 10 && cp == GetCP(f, p, 40.0, 15, 15, 15)
  {
    if p.stats.baseAttack == 1 && p.stats.baseDefense == 1 && p.stats.baseStamina == 1 then 0
    else GetCP(f, p, 40.0, 15, 15, 15)
  }

  /** The four numbers GetRaidCPRange reports. */
  datatype RaidRange = RaidRange(min20: int, max20: int, min25: int, max25: int)

  /** The multipliers of the two raid levels. */
  const Multiplier20: real := 0.59740001
  const Multiplier25: real := 0.667934

  /** GetRaidCPRange: the CP of the worst (10/10/10) and best (15/15/15) raid IVs at
      levels 20 and 25. Both levels are keys of the level table, so each value is the
      clamped raw product at that level's multiplier, never the fallback 10 for an unknown
      level. */
  function GetRaidCPRange(f: CPFormula, p: Pokemon): (r: RaidRange)
    ensures r.min20 == Max10(f(p.stats.baseAttack + 10, p.stats.baseDefense + 10, p.stats.baseStamina + 10, Multiplier20))
    ensures r.max20 == Max10(f(p.stats.baseAttack + 15, p.stats.baseDefense + 15, p.stats.baseStamina + 15, Multiplier20))
    ensures r.min25 == Max10(f(p.stats.baseAttack + 10, p.stats.baseDefense + 10, p.stats.baseStamina + 10, Multiplier25))
    ensures r.max25 == Max10(f(p.stats.baseAttack + 15, p.stats.baseDefense + 15, p.stats.baseStamina + 15, Multiplier25))
  {
    assert (2.0 * 20.0).Floor == 40 && (2.0 * 25.0).Floor == 50;
    RaidRange(GetCP(f, p, 20.0, 10, 10, 10), GetCP(f, p, 20.0, 15, 15, 15),
              GetCP(f, p, 25.0, 10, 10, 10), GetCP(f, p, 25.0, 15, 15, 15))
  }

  /** The message of GetRaidCPRange. */
  function RaidRangeText(p: Pokemon, r: RaidRange): string
  {
    "__**CP For " + p.name + "**__\nLevel 20: " + StrConv.Itoa(r.min20) + " - **" + StrConv.Itoa(r.max20)
    + "**\nLevel 25: " + StrConv.Itoa(r.min25) + " - **" + StrConv.Itoa(r.max25) + "**"
  }

  // ---------------------------------------------------------------------------------
  // The "best stat" filter of getIV

  function Max3(a: int, d: int, s: int): (m: int)
    ensures m >= a && m >= d && m >= s && (m == a || m == d || m == s)
  {
    if a >= d && a >= s then a else if d >= s then d else s
  }

  /** The appraisal string of an IV triple: "a", "d" and "s", in that order, for each
      stat equal to the highest. */
  function BestString(a: int, d: int, s: int): (r: string)
    ensures 1 <= |r| <= 3
    ensures a == d == s ==> r == "ads"
  {
    var highest := Max3(a, d, s);
    (if a == highest then "a" else "") + (if d == highest then "d" else "") + (if s == highest then "s" else "")
  }

  /** A triple passes the filter when there is no filter, or when its appraisal string is
      exactly the filter. */
  predicate PassesBest(best: string, a: int, d: int, s: int)
    ensures best == "" ==> PassesBest(best, a, d, s)
    ensures |best| > 3 ==> !PassesBest(best, a, d, s)
  {
    best == "" || BestString(a, d, s) == best
  }

  /** The appraisal string names exactly the highest stats, in the order attack, defense,
      stamina, and is never empty. A non-empty filter holding anything other than those
      letters in that order, such as the "h" the `!iv` command produces for stamina, lets
      no triple through. */
  lemma BestStringMeaning(a: int, d: int, s: int, best: string)
    ensures 1 <= |BestString(a, d, s)| <= 3
    ensures 'a' in BestString(a, d, s) <==> a >= d && a >= s
    ensures 'd' in BestString(a, d, s) <==> d >= a && d >= s
    ensures 's' in BestString(a, d, s) <==> s >= a && s >= d
    ensures forall c :: c in BestString(a, d, s) ==> c in "ads"
    ensures best != "" && 'h' in best ==> !PassesBest(best, a, d, s)
  {
  }

  // ---------------------------------------------------------------------------------
  // The three searches, as one specification

  /** Which of the three loops of pokemon.go is meant: getIV for a CP and an optional
      appraisal filter, GetRaidCPChart, or GetRaidIV for a raid CP. */
  datatype Search = IvSearch(cp: int, best: string) | RaidChart | RaidIvSearch(raidcp: int)

  /** Whether the search keeps the tuple (level, a, d, s). */
  predicate Keep(f: CPFormula, p: Pokemon, q: Search, l: real, a: int, d: int, s: int)
  {
    match q
    case IvSearch(cp, best) => PassesBest(best, a, d, s) && GetCP(f, p, l, a, d, s) == cp
    case RaidChart => QualityPercent(a, d, s) >= 90
    case RaidIvSearch(raidcp) => raidcp == GetCP(f, p, 20.0, a, d, s) || raidcp == GetCP(f, p, 25.0, a, d, s)
  }

  /** The row the search appends for a kept tuple. Only the raid chart fills the CPs at
      levels 20 and 25; the raid searches leave the level at 0. */
  function Row(f: CPFormula, p: Pokemon, q: Search, l: real, a: int, d: int, s: int): (r: IvStat)
    ensures r.level == l && r.attack == a && r.defense == d && r.stamina == s
    ensures r.percent == QualityPercent(a, d, s)
  {
    match q
    case RaidChart =>
      IvStat(0, a, d, s, QualityPercent(a, d, s), 0, GetCP(f, p, 20.0, a, d, s), GetCP(f, p, 25.0, a, d, s), l, "")
    case _ => IvStat(0, a, d, s, QualityPercent(a, d, s), 0, 0, 0, l, "")
  }

  /** The `n`-th IV value a loop visits: the slices run from 15 downwards. */
  function IvAt(n: int): int
  {
    15 - n
  }

  /** A filter on (level, attack, defense, stamina) and the row built for a kept tuple:
      the enumeration below is stated for any of them, and the three searches instantiate
      it with Keep and Row. */
  type KeepFn = (real, int, int, int) -> bool
  type RowFn = (real, int, int, int) -> IvStat

  function KeepOf(f: CPFormula, p: Pokemon, q: Search): KeepFn
  {
    (l: real, a: int, d: int, s: int) => Keep(f, p, q, l, a, d, s)
  }

  function RowOf(f: CPFormula, p: Pokemon, q: Search): RowFn
  {
    (l: real, a: int, d: int, s: int) => Row(f, p, q, l, a, d, s)
  }

  /** The built row carries its own tuple. */
  ghost predicate RowShape(row: RowFn)
  {
    forall l, a, d, s :: row(l, a, d, s).level == l && row(l, a, d, s).attack == a
      && row(l, a, d, s).defense == d && row(l, a, d, s).stamina == s
  }

  lemma RowOfShape(f: CPFormula, p: Pokemon, q: Search)
    ensures RowShape(RowOf(f, p, q))
  {
  }

  /** A point of the loop nest over `levels` and `w` IV values: the loop indices of the
      level, attack, defense and stamina loops. An inner index equal to `w` means that loop
      has just finished; the level index `|levels|` means the whole nest has. */
  predicate Pos(levels: seq<real>, w: int, li: int, ai: int, di: int, si: int)
  {
    w >= 1 && 0 <= ai <= w && 0 <= di <= w && 0 <= si <= w && 0 <= li
    && (si > 0 ==> di < w && ai < w) && (di > 0 ==> ai < w)
    && (li < |levels| || (li == |levels| && ai == 0 && di == 0 && si == 0))
  }

  /** The rows appended for the iteration (li, ai, di, si): its row when the tuple is kept. */
  function Step(keep: KeepFn, row: RowFn, levels: seq<real>, li: int, ai: int, di: int, si: int): seq<IvStat>
    requires 0 <= li < |levels|
  {
    var l, a, d, s := levels[li], IvAt(ai), IvAt(di), IvAt(si);
    if keep(l, a, d, s) then [row(l, a, d, s)] else []
  }

  /** The rows appended before the loop nest reaches (li, ai, di, si). */
  function Rows(keep: KeepFn, row: RowFn, levels: seq<real>, w: int, li: int, ai: int, di: int, si: int): seq<IvStat>
    requires Pos(levels, w, li, ai, di, si)
    decreases li, ai, di, si
  {
    if si > 0 then Rows(keep, row, levels, w, li, ai, di, si - 1) + Step(keep, row, levels, li, ai, di, si - 1)
    else if di > 0 then Rows(keep, row, levels, w, li, ai, di - 1, w)
    else if ai > 0 then Rows(keep, row, levels, w, li, ai - 1, w, 0)
    else if li > 0 then Rows(keep, row, levels, w, li - 1, w, 0, 0)
    else []
  }

  /** The rows of the whole nest. */
  function AllRows(keep: KeepFn, row: RowFn, levels: seq<real>, w: int): seq<IvStat>
    requires w >= 1
  {
    Rows(keep, row, levels, w, |levels|, 0, 0, 0)
  }

  /** One iteration of the innermost loop appends its step. */
  lemma RowsInner(keep: KeepFn, row: RowFn, levels: seq<real>, w: int, li: int, ai: int, di: int, si: int)
    requires 0 <= li < |levels| && 0 <= ai < w && 0 <= di < w && 0 <= si < w
    ensures Rows(keep, row, levels, w, li, ai, di, si + 1)
      == Rows(keep, row, levels, w, li, ai, di, si) + Step(keep, row, levels, li, ai, di, si)
  {
  }

  /** A finished loop is the start of the next iteration of the loop around it. */
  lemma RowsCarry(keep: KeepFn, row: RowFn, levels: seq<real>, w: int, li: int, ai: int, di: int)
    requires 0 <= li < |levels| && 0 <= ai < w && 0 <= di < w
    ensures Rows(keep, row, levels, w, li, ai, di, w) == Rows(keep, row, levels, w, li, ai, di + 1, 0)
    ensures Rows(keep, row, levels, w, li, ai, w, 0) == Rows(keep, row, levels, w, li, ai + 1, 0, 0)
    ensures Rows(keep, row, levels, w, li, w, 0, 0) == Rows(keep, row, levels, w, li + 1, 0, 0, 0)
  {
  }

  /** Iteration (li, ai, di, si) comes before (lj, aj, dj, sj). */
  predicate Before(li: int, ai: int, di: int, si: int, lj: int, aj: int, dj: int, sj: int)
  {
    li < lj || (li == lj && (ai < aj || (ai == aj && (di < dj || (di == dj && si < sj)))))
  }

  /** The tuple of a row. */
  function Key(x: IvStat): (real, int, int, int)
  {
    (x.level, x.attack, x.defense, x.stamina)
  }

  /** `x` is the row built for its own tuple, and that tuple is kept. */
  predicate Generated(keep: KeepFn, row: RowFn, x: IvStat)
  {
    keep(x.level, x.attack, x.defense, x.stamina) && x == row(x.level, x.attack, x.defense, x.stamina)
  }

  /** No two rows share level and IVs. */
  predicate DistinctTuples(xs: seq<IvStat>)
  {
    forall i, j :: 0 <= i < j < |xs| ==> Key(xs[i]) != Key(xs[j])
  }

  /** No level is listed twice. */
  predicate DistinctLevels(levels: seq<real>)
  {
    forall i, j :: 0 <= i < j < |levels| ==> levels[i] != levels[j]
  }

  /** A row appended before (li, ai, di, si) was built, for a kept tuple, by an earlier
      iteration, whose indices are returned. */
  lemma {:induction false} RowsMem(keep: KeepFn, row: RowFn, levels: seq<real>, w: int, li: int, ai: int, di: int, si: int, x: IvStat)
    returns (lk: int, ak: int, dk: int, sk: int)
    requires RowShape(row) && Pos(levels, w, li, ai, di, si) && x in Rows(keep, row, levels, w, li, ai, di, si)
    ensures 0 <= lk < |levels| && 0 <= ak < w && 0 <= dk < w && 0 <= sk < w
    ensures Before(lk, ak, dk, sk, li, ai, di, si)
    ensures Generated(keep, row, x) && Key(x) == (levels[lk], IvAt(ak), IvAt(dk), IvAt(sk))
    decreases li, ai, di, si
  {
    if si > 0 {
      if x in Rows(keep, row, levels, w, li, ai, di, si - 1) {
        lk, ak, dk, sk := RowsMem(keep, row, levels, w, li, ai, di, si - 1, x);
      } else {
        lk, ak, dk, sk := li, ai, di, si - 1;
        assert x == row(levels[li], IvAt(ai), IvAt(di), IvAt(si - 1));
      }
    } else if di > 0 {
      lk, ak, dk, sk := RowsMem(keep, row, levels, w, li, ai, di - 1, w, x);
    } else if ai > 0 {
      lk, ak, dk, sk := RowsMem(keep, row, levels, w, li, ai - 1, w, 0, x);
    } else {
      lk, ak, dk, sk := RowsMem(keep, row, levels, w, li - 1, w, 0, 0, x);
    }
  }

  /** A kept tuple of an earlier iteration has its row among the rows appended so far. */
  lemma {:induction false} RowsHas(keep: KeepFn, row: RowFn, levels: seq<real>, w: int, li: int, ai: int, di: int, si: int,
                                   lk: int, ak: int, dk: int, sk: int)
    requires Pos(levels, w, li, ai, di, si)
    requires 0 <= lk < |levels| && 0 <= ak < w && 0 <= dk < w && 0 <= sk < w
    requires Before(lk, ak, dk, sk, li, ai, di, si)
    requires keep(levels[lk], IvAt(ak), IvAt(dk), IvAt(sk))
    ensures row(levels[lk], IvAt(ak), IvAt(dk), IvAt(sk)) in Rows(keep, row, levels, w, li, ai, di, si)
    decreases li, ai, di, si
  {
    if si > 0 {
      if (lk, ak, dk, sk) != (li, ai, di, si - 1) {
        RowsHas(keep, row, levels, w, li, ai, di, si - 1, lk, ak, dk, sk);
      }
    } else if di > 0 {
      RowsHas(keep, row, levels, w, li, ai, di - 1, w, lk, ak, dk, sk);
    } else if ai > 0 {
      RowsHas(keep, row, levels, w, li, ai - 1, w, 0, lk, ak, dk, sk);
    } else {
      RowsHas(keep, row, levels, w, li - 1, w, 0, 0, lk, ak, dk, sk);
    }
  }

  /** No tuple is appended twice when no level repeats. */
  lemma {:induction false} RowsDistinct(keep: KeepFn, row: RowFn, levels: seq<real>, w: int, li: int, ai: int, di: int, si: int)
    requires RowShape(row) && Pos(levels, w, li, ai, di, si) && DistinctLevels(levels)
    ensures DistinctTuples(Rows(keep, row, levels, w, li, ai, di, si))
    decreases li, ai, di, si
  {
    if si > 0 {
      RowsDistinct(keep, row, levels, w, li, ai, di, si - 1);
      var xs := Rows(keep, row, levels, w, li, ai, di, si - 1);
      var zs := Rows(keep, row, levels, w, li, ai, di, si);
      forall i, j | 0 <= i < j < |zs| ensures Key(zs[i]) != Key(zs[j])
      {
        if j >= |xs| {
          assert zs[i] == xs[i];
          var lk, ak, dk, sk := RowsMem(keep, row, levels, w, li, ai, di, si - 1, xs[i]);
          assert lk != li ==> levels[lk] != levels[li];
        } else {
          assert zs[i] == xs[i] && zs[j] == xs[j];
        }
      }
    } else if di > 0 {
      RowsDistinct(keep, row, levels, w, li, ai, di - 1, w);
    } else if ai > 0 {
      RowsDistinct(keep, row, levels, w, li, ai - 1, w, 0);
    } else if li > 0 {
      RowsDistinct(keep, row, levels, w, li - 1, w, 0, 0);
    }
  }

  /** `v` is one of the `w` IV values the loops visit: 15 downwards. */
  predicate InRange(w: int, v: int)
  {
    16 - w <= v <= 15
  }

  /** Soundness of the nest: a row is built for its own kept tuple, at a candidate level,
      with IVs among the visited values. */
  lemma RowsSound(keep: KeepFn, row: RowFn, levels: seq<real>, w: int, x: IvStat)
    requires RowShape(row) && w >= 1 && x in AllRows(keep, row, levels, w)
    ensures x.level in levels && InRange(w, x.attack) && InRange(w, x.defense) && InRange(w, x.stamina)
    ensures Generated(keep, row, x)
  {
    var lk, ak, dk, sk := RowsMem(keep, row, levels, w, |levels|, 0, 0, 0, x);
  }

  /** Completeness of the nest: every kept tuple at a candidate level, with IVs among the
      visited values, has its row. */
  lemma RowsComplete(keep: KeepFn, row: RowFn, levels: seq<real>, w: int, l: real, a: int, d: int, s: int)
    requires w >= 1 && l in levels && InRange(w, a) && InRange(w, d) && InRange(w, s) && keep(l, a, d, s)
    ensures row(l, a, d, s) in AllRows(keep, row, levels, w)
  {
    var i :| 0 <= i < |levels| && levels[i] == l;
    RowsHas(keep, row, levels, w, |levels|, 0, 0, 0, i, 15 - a, 15 - d, 15 - s);
  }

  /** The IV slices the loops range over: all sixteen in getIV, 15 down to 10 in the raid
      searches. */
  const PossibleIVs: seq<int> := [15, 14, 13, 12, 11, 10, 9, 8, 7, 6, 5, 4, 3, 2, 1, 0]
  const RaidIVs: seq<int> := [15, 14, 13, 12, 11, 10]

  /** A non-empty slice of IV values counting down from 15. */
  predicate CountsDown(ivs: seq<int>)
  {
    |ivs| >= 1 && forall i :: 0 <= i < |ivs| ==> ivs[i] == IvAt(i)
  }

  lemma SlicesCountDown()
    ensures CountsDown(PossibleIVs) && CountsDown(RaidIVs)
  {
  }

  /** The loop nest shared by getIV, GetRaidCPChart and GetRaidIV: every candidate level,
      then attack, defense and stamina over the slice, appending what the search's loop body
      appends. The result is the specification's AllRows. */
  method CollectRows(f: CPFormula, p: Pokemon, q: Search, levels: seq<real>, ivs: seq<int>)
    returns (ivList: seq<IvStat>)
    requires CountsDown(ivs)
    ensures ivList == AllRows(KeepOf(f, p, q), RowOf(f, p, q), levels, |ivs|)
  {
    ghost var w := |ivs|;
    ghost var keep, row := KeepOf(f, p, q), RowOf(f, p, q);
    ivList := [];
    for li := 0 to |levels|
      invariant ivList == Rows(keep, row, levels, w, li, 0, 0, 0)
    {
      var l := levels[li];
      for ai := 0 to |ivs|
        invariant ivList == Rows(keep, row, levels, w, li, ai, 0, 0)
      {
        var a := ivs[ai];
        for di := 0 to |ivs|
          invariant ivList == Rows(keep, row, levels, w, li, ai, di, 0)
        {
          var d := ivs[di];
          for si := 0 to |ivs|
            invariant ivList == Rows(keep, row, levels, w, li, ai, di, si)
          {
            var s := ivs[si];
            var add, stat := Visit(f, p, q, l, a, d, s);
            RowsInner(keep, row, levels, w, li, ai, di, si);
            if add {
              ivList := ivList + [stat];
            }
          }
          RowsCarry(keep, row, levels, w, li, ai, di);
        }
      }
    }
  }

  /** The body of the innermost loop for the search `q`, statement by statement: whether
      the tuple is appended, and the row appended. */
  method Visit(f: CPFormula, p: Pokemon, q: Search, l: real, a: int, d: int, s: int)
    returns (add: bool, stat: IvStat)
    ensures add == Keep(f, p, q, l, a, d, s)
    ensures add ==> stat == Row(f, p, q, l, a, d, s)
  {
    add, stat := false, IvStat(0, 0, 0, 0, 0, 0, 0, 0, 0.0, "");
    match q {
      case IvSearch(cp, best) =>
        var calccp := GetCP(f, p, l, a, d, s);
        if best != "" {
          var highest := Max3(a, d, s);
          var beststr := "";
          if a == highest { beststr := beststr + "a"; }
          if d == highest { beststr := beststr + "d"; }
          if s == highest { beststr := beststr + "s"; }
          if beststr != best {
            return;
          }
        }
        if cp == calccp {
          var perc := Round(((a + d + s) * 100) as real / 45.0);
          add, stat := true, IvStat(0, a, d, s, perc, 0, 0, 0, l, "");
        }
      case RaidChart =>
        var percent := Round(((a + d + s) * 100) as real / 45.0);
        if percent < 90 {
          return;
        }
        var cp20 := GetCP(f, p, 20.0, a, d, s);
        var cp25 := GetCP(f, p, 25.0, a, d, s);
        add, stat := true, IvStat(0, a, d, s, percent, 0, cp20, cp25, l, "");
      case RaidIvSearch(raidcp) =>
        var cp20 := GetCP(f, p, 20.0, a, d, s);
        var cp25 := GetCP(f, p, 25.0, a, d, s);
        if raidcp == cp20 || raidcp == cp25 {
          var perc := Round(((a + d + s) * 100) as real / 45.0);
          add, stat := true, IvStat(0, a, d, s, perc, 0, 0, 0, l, "");
        }
    }
  }

  // ---------------------------------------------------------------------------------
  // Candidate levels

  /** `for k := range NewMultiplierMap`: every key of the level table once, in an order
      the map chooses. */
  method MultiplierKeys() returns (keys: seq<real>)
    ensures DistinctLevels(keys)
    ensures forall x :: x in keys <==> IsHalfLevel(x)
  {
    AllLevelsAreTheKeys();
    keys := [];
    var todo: set<real> := set x | x in AllLevels;
    while todo != {}
      invariant forall x :: x in keys || x in todo <==> x in AllLevels
      invariant forall x :: x in keys ==> x !in todo
      invariant DistinctLevels(keys)
      decreases todo
    {
      var k :| k in todo;
      keys := keys + [k];
      todo := todo - {k};
    }
    forall x | IsHalfLevel(x) ensures x in keys {
      assert NewMultiplierMap(x).Some?;
    }
    forall x | x in keys ensures IsHalfLevel(x) {
      assert NewMultiplierMap(x).Some?;
    }
  }

  /** The levels getIV tries for a request: the given level when it is not 0, otherwise
      the band of a known stardust cost, otherwise every level of the table. */
  predicate IsCandidate(level: real, stardust: int, l: real)
  {
    if level != 0.0 then l == level
    else if stardust != 0 && StardustMap(stardust).Some? then l in StardustMap(stardust).value
    else IsHalfLevel(l)
  }

  /** The level choice at the top of getIV. */
  method PossibleLevels(level: real, stardust: int) returns (levels: seq<real>)
    ensures DistinctLevels(levels)
    ensures forall l :: l in levels <==> IsCandidate(level, stardust, l)
    ensures level != 0.0 ==> levels == [level]
    ensures level == 0.0 && stardust != 0 && StardustMap(stardust).Some? ==> levels == StardustMap(stardust).value
  {
    if level != 0.0 {
      levels := [level];
    } else if stardust != 0 {
      match StardustMap(stardust) {
        case Some(band) =>
          StardustBandIncreasing(stardust);
          levels := band;
        case None =>
          levels := MultiplierKeys();
      }
    } else {
      levels := MultiplierKeys();
    }
  }

  /** Without a level, every candidate level is a key of the level table; with a known
      stardust cost, it is a level whose power-up costs exactly that much. */
  lemma CandidatesAreTableLevels(level: real, stardust: int, l: real)
    requires level == 0.0 && IsCandidate(level, stardust, l)
    ensures NewMultiplierMap(l).Some?
    ensures stardust != 0 && StardustMap(stardust).Some? ==> StardustForLevel(l) == stardust
  {
    if stardust != 0 && StardustMap(stardust).Some? {
      StardustBandLevels(stardust, l);
    }
  }

  // ---------------------------------------------------------------------------------
  // Sorting and printing the rows

  /** SortChart on a slice: the rows copied into an array, sorted in place, read back. */
  method SortRows(xs: seq<IvStat>) returns (r: seq<IvStat>)
    ensures Sorted(r) && multiset(r) == multiset(xs)
  {
    var a := new IvStat[|xs|](i requires 0 <= i < |xs| => xs[i]);
    assert a[..] == xs;
    SortChart(a);
    r := a[..];
  }

  /** The chart lines of the rows, one per row and in order, each printed by `line`
      (PrintIVRow or PrintChartRow). */
  function Lines(line: IvStat -> string, xs: seq<IvStat>): (r: seq<string>)
    ensures |r| == |xs|
  {
    if |xs| == 0 then [] else Lines(line, xs[..|xs| - 1]) + [line(xs[|xs| - 1])]
  }

  /** Each line prints the row at the same position. */
  lemma {:induction false} LinesAt(line: IvStat -> string, xs: seq<IvStat>, i: int)
    requires 0 <= i < |xs|
    ensures Lines(line, xs)[i] == line(xs[i])
  {
    if i < |xs| - 1 {
      LinesAt(line, xs[..|xs| - 1], i);
    }
  }

  /** PrintIVRow as a function of the row alone. */
  function IvLine(levelText: real -> string): IvStat -> string
  {
    s => PrintIVRow(levelText, s)
  }

  /** The loop `for _, s := range ivList { chart = append(chart, s.PrintIVRow()) }`, and
      the same loop over PrintChartRow. */
  method PrintRows(line: IvStat -> string, xs: seq<IvStat>) returns (chart: seq<string>)
    ensures chart == Lines(line, xs)
  {
    chart := [];
    for i := 0 to |xs|
      invariant chart == Lines(line, xs[..i])
    {
      assert xs[..i + 1][..i] == xs[..i];
      chart := chart + [line(xs[i])];
    }
    assert xs[..|xs|] == xs;
  }

  // ---------------------------------------------------------------------------------
  // getIV

  /** The first line of an IV chart. */
  function IvHeader(name: string, cp: int): string
  {
    "Possible IVs for **" + name + "** with CP of **" + StrConv.Itoa(cp) + "**:\n"
  }

  const OverflowNote: string := "\nFull Chart too long to display, refine results by adding more info if possible :("

  /** The rows getIV prints: the first 50. */
  function Shown(all: seq<IvStat>): (r: seq<IvStat>)
    ensures |r| == if |all| > 50 then 50 else |all|
    ensures r == all[..|r|]
  {
    if |all| > 50 then all[..50] else all
  }

  /** The message of getIV for the sorted rows `all`. */
  function IvChart(levelText: real -> string, name: string, cp: int, all: seq<IvStat>): string
  {
    if |all| == 0 then ""
    else IvHeader(name, cp) + Text.Join(Lines(IvLine(levelText), Shown(all)), "\n") + (if |all| > 50 then OverflowNote else "")
  }

  /** A row getIV reports for a request: a candidate level, IVs in 0..15, the appraisal
      filter passed, the requested CP, and the row as the loop builds it (with the rounded
      percentage and no raid CPs). */
  predicate IvMatch(f: CPFormula, p: Pokemon, cp: int, level: real, stardust: int, best: string, x: IvStat)
  {
    IsCandidate(level, stardust, x.level)
    && 0 <= x.attack <= 15 && 0 <= x.defense <= 15 && 0 <= x.stamina <= 15
    && PassesBest(best, x.attack, x.defense, x.stamina)
    && GetCP(f, p, x.level, x.attack, x.defense, x.stamina) == cp
    && x == IvStat(0, x.attack, x.defense, x.stamina, QualityPercent(x.attack, x.defense, x.stamina), 0, 0, 0, x.level, "")
  }

  /** The multiset of a row list without repeated tuples holds each row at most once. */
  lemma {:induction false} DistinctCounts(xs: seq<IvStat>)
    requires DistinctTuples(xs)
    ensures forall x :: multiset(xs)[x] <= 1
  {
    if |xs| > 0 {
      var init := xs[..|xs| - 1];
      assert DistinctTuples(init) by {
        forall i, j | 0 <= i < j < |init| ensures Key(init[i]) != Key(init[j]) {
          assert init[i] == xs[i] && init[j] == xs[j];
        }
      }
      DistinctCounts(init);
      assert xs == init + [xs[|xs| - 1]];
      assert xs[|xs| - 1] !in init by {
        forall i | 0 <= i < |init| ensures init[i] != xs[|xs| - 1] {
          assert init[i] == xs[i];
        }
      }
    }
  }

  /** A row the nest builds: a kept tuple at a listed level with IVs among the visited values. */
  predicate InNest(keep: KeepFn, row: RowFn, levels: seq<real>, w: int, x: IvStat)
  {
    x.level in levels && InRange(w, x.attack) && InRange(w, x.defense) && InRange(w, x.stamina)
    && Generated(keep, row, x)
  }

  /** The rows of the whole nest, counted: each kept tuple at a candidate level with IVs
      among the visited values once, anything else never. */
  lemma AllRowsCount(keep: KeepFn, row: RowFn, levels: seq<real>, w: int, x: IvStat)
    requires RowShape(row) && w >= 1 && DistinctLevels(levels)
    ensures multiset(AllRows(keep, row, levels, w))[x] == if InNest(keep, row, levels, w, x) then 1 else 0
  {
    var rows := AllRows(keep, row, levels, w);
    RowsDistinct(keep, row, levels, w, |levels|, 0, 0, 0);
    DistinctCounts(rows);
    if x in rows {
      RowsSound(keep, row, levels, w, x);
    } else if InNest(keep, row, levels, w, x) {
      RowsComplete(keep, row, levels, w, x.level, x.attack, x.defense, x.stamina);
    }
  }

  /** The rows of the getIV loop nest are exactly the matching rows, each once. */
  lemma IvRowsExact(f: CPFormula, p: Pokemon, cp: int, level: real, stardust: int, best: string, levels: seq<real>)
    requires DistinctLevels(levels) && forall l :: l in levels <==> IsCandidate(level, stardust, l)
    ensures var rows := AllRows(KeepOf(f, p, IvSearch(cp, best)), RowOf(f, p, IvSearch(cp, best)), levels, 16);
      forall x :: multiset(rows)[x] == if IvMatch(f, p, cp, level, stardust, best, x) then 1 else 0
  {
    RowOfShape(f, p, IvSearch(cp, best));
    forall x {
      AllRowsCount(KeepOf(f, p, IvSearch(cp, best)), RowOf(f, p, IvSearch(cp, best)), levels, 16, x);
    }
  }

  /** getIV (and GetIV, which packs its arguments): the IV chart of the creature for a CP,
      a level or stardust cost, and an appraisal filter. `all` is the sorted list of every
      matching row, each exactly once; the message shows the first 50 of them. */
  method GetIV(f: CPFormula, levelText: real -> string, p: Pokemon, cp: int, level: real, stardust: int, best: string)
    returns (r: string, ghost all: seq<IvStat>)
    ensures forall x :: multiset(all)[x] == if IvMatch(f, p, cp, level, stardust, best, x) then 1 else 0
    ensures Sorted(all)
    ensures r == IvChart(levelText, p.name, cp, all)
  {
    var levels := PossibleLevels(level, stardust);
    var message := IvHeader(p.name, cp);
    SlicesCountDown();
    var ivList := CollectRows(f, p, IvSearch(cp, best), levels, PossibleIVs);
    IvRowsExact(f, p, cp, level, stardust, best, levels);
    if |ivList| == 0 {
      all := ivList;
      r := "";
      return;
    }
    var afterMessage := "";
    ivList := SortRows(ivList);
    all := ivList;
    if |ivList| > 50 {
      ivList := ivList[..50];
      afterMessage := OverflowNote;
    }
    var chart := PrintRows(IvLine(levelText), ivList);
    r := message + Text.Join(chart, "\n") + afterMessage;
  }

  /** A message GetIV can return: the chart of a sorted list holding each matching row
      exactly once (by GetIVDeterministic there is only one such list). */
  ghost predicate IvMessage(f: CPFormula, levelText: real -> string, p: Pokemon, cp: int, level: real, stardust: int,
                            best: string, r: string)
  {
    exists all: seq<IvStat> :: (forall x :: multiset(all)[x] == if IvMatch(f, p, cp, level, stardust, best, x) then 1 else 0)
      && Sorted(all) && r == IvChart(levelText, p.name, cp, all)
  }

  /** The matching rows have distinct sort keys, so the sorted list, and with it the
      message, is determined by the request: neither the order in which Go ranges over the
      level table nor the sorting algorithm changes the output. */
  lemma GetIVDeterministic(f: CPFormula, p: Pokemon, cp: int, level: real, stardust: int, best: string,
                           xs: seq<IvStat>, ys: seq<IvStat>)
    requires forall x :: multiset(xs)[x] == if IvMatch(f, p, cp, level, stardust, best, x) then 1 else 0
    requires forall x :: multiset(ys)[x] == if IvMatch(f, p, cp, level, stardust, best, x) then 1 else 0
    requires Sorted(xs) && Sorted(ys)
    ensures xs == ys
  {
    assert multiset(xs) == multiset(ys);
    forall i, j | 0 <= i < |xs| && 0 <= j < |xs| && SameKey(xs[i], xs[j]) ensures xs[i] == xs[j] {
      assert xs[i] in multiset(xs) && xs[j] in multiset(xs);
    }
    SortedUnique(xs, ys);
  }

  /** The message is empty exactly when nothing matches. With more than 50 matches it shows
      exactly the first 50 sorted rows and ends with the overflow note; otherwise it shows
      every row. */
  lemma IvChartShape(levelText: real -> string, name: string, cp: int, all: seq<IvStat>)
    ensures IvChart(levelText, name, cp, all) == "" <==> |all| == 0
    ensures |all| > 50 ==> (Shown(all) == all[..50]
      && IvChart(levelText, name, cp, all) == IvHeader(name, cp) + Text.Join(Lines(IvLine(levelText), all[..50]), "\n") + OverflowNote)
    ensures 0 < |all| <= 50 ==> IvChart(levelText, name, cp, all) == IvHeader(name, cp) + Text.Join(Lines(IvLine(levelText), all), "\n")
  {
  }

  /** The CP of a triple at a level, asked back with that level (and no filter, or the
      triple's own appraisal), lists the triple, so the chart is not empty. */
  lemma GetIVRoundTrip(f: CPFormula, levelText: real -> string, p: Pokemon, l: real, a: int, d: int, s: int,
                       stardust: int, best: string, all: seq<IvStat>)
    requires l != 0.0 && 0 <= a <= 15 && 0 <= d <= 15 && 0 <= s <= 15
    requires best == "" || best == BestString(a, d, s)
    requires forall x :: multiset(all)[x] == if IvMatch(f, p, GetCP(f, p, l, a, d, s), l, stardust, best, x) then 1 else 0
    ensures IvStat(0, a, d, s, QualityPercent(a, d, s), 0, 0, 0, l, "") in all
    ensures IvChart(levelText, p.name, GetCP(f, p, l, a, d, s), all) != ""
  {
    var x := IvStat(0, a, d, s, QualityPercent(a, d, s), 0, 0, 0, l, "");
    assert IvMatch(f, p, GetCP(f, p, l, a, d, s), l, stardust, best, x);
    assert multiset(all)[x] == 1;
  }

  /** Truncation keeps the best rows: when no two rows agree on every sort key, each shown
      row goes strictly before each hidden one. Rows of getIV have no raid CPs, so their
      order is by level, then percentage, attack, defense and stamina, all descending. */
  lemma ShownBeforeHidden(all: seq<IvStat>)
    requires Sorted(all)
    requires forall i, j :: 0 <= i < j < |all| ==> !SameKey(all[i], all[j])
    ensures forall i, j :: 0 <= i < |Shown(all)| <= j < |all| ==> Precedes(all[i], all[j])
  {
    forall i, j | 0 <= i < |Shown(all)| <= j < |all| ensures Precedes(all[i], all[j]) {
      PrecedesTrichotomy(all[i], all[j]);
    }
  }

  lemma IvRowOrder(x: IvStat, y: IvStat)
    requires x.cp20 == 0 && x.cp25 == 0 && y.cp20 == 0 && y.cp25 == 0
    ensures Precedes(x, y) <==>
      x.level > y.level || (x.level == y.level && (x.percent > y.percent || (x.percent == y.percent &&
      (x.attack > y.attack || (x.attack == y.attack && (x.defense > y.defense || (x.defense == y.defense && x.stamina > y.stamina)))))))
  {
  }

  // ---------------------------------------------------------------------------------
  // The raid searches

  /** The three header lines of the raid CP chart. */
  function RaidChartHeader(name: string): string
  {
    "CP Chart for **" + name + "**:\n" + "`|  %  | Ak | Df | St |  20  |  25  |`\n" + "`|----------------------------------|`\n"
  }

  /** A row of the raid CP chart: a triple in 10..15 rated at least 90%, with its CPs at
      levels 20 and 25 and the level left at 0. */
  predicate RaidChartMatch(f: CPFormula, p: Pokemon, x: IvStat)
  {
    10 <= x.attack <= 15 && 10 <= x.defense <= 15 && 10 <= x.stamina <= 15
    && QualityPercent(x.attack, x.defense, x.stamina) >= 90
    && x == IvStat(0, x.attack, x.defense, x.stamina, QualityPercent(x.attack, x.defense, x.stamina), 0,
                   GetCP(f, p, 20.0, x.attack, x.defense, x.stamina), GetCP(f, p, 25.0, x.attack, x.defense, x.stamina), 0.0, "")
  }

  /** The rows of the raid chart loop nest are exactly the matching rows, each once. */
  lemma RaidChartRowsExact(f: CPFormula, p: Pokemon)
    ensures var rows := AllRows(KeepOf(f, p, RaidChart), RowOf(f, p, RaidChart), [0.0], 6);
      forall x :: multiset(rows)[x] == if RaidChartMatch(f, p, x) then 1 else 0
  {
    var keep, row := KeepOf(f, p, RaidChart), RowOf(f, p, RaidChart);
    RowOfShape(f, p, RaidChart);
    forall x ensures multiset(AllRows(keep, row, [0.0], 6))[x] == if RaidChartMatch(f, p, x) then 1 else 0 {
      AllRowsCount(keep, row, [0.0], 6, x);
      RaidChartNest(f, p, x);
    }
  }

  lemma RaidChartNest(f: CPFormula, p: Pokemon, x: IvStat)
    ensures InNest(KeepOf(f, p, RaidChart), RowOf(f, p, RaidChart), [0.0], 6, x) <==> RaidChartMatch(f, p, x)
  {
    var keep, row := KeepOf(f, p, RaidChart), RowOf(f, p, RaidChart);
    assert keep(x.level, x.attack, x.defense, x.stamina) == Keep(f, p, RaidChart, x.level, x.attack, x.defense, x.stamina);
    assert row(x.level, x.attack, x.defense, x.stamina) == Row(f, p, RaidChart, x.level, x.attack, x.defense, x.stamina);
  }

  /** GetRaidCPChart: the header and one line per raid triple rated at least 90%, sorted;
      `all` holds each such row exactly once. */
  method GetRaidCPChart(f: CPFormula, p: Pokemon) returns (r: string, ghost all: seq<IvStat>)
    ensures forall x :: multiset(all)[x] == if RaidChartMatch(f, p, x) then 1 else 0
    ensures Sorted(all)
    ensures r == RaidChartHeader(p.name) + Text.Join(Lines(PrintChartRow, all), "\n")
  {
    var str := "CP Chart for **" + p.name + "**:\n";
    str := str + "`|  %  | Ak | Df | St |  20  |  25  |`\n";
    str := str + "`|----------------------------------|`\n";
    SlicesCountDown();
    var ivs := CollectRows(f, p, RaidChart, [0.0], RaidIVs);
    RaidChartRowsExact(f, p);
    ivs := SortRows(ivs);
    all := ivs;
    var chart := PrintRows(PrintChartRow, ivs);
    r := str + Text.Join(chart, "\n");
  }

  /** The raid chart holds exactly the triples in 10..15 whose IVs sum to at least 41. */
  lemma RaidChartTriples(f: CPFormula, p: Pokemon, a: int, d: int, s: int)
    requires 10 <= a <= 15 && 10 <= d <= 15 && 10 <= s <= 15
    ensures QualityPercent(a, d, s) >= 90 <==> a + d + s >= 41
  {
    QualityPercentClosedForm(a, d, s);
  }

  /** A row of GetRaidIV: a triple in 10..15 whose CP at level 20 or at level 25 is the
      raid CP, with the level left at 0. */
  predicate RaidIvMatch(f: CPFormula, p: Pokemon, raidcp: int, x: IvStat)
  {
    10 <= x.attack <= 15 && 10 <= x.defense <= 15 && 10 <= x.stamina <= 15
    && (raidcp == GetCP(f, p, 20.0, x.attack, x.defense, x.stamina) || raidcp == GetCP(f, p, 25.0, x.attack, x.defense, x.stamina))
    && x == IvStat(0, x.attack, x.defense, x.stamina, QualityPercent(x.attack, x.defense, x.stamina), 0, 0, 0, 0.0, "")
  }

  /** The rows of the GetRaidIV loop nest are exactly the matching rows, each once. */
  lemma RaidIvRowsExact(f: CPFormula, p: Pokemon, raidcp: int)
    ensures var rows := AllRows(KeepOf(f, p, RaidIvSearch(raidcp)), RowOf(f, p, RaidIvSearch(raidcp)), [0.0], 6);
      forall x :: multiset(rows)[x] == if RaidIvMatch(f, p, raidcp, x) then 1 else 0
  {
    var keep, row := KeepOf(f, p, RaidIvSearch(raidcp)), RowOf(f, p, RaidIvSearch(raidcp));
    RowOfShape(f, p, RaidIvSearch(raidcp));
    forall x ensures multiset(AllRows(keep, row, [0.0], 6))[x] == if RaidIvMatch(f, p, raidcp, x) then 1 else 0 {
      AllRowsCount(keep, row, [0.0], 6, x);
      RaidIvNest(f, p, raidcp, x);
    }
  }

  lemma RaidIvNest(f: CPFormula, p: Pokemon, raidcp: int, x: IvStat)
    ensures InNest(KeepOf(f, p, RaidIvSearch(raidcp)), RowOf(f, p, RaidIvSearch(raidcp)), [0.0], 6, x) <==> RaidIvMatch(f, p, raidcp, x)
  {
    var keep, row := KeepOf(f, p, RaidIvSearch(raidcp)), RowOf(f, p, RaidIvSearch(raidcp));
    assert keep(x.level, x.attack, x.defense, x.stamina) == Keep(f, p, RaidIvSearch(raidcp), x.level, x.attack, x.defense, x.stamina);
    assert row(x.level, x.attack, x.defense, x.stamina) == Row(f, p, RaidIvSearch(raidcp), x.level, x.attack, x.defense, x.stamina);
  }

  /** The message of GetRaidIV for the sorted rows `all`. */
  function RaidIvChart(levelText: real -> string, name: string, raidcp: int, all: seq<IvStat>): (r: string)
    ensures r == "" <==> |all| == 0
  {
    if |all| == 0 then "" else IvHeader(name, raidcp) + Text.Join(Lines(IvLine(levelText), all), "\n")
  }

  /** GetRaidIV: every raid triple matching the raid CP at level 20 or 25, once each even
      when both levels match, sorted and printed in full; nothing matching gives "". */
  method GetRaidIV(f: CPFormula, levelText: real -> string, p: Pokemon, raidcp: int) returns (r: string, ghost all: seq<IvStat>)
    ensures forall x :: multiset(all)[x] == if RaidIvMatch(f, p, raidcp, x) then 1 else 0
    ensures Sorted(all)
    ensures r == RaidIvChart(levelText, p.name, raidcp, all)
  {
    var message := IvHeader(p.name, raidcp);
    SlicesCountDown();
    var ivList := CollectRows(f, p, RaidIvSearch(raidcp), [0.0], RaidIVs);
    RaidIvRowsExact(f, p, raidcp);
    if |ivList| == 0 {
      all := ivList;
      r := "";
      return;
    }
    ivList := SortRows(ivList);
    all := ivList;
    var chart := PrintRows(IvLine(levelText), ivList);
    r := message + Text.Join(chart, "\n");
  }

  // ---------------------------------------------------------------------------------
  // Type relations of a creature

  /** One multiplication pass of GetTypeRelations: every key of `sc` is multiplied into
      the relation, starting from 1 when it is new; other keys keep their value. */
  function MulInto(rel: map<string, real>, sc: map<string, real>): map<string, real>
  {
    map k | k in rel.Keys + sc.Keys :: if k in sc then (if k in rel then rel[k] else 1.0) * sc[k] else rel[k]
  }

  /** The relation after multiplying in each map of `ms` in turn, from an empty map. */
  function Product(ms: seq<map<string, real>>): map<string, real>
  {
    if |ms| == 0 then map[] else MulInto(Product(ms[..|ms| - 1]), ms[|ms| - 1])
  }

  /** The reference value: the product over all maps of the scalar each gives the key,
      a map without the key counting as neutral (1). */
  function ScalarProduct(ms: seq<map<string, real>>, k: string): real
  {
    if |ms| == 0 then 1.0
    else ScalarProduct(ms[..|ms| - 1], k) * (if k in ms[|ms| - 1] then ms[|ms| - 1][k] else 1.0)
  }

  /** The product holds exactly the keys of some map, each with the product of the
      scalars given to it; a key no map holds has the neutral product 1. */
  lemma {:induction false} ProductAt(ms: seq<map<string, real>>, k: string)
    ensures k in Product(ms) <==> exists i :: 0 <= i < |ms| && k in ms[i]
    ensures k in Product(ms) ==> Product(ms)[k] == ScalarProduct(ms, k)
    ensures k !in Product(ms) ==> ScalarProduct(ms, k) == 1.0
  {
    if |ms| > 0 {
      var init := ms[..|ms| - 1];
      ProductAt(init, k);
      if k in Product(init) {
        var i :| 0 <= i < |init| && k in init[i];
        assert k in ms[i];
      }
      if exists i :: 0 <= i < |ms| && k in ms[i] {
        var i :| 0 <= i < |ms| && k in ms[i];
        if i < |ms| - 1 {
          assert k in init[i];
        }
      }
    }
  }

  /** With one type the relation is that type's map unchanged. */
  lemma ProductSingle(m: map<string, real>)
    ensures Product([m]) == m
  {
    assert [m][..0] == [];
    assert Product([m]) == MulInto(map[], m);
  }

  /** Multiplying in one more map. */
  lemma ProductSnoc(ms: seq<map<string, real>>, m: map<string, real>)
    ensures Product(ms + [m]) == MulInto(Product(ms), m)
  {
    assert (ms + [m])[..|ms|] == ms;
  }

  /** The attack map GetAttackTypeScalars gives an ID: empty when the ID is unknown. */
  function AttackMap(table: Types.TypeTable, id: string): map<string, real>
  {
    if id in table then Types.AttackScalarsOf(table, table[id].damage) else map[]
  }

  /** The attack maps of a type list, one per type. */
  function AttackMaps(table: Types.TypeTable, types: Types.TypeList): (r: seq<map<string, real>>)
    ensures |r| == |types|
  {
    if |types| == 0 then [] else AttackMaps(table, types[..|types| - 1]) + [AttackMap(table, types[|types| - 1].id)]
  }

  lemma AttackMapsSnoc(table: Types.TypeTable, types: Types.TypeList, i: int)
    requires 0 <= i < |types|
    ensures AttackMaps(table, types[..i + 1]) == AttackMaps(table, types[..i]) + [AttackMap(table, types[i].id)]
  {
    assert types[..i + 1][..i] == types[..i];
  }

  /** `ds` holds one possible defense map per type. */
  ghost predicate DefenseMaps(table: Types.TypeTable, types: Types.TypeList, ds: seq<map<string, real>>)
  {
    |ds| == |types| && forall i :: 0 <= i < |types| ==> Types.DefenseUsed(table, types[i].id, ds[i])
  }

  lemma DefenseMapsSnoc(table: Types.TypeTable, types: Types.TypeList, i: int, ds: seq<map<string, real>>, m: map<string, real>)
    requires 0 <= i < |types| && DefenseMaps(table, types[..i], ds) && Types.DefenseUsed(table, types[i].id, m)
    ensures DefenseMaps(table, types[..i + 1], ds + [m])
  {
  }

  /** The relations GetTypeRelations may return: attack is the product of the attack maps;
      defense the product of one possible defense map per type. */
  ghost predicate Relations(table: Types.TypeTable, types: Types.TypeList, attack: map<string, real>, defense: map<string, real>)
  {
    attack == Product(AttackMaps(table, types))
    && exists ds :: DefenseMaps(table, types, ds) && defense == Product(ds)
  }

  /** One multiplication pass, ranging over the scalars in an order of the method's
      choosing. */
  method Multiply(rel: map<string, real>, sc: map<string, real>) returns (r: map<string, real>)
    ensures r == MulInto(rel, sc)
  {
    r := rel;
    var todo := sc.Keys;
    while todo != {}
      invariant todo <= sc.Keys
      invariant r.Keys == rel.Keys + (sc.Keys - todo)
      invariant forall k :: k in r ==> r[k] == if k in sc && k !in todo then (if k in rel then rel[k] else 1.0) * sc[k] else rel[k]
      decreases todo
    {
      var k :| k in todo;
      if k !in r {
        r := r[k := 1.0];
      }
      r := r[k := r[k] * sc[k]];
      todo := todo - {k};
    }
    assert r.Keys == MulInto(rel, sc).Keys;
    assert forall k :: k in r ==> r[k] == MulInto(rel, sc)[k];
  }

  /** GetTypeRelations: the attack and defense relations of a creature, multiplying the
      scalars of each of its types. */
  method GetTypeRelations(table: Types.TypeTable, types: Types.TypeList) returns (attack: map<string, real>, defense: map<string, real>)
    ensures Relations(table, types, attack, defense)
  {
    attack, defense := map[], map[];
    ghost var ds: seq<map<string, real>> := [];
    for i := 0 to |types|
      invariant attack == Product(AttackMaps(table, types[..i]))
      invariant defense == Product(ds) && DefenseMaps(table, types[..i], ds)
    {
      ghost var dm;
      AttackMapsSnoc(table, types, i);
      ProductSnoc(AttackMaps(table, types[..i]), AttackMap(table, types[i].id));
      attack, defense, dm := MultiplyType(table, types[i], attack, defense);
      DefenseMapsSnoc(table, types, i, ds, dm);
      ProductSnoc(ds, dm);
      ds := ds + [dm];
    }
    assert types[..|types|] == types;
    assert DefenseMaps(table, types, ds) && defense == Product(ds);
  }

  /** One iteration of GetTypeRelations: the type's attack scalars and its defense
      scalars (none for an unknown ID) multiplied in; `dm` is the defense map used. */
  method MultiplyType(table: Types.TypeTable, t: Types.PokemonType, attack: map<string, real>, defense: map<string, real>)
    returns (attack': map<string, real>, defense': map<string, real>, ghost dm: map<string, real>)
    ensures attack' == MulInto(attack, AttackMap(table, t.id))
    ensures Types.DefenseUsed(table, t.id, dm) && defense' == MulInto(defense, dm)
  {
    var attackScalars := Types.GetAttackTypeScalars(table, t.id);
    attack' := Multiply(attack, attackScalars);
    var d := Types.GetDefenseTypeScalars(table, t.id);
    var defenseScalars := if d.Some? then d.value else map[];
    defense' := Multiply(defense, defenseScalars);
    dm := defenseScalars;
  }

  /** The title line of a creature's type chart. */
  function TypeChartTitle(name: string, types: Types.TypeList): string
  {
    "Type Effects for **" + name + "** (" + Text.Join(Types.Names(types), ", ") + "):\n"
  }

  /** Pokemon.PrintTypeChart: the chart of the creature's combined type relations. */
  method PrintTypeChart(table: Types.TypeTable, p: Pokemon) returns (msg: string)
    ensures exists attack, defense, ka, kd :: (Relations(table, p.types, attack, defense)
      && Types.IsRangeOrder(attack, ka) && Types.IsRangeOrder(defense, kd)
      && msg == Types.ChartText(TypeChartTitle(p.name, p.types), attack, ka, defense, kd))
  {
    var attack, defense := GetTypeRelations(table, p.types);
    var typeText := Types.PrintTypeList(p.types);
    var title := "Type Effects for **" + p.name + "** (" + typeText + "):\n";
    assert title == TypeChartTitle(p.name, p.types);
    msg := Types.PrintChart(title, attack, defense);
    ghost var ka, kd :| Types.IsRangeOrder(attack, ka) && Types.IsRangeOrder(defense, kd)
      && msg == Types.ChartText(title, attack, ka, defense, kd);
    assert Relations(table, p.types, attack, defense);
  }

  /** A single-type creature's chart uses exactly its type's attack map. */
  lemma SingleTypeAttack(table: Types.TypeTable, t: Types.PokemonType)
    requires t.id in table
    ensures Product(AttackMaps(table, [t])) == Types.AttackScalarsOf(table, table[t.id].damage)
  {
    assert [t][..0] == [];
    ProductSingle(AttackMap(table, t.id));
  }
}
