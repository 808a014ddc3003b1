/** The colour ramp of tables.go: the background colour of a row showing a percentage. */
module Tables {
  import StrConv

  /** An RGBA colour whose channels are Go uint8 values. */
  datatype RGBA = RGBA(r: int, g: int, b: int, a: int)

  predicate IsByte(v: int)
  {
    0 <= v < 256
  }

  /** Go's `/` on ints truncates toward zero; the divisor here is always 100. */
  function Quo100(n: int): (q: int)
    ensures n >= 0 ==> q == n / 100
    ensures n < 0 ==> q == -((-n) / 100)
  {
    if n >= 0 then n / 100 else -((-n) / 100)
  }

  /** Go's uint8(v) for an int: the low eight bits, two's complement. */
  function Uint8(v: int): (b: int)
    ensures IsByte(b) && (IsByte(v) ==> b == v)
  {
    v % 256
  }

  const Slope := 12
  const TopPercent := 95

  /** The green channel before conversion: the ramp, clamped to 255 from above except that
      beyond 95 it falls again by the slope per point, and clamped to 0 from below. */
  function Green(x: int): (g: int)
    ensures g <= 255
    ensures x <= TopPercent ==> g >= 0
  {
    var green := Slope * Quo100(x * 255) - 255 * (Slope - 2);
    if green > 255 && x > TopPercent then 255 + Slope * (TopPercent - x)
    else if green > 255 then 255
    else if green < 0 then 0
    else green
  }

  /** The red channel before conversion, clamped to 255 from above only. */
  function Red(x: int): (r: int)
    ensures r <= 255
    ensures x <= 100 ==> r >= 0
  {
    var red := Slope * Quo100((100 - x) * 255);
    if red > 255 then 255 else red
  }

  /** PercentColor: blue is 0, alpha 255, and red and green are the converted ramps. */
  function PercentColor(x: int): (c: RGBA)
    ensures c.b == 0 && c.a == 255 && IsByte(c.r) && IsByte(c.g)
    ensures c.r == Uint8(Red(x)) && c.g == Uint8(Green(x))
  {
    RGBA(Uint8(Red(x)), Uint8(Green(x)), Uint8(0), Uint8(255))
  }

  /** For a percentage the ramps stay within a byte, so the conversion never wraps. */
  lemma NoWrap(x: int)
    requires 0 <= x <= 100
    ensures IsByte(Red(x)) && IsByte(Green(x))
    ensures PercentColor(x) == RGBA(Red(x), Green(x), 0, 255)
  {
    assert 0 <= x * 255 <= 25500;
    assert 0 <= (100 - x) * 255 <= 25500;
  }

  /** Green is 0 exactly up to 83 percent. */
  lemma GreenZero(x: int)
    requires 0 <= x <= 100
    ensures PercentColor(x).g == 0 <==> x <= 83
  {
    NoWrap(x);
    if x <= 83 {
      assert x * 255 <= 83 * 255;
      assert Quo100(x * 255) <= 211;
    } else {
      assert x * 255 >= 84 * 255;
      assert Quo100(x * 255) >= 214;
    }
  }

  /** Red is full exactly up to 91 percent. */
  lemma RedFull(x: int)
    requires 0 <= x <= 100
    ensures PercentColor(x).r == 255 <==> x <= 91
  {
    NoWrap(x);
    if x <= 91 {
      assert (100 - x) * 255 >= 9 * 255;
      assert Quo100((100 - x) * 255) >= 22;
    } else {
      assert (100 - x) * 255 <= 8 * 255;
      assert Quo100((100 - x) * 255) <= 20;
    }
  }

  /** Green is full from 92 to 95 percent and falls by 12 per point above 95. */
  lemma GreenTop(x: int)
    requires 92 <= x <= 100
    ensures x <= TopPercent ==> PercentColor(x).g == 255
    ensures x > TopPercent ==> PercentColor(x).g == 255 - Slope * (x - TopPercent)
  {
    NoWrap(x);
    assert x * 255 >= 92 * 255;
    assert Quo100(x * 255) >= 234;
  }

  /** At 100 percent the colour is green 195 with no red. */
  lemma FullPercent()
    ensures PercentColor(100) == RGBA(0, 195, 0, 255)
  {
    NoWrap(100);
  }

  /** The rows of the colour test: every percentage from 100 down to 0, each shown as its
      number on its colour. */
  method TableColors() returns (rows: seq<(string, RGBA)>)
    ensures |rows| == 101
    ensures forall i :: 0 <= i < 101 ==> rows[i] == (StrConv.Itoa(100 - i), PercentColor(100 - i))
  {
    rows := [];
    var perc := 100;
    while perc >= 0
      invariant -1 <= perc <= 100 && |rows| == 100 - perc
      invariant forall i :: 0 <= i < |rows| ==> rows[i] == (StrConv.Itoa(100 - i), PercentColor(100 - i))
    {
      rows := rows + [(StrConv.Itoa(perc), PercentColor(perc))];
      perc := perc - 1;
    }
  }
}
