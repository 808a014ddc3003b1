/** The move lists of pokemon/move.go and how they print. */
module Moves {
  import opened Wrappers
  import Text

  datatype PokemonMove = PokemonMove(id: string, name: string)

  type MoveList = seq<PokemonMove>

  /** A creature's fast (quick) and charge (cinematic) moves. */
  datatype Moves = Moves(fast: MoveList, charge: MoveList)

  /** The printed form of one move name: the first "Fast" removed, then white space
      trimmed from both ends. */
  function ShortName(name: string): (r: string)
    ensures |r| <= |name|
    ensures r == [] || (!Text.IsSpace(r[0]) && !Text.IsSpace(r[|r| - 1]))
  {
    Text.TrimSpace(Text.ReplaceFirst(name, "Fast", ""))
  }

  /** The printed names of a move list, in order. */
  function ShortNames(ms: MoveList): (r: seq<string>)
    ensures |r| == |ms|
  {
    if |ms| == 0 then [] else ShortNames(ms[..|ms| - 1]) + [ShortName(ms[|ms| - 1].name)]
  }

  /** Each printed name is the short name of the move at the same position. */
  lemma {:induction false} ShortNamesAt(ms: MoveList, i: int)
    requires 0 <= i < |ms|
    ensures ShortNames(ms)[i] == ShortName(ms[i].name)
  {
    if i < |ms| - 1 {
      ShortNamesAt(ms[..|ms| - 1], i);
    }
  }

  /** MoveList.Print: the shortened names, one per move and in list order, separated
      by ", ". */
  method Print(ms: MoveList) returns (r: string)
    ensures r == Text.Join(ShortNames(ms), ", ")
  {
    var moves: seq<string> := [];
    for i := 0 to |ms|
      invariant moves == ShortNames(ms[..i])
    {
      var move := Text.TrimSpace(Text.ReplaceFirst(ms[i].name, "Fast", ""));
      assert ms[..i + 1][..i] == ms[..i];
      moves := moves + [move];
    }
    assert ms[..|ms|] == ms;
    r := Text.Join(moves, ", ");
  }

  /** An empty list prints as the empty string; a single move as its short name. */
  lemma PrintShort(ms: MoveList)
    ensures |ms| == 0 ==> Text.Join(ShortNames(ms), ", ") == ""
    ensures |ms| == 1 ==> Text.Join(ShortNames(ms), ", ") == ShortName(ms[0].name)
  {
  }

  /** A name without "Fast" and without white space at either end prints unchanged. */
  lemma ShortNamePlain(name: string)
    requires Text.Index(name, "Fast").None?
    requires name == [] || (!Text.IsSpace(name[0]) && !Text.IsSpace(name[|name| - 1]))
    ensures ShortName(name) == name
  {
    Text.TrimSpaceUnchanged(name);
  }

  /** Only the first "Fast" is removed: the text before it and everything after it,
      including any later "Fast", is kept (before trimming). */
  lemma ShortNameFirstOnly(name: string, i: nat)
    requires Text.Index(name, "Fast") == Some(i)
    ensures i + 4 <= |name| && name[i..i + 4] == "Fast"
    ensures ShortName(name) == Text.TrimSpace(name[..i] + name[i + 4..])
    ensures forall j: nat :: j < i ==> !Text.OccursAt(name, "Fast", j)
  {
    assert name[..i] + "" + name[i + 4..] == name[..i] + name[i + 4..];
  }

  /** The separator appears between each two pieces: the printed list is as long as the
      pieces plus two characters per gap. */
  lemma PrintLength(ms: MoveList)
    ensures |Text.Join(ShortNames(ms), ", ")| ==
      Text.SumLengths(ShortNames(ms)) + (if |ms| == 0 then 0 else 2 * (|ms| - 1))
  {
    Text.JoinLength(ShortNames(ms), ", ");
  }
}
