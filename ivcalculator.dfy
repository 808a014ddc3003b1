/** The interactive IV calculator of pokemon/ivcalculator.go: one calculation per user
    walks through a fixed sequence of statuses, asking for a creature, a CP and a level,
    and then posts the IV chart; a registry keyed by user ID holds the running ones. */
module IvCalculator {
  import opened Wrappers
  import opened CP
  import Text
  import StrConv
  import Pokemon

  // The statuses, numbered as Go's iota numbers them.
  const StatusStarting := 0
  const StatusExpectingPokemon := 1
  const StatusGotPokemon := 2
  const StatusExpectingCp := 3
  const StatusGotCp := 4
  const StatusExpectingLevel := 5
  const StatusCalculating := 6
  const StatusDone := 7

  /** The question AskQuestion sends before moving on from a status, if any. */
  function Question(status: int): (r: Option<string>)
    ensures r.Some? <==> status == StatusStarting || status == StatusGotPokemon || status == StatusGotCp
  {
    if status == StatusStarting then Some("Enter pokemon name.")
    else if status == StatusGotPokemon then Some("Enter CP.")
    else if status == StatusGotCp then Some("Enter level.")
    else None
  }

  /** The request a calculation builds up; the IV field holds Go's *ivStat (None is nil). */
  datatype Calc = Calc(status: int, pokemon: Option<Pokemon.Pokemon>, iv: Option<IvStat>)

  /** The zero ivStat, what `&ivStat{}` allocates. */
  const ZeroIv := IvStat(0, 0, 0, 0, 0, 0, 0, 0, 0.0, "")

  /** The tail of GetResponse: a calculation left in CALCULATING is calculated, which
      dereferences both the creature and the IV (None: the program fails on a nil one). */
  function Finish(c: Calc): (r: Option<Calc>)
  {
    if c.status != StatusCalculating then Some(c)
    else if c.pokemon.None? || c.iv.None? then None
    else Some(c.(status := StatusDone))
  }

  /** The switch of GetResponse on the request alone, as written: None when the program
      dereferences the nil IV. A known name (looked up lower-cased) sets the creature and
      moves from EXPECTING_POKEMON to EXPECTING_CP; an integer sets the IV's CP and moves to
      EXPECTING_LEVEL; a number sets the IV's level and moves to CALCULATING; anything else,
      and any other status, changes nothing. */
  function Answer(dex: map<string, Pokemon.Pokemon>, c: Calc, m: string): (r: Option<Calc>)
    ensures r.Some? ==> r.value.status >= c.status && (r.value.status == c.status ==> r.value == c)
    ensures r.None? ==> c.iv.None?
  {
    if c.status == StatusExpectingPokemon then
      var key := Text.ToLower(m);
      if key in dex then Some(Calc(StatusExpectingCp, Some(dex[key]), c.iv)) else Some(c)
    else if c.status == StatusExpectingCp then
      var cp := StrConv.Atoi(m);
      if cp.err.Some? then Some(c)
      else if c.iv.None? then None
      else Some(Calc(StatusExpectingLevel, c.pokemon, Some(c.iv.value.(cp := cp.value))))
    else if c.status == StatusExpectingLevel then
      var lvl := StrConv.ParseFloat(m);
      if lvl.err.Some? then Some(c)
      else if c.iv.None? then None
      else Some(Calc(StatusCalculating, c.pokemon, Some(c.iv.value.(level := lvl.value))))
    else Some(c)
  }

  /** GetResponse on the request alone: the switch, then the calculation if it left the
      request in CALCULATING. The status never decreases, and outside the three asking
      statuses and CALCULATING nothing changes. */
  function Respond(dex: map<string, Pokemon.Pokemon>, c: Calc, m: string): (r: Option<Calc>)
    ensures r.Some? ==> r.value.status >= c.status
    ensures c.status !in {StatusExpectingPokemon, StatusExpectingCp, StatusExpectingLevel, StatusCalculating} ==> r == Some(c)
    ensures r.Some? && r.value.status == c.status ==> r.value == c
  {
    match Answer(dex, c, m)
    case None => None
    case Some(c') => Finish(c')
  }

  /** What one answer does in each status. A known name sets the creature and moves to
      EXPECTING_CP; an integer is stored as the IV's CP and moves to EXPECTING_LEVEL; a
      number is stored as the IV's level and the calculation runs to DONE. An unknown name,
      a non-integer CP or an unparseable level leaves the request as it was. A nil IV, or a
      nil creature when the chart is computed, makes the program fail. */
  lemma RespondTransitions(dex: map<string, Pokemon.Pokemon>, c: Calc, m: string)
    ensures c.status == StatusExpectingPokemon && Text.ToLower(m) in dex ==>
      Respond(dex, c, m) == Some(Calc(StatusExpectingCp, Some(dex[Text.ToLower(m)]), c.iv))
    ensures c.status == StatusExpectingPokemon && Text.ToLower(m) !in dex ==> Respond(dex, c, m) == Some(c)
    ensures c.status == StatusExpectingCp && StrConv.Atoi(m).err.None? && c.iv.Some? ==>
      Respond(dex, c, m) == Some(Calc(StatusExpectingLevel, c.pokemon, Some(c.iv.value.(cp := StrConv.Atoi(m).value))))
    ensures c.status == StatusExpectingCp && StrConv.Atoi(m).err.None? && c.iv.None? ==> Respond(dex, c, m).None?
    ensures c.status == StatusExpectingCp && StrConv.Atoi(m).err.Some? ==> Respond(dex, c, m) == Some(c)
    ensures c.status == StatusExpectingLevel && StrConv.ParseFloat(m).err.None? && c.iv.Some? && c.pokemon.Some? ==>
      Respond(dex, c, m) == Some(Calc(StatusDone, c.pokemon, Some(c.iv.value.(level := StrConv.ParseFloat(m).value))))
    ensures c.status == StatusExpectingLevel && StrConv.ParseFloat(m).err.None? && (c.iv.None? || c.pokemon.None?) ==>
      Respond(dex, c, m).None?
    ensures c.status == StatusExpectingLevel && StrConv.ParseFloat(m).err.Some? ==> Respond(dex, c, m) == Some(c)
    ensures c.status == StatusCalculating ==>
      Respond(dex, c, m) == (if c.pokemon.Some? && c.iv.Some? then Some(c.(status := StatusDone)) else None)
  {
  }

  /** The request after a run of messages, or None once one of them fails. */
  function Run(dex: map<string, Pokemon.Pokemon>, c: Calc, msgs: seq<string>): Option<Calc>
  {
    if |msgs| == 0 then Some(c)
    else match Run(dex, c, msgs[..|msgs| - 1])
      case None => None
      case Some(c') => Respond(dex, c', msgs[|msgs| - 1])
  }

  /** The request right after Start as written: the IV was never allocated. */
  function StartAsWritten(): (c: Calc)
    ensures c.status == StatusExpectingPokemon && c.iv.None?
  {
    Calc(StatusStarting + 1, None, None)
  }

  /** The request right after Start when the IV is allocated along with the calculation. */
  function Started(): (c: Calc)
    ensures c.status == StatusExpectingPokemon && c.iv == Some(ZeroIv)
  {
    Calc(StatusStarting + 1, None, Some(ZeroIv))
  }

  /** As written, the first well-formed CP after a recognised name dereferences the nil IV. */
  lemma NilIvDereference(dex: map<string, Pokemon.Pokemon>, name: string, cp: string)
    requires Text.ToLower(name) in dex && StrConv.Atoi(cp).err.None?
    ensures Run(dex, StartAsWritten(), [name]) == Some(Calc(StatusExpectingCp, Some(dex[Text.ToLower(name)]), None))
    ensures Run(dex, StartAsWritten(), [name, cp]).None?
  {
    assert [name, cp][..1] == [name];
    assert [name][..0] == [];
  }

  /** A concrete instance: "Pikachu" then "100". */
  lemma NilIvDereferenceExample(dex: map<string, Pokemon.Pokemon>)
    requires "pikachu" in dex
    ensures Run(dex, StartAsWritten(), ["Pikachu", "100"]).None?
  {
    StrConv.AtoiItoa(100);
    assert StrConv.Itoa(100) == "100";
    var lower := Text.ToLower("Pikachu");
    assert lower[0] == 'p';
    assert lower == "pikachu";
    NilIvDereference(dex, "Pikachu", "100");
  }

  /** The requests a run from Started can reach: the IV is there, the status is one a
      message can find, and from EXPECTING_CP on the creature is known. */
  predicate Reachable(c: Calc)
  {
    c.iv.Some?
    && c.status in {StatusExpectingPokemon, StatusExpectingCp, StatusExpectingLevel, StatusDone}
    && (c.status != StatusExpectingPokemon ==> c.pokemon.Some?)
  }

  lemma RespondReachable(dex: map<string, Pokemon.Pokemon>, c: Calc, m: string)
    requires Reachable(c)
    ensures Respond(dex, c, m).Some? && Reachable(Respond(dex, c, m).value)
  {
  }

  /** With the IV allocated, no sequence of messages makes the calculation fail, and
      CALCULATING is never seen between messages. */
  lemma {:induction false} RunNeverFails(dex: map<string, Pokemon.Pokemon>, msgs: seq<string>)
    ensures Run(dex, Started(), msgs).Some? && Reachable(Run(dex, Started(), msgs).value)
  {
    if |msgs| > 0 {
      RunNeverFails(dex, msgs[..|msgs| - 1]);
      RespondReachable(dex, Run(dex, Started(), msgs[..|msgs| - 1]).value, msgs[|msgs| - 1]);
    }
  }

  /** A recognised name, an integer CP and a number for the level complete the
      calculation with exactly those inputs. */
  lemma RunToDone(dex: map<string, Pokemon.Pokemon>, name: string, cp: string, level: string)
    requires Text.ToLower(name) in dex && StrConv.Atoi(cp).err.None? && StrConv.ParseFloat(level).err.None?
    ensures Run(dex, Started(), [name, cp, level]) ==
      Some(Calc(StatusDone, Some(dex[Text.ToLower(name)]),
                Some(ZeroIv.(cp := StrConv.Atoi(cp).value, level := StrConv.ParseFloat(level).value))))
  {
    assert [name, cp, level][..2] == [name, cp];
    assert [name, cp][..1] == [name];
    assert [name][..0] == [];
    var p := dex[Text.ToLower(name)];
    var c1 := Calc(StatusExpectingCp, Some(p), Some(ZeroIv));
    assert Run(dex, Started(), [name]) == Some(c1);
    var c2 := Calc(StatusExpectingLevel, Some(p), Some(ZeroIv.(cp := StrConv.Atoi(cp).value)));
    assert Run(dex, Started(), [name, cp]) == Some(c2);
  }

  /** The text replies GetResponse posts before any chart: the next question, or the
      complaint about an unusable answer. */
  function Replies(dex: map<string, Pokemon.Pokemon>, c: Calc, m: string): (r: seq<string>)
    ensures |r| <= 1
    ensures c.status !in {StatusExpectingPokemon, StatusExpectingCp, StatusExpectingLevel} ==> r == []
  {
    if c.status == StatusExpectingPokemon then
      if Text.ToLower(m) in dex then [Question(StatusGotPokemon).value] else ["Unrecognized pokemon. Try again."]
    else if c.status == StatusExpectingCp then
      if StrConv.Atoi(m).err.None? then [Question(StatusGotCp).value] else ["CP must be an integer, got " + m + ". Try again."]
    else if c.status == StatusExpectingLevel then
      if StrConv.ParseFloat(m).err.None? then [] else ["Level must be an integer, got " + m + ". Try again."]
    else []
  }

  /** One running calculation (IVCalculation). The session, the user object and the
      input channel are reduced to the user's ID, the user's mention text and the list
      of messages posted. */
  class IvCalculation {
    const userId: string
    const mention: string
    const channelId: string
    var pokemon: Option<Pokemon.Pokemon>
    var iv: Option<IvStat>
    var status: int
    /** Every message posted to the channel, in order. */
    var sent: seq<string>

    function State(): Calc
      reads this
    {
      Calc(status, pokemon, iv)
    }

    /** The messages as posted: each prefixed with the user's mention. */
    function Said(ms: seq<string>): (r: seq<string>)
      ensures |r| == |ms| && forall i :: 0 <= i < |ms| ==> r[i] == mention + " " + ms[i]
    {
      if |ms| == 0 then [] else Said(ms[..|ms| - 1]) + [mention + " " + ms[|ms| - 1]]
    }

    /** The calculation Start builds, with the IV allocated. */
    constructor (userId: string, mention: string, channelId: string)
      ensures this.userId == userId && this.mention == mention && this.channelId == channelId
      ensures State() == Calc(StatusStarting, None, Some(ZeroIv)) && sent == []
    {
      this.userId := userId;
      this.mention := mention;
      this.channelId := channelId;
      pokemon := None;
      iv := Some(ZeroIv);
      status := StatusStarting;
      sent := [];
    }

    /** PrintToDiscord: posts the text after the user's mention. */
    method PrintToDiscord(m: string)
      modifies this
      ensures sent == old(sent) + Said([m])
      ensures State() == old(State())
    {
      sent := sent + [mention + " " + m];
    }

    /** AskQuestion: posts the question for the status, if any, and always moves the
        status on by one. */
    method AskQuestion()
      modifies this
      ensures status == old(status) + 1
      ensures pokemon == old(pokemon) && iv == old(iv)
      ensures sent == old(sent) + Said(if Question(old(status)).Some? then [Question(old(status)).value] else [])
    {
      var q := Question(status);
      if q.Some? {
        PrintToDiscord(q.value);
      }
      status := status + 1;
    }

    /** Calculate: posts the IV chart for the creature and IV and moves the status on. */
    method Calculate(f: CPFormula, levelText: real -> string)
      requires pokemon.Some? && iv.Some?
      modifies this
      ensures status == old(status) + 1 && pokemon == old(pokemon) && iv == old(iv)
      ensures exists msg :: (sent == old(sent) + Said([msg])
        && Pokemon.IvMessage(f, levelText, pokemon.value, iv.value.cp, iv.value.level, iv.value.stardust, iv.value.best, msg))
    {
      var p, stats := pokemon.value, iv.value;
      var msg, all := Pokemon.GetIV(f, levelText, p, stats.cp, stats.level, stats.stardust, stats.best);
      assert Pokemon.IvMessage(f, levelText, p, stats.cp, stats.level, stats.stardust, stats.best, msg);
      PrintToDiscord(msg);
      status := status + 1;
    }

    /** GetResponse: handles one answer; the request changes as Respond says, the replies
        are posted, and when the calculation completes the chart follows them. The
        precondition is the absence of a nil dereference, which the allocated IV gives
        (RunNeverFails). */
    method GetResponse(f: CPFormula, levelText: real -> string, dex: map<string, Pokemon.Pokemon>, m: string)
      requires Respond(dex, State(), m).Some?
      modifies this
      ensures State() == Respond(dex, old(State()), m).value
      ensures old(status) in {StatusExpectingLevel, StatusCalculating} && status == StatusDone ==>
        exists msg :: (sent == old(sent) + Said(Replies(dex, old(State()), m) + [msg])
          && Pokemon.IvMessage(f, levelText, pokemon.value, iv.value.cp, iv.value.level, iv.value.stardust, iv.value.best, msg))
      ensures !(old(status) in {StatusExpectingLevel, StatusCalculating} && status == StatusDone) ==>
        sent == old(sent) + Said(Replies(dex, old(State()), m))
    {
      if status == StatusExpectingPokemon {
        var key := Text.ToLower(m);
        if key in dex {
          pokemon := Some(dex[key]);
          status := status + 1;
          AskQuestion();
        } else {
          PrintToDiscord("Unrecognized pokemon. Try again.");
        }
      } else if status == StatusExpectingCp {
        var cp := StrConv.Atoi(m);
        if cp.err.None? {
          iv := Some(iv.value.(cp := cp.value));
          status := status + 1;
          AskQuestion();
        } else {
          PrintToDiscord("CP must be an integer, got " + m + ". Try again.");
        }
      } else if status == StatusExpectingLevel {
        var lvl := StrConv.ParseFloat(m);
        if lvl.err.None? {
          iv := Some(iv.value.(level := lvl.value));
          status := status + 1;
        } else {
          PrintToDiscord("Level must be an integer, got " + m + ". Try again.");
        }
      }
      assert Answer(dex, old(State()), m) == Some(State());
      if status == StatusCalculating {
        Calculate(f, levelText);
      }
    }
  }

  /** What the dispatcher did with an incoming message. */
  datatype Dispatched =
    | Launched(calculation: IvCalculation)
    | Restarted(calculation: IvCalculation)
    | Forwarded(calculation: IvCalculation, content: string)
    | Ignored

  /** The registry of running calculations (IVCalculator), keyed by user ID. */
  class IvCalculator {
    var running: map<string, IvCalculation>

    constructor ()
      ensures running == map[]
    {
      running := map[];
    }

    /** Start: a fresh calculation registered under the user, replacing any earlier one,
        which has asked for the creature. */
    method Start(userId: string, mention: string, channelId: string) returns (c: IvCalculation)
      modifies this
      ensures fresh(c) && running == old(running)[userId := c]
      ensures c.userId == userId && c.mention == mention && c.channelId == channelId
      ensures c.State() == Started() && c.sent == c.Said(["Enter pokemon name."])
    {
      c := new IvCalculation(userId, mention, channelId);
      running := running[userId := c];
      c.AskQuestion();
    }

    /** Stop: the user's calculation, and only it, leaves the registry. */
    method Stop(userId: string)
      modifies this
      ensures running == old(running) - {userId}
    {
      running := running - {userId};
    }

    method IsRunning(userId: string) returns (b: bool)
      ensures b <==> userId in running
    {
      b := userId in running;
    }

    /** GetCalculation: the user's calculation, or nil (None) when there is none. */
    method GetCalculation(userId: string) returns (c: Option<IvCalculation>)
      ensures c.None? <==> userId !in running
      ensures c.Some? ==> c.value == running[userId]
    {
      if userId in running {
        return Some(running[userId]);
      }
      return None;
    }

    /** The dispatch loop's decision for a message from `userId` in `channelId`: a user
        with nothing running is started; a finished calculation is stopped and started
        again; an unfinished one in the same channel gets the content; anything else is
        dropped. */
    method Dispatch(userId: string, mention: string, channelId: string, content: string) returns (d: Dispatched)
      modifies this
      ensures userId !in old(running) ==> d.Launched? && fresh(d.calculation) && running == old(running)[userId := d.calculation]
      ensures userId in old(running) && old(running[userId].status) == StatusDone ==>
        d.Restarted? && fresh(d.calculation) && running == old(running)[userId := d.calculation]
      ensures userId in old(running) && old(running[userId].status) != StatusDone && old(running[userId].channelId) == channelId ==>
        d == Forwarded(old(running[userId]), content) && running == old(running)
      ensures userId in old(running) && old(running[userId].status) != StatusDone && old(running[userId].channelId) != channelId ==>
        d == Ignored && running == old(running)
      ensures d.Launched? || d.Restarted? ==> d.calculation.State() == Started() && d.calculation.channelId == channelId
    {
      var isRunning := IsRunning(userId);
      if !isRunning {
        var c := Start(userId, mention, channelId);
        return Launched(c);
      }
      var found := GetCalculation(userId);
      var ivCalc := found.value;
      if ivCalc.status == StatusDone {
        Stop(userId);
        var c := Start(userId, mention, channelId);
        return Restarted(c);
      } else if ivCalc.channelId == channelId {
        return Forwarded(ivCalc, content);
      }
      return Ignored;
    }
  }
}
