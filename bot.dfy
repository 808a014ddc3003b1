/** The command layer of bot.go: how a message is routed, how the command name and the
    arguments of `!iv`, `!cp` and `!maxcp` are read, and the error texts. Discord itself is
    not modelled: what the bot sends is recorded in `sent`. */
module Bot {
  import opened Wrappers
  import opened CP
  import Text
  import StrConv
  import Pokemon
  import Moves
  import Types

  // ---------------------------------------------------------------------------------
  // Errors

  /** The error values of bot.go. */
  datatype BaseError =
    | CpCommand | IvCommand | RaidCpCommand | RaidChartCommand | MaxCpCommand | MovesCommand
    | TypesCommand | TypeChartCommand | NoCombinations | NoStats | PokemonUnrecognized
    | CommandUnrecognized | WrongChannel

  /** The text each error value was created with. */
  function BaseText(e: BaseError): string
  {
    match e
    case CpCommand => "CP command needs to be formatted like this: !maxcp {pokemon} {level} {attack iv} {defense iv} {stamina iv}"
    case IvCommand => "IV command needs to be formatted like this: !iv {pokemon} {cp} {level} or !iv {pokemon} {cp}"
    case RaidCpCommand => "Raid CP command needs to be formatted like this: !raidcp {pokemon} or !raidcp {pokemon} {cp}"
    case RaidChartCommand => "Raid CP Chart command needs to be formatted like this: !raidcpchart {pokemon}"
    case MaxCpCommand => "Max CP command needs to be formatted like this: !maxcp {pokemon}"
    case MovesCommand => "Moves command needs to be formatted like this: !moves {pokemon}"
    case TypesCommand => "Types command needs to be formatted like this: !type {pokemon}"
    case TypeChartCommand => "Effect command needs to be formatted like this: !effect {pokemon}"
    case NoCombinations => "No possible IV combinations for that CP"
    case NoStats => "Pokemon Master file doesn't have stats for that pokemon yet :("
    case PokemonUnrecognized => "Pokemon not recognized."
    case CommandUnrecognized => "Command not recognized"
    case WrongChannel => "IV Calculator must be used in the designated channel."
  }

  /** botError: an error value and the creature name it concerns, possibly empty. */
  datatype BotError = BotError(err: BaseError, pokemon: string)

  /** The errors whose text names the creature, when there is a name. */
  predicate Specialised(e: BotError)
  {
    e.pokemon != "" && (e.err == PokemonUnrecognized || e.err == NoCombinations || e.err == NoStats)
  }

  /** botError.Error */
  function ErrorText(e: BotError): (r: string)
    ensures !Specialised(e) ==> r == BaseText(e.err)
    ensures Specialised(e) ==> |r| > |e.pokemon|
  {
    if e.err == PokemonUnrecognized && e.pokemon != "" then "Pokemon unrecognized: " + e.pokemon
    else if e.err == NoCombinations && e.pokemon != "" then "No possible IV combinations for that CP for " + e.pokemon
    else if e.err == NoStats && e.pokemon != "" then "No stats available for " + e.pokemon + " in the Pokemon Go Master file yet :("
    else BaseText(e.err)
  }

  /** The three creature errors with a name get their own text, which contains the name;
      every other error, and every error without a name, reads as its base text. */
  lemma ErrorTextCases(e: BotError)
    ensures Specialised(e) ==> Text.Contains(ErrorText(e), e.pokemon)
    ensures !Specialised(e) ==> ErrorText(e) == BaseText(e.err)
  {
    if Specialised(e) {
      var r := ErrorText(e);
      var i: nat := if e.err == PokemonUnrecognized then 22 else if e.err == NoCombinations then 44 else 23;
      assert r[i..i + |e.pokemon|] == e.pokemon;
      assert Text.OccursAt(r, e.pokemon, i);
    }
  }

  // ---------------------------------------------------------------------------------
  // Routing

  /** The name of the command in the first field: its first "!" and then its first "?"
      removed. */
  function CommandName(field: string): (r: string)
    ensures |field| - 2 <= |r| <= |field|
  {
    Text.ReplaceFirst(Text.ReplaceFirst(field, "!", ""), "?", "")
  }

  /** Removing the first occurrence of a character: nothing changes when it is absent, and
      a leading or a trailing (and only) occurrence is dropped. */
  lemma ReplaceChar(s: string, c: char)
    requires c !in s
    ensures Text.ReplaceFirst(s, [c], "") == s
    ensures Text.ReplaceFirst([c] + s, [c], "") == s
    ensures Text.ReplaceFirst(s + [c], [c], "") == s
  {
    Text.ContainsChar(s, c);
    assert Text.OccursAt([c] + s, [c], 0);
    assert ([c] + s)[1..] == s;
    var t := s + [c];
    Text.ContainsChar(t, c);
    var i := Text.Index(t, [c]).value;
    assert t[i] == [c][0];
    assert t[..|s|] == s;
  }

  /** A word without "!" and "?" is its own command name, and so is the word after a
      leading "!", or a leading "!" and a trailing "?". */
  lemma CommandNameStrips(word: string)
    requires '!' !in word && '?' !in word
    ensures CommandName(word) == word
    ensures CommandName("!" + word) == word
    ensures CommandName("!" + word + "?") == word
  {
    ReplaceChar(word, '!');
    ReplaceChar(word, '?');
    ReplaceChar(word + "?", '!');
    assert "!" + word + "?" == ['!'] + (word + "?");
  }

  /** The easter eggs: replies to a known name in the second field. */
  const EasterEggs: map<string, string> := map[
    "haynes-bot" := "meow",
    "haynes" := "The power of haynes is limitless",
    "haynesherway22" := "The power of haynes is limitless",
    "haynesherway" := "The power of haynes is limitless",
    "alletzhauser" := "Alletzhauser is a poopy pants"]

  /** The channels where the IV calculator may be started. */
  const IvCalcChannels: set<string> := {"405409275410776076", "402885030994509835", "342018683024965635"}

  /** The commands of the switch in messageHandler. */
  datatype Command = Cp | IvCalc | Iv | RaidCp | RaidChart | MaxCp | Moves | Type | Effect | Info

  function CommandFor(name: string): Option<Command>
  {
    if name == "cp" then Some(Cp)
    else if name == "ivcalc" then Some(IvCalc)
    else if name == "iv" then Some(Iv)
    else if name == "raidcp" then Some(RaidCp)
    else if name == "raidchart" then Some(RaidChart)
    else if name == "maxcp" then Some(MaxCp)
    else if name == "moves" then Some(Moves)
    else if name == "types" || name == "type" then Some(Type)
    else if name == "effect" then Some(Effect)
    else if name == "haynes-bot" || name == "haynez-bot" then Some(Info)
    else None
  }

  /** What messageHandler does with a message: hand it to a running IV calculation, drop
      it, answer with an easter egg, run a command, or refuse `!ivcalc` outside its
      channels. */
  datatype Handling = Forward | Ignore | Egg(reply: string) | Run(command: Command) | Refuse(error: BotError)

  predicate HasPrefix(s: string, prefix: string)
  {
    |prefix| <= |s| && s[..|prefix|] == prefix
  }

  /** The second field names an easter egg. */
  predicate HasEgg(fields: seq<string>)
  {
    |fields| > 1 && Text.ToLower(fields[1]) in EasterEggs
  }

  /** messageHandler, as a decision. `fields` are the white-space separated words of
      `content`; `calculating` says whether the author has an IV calculation running. */
  function Handle(content: string, fields: seq<string>, prefix: string, authorId: string, botId: string,
                  channelId: string, calculating: bool): (h: Handling)
    ensures !HasPrefix(content, prefix) ==> (h == Forward <==> calculating) && (h.Forward? || h.Ignore?)
    ensures HasPrefix(content, prefix) ==> !h.Forward?
    ensures HasPrefix(content, prefix) && (authorId == botId || |fields| == 0) ==> h == Ignore
    ensures h.Refuse? <==> (HasPrefix(content, prefix) && authorId != botId && |fields| > 0 && !h.Egg?
      && CommandFor(CommandName(fields[0])) == Some(IvCalc) && channelId !in IvCalcChannels)
    ensures HasPrefix(content, prefix) && authorId != botId && HasEgg(fields) ==>
      h == Egg(EasterEggs[Text.ToLower(fields[1])])
    ensures HasPrefix(content, prefix) && authorId != botId && |fields| > 0 && !HasEgg(fields) ==>
      (CommandFor(CommandName(fields[0])).None? ==> h == Ignore)
      && (CommandFor(CommandName(fields[0])).Some? && CommandFor(CommandName(fields[0])).value != IvCalc ==>
            h == Run(CommandFor(CommandName(fields[0])).value))
      && (CommandFor(CommandName(fields[0])) == Some(IvCalc) && channelId in IvCalcChannels ==> h == Run(IvCalc))
  {
    if !HasPrefix(content, prefix) then
      if calculating then Forward else Ignore
    else if authorId == botId then Ignore
    else if |fields| == 0 then Ignore
    else if HasEgg(fields) then Egg(EasterEggs[Text.ToLower(fields[1])])
    else match CommandFor(CommandName(fields[0]))
      case None => Ignore
      case Some(IvCalc) => if channelId in IvCalcChannels then Run(IvCalc) else Refuse(BotError(WrongChannel, ""))
      case Some(c) => Run(c)
  }

  /** An easter egg in the second field pre-empts every command: whatever the first field
      says, the message gets the egg's reply and no command runs. */
  lemma EggPreempts(content: string, fields: seq<string>, prefix: string, authorId: string, botId: string,
                    channelId: string, calculating: bool, other: string)
    requires HasPrefix(content, prefix) && authorId != botId
    requires |fields| > 1 && Text.ToLower(fields[1]) in EasterEggs
    ensures Handle(content, fields, prefix, authorId, botId, channelId, calculating)
      == Handle(content, fields[0 := other], prefix, authorId, botId, channelId, calculating)
      == Egg(EasterEggs[Text.ToLower(fields[1])])
  {
  }

  /** The second field is matched without regard to ASCII case. */
  lemma EggIgnoresCase(content: string, fields: seq<string>, prefix: string, authorId: string, botId: string,
                       channelId: string, calculating: bool)
    requires HasPrefix(content, prefix) && authorId != botId
    requires |fields| > 1 && fields[1] == "HAYNES"
    ensures Handle(content, fields, prefix, authorId, botId, channelId, calculating) == Egg("The power of haynes is limitless")
  {
    var lower := Text.ToLower(fields[1]);
    assert lower[0] == 'h' && lower[1] == 'a' && lower[2] == 'y' && lower[3] == 'n' && lower[4] == 'e' && lower[5] == 's';
    assert lower == "haynes";
  }

  // ---------------------------------------------------------------------------------
  // The `!iv` arguments

  /** The request `!iv` makes of getIV. */
  datatype IvArgs = IvArgs(name: string, cp: int, level: real, stardust: int, best: string)

  /** A number up to 40 is a level; a larger one is a stardust cost, truncated to an
      integer. The other of the two is 0. */
  function LevelOrStardust(val: real): (r: (real, int))
    ensures r.0 == 0.0 || r.1 == 0
    ensures r.0 <= 40.0 && (r.1 == 0 || r.1 >= 40)
    ensures val <= 40.0 ==> r == (val, 0)
    ensures val > 40.0 ==> r.0 == 0.0 && r.1 as real <= val < r.1 as real + 1.0
  {
    if val <= 40.0 then (val, 0) else (0.0, val.Floor)
  }

  /** The appraisal filter as bot.go builds it: "a", "d" and "h", in that order, for each
      of those letters in the field. */
  function BestAsWritten(field: string): string
  {
    (if Text.Contains(field, "a") then "a" else "")
    + (if Text.Contains(field, "d") then "d" else "")
    + (if Text.Contains(field, "h") then "h" else "")
  }

  /** Asking for the best stamina ("h") makes every IV search come back empty: getIV's
      appraisal strings spell stamina "s". */
  lemma BestAsWrittenBlocksStamina(field: string, a: int, d: int, s: int)
    requires 'h' in field
    ensures !Pokemon.PassesBest(BestAsWritten(field), a, d, s)
  {
    Text.ContainsChar(field, 'h');
    var b := BestAsWritten(field);
    assert b[|b| - 1] == 'h';
    Pokemon.BestStringMeaning(a, d, s, b);
  }

  /** The appraisal filter with stamina spelt as getIV spells it: the "h" the user types
      for HP becomes "s". */
  function Best(field: string): string
  {
    (if Text.Contains(field, "a") then "a" else "")
    + (if Text.Contains(field, "d") then "d" else "")
    + (if Text.Contains(field, "h") then "s" else "")
  }

  /** The letters a user types for the highest stats of a triple: "a", "d", "h". */
  function Appraisal(a: int, d: int, s: int): string
  {
    var highest := Pokemon.Max3(a, d, s);
    (if a == highest then "a" else "") + (if d == highest then "d" else "") + (if s == highest then "h" else "")
  }

  /** With the corrected filter every triple is found by typing its appraisal: the filter
      built from the typed letters is the triple's appraisal string. */
  lemma BestMatchesAppraisal(a: int, d: int, s: int)
    ensures Best(Appraisal(a, d, s)) == Pokemon.BestString(a, d, s)
    ensures Pokemon.PassesBest(Best(Appraisal(a, d, s)), a, d, s)
  {
    var t := Appraisal(a, d, s);
    Text.ContainsChar(t, 'a');
    Text.ContainsChar(t, 'd');
    Text.ContainsChar(t, 'h');
  }

  /** The field letters the filter looks at, as the filter reports them. */
  lemma BestLetters(field: string)
    ensures 'a' in Best(field) <==> 'a' in field
    ensures 'd' in Best(field) <==> 'd' in field
    ensures 's' in Best(field) <==> 'h' in field
    ensures |Best(field)| <= 3
  {
    Text.ContainsChar(field, 'a');
    Text.ContainsChar(field, 'd');
    Text.ContainsChar(field, 'h');
  }

  /** How `!iv` reads its fields: at least a name and an integer CP, then optionally a
      level or stardust cost (a number) and an appraisal. */
  function IvRequest(fields: seq<string>): (r: Result<IvArgs, BotError>)
    ensures r.Err? ==> r.error == BotError(IvCommand, "")
    ensures r.Ok? ==> |fields| >= 3 && r.value.cp == StrConv.Atoi(fields[2]).value && r.value.name == Text.ToLower(fields[1])
  {
    if |fields| < 3 || StrConv.Atoi(fields[2]).err.Some? then Err(BotError(IvCommand, ""))
    else if |fields| > 3 && StrConv.ParseFloat(fields[3]).err.Some? then Err(BotError(IvCommand, ""))
    else
      var (level, stardust) := if |fields| > 3 then LevelOrStardust(StrConv.ParseFloat(fields[3]).value) else (0.0, 0);
      var best := if |fields| > 4 then Best(fields[4]) else "";
      Ok(IvArgs(Text.ToLower(fields[1]), StrConv.Atoi(fields[2]).value, level, stardust, best))
  }

  /** The requests `!iv` can make: an error exactly when a field is missing or malformed;
      otherwise the lower-cased name, the CP, a level or a stardust cost (never both), and
      a filter only from a fifth field. */
  lemma IvRequestShape(fields: seq<string>)
    ensures IvRequest(fields).Err? <==> (|fields| < 3 || StrConv.Atoi(fields[2]).err.Some?
      || (|fields| > 3 && StrConv.ParseFloat(fields[3]).err.Some?))
    ensures IvRequest(fields).Err? ==> IvRequest(fields).error == BotError(IvCommand, "")
    ensures IvRequest(fields).Ok? ==> (var q := IvRequest(fields).value;
      q.name == Text.ToLower(fields[1]) && q.cp == StrConv.Atoi(fields[2]).value
      && (q.level == 0.0 || q.stardust == 0) && q.level <= 40.0
      && (|fields| <= 3 ==> q.level == 0.0 && q.stardust == 0)
      && (|fields| <= 4 ==> q.best == ""))
  {
  }

  /** The outcome of `!iv` for a known creature: the chart getIV returns for the request,
      sent when it is not empty, and ERR_NO_COMBINATIONS with the creature's name when it is. */
  ghost predicate IvOutcome(f: CPFormula, levelText: real -> string, p: Pokemon.Pokemon, q: IvArgs,
                            e: Option<BotError>, before: seq<string>, after: seq<string>)
  {
    exists chart :: Pokemon.IvMessage(f, levelText, p, q.cp, q.level, q.stardust, q.best, chart)
      && (chart == "" ==> e == Some(BotError(NoCombinations, p.name)) && after == before)
      && (chart != "" ==> e.None? && after == before + [chart])
  }

  /** getIV's message is empty, and `!iv` reports ERR_NO_COMBINATIONS, exactly when no IV
      row matches the request. */
  lemma NoCombinationsExactly(f: CPFormula, levelText: real -> string, p: Pokemon.Pokemon, q: IvArgs, chart: string)
    requires Pokemon.IvMessage(f, levelText, p, q.cp, q.level, q.stardust, q.best, chart)
    ensures chart == "" <==> forall x :: !Pokemon.IvMatch(f, p, q.cp, q.level, q.stardust, q.best, x)
  {
    var all :| (forall x :: multiset(all)[x] == if Pokemon.IvMatch(f, p, q.cp, q.level, q.stardust, q.best, x) then 1 else 0)
      && Sorted(all) && chart == Pokemon.IvChart(levelText, p.name, q.cp, all);
    Pokemon.IvChartShape(levelText, p.name, q.cp, all);
    if chart != "" {
      assert all[0] in multiset(all);
      assert Pokemon.IvMatch(f, p, q.cp, q.level, q.stardust, q.best, all[0]);
    } else {
      assert |all| == 0;
      forall x ensures !Pokemon.IvMatch(f, p, q.cp, q.level, q.stardust, q.best, x) {
        assert multiset(all)[x] == 0;
      }
    }
  }

  // ---------------------------------------------------------------------------------
  // The `!cp` arguments

  /** The request `!cp` makes of GetCP. */
  datatype CpArgs = CpArgs(name: string, level: real, attack: int, defense: int, stamina: int)

  /** How bot.go reads the `!cp` fields: each parse overwrites the same error variable, so
      only the stamina field's error is seen; a malformed level, attack or defense reads
      as 0. */
  function CpRequestAsWritten(fields: seq<string>): (r: Result<CpArgs, BotError>)
    ensures r.Ok? <==> |fields| >= 6 && StrConv.Atoi(fields[5]).err.None?
    ensures r.Err? ==> r.error == BotError(CpCommand, "")
  {
    if |fields| < 6 || StrConv.Atoi(fields[5]).err.Some? then Err(BotError(CpCommand, ""))
    else Ok(CpArgs(Text.ToLower(fields[1]), StrConv.ParseFloat(fields[2]).value, StrConv.Atoi(fields[3]).value,
                   StrConv.Atoi(fields[4]).value, StrConv.Atoi(fields[5]).value))
  }

  /** A malformed level is let through as level 0 when the stamina field parses. */
  lemma CpIgnoresBadLevel(fields: seq<string>)
    requires |fields| >= 6 && StrConv.ParseFloat(fields[2]).err.Some? && StrConv.Atoi(fields[5]).err.None?
    ensures CpRequestAsWritten(fields).Ok? && CpRequestAsWritten(fields).value.level == 0.0
  {
  }

  /** `!cp mewtwo abc 15 14 15` is accepted; level 0 is not a table level, so the reply
      gives every creature the floor CP of 10. */
  lemma CpBadLevelExample(f: CPFormula, p: Pokemon.Pokemon)
    ensures CpRequestAsWritten(["!cp", "mewtwo", "abc", "15", "14", "15"]).Ok?
    ensures var q := CpRequestAsWritten(["!cp", "mewtwo", "abc", "15", "14", "15"]).value;
      q.level == 0.0 && Pokemon.GetCP(f, p, q.level, q.attack, q.defense, q.stamina) == 10
  {
    StrConv.AtoiItoa(15);
    assert StrConv.Itoa(15) == "15";
    assert StrConv.ParseFloat("abc").err.Some?;
    CpIgnoresBadLevel(["!cp", "mewtwo", "abc", "15", "14", "15"]);
    assert !IsHalfLevel(0.0);
  }

  /** How `!cp` reads its fields when every parse error is checked. */
  function CpRequest(fields: seq<string>): Result<CpArgs, BotError>
  {
    if |fields| < 6 || StrConv.ParseFloat(fields[2]).err.Some? || StrConv.Atoi(fields[3]).err.Some?
       || StrConv.Atoi(fields[4]).err.Some? || StrConv.Atoi(fields[5]).err.Some?
    then Err(BotError(CpCommand, ""))
    else Ok(CpArgs(Text.ToLower(fields[1]), StrConv.ParseFloat(fields[2]).value, StrConv.Atoi(fields[3]).value,
                   StrConv.Atoi(fields[4]).value, StrConv.Atoi(fields[5]).value))
  }

  /** Every number of an accepted `!cp` request is the value of a well-formed field; where
      it accepts, it agrees with bot.go, and it rejects the malformed level bot.go lets
      through. */
  lemma CpRequestChecked(fields: seq<string>)
    ensures CpRequest(fields).Ok? <==> (|fields| >= 6 && StrConv.ParseFloat(fields[2]).err.None?
      && StrConv.Atoi(fields[3]).err.None? && StrConv.Atoi(fields[4]).err.None? && StrConv.Atoi(fields[5]).err.None?)
    ensures CpRequest(fields).Ok? ==> CpRequestAsWritten(fields) == CpRequest(fields)
    ensures CpRequest(fields).Err? ==> CpRequest(fields).error == BotError(CpCommand, "")
    ensures |fields| >= 6 && StrConv.ParseFloat(fields[2]).err.Some? ==> CpRequest(fields).Err?
  {
  }

  /** The start of the `!cp` reply, up to where the level goes. */
  function CpHead(name: string): string
  {
    "CP for **" + name + "** at level "
  }

  /** The end of the `!cp` reply: the IVs and the CP. */
  function CpTail(q: CpArgs, cp: int): string
  {
    " with IVs " + StrConv.Itoa(q.attack) + "/" + StrConv.Itoa(q.defense) + "/" + StrConv.Itoa(q.stamina)
    + " is " + StrConv.Itoa(cp)
  }

  /** The `!cp` reply as written: the level goes to a %d verb, which Go renders as
      "%!d(float64=...)" for a float; `numberText` is Go's default rendering of a float. */
  function CpMessageAsWritten(numberText: real -> string, name: string, q: CpArgs, cp: int): string
  {
    CpHead(name) + "%!d(float64=" + numberText(q.level) + ")" + CpTail(q, cp)
  }

  /** The `!cp` reply with the level printed as a number. */
  function CpMessage(numberText: real -> string, name: string, q: CpArgs, cp: int): string
  {
    CpHead(name) + numberText(q.level) + CpTail(q, cp)
  }

  /** Where the reply should show the level, bot.go's reply shows Go's marker for a bad
      verb instead, for every level. */
  lemma CpMessageMarker(numberText: real -> string, name: string, q: CpArgs, cp: int)
    ensures Text.OccursAt(CpMessageAsWritten(numberText, name, q, cp), "%!d(", |CpHead(name)|)
  {
    var head := CpHead(name);
    var marker := "%!d(float64=" + numberText(q.level) + ")" + CpTail(q, cp);
    assert CpMessageAsWritten(numberText, name, q, cp) == head + marker;
    assert marker[..4] == "%!d(";
  }

  /** The corrected reply shows the level's text where the level belongs. */
  lemma CpMessageShowsLevel(numberText: real -> string, name: string, q: CpArgs, cp: int)
    ensures Text.OccursAt(CpMessage(numberText, name, q, cp), numberText(q.level), |CpHead(name)|)
  {
    var text := numberText(q.level);
    var rest := text + CpTail(q, cp);
    assert CpMessage(numberText, name, q, cp) == CpHead(name) + rest;
    assert rest[..|text|] == text;
  }

  // ---------------------------------------------------------------------------------
  // `!maxcp`

  /** The reply of `!maxcp`: the maximum CP of a known creature, or an error. */
  function MaxCpReply(f: CPFormula, dex: map<string, Pokemon.Pokemon>, fields: seq<string>): (r: Result<string, BotError>)
    ensures |fields| < 2 <==> r == Err(BotError(MaxCpCommand, ""))
    ensures r.Ok? ==> |fields| >= 2 && Text.ToLower(fields[1]) in dex
  {
    if |fields| < 2 then Err(BotError(MaxCpCommand, ""))
    else if Text.ToLower(fields[1]) in dex then
      var p := dex[Text.ToLower(fields[1])];
      if Pokemon.GetMaxCP(f, p) == 0 then Err(BotError(NoStats, p.name))
      else Ok("Max CP for " + p.name + " is " + StrConv.Itoa(Pokemon.GetMaxCP(f, p)))
    else Err(BotError(PokemonUnrecognized, fields[1]))
  }

  /** `!maxcp` reports ERR_NO_STATS exactly for a known creature with the placeholder stats
      1/1/1, reports an unknown name as typed, and otherwise reports the CP at level 40 with
      perfect IVs. */
  lemma MaxCpOutcomes(f: CPFormula, dex: map<string, Pokemon.Pokemon>, fields: seq<string>)
    ensures (MaxCpReply(f, dex, fields).Err? && MaxCpReply(f, dex, fields).error.err == NoStats) <==>
      (|fields| >= 2 && Text.ToLower(fields[1]) in dex && dex[Text.ToLower(fields[1])].stats == Pokemon.PokemonStats(1, 1, 1))
    ensures |fields| >= 2 && Text.ToLower(fields[1]) !in dex ==>
      MaxCpReply(f, dex, fields) == Err(BotError(PokemonUnrecognized, fields[1]))
    ensures MaxCpReply(f, dex, fields).Ok? ==> (var p := dex[Text.ToLower(fields[1])];
      MaxCpReply(f, dex, fields).value == "Max CP for " + p.name + " is " + StrConv.Itoa(Pokemon.GetCP(f, p, 40.0, 15, 15, 15)))
  {
  }

  // ---------------------------------------------------------------------------------
  // The other commands

  /** The outcome of `!raidcp` with a CP: the raid IV chart for it, sent when not empty,
      and ERR_NO_COMBINATIONS with the creature's name when it is. */
  ghost predicate RaidIvOutcome(f: CPFormula, levelText: real -> string, p: Pokemon.Pokemon, raidcp: int,
                                e: Option<BotError>, before: seq<string>, after: seq<string>)
  {
    exists all :: (forall x :: multiset(all)[x] == if Pokemon.RaidIvMatch(f, p, raidcp, x) then 1 else 0)
      && Sorted(all)
      && (|all| == 0 ==> e == Some(BotError(NoCombinations, p.name)) && after == before)
      && (|all| > 0 ==> e.None? && after == before + [Pokemon.RaidIvChart(levelText, p.name, raidcp, all)])
  }

  /** The reply of `!moves`. */
  function MovesMessage(p: Pokemon.Pokemon): string
  {
    "Moves for **" + p.name + "**:\nFast: " + Text.Join(Moves.ShortNames(p.moves.fast), ", ")
    + "\nCharge: " + Text.Join(Moves.ShortNames(p.moves.charge), ", ")
  }

  /** `Type2ID[name]`: the empty ID for an unknown type name. */
  function TypeIdOf(typeIds: map<string, string>, name: string): string
  {
    if name in typeIds then typeIds[name] else ""
  }

  /** A type chart Pokemon.PrintTypeChart can return for the creature. */
  ghost predicate CreatureChart(table: Types.TypeTable, p: Pokemon.Pokemon, msg: string)
  {
    exists attack, defense, ka, kd :: (Pokemon.Relations(table, p.types, attack, defense)
      && Types.IsRangeOrder(attack, ka) && Types.IsRangeOrder(defense, kd)
      && msg == Types.ChartText(Pokemon.TypeChartTitle(p.name, p.types), attack, ka, defense, kd))
  }

  /** A type chart Type.PrintTypeChart can return for the type. */
  ghost predicate TypeChart(table: Types.TypeTable, t: Types.Type, msg: string)
  {
    exists ka, kd, attack, defense ::
      (if t.id in table then attack == Types.AttackScalarsOf(table, table[t.id].damage) else attack == map[])
      && Types.DefenseUsed(table, t.id, defense)
      && Types.IsRangeOrder(attack, ka) && Types.IsRangeOrder(defense, kd)
      && msg == Types.ChartText("Type Effects for **" + t.name + "**:\n", attack, ka, defense, kd)
  }

  // ---------------------------------------------------------------------------------
  // The response object

  /** botResponse: the fields of one message, the error GetCommandName may set, and the
      messages sent in reply. */
  class BotResponse {
    const fields: seq<string>
    var err: Option<BaseError>
    var sent: seq<string>

    constructor (fields: seq<string>)
      ensures this.fields == fields && err.None? && sent == []
    {
      this.fields := fields;
      err := None;
      sent := [];
    }

    /** GetCommandName: the command name of the first field; with no fields, the empty
        name and ERR_COMMAND_UNRECOGNIZED. */
    method GetCommandName() returns (cmd: string)
      modifies this
      ensures |fields| == 0 ==> cmd == "" && err == Some(CommandUnrecognized)
      ensures |fields| > 0 ==> cmd == CommandName(fields[0]) && err == old(err)
      ensures sent == old(sent)
    {
      if |fields| == 0 {
        err := Some(CommandUnrecognized);
        return "";
      }
      cmd := Text.ReplaceFirst(Text.ReplaceFirst(fields[0], "!", ""), "?", "");
    }

    /** PrintToDiscord: sends one message. */
    method PrintToDiscord(msg: string)
      modifies this
      ensures sent == old(sent) + [msg] && err == old(err)
    {
      sent := sent + [msg];
    }

    /** The argument reading of PrintIVToDiscord: the number fields parsed in turn, the
        fourth read as a level or a stardust cost, and the appraisal letters collected. */
    method ReadIvRequest() returns (r: Result<IvArgs, BotError>)
      ensures r == IvRequest(fields)
    {
      if |fields| < 3 {
        return Err(BotError(IvCommand, ""));
      }
      var pokemonName := Text.ToLower(fields[1]);
      var cp := StrConv.Atoi(fields[2]);
      if cp.err.Some? {
        return Err(BotError(IvCommand, ""));
      }
      var level := 0.0;
      var stardust := 0;
      if |fields| > 3 {
        var val := StrConv.ParseFloat(fields[3]);
        if val.err.Some? {
          return Err(BotError(IvCommand, ""));
        }
        if val.value <= 40.0 {
          level := val.value;
        } else {
          stardust := val.value.Floor;
        }
        assert (level, stardust) == LevelOrStardust(val.value);
      }
      var bestvals := "";
      if |fields| > 4 {
        if Text.Contains(fields[4], "a") {
          bestvals := bestvals + "a";
        }
        if Text.Contains(fields[4], "d") {
          bestvals := bestvals + "d";
        }
        if Text.Contains(fields[4], "h") {
          bestvals := bestvals + "s";
        }
        assert bestvals == Best(fields[4]);
      }
      r := Ok(IvArgs(pokemonName, cp.value, level, stardust, bestvals));
    }

    /** PrintIVToDiscord: an error for a malformed request or an unknown creature (named as
        typed); otherwise getIV's chart for the request, sent when not empty. */
    method PrintIVToDiscord(f: CPFormula, levelText: real -> string, dex: map<string, Pokemon.Pokemon>)
      returns (e: Option<BotError>)
      modifies this
      ensures err == old(err)
      ensures IvRequest(fields).Err? ==> e == Some(IvRequest(fields).error) && sent == old(sent)
      ensures IvRequest(fields).Ok? && IvRequest(fields).value.name !in dex ==>
        e == Some(BotError(PokemonUnrecognized, fields[1])) && sent == old(sent)
      ensures IvRequest(fields).Ok? && IvRequest(fields).value.name in dex ==>
        IvOutcome(f, levelText, dex[IvRequest(fields).value.name], IvRequest(fields).value, e, old(sent), sent)
    {
      var request := ReadIvRequest();
      if request.Err? {
        return Some(request.error);
      }
      var q := request.value;
      if q.name in dex {
        var p := dex[q.name];
        var ivChart, all := Pokemon.GetIV(f, levelText, p, q.cp, q.level, q.stardust, q.best);
        assert Pokemon.IvMessage(f, levelText, p, q.cp, q.level, q.stardust, q.best, ivChart);
        if ivChart == "" {
          e := Some(BotError(NoCombinations, p.name));
        } else {
          PrintToDiscord(ivChart);
          e := None;
        }
      } else {
        return Some(BotError(PokemonUnrecognized, fields[1]));
      }
    }

    /** PrintCPToDiscord, with every parse error checked and the level printed as a number:
        an error for a malformed request or an unknown creature (named as typed); otherwise
        the creature's CP for the request. */
    method PrintCPToDiscord(f: CPFormula, numberText: real -> string, dex: map<string, Pokemon.Pokemon>)
      returns (e: Option<BotError>)
      modifies this
      ensures err == old(err)
      ensures CpRequest(fields).Err? ==> e == Some(CpRequest(fields).error) && sent == old(sent)
      ensures CpRequest(fields).Ok? && CpRequest(fields).value.name !in dex ==>
        e == Some(BotError(PokemonUnrecognized, fields[1])) && sent == old(sent)
      ensures CpRequest(fields).Ok? && CpRequest(fields).value.name in dex ==> (var q := CpRequest(fields).value;
        var p := dex[q.name];
        e.None? && sent == old(sent) + [CpMessage(numberText, p.name, q, Pokemon.GetCP(f, p, q.level, q.attack, q.defense, q.stamina))])
    {
      if |fields| < 6 {
        return Some(BotError(CpCommand, ""));
      }
      var pokemonName := Text.ToLower(fields[1]);
      var level := StrConv.ParseFloat(fields[2]);
      var ivA := StrConv.Atoi(fields[3]);
      var ivD := StrConv.Atoi(fields[4]);
      var ivS := StrConv.Atoi(fields[5]);
      if level.err.Some? || ivA.err.Some? || ivD.err.Some? || ivS.err.Some? {
        return Some(BotError(CpCommand, ""));
      }
      var q := CpArgs(pokemonName, level.value, ivA.value, ivD.value, ivS.value);
      if pokemonName in dex {
        var p := dex[pokemonName];
        var cp := Pokemon.GetCP(f, p, level.value, ivA.value, ivD.value, ivS.value);
        PrintToDiscord(CpMessage(numberText, p.name, q, cp));
        e := None;
      } else {
        return Some(BotError(PokemonUnrecognized, fields[1]));
      }
    }

    /** PrintMaxCPToDiscord: sends the `!maxcp` reply or returns its error. */
    method PrintMaxCPToDiscord(f: CPFormula, dex: map<string, Pokemon.Pokemon>) returns (e: Option<BotError>)
      modifies this
      ensures err == old(err)
      ensures MaxCpReply(f, dex, fields).Err? ==> e == Some(MaxCpReply(f, dex, fields).error) && sent == old(sent)
      ensures MaxCpReply(f, dex, fields).Ok? ==> e.None? && sent == old(sent) + [MaxCpReply(f, dex, fields).value]
    {
      if |fields| < 2 {
        return Some(BotError(MaxCpCommand, ""));
      }
      var pokemonName := Text.ToLower(fields[1]);
      if pokemonName in dex {
        var p := dex[pokemonName];
        var maxcp := Pokemon.GetMaxCP(f, p);
        if maxcp == 0 {
          return Some(BotError(NoStats, p.name));
        }
        PrintToDiscord("Max CP for " + p.name + " is " + StrConv.Itoa(Pokemon.GetMaxCP(f, p)));
        e := None;
      } else {
        return Some(BotError(PokemonUnrecognized, fields[1]));
      }
    }
    /** PrintRaidCPToDiscord: for a known creature, its raid CP range when no CP is given,
        otherwise the raid IV chart for that CP (ERR_NO_COMBINATIONS when empty). The name
        is looked up before the CP is parsed. */
    method PrintRaidCPToDiscord(f: CPFormula, levelText: real -> string, dex: map<string, Pokemon.Pokemon>)
      returns (e: Option<BotError>)
      modifies this
      ensures err == old(err)
      ensures |fields| < 2 ==> e == Some(BotError(RaidCpCommand, "")) && sent == old(sent)
      ensures |fields| >= 2 && Text.ToLower(fields[1]) !in dex ==>
        e == Some(BotError(PokemonUnrecognized, fields[1])) && sent == old(sent)
      ensures |fields| == 2 && Text.ToLower(fields[1]) in dex ==> (var p := dex[Text.ToLower(fields[1])];
        e.None? && sent == old(sent) + [Pokemon.RaidRangeText(p, Pokemon.GetRaidCPRange(f, p))])
      ensures |fields| > 2 && Text.ToLower(fields[1]) in dex && StrConv.Atoi(fields[2]).err.Some? ==>
        e == Some(BotError(RaidCpCommand, "")) && sent == old(sent)
      ensures |fields| > 2 && Text.ToLower(fields[1]) in dex && StrConv.Atoi(fields[2]).err.None? ==>
        RaidIvOutcome(f, levelText, dex[Text.ToLower(fields[1])], StrConv.Atoi(fields[2]).value, e, old(sent), sent)
    {
      if |fields| < 2 {
        return Some(BotError(RaidCpCommand, ""));
      }
      var pokemonName := Text.ToLower(fields[1]);
      if pokemonName in dex {
        var p := dex[pokemonName];
        if |fields| == 2 {
          PrintToDiscord(Pokemon.RaidRangeText(p, Pokemon.GetRaidCPRange(f, p)));
        } else {
          var cp := StrConv.Atoi(fields[2]);
          if cp.err.Some? {
            return Some(BotError(RaidCpCommand, ""));
          }
          e := SendRaidIv(f, levelText, p, cp.value);
          return;
        }
        e := None;
      } else {
        return Some(BotError(PokemonUnrecognized, fields[1]));
      }
    }

    /** The raid IV part of PrintRaidCPToDiscord: the chart for the CP, or
        ERR_NO_COMBINATIONS when it is empty. */
    method SendRaidIv(f: CPFormula, levelText: real -> string, p: Pokemon.Pokemon, raidcp: int) returns (e: Option<BotError>)
      modifies this
      ensures err == old(err)
      ensures RaidIvOutcome(f, levelText, p, raidcp, e, old(sent), sent)
    {
      var ivChart, all := Pokemon.GetRaidIV(f, levelText, p, raidcp);
      if |ivChart| == 0 {
        e := Some(BotError(NoCombinations, p.name));
      } else {
        PrintToDiscord(ivChart);
        e := None;
      }
      assert (|all| == 0 ==> e == Some(BotError(NoCombinations, p.name)) && sent == old(sent))
        && (|all| > 0 ==> e.None? && sent == old(sent) + [Pokemon.RaidIvChart(levelText, p.name, raidcp, all)]);
    }

    /** PrintRaidChartToDiscord: the raid CP chart of a known creature. */
    method PrintRaidChartToDiscord(f: CPFormula, dex: map<string, Pokemon.Pokemon>) returns (e: Option<BotError>)
      modifies this
      ensures err == old(err)
      ensures |fields| < 2 ==> e == Some(BotError(RaidChartCommand, "")) && sent == old(sent)
      ensures |fields| >= 2 && Text.ToLower(fields[1]) !in dex ==>
        e == Some(BotError(PokemonUnrecognized, fields[1])) && sent == old(sent)
      ensures |fields| >= 2 && Text.ToLower(fields[1]) in dex ==> (var p := dex[Text.ToLower(fields[1])];
        e.None? && exists all :: ((forall x :: multiset(all)[x] == if Pokemon.RaidChartMatch(f, p, x) then 1 else 0)
          && Sorted(all) && sent == old(sent) + [Pokemon.RaidChartHeader(p.name) + Text.Join(Pokemon.Lines(PrintChartRow, all), "\n")]))
    {
      if |fields| < 2 {
        return Some(BotError(RaidChartCommand, ""));
      }
      var pokemonName := Text.ToLower(fields[1]);
      if pokemonName in dex {
        var chart, all := Pokemon.GetRaidCPChart(f, dex[pokemonName]);
        PrintToDiscord(chart);
        e := None;
      } else {
        return Some(BotError(PokemonUnrecognized, fields[1]));
      }
    }

    /** PrintMovesToDiscord: the fast and charge moves of a known creature. */
    method PrintMovesToDiscord(dex: map<string, Pokemon.Pokemon>) returns (e: Option<BotError>)
      modifies this
      ensures err == old(err)
      ensures |fields| < 2 ==> e == Some(BotError(MovesCommand, "")) && sent == old(sent)
      ensures |fields| >= 2 && Text.ToLower(fields[1]) !in dex ==>
        e == Some(BotError(PokemonUnrecognized, fields[1])) && sent == old(sent)
      ensures |fields| >= 2 && Text.ToLower(fields[1]) in dex ==> (var p := dex[Text.ToLower(fields[1])];
        e.None? && sent == old(sent) + [MovesMessage(p)])
    {
      if |fields| < 2 {
        return Some(BotError(MovesCommand, ""));
      }
      var pokemonName := Text.ToLower(fields[1]);
      if pokemonName in dex {
        var p := dex[pokemonName];
        var fast := Moves.Print(p.moves.fast);
        var charge := Moves.Print(p.moves.charge);
        PrintToDiscord("Moves for **" + p.name + "**:\nFast: " + fast + "\nCharge: " + charge);
        e := None;
      } else {
        return Some(BotError(PokemonUnrecognized, fields[1]));
      }
    }

    /** PrintTypeToDiscord: the type names of a known creature. */
    method PrintTypeToDiscord(dex: map<string, Pokemon.Pokemon>) returns (e: Option<BotError>)
      modifies this
      ensures err == old(err)
      ensures |fields| < 2 ==> e == Some(BotError(TypesCommand, "")) && sent == old(sent)
      ensures |fields| >= 2 && Text.ToLower(fields[1]) !in dex ==>
        e == Some(BotError(PokemonUnrecognized, fields[1])) && sent == old(sent)
      ensures |fields| >= 2 && Text.ToLower(fields[1]) in dex ==> (var p := dex[Text.ToLower(fields[1])];
        e.None? && sent == old(sent) + ["Type for **" + p.name + "**: " + Text.Join(Types.Names(p.types), ", ")])
    {
      if |fields| < 2 {
        return Some(BotError(TypesCommand, ""));
      }
      var pokemonName := Text.ToLower(fields[1]);
      if pokemonName in dex {
        var p := dex[pokemonName];
        var types := Types.PrintTypeList(p.types);
        PrintToDiscord("Type for **" + p.name + "**: " + types);
        e := None;
      } else {
        return Some(BotError(PokemonUnrecognized, fields[1]));
      }
    }

    /** PrintTypeChartToDiscord: the type chart of a known creature, or else of the type
        whose lower-cased name is given (`typeIds` maps lower-case type names to IDs; a
        missing name looks up the empty ID). */
    method PrintTypeChartToDiscord(table: Types.TypeTable, typeIds: map<string, string>, dex: map<string, Pokemon.Pokemon>)
      returns (e: Option<BotError>)
      modifies this
      ensures err == old(err)
      ensures |fields| < 2 ==> e == Some(BotError(TypeChartCommand, "")) && sent == old(sent)
      ensures |fields| >= 2 && Text.ToLower(fields[1]) in dex ==>
        e.None? && |sent| == |old(sent)| + 1 && sent[..|old(sent)|] == old(sent)
        && CreatureChart(table, dex[Text.ToLower(fields[1])], sent[|old(sent)|])
      ensures |fields| >= 2 && Text.ToLower(fields[1]) !in dex && TypeIdOf(typeIds, Text.ToLower(fields[1])) in table ==>
        e.None? && |sent| == |old(sent)| + 1 && sent[..|old(sent)|] == old(sent)
        && TypeChart(table, table[TypeIdOf(typeIds, Text.ToLower(fields[1]))], sent[|old(sent)|])
      ensures |fields| >= 2 && Text.ToLower(fields[1]) !in dex && TypeIdOf(typeIds, Text.ToLower(fields[1])) !in table ==>
        e == Some(BotError(PokemonUnrecognized, fields[1])) && sent == old(sent)
    {
      if |fields| < 2 {
        return Some(BotError(TypeChartCommand, ""));
      }
      var typeValue := Text.ToLower(fields[1]);
      var id := TypeIdOf(typeIds, typeValue);
      if typeValue in dex {
        var msg := Pokemon.PrintTypeChart(table, dex[typeValue]);
        PrintToDiscord(msg);
      } else if id in table {
        var msg := Types.PrintTypeChart(table, table[id]);
        PrintToDiscord(msg);
      } else {
        return Some(BotError(PokemonUnrecognized, fields[1]));
      }
      e := None;
    }
  }
}
