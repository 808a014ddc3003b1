# haynesbot core in Dafny

A model of the Discord bot haynesbot, covering its creature stat engine and the small
rules around it. The bot answers questions about the creatures of a mobile collection
game. It computes a creature's combat power (CP) from its base stats, its three hidden
individual values (IVs, each 0 to 15) and its level. It recovers the IV combinations
that explain an observed CP, either in one command or through a short question-and-answer
calculator. It charts raid CPs and type effectiveness, colours percentage rows, keeps
per-guild settings, and routes chat commands.

Modules, one per source file or library:

- `CP` (`cp.dfy`) models `pokemon/cp.go`:
  - the level-to-multiplier tables and the stardust bands;
  - the CP wrapper with its floor of 10;
  - the quality percentage and its rounding;
  - the chart ordering and the in-place sort on an array;
  - the chart row printers.
- `Pokemon` (`pokemon.dfy`) models `pokemon/pokemon.go`:
  - `GetCP`, `GetMaxCP` and the raid CP range;
  - the three brute-force loop nests (`getIV`, `GetRaidCPChart`, `GetRaidIV`), as one imperative nest proved equal to a lexicographic specification;
  - the multiplication of type relations and the creature type chart.
- `IvCalculator` (`ivcalculator.dfy`) models `pokemon/ivcalculator.go`:
  - the status machine of one calculation, as a class and as a function on requests;
  - the registry of running calculations and the per-message dispatch rule.
- `Types` (`types.dfy`) models `pokemon/type.go`: scalar lookups, the five-way bucketing and the type chart.
- `Moves` (`moves.dfy`) models `pokemon/move.go`: `MoveList.Print`.
- `Tables` (`tables.dfy`) models `tables.go`: the `PercentColor` ramp, and the row set of its test.
- `Guilds` (`guilds.dfy`) models `guilds.go`:
  - the guild settings list with its upsert;
  - the settings setters;
  - the role and channel lookups and the team-role check.
- `Bot` (`bot.dfy`) models `bot.go`:
  - the message routing decision and the command name;
  - argument reading for `!iv`, `!cp` and `!maxcp`;
  - the error texts;
  - the command handlers as methods of `BotResponse`.
- `Text`, `StrConv` and `Wrappers` are support modules:
  - `Text` models the parts of Go's `strings` that the source uses;
  - `StrConv` models the parts of `strconv` it uses (decimal `Atoi`, `Itoa`, and `ParseFloat` for plain decimals);
  - `Wrappers` holds `Option` and `Result`.

Modelling choices:

- The floating-point product at `pokemon/cp.go:180` is a parameter, `f: CPFormula`. It maps effective attack, defense, stamina and the multiplier to an `int`. Every property holds for every such function.
- Levels are exact reals. Table keys are the half-integers 1.0 to 40.0.
- `%4.1f` and Go's float formatting are parameters (`levelText`, `numberText`).
- Ranging over a Go map visits the keys in an order the model leaves open. It is modelled by a choice from the keys not yet visited. Results that could depend on that order are stated up to it, or are proved not to depend on it (`Pokemon.GetIVDeterministic`).
- Messages sent to Discord are appended to a `sent` sequence.

Where the description of the system and the code disagree, the model follows the code:

- The level table is not increasing. Level 5.5 has a larger multiplier than 6.0 (`CP.MultiplierNotMonotone`).
- A level missing from the table gives CP 10, not 0, because of the clamp.
- There is no HP filter in the code.
- Truncation to 50 rows appends a note to the message. It sets no flag.
- The sort uses the stored `CP25`/`CP20` fields, which `getIV` and `GetRaidIV` leave at 0 (`Pokemon.IvRowOrder`).
- `GetRaidIV` lists a triple once even when it matches at both raid levels.
- The calculator dispatch, status numbering and error paths are those of `pokemon/ivcalculator.go`.

## Model

| member | source | states |
|---|---|---|
| CP.NewMultiplierMap | pokemon/cp.go:47-127 | the table has a multiplier exactly for the half-integer levels 1.0 to 40.0 |
| CP.MultiplierMap | pokemon/cp.go:129-170 | the old table has a multiplier exactly for the whole levels 1 to 40, each between 0.09 and 0.8 |
| CP.AllLevelsAreTheKeys | pokemon/cp.go:47-127 | the 79 listed levels are exactly the table's keys, strictly increasing, each once |
| CP.MultiplierNotMonotone | pokemon/cp.go:57-59 | the multiplier at 5.5 exceeds the one at 6.0 and equals the one at 6.5 |
| CP.TablesAgree | pokemon/cp.go:47-170 | the old whole-level table and the new table give the same multiplier at every level 1 to 40 |
| CP.StardustMap | pokemon/cp.go:24-45 | only a multiple of 100 from 200 to 10000 is a key; its band has four levels, two for 10000, all from 1.0 up to below 40.0 |
| CP.BandLevel | pokemon/cp.go:24-45 | each level of a stardust band is a table key, costs that band's stardust, and the band rises by half a level per entry |
| CP.StardustBandLevels | pokemon/cp.go:24-45 | every level in a band is a table key whose power-up costs exactly that band's stardust |
| CP.StardustBandIncreasing | pokemon/cp.go:24-45 | each band lists its levels strictly increasing, hence without repeats |
| CP.StardustBandsDisjoint | pokemon/cp.go:24-45 | a level belongs to at most one band |
| CP.StardustBandSizes | pokemon/cp.go:24-45 | every band has four levels except 10000, which has two; 40.0 is in no band; stardust 0 is not a key |
| CP.GetStatValue | pokemon/cp.go:172-176 | the effective stat is base plus IV, whatever the level |
| CP.CalculateCP | pokemon/cp.go:178-186 | the CP is never below 10; an unknown level gives exactly 10; a known level gives the raw product, raised to exactly 10 when the product is below 10 |
| CP.Round | pokemon/cp.go:266-268 | rounds to the nearest integer, halves away from zero, on both signs |
| CP.QualityPercent | pokemon/pokemon.go:161 | for an IV sum 0..45 the percentage lies in 0..100, and a perfect triple is 100 |
| CP.QualityPercentClosedForm | pokemon/cp.go:266-268 | for an IV sum 0..45 the percentage is (40·sum+9) div 18, lies in 0..100, is 100 iff the sum is 45 and is at least 90 iff the sum is at least 41 |
| CP.Precedes | pokemon/cp.go:228-249 | a row goes before another only if its level is at least as high |
| CP.PrecedesTrichotomy | pokemon/cp.go:228-249 | the chart order is irreflexive, and of two rows differing in any sort key exactly one goes first |
| CP.PrecedesTransitive | pokemon/cp.go:228-249 | the chart order is transitive |
| CP.SortedUnique | pokemon/cp.go:201-253 | two sorted orderings of the same rows are equal when rows with equal keys are equal, so the sort algorithm does not matter |
| CP.Swap | pokemon/cp.go:220-222 | exchanges two rows and keeps the multiset of rows |
| CP.SortChart | pokemon/cp.go:201-253 | the array ends sorted by the chart order and is a permutation of its old contents |
| CP.PrintChartRow | pokemon/cp.go:255-260 | the raid chart line contains a '%' exactly when the row is not 100% |
| CP.Pad2 | pokemon/cp.go:262-264 | `%2d` pads with spaces on the left to two columns and keeps the digits at the end |
| CP.PrintIVRow | pokemon/cp.go:262-264 | the IV chart line is in backquotes and ends with a percent sign |
| CP.PrintIVRowColumns | pokemon/cp.go:262-264 | with IVs in 0..15 each IV column is two wide, and the line is in backquotes ending in "%`" |
| Pokemon.GetCP | pokemon/pokemon.go:245-252 | the CP of the creature is at least 10, is 10 at an unknown level, and is otherwise the clamped product of base-plus-IV stats at the level's multiplier |
| Pokemon.GetMaxCP | pokemon/pokemon.go:254-259 | 0 exactly for the placeholder stats 1/1/1; otherwise the CP at level 40 with IVs 15/15/15, at least 10 |
| Pokemon.GetRaidCPRange | pokemon/pokemon.go:94-100 | the four numbers are the CPs of IVs 10/10/10 and 15/15/15 at levels 20 and 25 |
| Pokemon.BestString | pokemon/pokemon.go:142-159 | the appraisal string names one to three stats, and all three when the IVs are equal |
| Pokemon.PassesBest | pokemon/pokemon.go:142-159 | an empty filter passes every triple and a filter longer than three letters passes none |
| Pokemon.BestStringMeaning | pokemon/pokemon.go:142-159 | the appraisal names exactly the stats equal to the highest, in the order a, d, s; a filter with an 'h' passes nothing |
| Pokemon.Row | pokemon/pokemon.go:162-170 | a kept row carries its own level and IVs and the rounded percentage |
| Pokemon.RowsSound | pokemon/pokemon.go:136-176 | every row of the loop nest is built for a kept tuple at a listed level with IVs among the visited values |
| Pokemon.RowsComplete | pokemon/pokemon.go:136-176 | every kept tuple at a listed level with visited IVs has its row in the nest's output |
| Pokemon.RowsDistinct | pokemon/pokemon.go:136-176 | with no repeated level, no tuple is appended twice |
| Pokemon.AllRowsCount | pokemon/pokemon.go:136-176 | the nest's output holds each row of a kept tuple exactly once and nothing else |
| Pokemon.CollectRows | pokemon/pokemon.go:136-176 | the four nested loops append exactly the rows of the lexicographic specification |
| Pokemon.Visit | pokemon/pokemon.go:140-171 | one inner iteration appends a row exactly when the search keeps the tuple, and the row is the specified one |
| Pokemon.MultiplierKeys | pokemon/pokemon.go:122-129 | ranging over the level table yields every table key once |
| Pokemon.PossibleLevels | pokemon/pokemon.go:115-130 | a non-zero level gives only that level; else a known stardust cost gives its band; else every table level; never a repeat |
| Pokemon.CandidatesAreTableLevels | pokemon/pokemon.go:115-130 | without a level every candidate is a table key, and with a known stardust cost it costs exactly that much |
| Pokemon.SortRows | pokemon/pokemon.go:183 | the rows come back sorted and permuted |
| Pokemon.PrintRows | pokemon/pokemon.go:189-191 | one printed line per row, in row order |
| Pokemon.Shown | pokemon/pokemon.go:185-188 | the shown rows are the first 50, or all when there are at most 50 |
| Pokemon.IvRowsExact | pokemon/pokemon.go:136-176 | the getIV nest yields exactly the matching rows, each once |
| Pokemon.GetIV | pokemon/pokemon.go:102-194 | the chart is built from a sorted list holding each row that matches the request (candidate level, IVs 0..15, filter, CP) exactly once |
| Pokemon.GetIVDeterministic | pokemon/pokemon.go:122-183 | the sorted list of matches is unique, so map order and the sort algorithm do not change the chart |
| Pokemon.IvChartShape | pokemon/pokemon.go:178-193 | empty iff nothing matches; more than 50 matches show the first 50 plus the overflow note; otherwise all rows without a note |
| Pokemon.GetIVRoundTrip | pokemon/pokemon.go:102-194 | the CP of a triple at a level, asked back with that level and no filter (or its own appraisal), lists that triple |
| Pokemon.ShownBeforeHidden | pokemon/pokemon.go:183-188 | after truncation each shown row goes strictly before each hidden one |
| Pokemon.IvRowOrder | pokemon/pokemon.go:162-170 | without raid CPs the order is level, then percent, attack, defense, stamina, all descending |
| Pokemon.RaidChartRowsExact | pokemon/pokemon.go:55-83 | the raid chart nest yields exactly the triples in 10..15 rated at least 90%, each once, with their CPs at 20 and 25 |
| Pokemon.RaidChartNest | pokemon/pokemon.go:55-83 | a row is in the raid chart nest iff it is a matching raid chart row |
| Pokemon.GetRaidCPChart | pokemon/pokemon.go:54-92 | the header then one line per matching triple, sorted, each exactly once |
| Pokemon.RaidChartTriples | pokemon/pokemon.go:66-69 | for IVs 10..15, rated at least 90% iff the IVs sum to at least 41 |
| Pokemon.RaidIvRowsExact | pokemon/pokemon.go:202-221 | the raid IV nest yields each triple in 10..15 whose CP at level 20 or 25 is the target, exactly once |
| Pokemon.RaidIvNest | pokemon/pokemon.go:202-221 | a row is in the raid IV nest iff it matches the target at level 20 or 25 |
| Pokemon.RaidIvChart | pokemon/pokemon.go:223-233 | the message is empty exactly when nothing matches |
| Pokemon.GetRaidIV | pokemon/pokemon.go:196-234 | the chart of the sorted matching triples, each once even when both levels match |
| Pokemon.ProductAt | pokemon/pokemon.go:261-285 | the relation has exactly the keys of some type's map, each holding the product of the scalars the types give it |
| Pokemon.ProductSingle | pokemon/pokemon.go:266-282 | a single type's relation is its own scalar map |
| Pokemon.Multiply | pokemon/pokemon.go:268-273 | one pass multiplies every scalar into the relation, starting absent keys at 1 |
| Pokemon.MultiplyType | pokemon/pokemon.go:267-281 | one type multiplies in its attack scalars and one possible defense map |
| Pokemon.GetTypeRelations | pokemon/pokemon.go:261-285 | attack is the product of the types' attack maps and defense that of possible defense maps |
| Pokemon.PrintTypeChart | pokemon/pokemon.go:287-339 | the chart is the bucketed text of the creature's relations for some visiting order of their keys |
| Pokemon.SingleTypeAttack | pokemon/pokemon.go:261-285 | a single-type creature's attack relation is its type's attack scalars |
| IvCalculator.Question | pokemon/ivcalculator.go:136-146 | a question is asked exactly in the starting, got-creature and got-CP statuses |
| IvCalculator.Answer | pokemon/ivcalculator.go:155-179 | the status never decreases and a request whose status stays put is unchanged; a failure needs a nil IV |
| IvCalculator.Respond | pokemon/ivcalculator.go:153-186 | status never decreases; outside the three expecting statuses and calculating, nothing changes |
| IvCalculator.RespondTransitions | pokemon/ivcalculator.go:153-192 | per status: a known creature name moves to expecting a CP, an unknown one changes nothing; an integer CP is stored and moves to expecting a level; a number is stored as the level and completes; a malformed reply changes nothing; a nil IV (or creature) fails; calculating completes |
| IvCalculator.Started | pokemon/ivcalculator.go:75-86 | corrected start: expecting a creature with the IV allocated |
| IvCalculator.StartAsWritten | pokemon/ivcalculator.go:75-86 | as-written start: expecting a creature with a nil IV |
| IvCalculator.NilIvDereference | pokemon/ivcalculator.go:164-168 | as written, a known creature then an integer CP dereferences the nil IV |
| IvCalculator.NilIvDereferenceExample | pokemon/ivcalculator.go:164-168 | "Pikachu" then "100" fails as written |
| IvCalculator.RespondReachable | pokemon/ivcalculator.go:153-186 | from a reachable request every message succeeds and stays reachable |
| IvCalculator.RunNeverFails | pokemon/ivcalculator.go:153-186 | with the IV allocated no sequence of messages fails |
| IvCalculator.RunToDone | pokemon/ivcalculator.go:153-192 | a known name, an integer CP and a number finish the calculation with those values |
| IvCalculator.Replies | pokemon/ivcalculator.go:153-179 | at most one text reply, and none outside the expecting statuses |
| IvCalculator.IvCalculation.Said | pokemon/ivcalculator.go:194-197 | each message is posted after the user's mention and a space |
| IvCalculator.IvCalculation.constructor | pokemon/ivcalculator.go:76-81 | a new calculation starts at status 0 with the IV allocated and nothing sent |
| IvCalculator.IvCalculation.PrintToDiscord | pokemon/ivcalculator.go:194-197 | posts one mentioned message and changes no state |
| IvCalculator.IvCalculation.AskQuestion | pokemon/ivcalculator.go:136-151 | status goes up by exactly 1, and the question for the old status is posted when there is one |
| IvCalculator.IvCalculation.Calculate | pokemon/ivcalculator.go:188-192 | posts the IV chart for the request and moves the status on by 1 |
| IvCalculator.IvCalculation.GetResponse | pokemon/ivcalculator.go:153-186 | the request changes as Respond says; the replies are posted, and the chart when the calculation completes |
| IvCalculator.IvCalculator.constructor | pokemon/ivcalculator.go:47-52 | the registry starts empty |
| IvCalculator.IvCalculator.Start | pokemon/ivcalculator.go:75-86 | a fresh calculation replaces any earlier one for the user, expecting a creature, having asked for it |
| IvCalculator.IvCalculator.Stop | pokemon/ivcalculator.go:112-116 | removes only that user |
| IvCalculator.IvCalculator.IsRunning | pokemon/ivcalculator.go:118-125 | true iff the user is registered |
| IvCalculator.IvCalculator.GetCalculation | pokemon/ivcalculator.go:127-134 | the user's calculation, or nil when absent |
| IvCalculator.IvCalculator.Dispatch | pokemon/ivcalculator.go:55-69 | a new user is started; a finished one restarted; an unfinished one in the same channel gets the content; otherwise nothing |
| Types.Names | pokemon/type.go:35-41 | the names of the list, one per type, in order |
| Types.PrintTypeList | pokemon/type.go:35-41 | the names joined in list order with ", " |
| Types.PrintTypeListShort | pokemon/type.go:35-41 | an empty list prints "", a single type its name |
| Types.NameOf | pokemon/type.go:100 | the name of a known type ID, and "" for an unknown one, as Go's zero value |
| Types.GetAttackTypeScalars | pokemon/type.go:95-105 | empty for an unknown ID; otherwise the scalars of the damage list keyed by target name |
| Types.AttackScalarsContents | pokemon/type.go:95-105 | the keys are exactly the target names, and each holds the scalar of the last record for that name |
| Types.GetDefenseTypeScalars | pokemon/type.go:107-122 | nil iff the ID is unknown; otherwise every type mentioning the ID maps to one of its scalars for it, and nothing else |
| Types.Classify | pokemon/type.go:53-76 | above 1.9 doubly strong, 1.4 to 1.9 strong, at most 0.6 doubly weak, above 0.6 to 0.8 weak, else neutral; each scalar in exactly one bucket |
| Types.SplitContents | pokemon/type.go:53-76 | each strong or weak name lands in its list under its label, and nothing else is listed |
| Types.SplitEmpty | pokemon/type.go:53-76 | a map contributes nothing exactly when every scalar is neutral |
| Types.RangeKeys | pokemon/type.go:53-66 | ranging over a map visits every key once |
| Types.Bucket | pokemon/type.go:53-76 | the loop builds the two lists of the bucketing for its visiting order |
| Types.Section | pokemon/type.go:79-90 | a section is empty exactly when its list is |
| Types.AppendSections | pokemon/type.go:78-92 | the title, then each non-empty list under its heading, in the fixed order |
| Types.ChartTextTitleOnly | pokemon/type.go:78-92 | the chart is the title alone exactly when every scalar is neutral |
| Types.PrintChart | pokemon/type.go:52-92 | the chart text for some visiting order of both maps |
| Types.PrintTypeChart | pokemon/type.go:42-93 | one type's chart from its attack scalars and one possible defense map |
| Moves.ShortNames | pokemon/move.go:19-27 | one printed name per move |
| Moves.Print | pokemon/move.go:19-27 | the short names, in list order, joined with ", " |
| Moves.PrintShort | pokemon/move.go:19-27 | an empty list prints "", one move its short name |
| Moves.ShortName | pokemon/move.go:23 | the short name is no longer than the name and has no surrounding space |
| Moves.ShortNamePlain | pokemon/move.go:23 | a name without "Fast" and without surrounding space prints unchanged |
| Moves.ShortNameFirstOnly | pokemon/move.go:23 | only the first "Fast" is removed, and the rest is kept before trimming |
| Moves.PrintLength | pokemon/move.go:21-26 | the output is as long as the names plus two characters per gap |
| Tables.Quo100 | tables.go:27-28 | Go's integer division by 100, truncating toward zero |
| Tables.Uint8 | tables.go:44 | Go's uint8 conversion lands in a byte and keeps a byte value |
| Tables.Green | tables.go:27-39 | the green ramp is never above 255, and not below 0 up to 95 percent |
| Tables.Red | tables.go:28-42 | the red ramp is never above 255, and not below 0 up to 100 percent |
| Tables.PercentColor | tables.go:25-45 | blue 0, alpha 255, red and green the converted clamped ramps |
| Tables.NoWrap | tables.go:25-44 | for a percentage both ramps are bytes, so no conversion wraps |
| Tables.GreenZero | tables.go:27-39 | green is 0 iff the percentage is at most 83 |
| Tables.RedFull | tables.go:28-42 | red is 255 iff the percentage is at most 91 |
| Tables.GreenTop | tables.go:32-36 | green is 255 from 92 to 95 and drops by 12 per point above 95 |
| Tables.FullPercent | tables.go:25-45 | 100 percent is green 195 with no red |
| Tables.TableColors | tables_test.go:10-12 | 101 rows, for every percentage from 100 down to 0, each with its colour |
| Guilds.IsValidTeam | guilds.go:303-310 | true iff the text is exactly mystic, valor, instinct or kith |
| Guilds.FirstIndex | guilds.go:339-343 | the position of the first entry with the ID, or none when no entry has it |
| Guilds.UpsertShape | guilds.go:335-347 | a known ID keeps the length, a new one appends, other entries are unchanged |
| Guilds.UpsertLookup | guilds.go:335-347 | after storing, the ID finds the new settings and every other ID finds what it did |
| Guilds.UpsertUnique | guilds.go:335-347 | storing keeps IDs unique and storing twice is the same as once |
| Guilds.Synced | guilds.go:336-338 | the live name replaces the stored one only when it is non-empty, and nothing else changes |
| Guilds.Guild.constructor | guilds.go:49-53 | a guild with the given live data and settings |
| Guilds.Guild.CheckRoles | guilds.go:136-155 | no error iff every team role exists by name; otherwise a missing team role is named |
| Guilds.Guild.GetChannelID | guilds.go:158-166 | the ID of the first channel with the name, or an error naming it and an empty ID |
| Guilds.Guild.GetRoleID | guilds.go:169-177 | the ID of the first role with the name, or an error naming it and an empty ID |
| Guilds.Guild.Update | guilds.go:93-98 | settings without a name are synced and stored, passing on the save error; otherwise nothing changes |
| Guilds.Guild.SetPrefix | guilds.go:101-105 | the prefix is set and the synced settings stored under the guild's ID |
| Guilds.Guild.SetWelcome | guilds.go:108-112 | the welcome text is set and the synced settings stored |
| Guilds.Guild.SetGoodbye | guilds.go:115-119 | the goodbye text is set and the synced settings stored |
| Guilds.Guild.Manage | guilds.go:122-126 | the managed flag is set and the synced settings stored |
| Guilds.Guild.ManageTeams | guilds.go:129-133 | the teams flag is set and the synced settings stored |
| Guilds.GuildSettings.constructor | guilds.go:33-36 | the settings list starts empty |
| Guilds.GuildSettings.Add | guilds.go:335-347 | syncs the guild's name, upserts its settings under its ID and returns the receiver |
| Guilds.GuildRegistry.constructor | guilds.go:27-29 | no guilds are known |
| Guilds.GuildRegistry.NewGuild | guilds.go:76-90 | a fresh unmanaged guild without teams, with the configured prefix, registered under its ID |
| Bot.ErrorTextCases | bot.go:440-454 | the three creature errors with a name mention it; every other error is its base text |
| Bot.ErrorText | bot.go:445-454 | an error that is not a named creature error reads as its base text; a named one is longer than the name |
| Bot.CommandNameStrips | bot.go:100 | a word, "!word" and "!word?" all name the command word |
| Bot.CommandName | bot.go:100 | removing the first '!' and the first '?' shortens the field by at most two characters |
| Bot.Handle | bot.go:135-217 | without the prefix a message goes to a running calculation or is dropped; the bot's own and empty messages are dropped; an easter egg in the second field answers; a known command runs, except `!ivcalc` outside its channels, which is refused as the wrong channel; an unknown command is ignored |
| Bot.EggPreempts | bot.go:155-160 | an easter egg in the second field answers whatever the command |
| Bot.EggIgnoresCase | bot.go:155-160 | "HAYNES" is matched as "haynes" |
| Bot.LevelOrStardust | bot.go:242-255 | up to 40 the number is the level; above it, its integer part is the stardust and the level is 0 |
| Bot.IvRequest | bot.go:230-268 | a failure is the `!iv` error; a success has at least three fields and carries the lower-cased name and the parsed CP |
| Bot.BestAsWrittenBlocksStamina | bot.go:257-268 | as written, asking for best stamina makes every triple fail the filter |
| Bot.BestMatchesAppraisal | bot.go:257-268 | corrected, typing a triple's appraisal gives exactly its appraisal string, which passes |
| Bot.BestLetters | bot.go:257-268 | corrected, the filter holds 'a', 'd' and 's' exactly when the field holds 'a', 'd' and 'h' |
| Bot.IvRequestShape | bot.go:230-268 | an error exactly when a field is missing or malformed, and then the `!iv` error; otherwise the parsed request |
| Bot.NoCombinationsExactly | bot.go:270-279 | the chart is empty, and "no combinations" reported, exactly when no triple matches |
| Bot.CpIgnoresBadLevel | bot.go:291-297 | as written, a malformed level is accepted as 0 when the stamina field parses |
| Bot.CpRequestAsWritten | bot.go:284-297 | as written, the request is accepted exactly when there are six fields and the stamina field parses; otherwise the `!cp` error |
| Bot.CpBadLevelExample | bot.go:284-308 | as written, `!cp mewtwo abc 15 14 15` is accepted at level 0 and answers CP 10 |
| Bot.CpRequestChecked | bot.go:284-297 | corrected, the request is accepted exactly when every number field is well formed, and then agrees with the as-written one |
| Bot.CpMessageMarker | bot.go:301 | as written, the reply shows Go's "%!d(" marker where the level belongs |
| Bot.CpMessageShowsLevel | bot.go:301 | corrected, the reply shows the level's text where it belongs |
| Bot.MaxCpOutcomes | bot.go:310-328 | "no stats" exactly for a known creature with stats 1/1/1; an unknown name is reported raw; otherwise the CP at 40 with 15/15/15 |
| Bot.MaxCpReply | bot.go:310-328 | the `!maxcp` error exactly when the name is missing; a reply only for a known creature |
| Bot.BotResponse.constructor | bot.go:91-93 | a response for the fields with no error and nothing sent |
| Bot.BotResponse.GetCommandName | bot.go:95-102 | no fields: "" and the unrecognised-command error; otherwise the first field's command name |
| Bot.BotResponse.PrintToDiscord | bot.go:426-429 | sends one message |
| Bot.BotResponse.ReadIvRequest | bot.go:231-268 | the local parsing gives the corrected `!iv` request, `Bot.IvRequest` |
| Bot.BotResponse.PrintIVToDiscord | bot.go:230-282 | a malformed request or unknown creature gives its error; otherwise the chart is sent, or "no combinations" when it is empty |
| Bot.BotResponse.PrintCPToDiscord | bot.go:284-308 | corrected: a malformed request or unknown creature gives its error; otherwise the reply with the creature's CP |
| Bot.BotResponse.PrintMaxCPToDiscord | bot.go:310-328 | sends the `!maxcp` reply or returns its error |
| Bot.BotResponse.PrintRaidCPToDiscord | bot.go:346-373 | the CP range without a CP; a malformed CP is the raid error; otherwise the raid IV chart, or "no combinations" |
| Bot.BotResponse.SendRaidIv | bot.go:361-366 | sends the raid IV chart, or returns "no combinations" when it is empty |
| Bot.BotResponse.PrintRaidChartToDiscord | bot.go:330-344 | the raid chart of a known creature, else its error |
| Bot.BotResponse.PrintMovesToDiscord | bot.go:375-390 | the fast and charge moves of a known creature, else its error |
| Bot.BotResponse.PrintTypeToDiscord | bot.go:392-407 | the type names of a known creature, else its error |
| Bot.BotResponse.PrintTypeChartToDiscord | bot.go:409-424 | a creature's chart first, then a type's chart by name, else "unrecognised" |

## Left out

- Discord I/O is not modelled. Messages sent are recorded in `sent` sequences, and the session, users and channels are reduced to IDs and texts.
- Concurrency is not modelled: the goroutines, channels, the read-write lock and the one-minute timeout of the calculator. The registry and the status transitions are sequential.
- Loading and saving files is not modelled. This covers the `init` functions, `readGuildSettings`, `save` (its error is the `saveErr` parameter of `Guilds.Guild.Update`) and the configuration files.
- The floating-point CP product (`math.Pow`, truncation to int) is the parameter `f`. Monotonicity in the IVs and min ≤ max of the raid range depend on it and are not stated.
- `%4.1f`, `%v` of a float64 and Go's float formatting are not modelled. They are the parameters `levelText` and `numberText`.
- The order in which Go ranges over a map is not fixed by the model. It is a free choice.
- The concrete swaps of Go's `sort.Sort` are not modelled. `CP.SortChart` is a different swap-only sort, and `CP.SortedUnique` shows the sorted result is the same.
- `Text.ToLower` folds ASCII letters only.
- `StrConv.ParseFloat` accepts plain decimals only: no exponents, hexadecimal, Inf or NaN.
- Bot.LevelOrStardust: `int(val)` is an unbounded floor, so Go's conversion of a float beyond the `int64` range is not modelled. (`StrConv.Atoi` does model the `int64` range: it reports a range error and clamps to the nearest bound.)
- `StrConv.ParseFloat` gives the exact decimal value. Rounding to `float64`, and the range error for huge values, are not modelled.
- `strings.Fields` is not modelled. The fields of a message are an input.
- `PrintInfoToDiscord` (the help text) and `StartIVCalculation` are not modelled; they only send fixed text.
- The raid chart image path of `bot.go` is not modelled.
- `AddRole`, `RemoveRole` and `RemoveAllTeams` are not modelled. They are Discord calls.
- `PrintWelcome` and `PrintGoodbye` are not modelled. They are sends, and their template substitution depends on map order.
- `IsOwner`, `IsManaged` and `TeamsManaged` are not modelled. They read Discord state or a single field.
- `GetTable`, `Download`, `imageReader.go`, `main.go`, `config.go` and the stub `PrintToDiscord` of `pokemon/cp.go` are not part of this model.
- The text of the guild errors is not part of this model. The lookups return the error by kind and name.
- Bot.BotResponse.PrintCPToDiscord: models the corrected handler, which checks every parse error and prints the level as a number. The as-written behaviour is `Bot.CpRequestAsWritten` and `Bot.CpMessageAsWritten`.
- Bot.BotResponse.PrintIVToDiscord: models the corrected appraisal filter, with 'h' read as 's'. The as-written filter is `Bot.BestAsWritten`.
- IvCalculator.IvCalculator.Start: allocates the IV, which is the corrected behaviour. The as-written start is `IvCalculator.StartAsWritten`.
- IvCalculator.IvCalculation.constructor: allocates the IV that `pokemon/ivcalculator.go:76-81` leaves nil, the corrected behaviour. The as-written request is `IvCalculator.StartAsWritten`.
- Bot.BotResponse.ReadIvRequest: reads a typed 'h' as 's', where `bot.go:265-266` appends "h"; it gives the corrected request. The as-written filter is `Bot.BestAsWritten`.

## Findings

| source | as written | input that shows it | evidently intended | confidence | as-written member | corrected member |
|---|---|---|---|---|---|---|
| pokemon/ivcalculator.go:75-168 | `Start` never allocates `IV`, so storing the CP dereferences a nil pointer | the messages "Pikachu" then "100" | the calculation allocates its `ivStat` and runs to the chart | not executed | IvCalculator.NilIvDereferenceExample | IvCalculator.RunNeverFails |
| bot.go:257-268 | the filter is built with "h" for stamina, but getIV spells stamina "s" | `!iv mewtwo 2000 20 h` always reports no combinations | "h" maps to "s" | not executed | Bot.BestAsWrittenBlocksStamina | Bot.BestMatchesAppraisal |
| bot.go:291-297 | each parse overwrites one error variable and only the last is checked | `!cp mewtwo abc 15 14 15` replies with CP 10 at level 0 | every malformed field gives the `!cp` error | not executed | Bot.CpBadLevelExample | Bot.CpRequestChecked |
| bot.go:301 | the float64 level goes to a `%d` verb | `!cp mewtwo 25 15 14 15` prints "at level %!d(float64=25)" | the level is printed as a number | not executed | Bot.CpMessageMarker | Bot.CpMessageShowsLevel |
