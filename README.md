# Star Trek Adventures pool tracker, modelled in Dafny

The Roll20 "Star Trek Adventures" pool tracker keeps two counters, Momentum
and Threat, in the game's persistent state record and changes them from chat
commands. This project models the two shipped versions of its
command-handling core and proves what each guarantees:

- `0.1.2/tracker.js` recognizes `!momentum`/`!m` and `!threat`/`!t` and knows
  the actions `show`, `empty`, `add`, `sub` and `set`. It whispers the
  pools on a bare command. It checks an operand with
  `isNaN` and then `parseInt`, and rewrites a handout after every change
  made by a chat command from a known player.
- `0.1.0/tracker.js` recognizes `!momentum` and `!threat` only and knows
  `reset`, `add`, `sub` and `set`. It posts the pools publicly. It accepts
  whatever `parseInt` returns, NaN included.

Each inbound `chat:message` goes through four steps:

1. the message filter (type `api`, a prefix found by `_.find` over the
   command table);
2. the tokenizer (`split(' ')`, first word dropped);
3. the dispatcher `_handleCmd`;
4. the pool mutator `_modifyPool`.

The pools are rendered by `_buildPoolHtml`. Every chat post and handout
write becomes an `Event` appended to a log: `Whisper`, `Broadcast`,
`Announce`, `HandoutSet` or `Error`.

Layout:

- `text.dfy`, module `Text`: the prefix search, `split(' ')` and its inverse
  `Join`, decimal printing (`toString(10)`), and lemmas for reading fields back
  out of a concatenation.
- `js_number.dfy`, module `JsNumber`: the two JavaScript conversions the
  tracker relies on, following ECMA-262:
  - `parseInt` with no radix (section 19.2.5);
  - the `StringNumericLiteral` grammar of `StringToNumber` behind `isNaN`
    (section 7.1.4.1), as a left-to-right lexer `Lex`.
- `pools.dfy`, module `Pools`: the shared state and event types:
  - the pool value `Num(n) | NaN`;
  - the record `PoolState`;
  - `Message`, `Event`, `Outcome`;
  - what the exported setters do to the record.
- `tracker_0_1_2.dfy` and `tracker_0_1_0.dfy`: for each version,
  - pure functions giving the outcome (new record and events) of
    `_modifyPool`, `_handleCmd` and the message handler;
  - a class `PoolTracker` with the fields `pools` and `log`, whose methods
    mirror the source's functions statement by statement and are proved to
    follow those outcome functions. The exception is 0.1.0's
    `'Invalid value (Not a number!)'` branches (0.1.0/tracker.js:106-109 and
    125-128). `_.isNumber` accepts every result of `parseInt`, so
    `ModifyPool` proves those branches unreachable and does not render them.
- `tracker_0_1_2_properties.dfy` and `tracker_0_1_0_properties.dfy`: what
  each version guarantees. They cover recognition, each dispatcher case, and
  round trips over whole messages such as `add` then `sub`. They also cover
  concrete scenarios and rendering.

## Model

| member | source | states |
|---|---|---|
| Text.FindPrefix | 0.1.2/tracker.js:104-107 | `None` exactly when no table entry is a prefix of the content; otherwise the first entry, in declaration order, that is a prefix |
| Text.Split | 0.1.2/tracker.js:108 | `split(' ')` gives at least one piece and no piece contains a space |
| Text.JoinSplit | 0.1.2/tracker.js:108 | joining the pieces of `split(' ')` with single spaces gives back the message text |
| Text.SplitJoin | 0.1.2/tracker.js:108 | splitting space-free words joined by single spaces gives back exactly those words, empty ones included |
| Text.NatToDecimal | 0.1.2/tracker.js:268 | `toString(10)` of a natural number is a non-empty digit string whose value is that number, with no leading zero unless it is `0` itself |
| Text.IntToDecimal | 0.1.2/tracker.js:268 | `toString(10)` of an integer is non-empty and contains neither `<` nor a space |
| Text.DecimalRoundTrip | 0.1.2/tracker.js:268-269 | reading the printed numeral back as a signed decimal gives the number printed |
| JsNumber.TrimStartDropsSpace | 0.1.2/tracker.js:183 | the white-space skip of `parseInt` keeps a suffix that does not start with white space and drops only white space |
| JsNumber.LeadingDigits | 0.1.0/tracker.js:105 | the digits `parseInt` reads are a prefix made of digits, followed by a non-digit or the end |
| JsNumber.LeadingHexDigits | 0.1.2/tracker.js:183 | after `0x` the digits read are a prefix of hexadecimal digits, followed by a non-hex-digit or the end |
| JsNumber.HexDigitValue | 0.1.2/tracker.js:183 | a hexadecimal digit is worth its place in `0123456789abcdef` (or `0123456789ABCDEF` for an upper-case letter), so less than 16 |
| JsNumber.ParseInt | 0.1.0/tracker.js:105 | `parseInt` with no radix; its behaviour is stated by ParseIntOfDecimal, ParseIntStopsAtNonDigit, ParseIntNoDigits and ParseIntSkipsSpace, and by the `0x`, fraction and exponent cases of Tracker012Properties |
| JsNumber.ParseIntStopsAtNonDigit | 0.1.0/tracker.js:105 | `parseInt` of a signed decimal followed by text starting with a non-digit (not `x`) reads the decimal's value |
| JsNumber.ParseIntOfDecimal | 0.1.0/tracker.js:119 | `parseInt` reads an optionally signed decimal integer as its value |
| JsNumber.ParseIntNoDigits | 0.1.0/tracker.js:105 | `parseInt` of text starting with neither white space, a sign nor a digit is NaN |
| JsNumber.ParseIntSkipsSpace | 0.1.0/tracker.js:105 | a leading white-space character does not change what `parseInt` reads |
| JsNumber.LexDigits | 0.1.2/tracker.js:183 | a run of decimal digits keeps the `StringNumericLiteral` lexer in its integer-digits states |
| JsNumber.DecimalIsNumeric | 0.1.2/tracker.js:183 | `isNaN` is false on every optionally signed decimal integer |
| JsNumber.IsNumeric | 0.1.2/tracker.js:183 | `!isNaN(arg1)`: the text is a `StringNumericLiteral`; DecimalIsNumeric, ExponentIgnored, HexOperand, InfinityRejected and DiceNotationRejected state which tokens pass |
| Pools.Put | 0.1.2/tracker.js:189-191 | `pools[poolName] = v` gives the named pool `v` and leaves the other pool alone |
| Pools.PutBack | 0.1.2/tracker.js:189-191 | writing back a pool's earlier value undoes a write to that pool |
| Pools.Plus | 0.1.2/tracker.js:189 | `pools[poolName] += value`; MinusUndoesPlus and ModField state it |
| Pools.Minus | 0.1.2/tracker.js:191 | `pools[poolName] -= value`; MinusUndoesPlus states it |
| Pools.MinusUndoesPlus | 0.1.2/tracker.js:188-192 | subtracting a number undoes adding it, and a NaN pool stays NaN |
| Pools.NameOf | 0.1.2/tracker.js:303-310 | an error has a recipient exactly when there is a requester |
| Pools.SetField | 0.1.2/tracker.js:285-293 | a setter ignores a non-number argument, stores a number in the named field and leaves the other field alone |
| Pools.ModField | 0.1.2/tracker.js:295-302 | a modifier ignores a non-number argument, adds a number to the named field (NaN absorbing) and leaves the other field alone |
| Pools.ValueText | 0.1.2/tracker.js:268-269 | a number renders as a numeral that reads back as that number, and NaN as `NaN` (`_.isNumber(NaN)` is true); the text never contains `<` |
| Pools.ValueTextDeterminesValue | 0.1.2/tracker.js:268-269 | two pool values that print alike are equal |
| Tracker012.BuildPoolHtml | 0.1.2/tracker.js:263-283 | the view; RenderLayout states where each pool's text sits and RenderDeterminesPools that the view determines the record |
| Tracker012.FormatPoolName | 0.1.2/tracker.js:241-250 | the pool's label in announcements; ActionTextMentions and ActionTextExamples state where it appears |
| Tracker012.ActionText | 0.1.2/tracker.js:213-239 | the announcement of `_chatActionTaken`; ActionTextMentions and ActionTextExamples state it |
| Tracker012.PoolsChat | 0.1.2/tracker.js:252-261 | a whisper to the target or a public post; BareCommandWhispers and ShowBroadcasts state both branches |
| Tracker012.OperandValue | 0.1.2/tracker.js:183 | `isNaN(arg1) ? Infinity : parseInt(arg1)` seen through `_.isFinite`; DecimalOperand, FractionTruncated, ExponentIgnored, HexOperand, BinaryReadsAsZero, InfinityRejected and DiceNotationRejected state it |
| Tracker012.ModifyOutcome | 0.1.2/tracker.js:173-211 | on failure the record is unchanged; the pool not named is never changed; on success nothing is posted |
| Tracker012.PoolCaseOutcome | 0.1.2/tracker.js:150-166 | one arm of the pool switch; ValidOperand, MissingOperand, InvalidOperand, UnknownActionRebroadcasts and ChangesAreShown state its outcomes |
| Tracker012.CmdOutcome | 0.1.2/tracker.js:126-171 | `_handleCmd`; BareCommandWhispers, ShowBroadcasts, EmptyZeroesBoth, ReadOnlyCommands and OtherPoolUntouched state its branches |
| Tracker012.MessageOutcome | 0.1.2/tracker.js:101-110 | the message handler; RecognizeByPrefix, IgnoredMessage and HandleWords state which messages reach `_handleCmd`, with what arguments and for which pool |
| Tracker012.PoolTracker.Init | 0.1.2/tracker.js:87-99 | a stored record is kept, otherwise both pools start at 0; the handout notice is posted and the pools are written to the handout |
| Tracker012.PoolTracker.SetHandout | 0.1.2/tracker.js:157 | the handout is overwritten with the current view and the record is unchanged |
| Tracker012.PoolTracker.OnChatMessage | 0.1.2/tracker.js:101-110 | the new record and the events appended are those of `MessageOutcome` |
| Tracker012.PoolTracker.HandleCmd | 0.1.2/tracker.js:126-171 | the new record and the events appended are those of `CmdOutcome` |
| Tracker012.PoolTracker.PoolCase | 0.1.2/tracker.js:150-166 | one arm of the pool switch: the record and events of `PoolCaseOutcome` |
| Tracker012.PoolTracker.ModifyPool | 0.1.2/tracker.js:173-211 | the result, the record and the errors reported are those of `ModifyOutcome` |
| Tracker012.PoolTracker.ChatActionTaken | 0.1.2/tracker.js:213-239 | with a player, the action text for the action is announced as that player; without one nothing is posted and handling stops; the record is unchanged |
| Tracker012.PoolTracker.ChatPools | 0.1.2/tracker.js:252-261 | the view is whispered to the target, or posted publicly without one; the record is unchanged |
| Tracker012.PoolTracker.ReportError | 0.1.2/tracker.js:303-310 | the error is whispered to the requester, or posted publicly without one; the record is unchanged |
| Tracker012.PoolTracker.EmptyPools | 0.1.2/tracker.js:312-319 | both pools become 0, then the view is posted and written to the handout |
| Tracker012.PoolTracker.SetMomentum | 0.1.2/tracker.js:285-288 | the record changes as `SetField` on momentum says, and nothing is posted |
| Tracker012.PoolTracker.SetThreat | 0.1.2/tracker.js:290-293 | the record changes as `SetField` on threat says, and nothing is posted |
| Tracker012.PoolTracker.ModMomentum | 0.1.2/tracker.js:295-298 | the record changes as `ModField` on momentum says, and nothing is posted |
| Tracker012.PoolTracker.ModThreat | 0.1.2/tracker.js:299-302 | the record changes as `ModField` on threat says, and nothing is posted |
| Tracker012Properties.RecognizeByPrefix | 0.1.2/tracker.js:65-70 | a message is a command exactly when it starts with `!m` or `!t`; momentum is selected exactly when it starts with `!m`, threat exactly when it starts with `!t` |
| Tracker012Properties.IgnoredMessage | 0.1.2/tracker.js:101-107 | a non-`api` message, or one starting with neither prefix, changes nothing and posts nothing |
| Tracker012Properties.HandleWords | 0.1.2/tracker.js:104-109 | space-separated words starting with `!m` or `!t` reach `_handleCmd` as all words but the first, targeting the pool the first word selects |
| Tracker012Properties.BareCommandWhispers | 0.1.2/tracker.js:128-131 | with no arguments nothing changes and the view is whispered to the requester, or posted publicly when there is none |
| Tracker012Properties.ShowBroadcasts | 0.1.2/tracker.js:135-139 | `show` changes nothing, announces "Showing pools." and posts the view publicly |
| Tracker012Properties.EmptyZeroesBoth | 0.1.2/tracker.js:141-145 | `empty` under either prefix zeroes both pools, announces it, posts the view and rewrites the handout |
| Tracker012Properties.ValidOperand | 0.1.2/tracker.js:183-192 | a valid operand adds to, subtracts from or replaces the selected pool; the other pool is untouched; the action is announced, the view posted and the handout rewritten; without a requester nothing is posted |
| Tracker012Properties.ActionTextMentions | 0.1.2/tracker.js:224-232 | the announcement of `add`, `sub` or `set` starts with the player's name and contains the operand in bold and the formatted pool name |
| Tracker012Properties.ActionTextExamples | 0.1.2/tracker.js:220-236 | the announcement texts of `add`, `sub`, `set` with no operand (`null`), `show`, and an unknown action, written out for one player |
| Tracker012Properties.MissingOperand | 0.1.2/tracker.js:178-181 | a missing or empty operand reports the "Missing value" text naming the pool, and changes nothing |
| Tracker012Properties.InvalidOperand | 0.1.2/tracker.js:183-187 | an operand rejected by `isNaN` or unreadable by `parseInt` reports the "Invalid value" text and changes nothing |
| Tracker012Properties.UnknownActionRebroadcasts | 0.1.2/tracker.js:150-166 | an unknown action word leaves the record as it is, but announces an empty text, posts the view and rewrites the handout |
| Tracker012Properties.NaNPoolIgnoresCommands | 0.1.2/tracker.js:175 | when the selected pool holds a non-number, every action but `show` and `empty` is silently dropped |
| Tracker012Properties.ReadOnlyCommands | 0.1.2/tracker.js:128-171 | a bare command, `show` and an unknown action never change the record |
| Tracker012Properties.OtherPoolUntouched | 0.1.2/tracker.js:150-166 | apart from `empty`, a command never changes the pool it does not select |
| Tracker012Properties.ChangesAreShown | 0.1.2/tracker.js:155-157 | whenever a player's command changes the record, its last two effects post the new view and write it to the handout |
| Tracker012Properties.ActionMessage | 0.1.2/tracker.js:188-192 | an `add`, `sub` or `set` message with a valid operand applies it to the pool its first word selects and leaves the other pool alone |
| Tracker012Properties.AddThenSubRestores | 0.1.2/tracker.js:188-192 | `add n` followed by `sub n` under the same prefix restores the record |
| Tracker012Properties.SetIsIdempotent | 0.1.2/tracker.js:207 | any message whose first argument is `set`, sent twice, leaves the record as sending it once does |
| Tracker012Properties.TallyAddsToThreat | 0.1.2/tracker.js:104-106 | `!tally add 1` is a threat command and adds 1 to threat |
| Tracker012Properties.MomentumAddFive | 0.1.2/tracker.js:188-189 | `!momentum add 5` on fresh pools gives momentum 5 and threat 0 |
| Tracker012Properties.ShortFormSubtracts | 0.1.2/tracker.js:190-191 | `!m sub 3` takes momentum from 5 to 2 |
| Tracker012Properties.SetWordRejected | 0.1.2/tracker.js:201-205 | `!threat set abc` changes nothing and reports the invalid value to the requester only |
| Tracker012Properties.DoubleSpaceIsMissingValue | 0.1.2/tracker.js:108 | two spaces before the operand give an empty argument, reported as a missing value |
| Tracker012Properties.ResetIsNotSpecial | 0.1.2/tracker.js:141-166 | `!threat reset` is an unknown action here: the record stays as it was and is re-posted with an empty announcement |
| Tracker012Properties.ThreatSettersWriteThreat | 0.1.2/tracker.js:290-302 | the exported `setThreat` and `modThreat` change threat and never momentum |
| Tracker012Properties.DecimalOperand | 0.1.2/tracker.js:183 | every optionally signed decimal integer is a valid operand worth the number it spells |
| Tracker012Properties.FractionTruncated | 0.1.2/tracker.js:183 | `1.5` is a valid operand worth 1, and `-2.75` one worth -2 |
| Tracker012Properties.ExponentIgnored | 0.1.2/tracker.js:183 | `1e3` passes `isNaN` and is worth 1 |
| Tracker012Properties.HexOperand | 0.1.2/tracker.js:183 | `0x1f` is worth 31 |
| Tracker012Properties.BinaryReadsAsZero | 0.1.2/tracker.js:183 | `0b11` passes `isNaN` and is worth 0 |
| Tracker012Properties.InfinityRejected | 0.1.2/tracker.js:183-184 | `Infinity` and `-Infinity` pass `isNaN` but are rejected, because `parseInt` cannot read them |
| Tracker012Properties.DiceNotationRejected | 0.1.2/tracker.js:183-184 | `3d6` fails `isNaN` and is rejected |
| Tracker012Properties.RenderLayout | 0.1.2/tracker.js:271-276 | the momentum text sits right after the opening markup and the threat text after the markup between them; a NaN shows as `NaN` |
| Tracker012Properties.RenderDeterminesPools | 0.1.2/tracker.js:263-283 | two records that render alike are the same record |
| Tracker010.ModifyOutcome | 0.1.0/tracker.js:95-133 | the pool not named is never changed; a call that changes the record posts the new view and nothing else |
| Tracker010.OperandValue | 0.1.0/tracker.js:105 | `parseInt(arg1)`, with an absent operand read as `null`; ReadsLeadingThree, NumericOperand and NonNumericCorrupts state it |
| Tracker010.CmdOutcome | 0.1.0/tracker.js:67-93 | `_handleCmd`; BareCommandBroadcasts, ResetZeroesBoth, UnknownActionIsSilent and OtherPoolUntouched state its branches |
| Tracker010.MessageOutcome | 0.1.0/tracker.js:55-64 | the message handler; RecognizeByPrefix, IgnoredMessage, ShortFormsIgnored and HandleWords state which messages reach `_handleCmd` |
| Tracker010.BuildPoolHtml | 0.1.0/tracker.js:140-156 | the view; RenderLayout states where each pool's text sits and RenderDeterminesPools that the view determines the record |
| Tracker010.PoolTracker.Init | 0.1.0/tracker.js:47-53 | a stored record is kept, otherwise both pools start at 0; nothing is posted |
| Tracker010.PoolTracker.OnChatMessage | 0.1.0/tracker.js:55-64 | the new record and the events appended are those of `MessageOutcome` |
| Tracker010.PoolTracker.HandleCmd | 0.1.0/tracker.js:67-93 | the new record and the events appended are those of `CmdOutcome` |
| Tracker010.PoolTracker.ModifyPool | 0.1.0/tracker.js:95-133 | the record and the events appended are those of `ModifyOutcome` |
| Tracker010.PoolTracker.ChatPools | 0.1.0/tracker.js:135-138 | the view is posted publicly and the record is unchanged |
| Tracker010.PoolTracker.ReportError | 0.1.0/tracker.js:176-184 | the error is whispered to the requester, or posted publicly without one; the record is unchanged |
| Tracker010.PoolTracker.ResetPools | 0.1.0/tracker.js:186-192 | both pools become 0 and the view is posted |
| Tracker010.PoolTracker.SetMomentum | 0.1.0/tracker.js:158-161 | the record changes as `SetField` on momentum says, and nothing is posted |
| Tracker010.PoolTracker.SetThreat | 0.1.0/tracker.js:163-166 | the momentum field is written as `SetField` on momentum says; threat keeps its value |
| Tracker010.PoolTracker.ModMomentum | 0.1.0/tracker.js:168-171 | the record changes as `ModField` on momentum says, and nothing is posted |
| Tracker010.PoolTracker.ModThreat | 0.1.0/tracker.js:172-175 | the momentum field changes as `ModField` on momentum says; threat keeps its value |
| Tracker010Properties.RecognizeByPrefix | 0.1.0/tracker.js:41-44 | a message is a command exactly when it starts with `!momentum` or `!threat`, and that word selects the pool |
| Tracker010Properties.IgnoredMessage | 0.1.0/tracker.js:55-61 | a non-`api` message, or one starting with neither command word, changes nothing and posts nothing |
| Tracker010Properties.ShortFormsIgnored | 0.1.0/tracker.js:41-44 | `!m add 1` and `!t add 1` are not commands in this version |
| Tracker010Properties.HandleWords | 0.1.0/tracker.js:58-63 | space-separated words starting with `!momentum` or `!threat` reach `_handleCmd` as all words but the first, targeting the pool the first word names |
| Tracker010Properties.BareCommandBroadcasts | 0.1.0/tracker.js:68-71 | with no arguments nothing changes and the view is posted publicly |
| Tracker010Properties.ResetZeroesBoth | 0.1.0/tracker.js:75-78 | `reset` under either command word zeroes both pools, even a NaN one, and posts the view |
| Tracker010Properties.UnknownActionIsSilent | 0.1.0/tracker.js:95-133 | an action word other than `add`, `sub`, `set` and `reset` changes nothing and posts nothing |
| Tracker010Properties.NumericOperand | 0.1.0/tracker.js:105-131 | an operand `parseInt` can read adds to, subtracts from or replaces the selected pool; the other pool is untouched; the view is posted |
| Tracker010Properties.MissingOperand | 0.1.0/tracker.js:100-124 | a missing or empty operand is reported and changes nothing; the `set` text names momentum whichever pool was meant |
| Tracker010Properties.OperandAlwaysNumber | 0.1.0/tracker.js:105-109 | no command, from any record and any requester, produces the invalid-value report: `_.isNumber` accepts every result of `parseInt` |
| Tracker010Properties.NonNumericCorrupts | 0.1.0/tracker.js:105-115 | an operand `parseInt` reads as NaN is not rejected: the selected pool becomes NaN and that is posted |
| Tracker010Properties.NaNPoolIsStuck | 0.1.0/tracker.js:97 | once the selected pool holds NaN, every action but `reset` on it is silently dropped |
| Tracker010Properties.OtherPoolUntouched | 0.1.0/tracker.js:82-88 | apart from `reset`, a command never changes the pool it does not select |
| Tracker010Properties.ChangesAreShown | 0.1.0/tracker.js:115-131 | whenever a command changes the record, its one effect is to post the new view |
| Tracker010Properties.AddThenSubRestores | 0.1.0/tracker.js:110-114 | `add` then `sub` with the same readable operand restores the record |
| Tracker010Properties.SetIsIdempotent | 0.1.0/tracker.js:118-131 | any message whose first argument is `set`, sent twice, leaves the record as sending it once does, even when it stored NaN |
| Tracker010Properties.ReadsLeadingThree | 0.1.0/tracker.js:105 | `parseInt` reads `3d6` as 3 |
| Tracker010Properties.TrailingTextIgnored | 0.1.0/tracker.js:105-111 | `!threat add 3d6` adds 3 to threat |
| Tracker010Properties.MistypedOperandStoresNaN | 0.1.0/tracker.js:105-111 | `!threat add x` stores NaN in threat |
| Tracker010Properties.NaNThreatIgnoresAdd | 0.1.0/tracker.js:97 | with NaN in threat, `!threat add 1` changes nothing and posts nothing |
| Tracker010Properties.ThreatResetZeroes | 0.1.0/tracker.js:75-78 | `!threat reset` zeroes the record from any state |
| Tracker010Properties.CorruptionUntilReset | 0.1.0/tracker.js:97-111 | from fresh pools, `!threat add x` stores NaN, `!threat add 1` is then ignored, and only `!threat reset` restores zeros |
| Tracker010Properties.ThreatSettersWriteMomentum | 0.1.0/tracker.js:163-175 | the exported `setThreat` and `modThreat` change momentum and never threat |
| Tracker010Properties.RenderLayout | 0.1.0/tracker.js:144-155 | the momentum text sits right after the opening markup and the threat text after the markup between them; NaN shows as `NaN` |
| Tracker010Properties.RenderDeterminesPools | 0.1.0/tracker.js:140-156 | two records that render alike are the same record |

## Left out

- The Roll20 host API is not modelled: `on`, `sendChat`, `getObj`, `findObjs`, `createObj`, `log` and the global `state` store. Posts and handout writes are events in `log`. The record is the `pools` field. `init` receives the stored record as a parameter.
- The handout get-or-create (`_getOrCreateHandout`, 0.1.2/tracker.js:113-124) is host lookup and is not modelled. `init` is modelled as obtaining the handout the first time it runs.
- The CSS texts of the style tables are left as unspecified string constants. Only where each one is spliced into the markup is modelled.
- Pool values and operands are unbounded integers. IEEE-754 doubles, rounding beyond 2^53, overflow to Infinity and `-0` are not modelled. A numeral `parseInt` reads as Infinity (over 308 digits) is accepted by the model where the source rejects it.
- A player is its id and display name. `_displayname` and `displayname` are read as the same name.
- `getObj` finding no player is `None`. In 0.1.2, `_chatActionTaken` then throws. The model ends the handling at that point: the mutation already made stays, and nothing later is posted.
- `_buildPoolHtml` prints `??` for a field `_.isNumber` rejects, such as an undefined or null one (0.1.2/tracker.js:268-269). The record has no such value, so that branch is not modelled. A NaN stored in a pool prints `NaN`, as the source does.
- `_formatPoolName`'s default `<b>????</b>` (0.1.2/tracker.js:249) is for a pool name other than the two; the pool type has only those two.
- Persistence across sessions, concurrency and the `ready` event are outside the core.
- Behaviour where the code does not do what its names suggest, kept as the code has it:
  - 0.1.2 handles only `empty` and 0.1.0 only `reset`.
  - 0.1.2 announces an action before posting the pools.
  - An unknown action in 0.1.2 re-posts the pools and rewrites the handout; it is not silent.
  - The operand is checked by `isNaN` and read by `parseInt`, so `1.5` counts as 1 and `0x1f` as 31.

## Findings

| source | as written | input that shows it | evidently intended | confidence | as-written member | corrected member |
|---|---|---|---|---|---|---|
| 0.1.0/tracker.js:105-109 | `_.isNumber(parseInt(arg1))` is true for NaN, so a non-numeric operand is stored | `!threat add x` makes threat NaN, and every later action on it is ignored until `reset` | reject an operand that is not a number and leave the pools unchanged | high, not executed | Tracker010Properties.NonNumericCorrupts | Tracker012Properties.InvalidOperand |
| 0.1.0/tracker.js:163-175 | `setThreat` and `modThreat` write `state[STATE_NAME].momentum` | `setThreat(3)` on `{momentum: 0, threat: 0}` gives `{momentum: 3, threat: 0}` | write the threat field | high, not executed | Tracker010Properties.ThreatSettersWriteMomentum | Tracker012Properties.ThreatSettersWriteThreat |
| 0.1.0/tracker.js:122 | the missing-operand text of `set` always names momentum | `!threat set` reports "Missing value to set momentum to." | name the selected pool | medium, not executed | Tracker010Properties.MissingOperand | Tracker012Properties.MissingOperand |
