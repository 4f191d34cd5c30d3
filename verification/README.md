# IronClaw: verified models of its hardest small parts

IronClaw is a Rust agent host whose repository also carries Python checkers for CI. This project
models, in Dafny 4.11, the parts of it whose behaviour is hardest to see from one function body, and
proves what they promise over all inputs, all runs, or all interleavings. `dafny verify
dfyconfig.toml` checks everything.

Code that works by changing things is written as methods with loops and classes with fields
(`Store`, `EnvFile`, `LexerState`, `Host`, `Registry`, `Scope`, `Stores`, `EventBuffer`, ...). Each such
method is proved equal to a function of its inputs or of the old state, and the theorems are about that
function. Protocols between processes, tasks or restarts are state machines over their steps, and the
methods are proved to be runs of those machines.

## What is modelled

**Settings** (`Json`, `SettingsTypes`, `Settings`, `SettingsRows`, `SettingsRoundTrip`, `SettingsMerge`,
`SettingsStore`, `SettingsExample`; `src/settings.rs`). A settings value is a tree with every field in
it; a `Type` is what serde derives for it: how a tree is read, what a missing field defaults to, and
which fields are written always, unless empty, or never. `set` satisfies lens laws, on what is written
of the value and on the value itself; flattening to dotted rows and setting them over the default in
any hash-map order leads to one tree, given in closed form by `Mix`; that tree is the original exactly
under a condition on the leaves and the default; overlay merging is idempotent, and associative on
settings trees. `SettingsExample` is a schema with a field of each kind the source declares (flags,
text, integers, floats, enumerations, lists, maps, plain and optional sections, an alias, fields that
are skipped), and meets every condition the theorems ask of a schema and its default.

**Two lexers for Rust text.** `GatewayStripper`, `GatewayTokens` and `GatewayModules` are
`scripts/check_gateway_boundaries.py`: stripping is the left inverse of printing Rust tokens exactly
where its heuristics read them, its fixed points are exactly the texts without literals or comments,
and blanking test modules keeps brace depth.
`PanicLexer`, `PanicWholeFile`, `PanicTokens` and `PanicContexts` are `scripts/check_no_panics.py`: lexing
line by line with a carried state against lexing the file once, and that against printing Rust tokens,
lifetimes among them; the invariant of the block-context stack over all line sequences, and which lines
are marked and which are not.

**The `.env` file, escaping, and the PID lock** (`Escaping`, `EnvFile`, `EnvLaws`, `PidLock`;
`src/bootstrap.rs`, `xml_escape` of `src/service.rs`). The line editor refines a finite map, successive
replacement passes are one map with a reader as left inverse, and the lock is a state machine of open,
try-lock, unlink and close steps of any number of processes.

**Tenants** (`TenantRegistry`, `TenantScope`; `src/tenant.rs`). Every interleaving of the double-checked
creation and of permits; ownership-guarded calls over runs, first atomic and then with check and act
interleaved between users.

**Startup migrations** (`SessionMigration`, `KeyGate`, `GhostRows`; `src/app.rs` and the files it calls).
Every pattern of failing store calls, including calls that fail after taking effect, and stops between
any two of them.

**Byte, tree and log kernels** (`Utf8`, `EventBuffer`, `CanonicalJson`, `LogParser`;
`src/tracing_fmt.rs`, `src/util.rs`, `scripts/live-canary/emit_results_json.py`). UTF-8 follows the
syntax of section 4 of RFC 3629; objects are unordered as in section 4 of RFC 8259; entities are those
of section 4.6 of XML 1.0.

## Where the code does less than its documentation says

Each of these is a lemma with the exact condition, or with a concrete input beside the theorem that
excludes it. The code is modelled as it is.

- The stripper says it preserves newlines; one after a backslash inside a char literal becomes a space
  (`GatewayTokens.NewlineKept`, `GatewayTokens.LostNewline`).
- The stripper says it blanks char literals and does not eat lifetimes. It undoes printing if and only if
  nothing seems to open inside code and every char literal ends within five characters
  (`GatewayTokens.StripUndoesRender`). So `'a, 'b>` loses its lifetimes
  (`GatewayTokens.LifetimesEaten`, and `GatewayTokens.NearApostrophesEaten` for any two apostrophes so
  near), and no char literal that is a unicode escape is seen, such as `'\u{41}'`
  (`GatewayTokens.UnicodeEscapeMissed`): its closing quote can pair with a later one and turn the code
  after it into a string (`GatewayTokens.QuoteLiteralOpensString`).
- Blanking says brace structure outside the body is preserved; a module that is never closed keeps its
  last character visible (`GatewayModules.DepthKeptExactly`, `GatewayModules.UnclosedModule`).
- `reset` says it restores the default; an optional string that was set and is reset holds the text
  `null`, and an optional number cannot be reset (`SettingsStore.ResetRestores`,
  `SettingsStore.ResetLeavesNullText`, `SettingsStore.ResetRefusesNull`).
- `set` says it errs on an invalid path; with an unknown last key under a known section it succeeds and
  does nothing (`Settings.SetSucceedsIff`, where the path has no slot; `Settings.SetLens`).
- `set` and `merge_from` write the value out and read it back, so every successful one clears
  `secrets_master_key_hex`, which is never written; setting that path itself succeeds, `get` then finds
  nothing there, and the next `set` of anything clears it (`Settings.SetKeeps`, `SettingsExample.SetForgetsKey`,
  `SettingsStore.Store.MergeFrom`).
- `from_db_map` skips rows whose path is not found and rows that are refused. Every row of a map entry
  that is an object is of the first kind, every row of an optional section, such as `transcription`, of
  the second, so neither survives flattening and rebuilding (`SettingsStore.NestedEntryLost`,
  `SettingsStore.OptionalSectionLost`). A map entry with a dot in its key is lost too, since its row's
  name splits elsewhere (`SettingsStore.DottedEntryLost`).
- The panic checker looks for items at the start of a line, so it does not find one on the line of its
  test attribute: the block is not marked, and the attribute marks the next item instead
  (`PanicContexts.OneLineItemMissed`, `PanicContexts.AttributedItemMarked`).
- The panic checker takes a raw string to end only at a quote followed by exactly its hashes, so one more
  hash behind it hides the code after it (`PanicTokens.RawDimmed`, `PanicTokens.HashAfterRaw`).
- The panic checker loses track of a string whose line ends in a backslash and whose next line begins
  with the closing quote (`PanicWholeFile.EscapedBreakHarms`).
- `upsert_bootstrap_var_to` looks for the bare prefix `KEY=` where its batched sibling compares trimmed
  keys, so a variant such as `KEY =` before it hides the new value (`EnvLaws.UpsertSeen`, `EnvLaws.VariantHides`); and it treats a
  file it cannot read as empty and overwrites it (`EnvFile.EnvFile.UpsertVar`).
- Rewriting a file takes one carriage return off each line end (`EnvLaws.UpsertTwice`,
  `EnvLaws.BatchTwice`, `EnvLaws.CarriageReturnsGo`, `EnvLaws.RollbackRestores`), and a value with a line break grows the file at
  every write by its lines that do not begin with the key again (`EnvLaws.RewriteGrows`,
  `EnvLaws.BrokenValues`).
- `PidLock` unlinks the path before its lock is released, so two instances can run
  (`PidLock.TwoInstances`); the exact condition is that nobody locks a file the path no longer names
  (`PidLock.OneInstanceIff`), and no unlink inside another process's open-to-lock window is enough for it.
- The owner of a routine passed to `create_routine` is only a debug assertion (`TenantScope.CallIsolates`,
  `TenantScope.RunIsolates`).
- The session migration says an existing secret means the plaintext is removed; only an equal one does,
  and a different one is overwritten by the plaintext (`SessionMigration.PlaintextWins`).
- The key rollback's comment says it leaves at most a stray entry; a start that cannot read the keychain
  and is not refused the write overwrites the only key of the existing rows, whatever the keychain
  reports and whatever follows, and no other start does (`KeyGate.UnreadableKeyDestroyed`).
  And a key written by a store that then reports a failure is not rolled back
  (`KeyGate.LeftInKeychain`, `KeyGate.LeftInEnv`).
- The ghost-row cleanup says every row left is an explicit choice; it writes its sentinel after a failed
  deletion too, and that row then stays (`GhostRows.OnlyChoicesLeftIff`, `GhostRows.FailedGhostStays`).
- The event writer says it caps each event; with the suffix every truncated event is longer than the
  cap (`EventBuffer.TruncatedExceedsLimit`).
- The log parser says a start owns the next outcome and serial logs parse; a test that prints `ok` and
  then fails is reported as passed, and a test whose output does not end in a line break, or that is
  ignored for a stated reason, makes the next one raise (`LogParser.RightIff`,
  `LogParser.PrintedOkHidesFailure`, `LogParser.UnendedRaises`, `LogParser.IgnoredReasonRaises`).

## Model

| member | source | states |
|---|---|---|
| GatewayStripper.StripCommentsAndStrings | scripts/check_gateway_boundaries.py:130-282 | the index loop with its mode flags computes the suffix-recursive lexing of the text |
| GatewayStripper.LoopBody | scripts/check_gateway_boundaries.py:147-280 | one iteration appends and advances as one step of the lexer does, whichever flag is set |
| GatewayStripper.StepInComment | scripts/check_gateway_boundaries.py:151-173 | line comments end at the line break, block comments nest |
| GatewayStripper.StepInLiteral | scripts/check_gateway_boundaries.py:175-226 | raw strings end at a quote with the same number of hashes, others at the first unescaped quote |
| GatewayStripper.StepInCode | scripts/check_gateway_boundaries.py:228-280 | which opener is recognised, with its hash count and its five-character look-ahead for char literals |
| GatewayStripper.StripFades | scripts/check_gateway_boundaries.py:130-282 | the output has the length of the input, and every position holds the source character or a space |
| GatewayStripper.StripIsClean | scripts/check_gateway_boundaries.py:130-282 | the output of any text has no quote, no comment opener and no two apostrophes within five characters |
| GatewayStripper.CleanIsFixed | scripts/check_gateway_boundaries.py:228-282 | any such text is left as it is |
| GatewayStripper.FixedPoints | scripts/check_gateway_boundaries.py:130-282 | stripping is idempotent on every input, and its fixed points are exactly those texts |
| GatewayTokens.StripUndoesRender | scripts/check_gateway_boundaries.py:130-282 | for every list of tokens that end where Rust ends them: code comes back verbatim and exactly the other tokens blanked if and only if nothing seems to open inside code and every char literal ends within the five characters looked at |
| GatewayTokens.TokenBlanked | scripts/check_gateway_boundaries.py:147-280 | each such token, of any kind, comes back as it should, and hands over to code mode, if and only if that holds of it |
| GatewayTokens.CodeCopied | scripts/check_gateway_boundaries.py:228-280 | code comes back verbatim if and only if nothing seems to open inside it |
| GatewayTokens.NearApostrophesEaten | scripts/check_gateway_boundaries.py:262-275 | two apostrophes of code with fewer than five other characters between them are blanked with what is between them |
| GatewayTokens.LifetimesEaten | scripts/check_gateway_boundaries.py:262-275 | the two lifetimes on which that goes wrong |
| GatewayTokens.UnicodeEscapeMissed | scripts/check_gateway_boundaries.py:266-275 | a char literal that is a unicode escape, with any digits, is copied up to its closing quote, which is then looked at as an opening one |
| GatewayTokens.QuoteLiteralOpensString | scripts/check_gateway_boundaries.py:266-275 | the input on which a string opens in code behind such a literal and hides a brace |
| GatewayTokens.NestedBlanked | scripts/check_gateway_boundaries.py:160-173 | a nested comment of any depth is blanked and gives back the depth it found |
| GatewayTokens.RawQuotedBlanked | scripts/check_gateway_boundaries.py:175-186 | a raw string with any number of hashes is blanked up to its own closing delimiter |
| GatewayTokens.PartsMode | scripts/check_gateway_boundaries.py:160-173 | inside nested comments the depth never falls below where it started, and after them it is back there |
| GatewayTokens.BlockEndsAtMatch | scripts/check_gateway_boundaries.py:160-173 | block-comment mode holds from the opener to the matching closer and not beyond |
| GatewayTokens.NewlineKept | scripts/check_gateway_boundaries.py:208-226 | a newline or a tab survives if and only if it is not the escaped character of a char literal |
| GatewayTokens.LineNumbersStable | scripts/check_gateway_boundaries.py:131-135 | line numbers are stable on every text without a backslash at the end of a line |
| GatewayTokens.LostNewline | scripts/check_gateway_boundaries.py:208-213 | the input on which a newline is lost |
| GatewayModules.BlankTestModules | scripts/check_gateway_boundaries.py:301-331 | the result is the text with exactly the bodies of the selected modules blanked |
| GatewayModules.BlankAll | scripts/check_gateway_boundaries.py:309-330 | the loop over the matches blanks in place, skipping matches inside an earlier module |
| GatewayModules.BlankModule | scripts/check_gateway_boundaries.py:313-330 | one module is walked to its closing brace and blanked strictly between the braces |
| GatewayModules.BlankRange | scripts/check_gateway_boundaries.py:327-329 | blanking in place keeps newlines, tabs and everything outside the range |
| GatewayModules.Walk | scripts/check_gateway_boundaries.py:373-384 | the depth walk ends where its counter says, with that net depth behind it |
| GatewayModules.WalkStopsFirst | scripts/check_gateway_boundaries.py:314-323 | it stops at the first position where the depth returns to zero, or at the end if there is none |
| GatewayModules.BodyShape | scripts/check_gateway_boundaries.py:313-330 | a closed body has net depth zero and is followed by its closing brace; an open one runs to the end |
| GatewayModules.BodyIs | scripts/check_gateway_boundaries.py:313-330 | by depth alone: a body ends at the first brace that brings its depth to zero and is then closed, else it runs to just before the last character and is open |
| GatewayModules.BodiesOrdered | scripts/check_gateway_boundaries.py:308-330 | blanked bodies are in order and do not overlap |
| GatewayModules.BodiesBalanced | scripts/check_gateway_boundaries.py:308-330 | every closed body is balanced |
| GatewayModules.OnlyLastOpen | scripts/check_gateway_boundaries.py:308-330 | at most the last body is never closed |
| GatewayModules.DepthKeptExactly | scripts/check_gateway_boundaries.py:301-331 | depth at every position outside a blanked body is unchanged if and only if the last module is closed or balanced as it stands |
| GatewayModules.LinesKept | scripts/check_gateway_boundaries.py:301-331 | newlines stay where they were |
| GatewayModules.UnclosedModule | scripts/check_gateway_boundaries.py:324-330 | the input on which a depth changes |
| PanicLexer.SanitizeLine | scripts/check_no_panics.py:52-156 | the line loop over the mutable state computes the lexing of the line and the mode handed to the next |
| PanicLexer.LexerState.Advance | scripts/check_no_panics.py:57-149 | one iteration on the state's fields is one step of the lexer, and the fields stay consistent |
| PanicLexer.LexerState.AdvanceBlock | scripts/check_no_panics.py:61-71 | block comments nest across lines |
| PanicLexer.LexerState.AdvanceRaw | scripts/check_no_panics.py:73-85 | a raw string ends at a quote followed by exactly its number of hashes |
| PanicLexer.LexerState.AdvanceCode | scripts/check_no_panics.py:107-149 | which opener is recognised in code, raw strings and lifetimes included |
| PanicLexer.IsLifetime | scripts/check_no_panics.py:125-144 | an apostrophe opens a lifetime when an identifier and no closing quote follow |
| PanicWholeFile.LinewiseIsWhole | scripts/check_no_panics.py:52-156 | lexing line by line with a carried state is lexing the whole file once, when no line after an escaped break in a string, empty lines aside, starts with a quote or a backslash |
| PanicWholeFile.OneLine | scripts/check_no_panics.py:52-156 | on one line both passes give the same text and hand on the same mode |
| PanicWholeFile.EscapedBreakHarmless | scripts/check_no_panics.py:87-95 | an escaped line break makes no difference unless the next line starts with a quote or a backslash |
| PanicWholeFile.AlignedIff | scripts/check_no_panics.py:52-156 | the two passes go through the same modes on every line, pending escapes aside, if and only if no line after an escaped break, empty lines aside, starts with a quote or a backslash |
| PanicWholeFile.PendingEscapeMatters | scripts/check_no_panics.py:87-95 | the pending escape changes the mode after the next character if and only if that is a quote or a backslash |
| PanicWholeFile.EscapedBreakHarms | scripts/check_no_panics.py:87-95 | two lines on which it does: the line-wise text hides a brace that the single pass shows |
| PanicTokens.LinesUndoPrint | scripts/check_no_panics.py:52-156 | over a whole file, line by line: code and the names of lifetimes show, comments, strings, raw strings and char literals become spaces, if and only if nothing else seems to begin in code and no raw string is followed by a hash |
| PanicTokens.WholeUndoesPrint | scripts/check_no_panics.py:52-156 | the same in one pass |
| PanicTokens.LineUndoesPrint | scripts/check_no_panics.py:52-156 | the same on any one line |
| PanicTokens.PieceSeen | scripts/check_no_panics.py:57-149 | each piece shows as it should and hands over to code if and only if it is read |
| PanicTokens.LifetimedSeen | scripts/check_no_panics.py:125-144 | an apostrophe and a name lose the apostrophe alone if and only if no apostrophe follows the name and nothing seems to begin in it |
| PanicTokens.BareSeen | scripts/check_no_panics.py:107-149 | code shows if and only if no comment, literal or lifetime seems to begin in it |
| PanicTokens.QuotesDimmed | scripts/check_no_panics.py:87-105 | a string, and a char literal of one character or an escape, become spaces up to their own closing quote |
| PanicTokens.NestedDimmed | scripts/check_no_panics.py:61-71 | a nested comment of any depth becomes spaces and gives back the depth it found |
| PanicTokens.RawDimmed | scripts/check_no_panics.py:73-85 | a raw string with any number of hashes ends at its own delimiter, unless one more hash follows |
| PanicTokens.HashAfterRaw | scripts/check_no_panics.py:73-85 | the input on which one more hash hides a brace |
| PanicTokens.StrayApostrophe | scripts/check_no_panics.py:143-154 | an apostrophe that begins no literal and no lifetime hides the rest of its line and no more |
| PanicContexts.LineTestContexts | scripts/check_no_panics.py:169-206 | the loop with its stack and pending flags computes the marking of every line |
| PanicContexts.Line | scripts/check_no_panics.py:176-204 | one line: its mark, and the state after its braces and its final semicolon |
| PanicContexts.AlwaysOrdered | scripts/check_no_panics.py:169-206 | over all line sequences the stack is falses followed by trues, and a pending false has no true below it |
| PanicContexts.TestBlockMarked | scripts/check_no_panics.py:176-204 | every line that starts inside a test block is marked, whatever it contains |
| PanicContexts.BalancedRestores | scripts/check_no_panics.py:193-201 | lines with balanced braces restore the stack exactly |
| PanicContexts.AttributedItemMarked | scripts/check_no_panics.py:181-204 | from a test attribute, over further attributes, whatever else is on their lines, and blank lines, to the item: its own line and its signature are marked and a test block is pending |
| PanicContexts.ItemMarked | scripts/check_no_panics.py:184-204 | any item that is test code is marked from its own line over the quiet lines of its signature |
| PanicContexts.TestItemMarked | scripts/check_no_panics.py:191-204 | with a test block pending, quiet lines and the line after them are marked and the stack is kept |
| PanicContexts.FirstBraceOpensTestBlock | scripts/check_no_panics.py:193-199 | and its first brace opens a test block |
| PanicContexts.OneLineItemMissed | scripts/check_no_panics.py:181-201 | with an item on the line of its attribute no line is marked until the next item, whose attribute it becomes |
| PanicContexts.ProductionUnmarked | scripts/check_no_panics.py:158-204 | from outside test code no line is marked before one that bears a test attribute or begins the module `tests`, whatever other items come |
| PanicContexts.MarkedIff | scripts/check_no_panics.py:158-191 | a line is marked if and only if it stands in a test block, waits for one, or holds an item that is in the module `tests` or bears a test attribute |
| PanicContexts.WhatWaits | scripts/check_no_panics.py:181-204 | an item uses the attribute up and waits for its block, other code drops the attribute, a final semicolon drops what waits |
| PanicContexts.FirstBraceOpens | scripts/check_no_panics.py:193-199 | the first brace opens a block of the kind that waits, else of the kind it stands in |
| PanicContexts.TrimIs | scripts/check_no_panics.py:178 | a trimmed line begins and ends with no space, and only spaces were around it |
| Settings.SetLens | src/settings.rs:1358-1429 | lens laws of `set`: what is set is found at the path as its type reads and writes it, every written path apart from it is untouched, a refused set changes nothing |
| Settings.SetSucceedsIff | src/settings.rs:1358-1429 | `set` succeeds if and only if the way is there, the text fits what is there, and the place takes it and is no second name |
| Settings.SetKeeps | src/settings.rs:1359-1360 | on the value itself: every place apart from the path keeps what it held, except that the fields that are never written go back to their defaults |
| Settings.SetShows | src/settings.rs:1358-1429 | setting the value shows as setting what is written of it |
| Settings.FieldAfterSet | src/settings.rs:1358-1429 | a tried set, accepted or refused, changes at most the field its path starts with, and acts there as on that field alone |
| Settings.SiblingsKept | src/settings.rs:1425-1429 | reading the tree back into the struct after an edit touches no other field |
| SettingsTypes.DecodeIdentity | src/settings.rs:1425-1429 | what is written of a value reads and is written as itself again, skipped fields included |
| SettingsTypes.ReadHolds | src/settings.rs:1425-1427 | whatever reads is a settings value |
| SettingsTypes.ShowConforms | src/settings.rs:1359-1360 | what is written of a value is a tree of its type |
| SettingsTypes.ReadShow | src/settings.rs:171-172 | writing and reading back clears exactly the fields that are never written |
| SettingsTypes.DecodeConforms | src/settings.rs:1425-1429 | reading and writing any tree gives a tree of the type |
| Settings.SplitJoin | src/settings.rs:1362-1364 | splitting on dots undoes joining dot-free keys |
| Settings.JoinSplit | src/settings.rs:1362-1364 | joining undoes splitting, and no part holds a dot, for every path |
| SettingsRows.RowNameSplits | src/settings.rs:1456-1476 | every flattened name splits back into the path of its leaf |
| SettingsRows.MixConforms | src/settings.rs:1127-1176 | the tree after any subset of rows is a settings value |
| SettingsRows.MixStep | src/settings.rs:1133-1164 | one more row takes the closed form of the rebuilt tree to the next one |
| SettingsRows.MixNull | src/settings.rs:1139-1147 | null rows are skipped |
| SettingsRows.ReplayIsMix | src/settings.rs:1127-1176 | setting any rows in any order gives the closed form |
| SettingsRows.RebuildIgnoresOrder | src/settings.rs:1127-1176 | every iteration order of the map rebuilds a value that is written as the same tree |
| SettingsRoundTrip.RoundTrip | src/settings.rs:1127-1188 | flattening, rebuilding in any order and migrating gives a value written as the same tree if and only if it has no legacy field, objects sit where the default has them and each leaf comes back by itself |
| SettingsRoundTrip.FaithfulRoundTrip | src/settings.rs:1127-1188 | the same for every settings tree in a caller's terms: objects sit where the default has them, nulls where it is null, other leaves read back from their text by the kind of the default |
| SettingsRoundTrip.ReplayShows | src/settings.rs:1133-1164 | the loop over the rows on the value shows as the loop on what is written of it |
| SettingsRoundTrip.SurvivesIsFaithful | src/settings.rs:1402-1429 | for the kinds of leaf there are the two conditions are one |
| SettingsRoundTrip.MixIsSelf | src/settings.rs:1127-1188 | the rebuilt tree is the original if and only if objects sit where the default has them and every leaf comes back |
| SettingsRoundTrip.LeafSurvives | src/settings.rs:1133-1147 | a leaf comes back if and only if it is null over null, or its text reads back over the default |
| SettingsRoundTrip.InferKeeps | src/settings.rs:1402-1424 | which values come back from their text, by the kind of value already there |
| SettingsRoundTrip.MigrateHolds | src/settings.rs:1228-1253 | the migrated value is a settings value, its new override entry complete |
| SettingsRoundTrip.MigrationDrains | src/settings.rs:1228-1253 | the legacy fields end empty, a second migration changes nothing, the rest of the value is untouched |
| SettingsRoundTrip.MigrationMoves | src/settings.rs:1228-1253 | no legacy value is lost and an existing extra wins over it |
| SettingsMerge.MergeNonDefault | src/settings.rs:1517-1543 | the recursive key-by-key edit, in any key order, computes the merge |
| SettingsMerge.MergeDefault | src/settings.rs:1517-1543 | for all JSON, merging the default changes nothing |
| SettingsMerge.MergeIdempotent | src/settings.rs:1517-1543 | for all JSON, merging twice is merging once |
| SettingsMerge.MergeCovers | src/settings.rs:1517-1543 | merging trees that share the default's skeleton gives one that does |
| SettingsMerge.MergeAssociative | src/settings.rs:1517-1543 | on such trees merging is associative |
| SettingsMerge.MergePicks | src/settings.rs:1309-1314 | each leaf is the other's value if that is not the default, else the target's |
| SettingsMerge.WizardPriority | src/setup/wizard.rs:297-300 | of what is written: merging the database over the wizard's first step and then the first step again gives step one, then database, then default |
| SettingsMerge.SettingsCover | src/settings.rs:1315-1334 | every settings tree shares the skeleton of the built-in defaults |
| SettingsMerge.MergeConforms | src/settings.rs:1331-1333 | a merge of settings values always reads back as one |
| SettingsStore.Store.Set | src/settings.rs:1358-1429 | the new settings are the edited tree read back, or unchanged with the error |
| SettingsStore.Store.Get | src/settings.rs:1337-1354 | the walk along the parts shows the value at the dotted path |
| SettingsStore.Store.Reset | src/settings.rs:1432-1439 | the default's text is set, or the path is unknown |
| SettingsStore.Store.MergeFrom | src/settings.rs:1315-1334 | what is written becomes the merge, which is never silently dropped, and the fields that are never written go back to their defaults |
| SettingsStore.Store.MigrateLegacyProviderFields | src/settings.rs:1228-1253 | taking the three fields and folding them into the extras one by one is the migration, and leaves a settings value |
| SettingsStore.Store.Take | src/settings.rs:1229-1231 | a legacy field is handed out and left empty |
| SettingsStore.FoldExtra | src/settings.rs:1237-1251 | one field is folded unless a non-empty extra is there; an empty value removes the entry |
| SettingsStore.FromDbMap | src/settings.rs:1127-1176 | the loop over the map is the replay of its rows in that order over the default, then migrated, and gives a settings value |
| SettingsStore.CollectSettingsJson | src/settings.rs:1456-1476 | the recursion adds exactly one row for every leaf below the prefix, with its value |
| SettingsStore.ToDbMap | src/settings.rs:1178-1188 | the rows are the leaves of the tree without the owner |
| SettingsStore.ResetRestores | src/settings.rs:1432-1439 | setting what `get` shows of the default at any dotted path, refused or not, leaves the default there, leaf or section, if and only if the way is there and that text reads back over the current value |
| SettingsStore.ResetLeavesNullText | src/settings.rs:1432-1439 | a text that is set over a null default, at any path, holds the text `null` after it is reset |
| SettingsStore.ResetRefusesNull | src/settings.rs:1432-1439 | a number or flag that is set over a null default, at any path, cannot be reset: the set is refused and nothing changes |
| SettingsStore.GetShows | src/settings.rs:1337-1354 | at any dotted path `get` shows a text as it is and everything else as its JSON text |
| SettingsStore.SetThenGet | src/settings.rs:1337-1429 | a text set over a text succeeds and is what `get` shows afterwards |
| SettingsStore.GetThenSet | src/settings.rs:1337-1429 | setting what `get` shows, at any path, changes nothing |
| SettingsStore.SetRefuses | src/settings.rs:1377-1421 | which texts are refused, by the kind of what is there |
| SettingsStore.NestedEntryLost | src/settings.rs:1366-1372 | a map entry that is an object is lost when rebuilt |
| SettingsStore.OptionalSectionLost | src/settings.rs:1366-1372 | so is an optional section the default does not have |
| SettingsStore.DottedEntryLost | src/settings.rs:1366-1372 | so is a map entry with a dot in its key, from any rows in any order |
| SettingsExample.SchemaFits | src/settings.rs:131-308 | a schema with a field of each kind the struct declares, and its default, meet what the theorems ask of them |
| SettingsExample.SchemaMigrates | src/settings.rs:61-85 | and has the fields the migration moves |
| SettingsExample.SetForgetsKey | src/settings.rs:1359-1360 | in it, setting a flag succeeds on every value and leaves no master key |
| SettingsExample.FlagSets | src/settings.rs:1359-1360 | in any schema, setting a flag succeeds and leaves a field that is never written at its default |
| Escaping.EscapeValueIsMap | src/bootstrap.rs:139-142 | the backslash pass and the quote pass together are one map on characters |
| Escaping.QuotedReadsBack | src/bootstrap.rs:139-142 | a reader of quoted values gets exactly the value back and stops at the closing quote, whatever the value |
| Escaping.XmlEscapeIsMap | src/service.rs:295-301 | the five passes together are one map on characters |
| Escaping.XmlReadsBack | src/service.rs:295-301 | the entities read back to the text, no delimiter is left, and every ampersand starts an entity |
| EnvFile.EnvFile.Save | src/bootstrap.rs:133-147 | the file becomes one line for each variable |
| EnvFile.EnvFile.UpsertVar | src/bootstrap.rs:247-286 | the file becomes its lines with the variable replaced or appended; an unreadable file counts as empty |
| EnvFile.EnvFile.UpsertVars | src/bootstrap.rs:159-199 | the same for several variables; an unreadable file is an error and stays |
| EnvFile.EnvFile.RemoveVar | src/bootstrap.rs:208-237 | the file loses the variable's lines, and is not written if there were none |
| EnvFile.UpsertLines | src/bootstrap.rs:262-281 | the line loop replaces the first line of the key, drops further ones, appends if there was none |
| EnvFile.UpsertManyLines | src/bootstrap.rs:176-194 | the line loop drops every line whose trimmed key is written and appends the new lines |
| EnvFile.RemoveLines | src/bootstrap.rs:215-226 | the line loop keeps exactly the other lines and knows whether one was dropped |
| EnvFile.LinesOfUnlines | src/bootstrap.rs:176-194 | what is written is read back line by line, less a carriage return at a line end |
| EnvLaws.UpsertKeepsOthers | src/bootstrap.rs:262-281 | the key is on exactly one line with its value, and all other lines are kept in order |
| EnvLaws.UpsertOverwrites | src/bootstrap.rs:262-281 | of two writes of one key the later alone is left |
| EnvLaws.UpsertTwice | src/bootstrap.rs:247-286 | writing any value twice leaves the file as writing it once did if and only if no other line ends in a carriage return and every line of the written value after its first begins with the key again |
| EnvLaws.RewriteGrows | src/bootstrap.rs:256-286 | every further write adds the value's other lines once more |
| EnvLaws.BrokenValues | src/bootstrap.rs:256-257 | a value with a line break that leaves a line over, and one that does not |
| EnvLaws.BatchUpdatesFile | src/bootstrap.rs:159-199 | in the file the batched edit is a map update as the loader sees it: written keys get their values, others keep theirs less a carriage return |
| EnvLaws.BatchIsMapUpdate | src/bootstrap.rs:176-194 | the same on the lines |
| EnvLaws.WrittenValueReadsBack | src/bootstrap.rs:190-194 | and the value a loader finds reads back as the one written |
| EnvLaws.BatchOneLineEach | src/bootstrap.rs:176-194 | each written key is on exactly one line |
| EnvLaws.BatchTwice | src/bootstrap.rs:159-199 | a second batched edit leaves the file as it is if and only if no other line ends in a carriage return and no written value leaves a line over |
| EnvLaws.CarriageReturnsGo | src/bootstrap.rs:159-199 | a file on which a second write of the same value, single or batched, takes another carriage return away |
| EnvLaws.PlainLeavesNothing | src/bootstrap.rs:256-257 | a value without line breaks leaves nothing over |
| EnvLaws.BatchShape | src/bootstrap.rs:176-194 | it keeps the other lines in order, before the new ones |
| EnvLaws.RollbackRestores | src/bootstrap.rs:201-237 | removing a key that was absent before it was written restores the lines if and only if none ends in a carriage return |
| EnvLaws.UpsertSeen | src/bootstrap.rs:256-281 | a loader sees the value of a single upsert if and only if the first line of the key begins with the bare prefix or holds that value already |
| EnvLaws.VariantHides | src/bootstrap.rs:256-281 | after `KEY =x` no value of a single upsert is seen |
| PidLock.Host.AcquireAt | src/bootstrap.rs:494-532 | opening and trying the lock: the caller runs, or is refused because the file's lock is held |
| PidLock.Host.Release | src/bootstrap.rs:535-540 | dropping unlinks the path and then releases the lock |
| PidLock.OneHolderPerFile | src/bootstrap.rs:494-540 | in every run each file's lock has at most one holder |
| PidLock.SingleInstance | src/bootstrap.rs:494-540 | if nobody locks a file the path no longer names, there is at most one running instance |
| PidLock.WindowsSuffice | src/bootstrap.rs:494-540 | that holds when no unlink falls between another process's open and lock |
| PidLock.AtMostOneInstance | src/bootstrap.rs:494-540 | so in every such run from boot at most one instance runs |
| PidLock.StaleIffUnlinked | src/bootstrap.rs:504-513 | a file goes stale between open and lock if and only if someone unlinks |
| PidLock.OneInstanceIff | src/bootstrap.rs:494-540 | a process that stays idle beside a run could start at any point of it without a second instance if and only if nobody in the run locks a file the path no longer names |
| PidLock.SecureIffLinked | src/bootstrap.rs:494-540 | at one moment: if and only if every runner's file is the one the path names |
| PidLock.StaleLockAdmitsSecond | src/bootstrap.rs:535-540 | after locking a stale file two more steps make two instances |
| PidLock.TwoInstances | src/bootstrap.rs:535-540 | the run in which unlinking before release lets two instances run |
| PidLock.AcquiresIff | src/bootstrap.rs:494-532 | a process that opens and tries with nothing in between runs if and only if nobody holds the file the path names |
| PidLock.NextCanStart | src/bootstrap.rs:535-540 | once an instance has crashed or dropped its lock the next one can start |
| TenantRegistry.Registry.GetOrCreate | src/tenant.rs:1022-1041 | the two looks and the insert, as a run of the protocol: an existing state is returned, a missing one made once |
| TenantRegistry.OneStatePerUser | src/tenant.rs:1022-1041 | in every interleaving two calls get the same state if and only if they are for the same user |
| TenantRegistry.NoStateDiscarded | src/tenant.rs:1031-1041 | no state is created and thrown away |
| TenantRegistry.PermitsBounded | src/tenant.rs:1136-1143 | a user's outstanding permits never exceed the limit, over all contexts built from the registry |
| TenantRegistry.RefusedOnlyWhenFull | src/tenant.rs:1136-1143 | a permit is withheld only when all of the user's permits are out |
| TenantScope.Scope.GetJob | src/tenant.rs:118-123 | a job is returned only to its owner |
| TenantScope.Scope.UpdateJobStatus | src/tenant.rs:136-152 | check the owner, then update, else not found |
| TenantScope.Scope.UpdateRoutine | src/tenant.rs:214-223 | check the owner, then update, else not found |
| TenantScope.Scope.DeleteRoutine | src/tenant.rs:225-234 | check the owner, then delete, else not found |
| TenantScope.Scope.CreateRoutine | src/tenant.rs:205-212 | create whatever the owner field says |
| TenantScope.Scope.AddConversationMessage | src/tenant.rs:443-458 | check the owner, then append, else not found |
| TenantScope.CallIsolates | src/tenant.rs:205-234 | a call leaves another user's rows alone if and only if it does not create a routine in that user's name |
| TenantScope.RunIsolates | src/tenant.rs:118-250 | a sequence of a user's calls leaves another user's rows alone if and only if no call in it plants a routine in that user's name |
| TenantScope.OwnRoutinesOnly | src/tenant.rs:205-212 | none does when every routine created names the caller |
| TenantScope.CallBlind | src/tenant.rs:443-543 | stores that agree on the user's rows give the same answers and agree afterwards |
| TenantScope.RunBlind | src/tenant.rs:118-250 | over any sequence of guarded calls |
| TenantScope.StepInv | src/tenant.rs:136-152 | with checks and acts of users interleaved, a check stays good until its act |
| TenantScope.InterleavedIsolation | src/tenant.rs:214-234 | every act, however late, leaves other users' rows as they are |
| TenantScope.InterleavedRun | src/tenant.rs:118-250 | so does every interleaved run |
| TenantScope.AtOnceIsWhole | src/tenant.rs:136-152 | a check and its act with nothing in between are the whole call |
| TenantScope.ReusedIdCrosses | src/tenant.rs:214-223 | with a reused routine id the gap between check and act reaches another user's row |
| TenantScope.ReadsOwnWrites | src/tenant.rs:118-543 | what a user reads after a call of its own is the same whatever calls other users make in between |
| TenantScope.OthersKeep | src/tenant.rs:118-543 | calls of any number of other users, none in its name, leave a user's rows alone |
| TenantScope.StatusReadsBack | src/tenant.rs:118-152 | the owner's new status and reason are read back and nothing else changes; anyone else gets not found and changes nothing |
| TenantScope.RoutineReadsBack | src/tenant.rs:198-223 | the same for the fields of a routine, whose owner stays |
| TenantScope.DeletedIsGone | src/tenant.rs:198-234 | a routine deleted by its owner is gone for everyone, and only that one |
| TenantScope.CreatedReadsBack | src/tenant.rs:198-212 | a created routine is stored as given and read by the user it names |
| TenantScope.MessageReadsBack | src/tenant.rs:443-484 | a message is read back after those there were |
| TenantScope.MetadataReadsBack | src/tenant.rs:461-543 | a metadata field is read back among the others, and a touch is counted |
| TenantScope.EnsuredIsOwned | src/tenant.rs:370-385 | an ensured conversation is the caller's, new or as it was, or is refused |
| SessionMigration.MigrateSessionCredential | src/app.rs:1462-1542 | the calls and early returns compute the migration for every pattern of faults |
| SessionMigration.CopyAcross | src/app.rs:1514-1541 | plaintext read, secret created, and only then plaintext deleted |
| SessionMigration.MigrationKeeps | src/app.rs:1462-1542 | one migration keeps the token in the settings or in the secret store |
| SessionMigration.NeverLost | src/app.rs:1462-1542 | so does any number of starts, each with its own faults and its own stop |
| SessionMigration.OneStartSuffices | src/app.rs:1453-1461 | with a replacing store and no faults one start empties the plaintext unless the secret cannot be decrypted, and the next changes nothing |
| SessionMigration.NotReplacingStalls | src/app.rs:1533-1541 | a store that refuses to overwrite never gets past a differing secret and changes nothing |
| SessionMigration.PlaintextWins | src/app.rs:1481-1486 | a differing secret is overwritten by the plaintext |
| SessionMigration.SecretIs | src/app.rs:1462-1542 | under every fault the secret becomes the plaintext if and only if the reads before the copy go well, the store takes replacements or has none, and the create takes effect |
| SessionMigration.PlaintextGoneIff | src/app.rs:1462-1542 | the plaintext goes if and only if it was copied without a failure reported, or found equal, and the delete takes effect |
| KeyGate.Host.ResolveKey | src/config/secrets.rs:81-193 | environment, keychain, else a generated key persisted to whichever store reports that it took it, whatever the other did with it |
| KeyGate.Host.StartUp | src/app.rs:345-373 | a start resolves, passes the gate or rolls back, and then serves |
| KeyGate.MatchesIffSafe | src/app.rs:345-373 | over any run the persisted key matches the rows throughout if and only if every start finds a key, has no rows to protect, or leaves no key of its own behind |
| KeyGate.StartMatchesIff | src/secrets/mod.rs:199-275 | the same for one start, under every fault of its writes |
| KeyGate.PersistedKeyMatches | src/secrets/mod.rs:199-275 | in every run of sound starts the persisted key matches the rows |
| KeyGate.RowsStayOneKey | src/app.rs:345-373 | nothing is written under a key that cannot open what is there |
| KeyGate.ForeignRowsBlock | src/app.rs:351-373 | while rows remain and no key does, every sound start fails, leaves the rows and leaves no key |
| KeyGate.SoundnessNeeded | src/secrets/mod.rs:213-230 | from rows without a key the match survives a start if and only if it leaves no key of its own behind |
| KeyGate.WrongKeyAccepted | src/app.rs:351-358 | otherwise the next start accepts the wrong key |
| KeyGate.LeftInKeychain | src/config/secrets.rs:154-193 | a keychain that takes the key and reports a failure keeps it: only `.env` is rolled back |
| KeyGate.LeftInEnv | src/bootstrap.rs:196-199 | a file that takes the key and refuses its permissions keeps it: the start fails before the gate |
| KeyGate.ReadableKeyKept | src/config/secrets.rs:105-117 | a readable key is kept by every start |
| KeyGate.UnreadableKeyDestroyed | src/config/secrets.rs:105-193 | under every fault of a start, the only key of the rows, held in the keychain, is in neither store afterwards if and only if the keychain could not be read and was not refused the write |
| KeyGate.StartEnds | src/app.rs:345-373 | how a start ends, under every fault: it fails if and only if no key is found and no store takes a new one or the gate, reached, finds rows or cannot look; it runs under the key found, else under the new one |
| KeyGate.StartWrites | src/app.rs:345-373 | a start writes a row only if it runs, and under its own key |
| KeyGate.RanIsFound | src/config/secrets.rs:81-193 | a start that runs leaves its key where the next one that can read the keychain finds it |
| KeyGate.FreshInstallRuns | src/secrets/mod.rs:199-213 | a first start with no rows runs under a new key, and so does every later one that can read it, under the same key |
| GhostRows.Settings.CleanupGhostSeededToolPermissions | src/app.rs:1555-1638 | the loop deletes exactly the ghost rows whose deletion works and then writes the sentinel |
| GhostRows.SurvivesIff | src/app.rs:1544-1638 | after any number of starts a row is left if and only if it is no ghost or no acting start could delete it |
| GhostRows.OnlyChoicesLeftIff | src/app.rs:1549-1554 | once the sentinel is written only explicit choices are left if and only if no deletion failed |
| GhostRows.FailedGhostStays | src/app.rs:1618-1632 | a ghost whose deletion failed stays through every later start |
| CanonicalJson.CanonicalizeJsonValue | src/util.rs:90-108 | the recursion computes the canonical form |
| CanonicalJson.CanonicalizeItems | src/util.rs:92-94 | arrays are canonicalised item by item, in order |
| CanonicalJson.CanonicalizeEntries | src/util.rs:95-105 | objects are rebuilt in key order |
| CanonicalJson.CanonDecides | src/util.rs:87-108 | two values have one canonical form if and only if they are equal up to key order at every depth |
| CanonicalJson.CanonEquivalent | src/util.rs:87-108 | a canonical form is equal to its value up to key order |
| CanonicalJson.CanonTwice | src/util.rs:87-108 | canonicalising twice is canonicalising once |
| CanonicalJson.CanonAscends | src/util.rs:95-105 | the keys of every object at any depth ascend by code points |
| CanonicalJson.LeqIsBefore | src/util.rs:97 | the order used is that of the first differing code point |
| CanonicalJson.SortedUnique | src/util.rs:96-97 | the order of the keys is determined by which keys there are |
| Utf8.Utf8Floor | src/tracing_fmt.rs:107-120 | on UTF-8 the cut is the largest character boundary not above the position, at most three bytes below it |
| Utf8.FloorCharBoundary | src/util.rs:11-20 | the same for strings, with any position |
| Utf8.FloorIsLargest | src/tracing_fmt.rs:112-120 | the two searches agree wherever both apply |
| Utf8.CharBoundaryIsBoundary | src/util.rs:16 | the byte test for a boundary is the boundary of the grammar |
| Utf8.ValidSplit | src/tracing_fmt.rs:131-143 | both sides of a boundary are UTF-8 |
| Utf8.ValidJoin | src/tracing_fmt.rs:142-143 | UTF-8 joined to UTF-8 is UTF-8 |
| Utf8.GrammarEdges | src/tracing_fmt.rs:107-120 | the first and the last sequence of each length, and those just outside, as section 4 of RFC 3629 has them |
| EventBuffer.EventBuffer.Write | src/tracing_fmt.rs:96-100 | the buffer grows by the data |
| EventBuffer.EventBuffer.Drop | src/tracing_fmt.rs:122-165 | the event goes out whole, or its cut prefix without a final newline and then the suffix |
| EventBuffer.KeptAtBoundary | src/tracing_fmt.rs:131-142 | what is kept is whole characters of the event, at most four bytes short of the limit |
| EventBuffer.KeptIs | src/tracing_fmt.rs:131-142 | what is kept is the characters that fit below the limit, less one final newline |
| EventBuffer.EmittedValid | src/tracing_fmt.rs:122-165 | a UTF-8 event leaves UTF-8, no longer than limit and suffix |
| EventBuffer.SessionValid | src/tracing_fmt.rs:122-165 | so does every sequence of events |
| EventBuffer.TotalReadsBack | src/tracing_fmt.rs:133-143 | the suffix tells the event's length and ends the line |
| EventBuffer.TruncatedExceedsLimit | src/tracing_fmt.rs:6-8 | what is written exceeds the limit if and only if the event did |
| LogParser.ParseLog | scripts/live-canary/emit_results_json.py:214-268 | the loop computes the pairing, or the first error |
| LogParser.RaisesIff | scripts/live-canary/emit_results_json.py:236-266 | it raises if and only if a start without inline outcome follows one that still waits |
| LogParser.SerialRunParses | scripts/live-canary/emit_results_json.py:171-178 | a serial run raises if and only if a test whose output did not end in a line break is met by the next test to wait, and else gives one entry a test in order, none for ignored ones |
| LogParser.EndedRunsParse | scripts/live-canary/emit_results_json.py:171-178 | a serial run whose tests end their output with a line break, or have nothing but their outcome on their line, never raises |
| LogParser.UnendedRaises | scripts/live-canary/emit_results_json.py:254-259 | two serial tests that raise |
| LogParser.IgnoredReasonRaises | scripts/live-canary/emit_results_json.py:236-259 | a test ignored for a stated reason, whatever the reason, makes the next serial test raise |
| LogParser.RightIff | scripts/live-canary/emit_results_json.py:171-178 | the entries are right if, and with one name a test only if, nothing raises and every test's outcome is read as its own |
| LogParser.EntriesTell | scripts/live-canary/emit_results_json.py:214-233 | the right entries are one for each test that ran, in order, with whether it passed and, if not, its panic message or the stock one |
| LogParser.InlineIs | scripts/live-canary/emit_results_json.py:236-242 | exactly three words are outcomes |
| LogParser.PrintedOkHidesFailure | scripts/live-canary/emit_results_json.py:239-244 | a failing test that prints `ok` first is reported as passed |

## Left out

- Settings: `set`, `migrate_legacy_provider_fields` and `merge_non_default` edit a tree through mutable references; the model rebuilds the values on the path, so aliasing inside the tree is not captured.
- Settings: reading a struct from an array is a parameter of the type; an alias is modelled as a name that is refused, since every tree that is read back already has the field.
- SettingsRows.RebuildIgnoresOrder: is about what is written of the value; a row for a field that is never written, which flattening does not make, is kept only if no later row is set, which is `SetKeeps`.
- Settings: the JSON, integer and float text formats are parameters assumed to read back what they print; TOML files, disk migration and `list` are not modelled.
- SettingsRoundTrip.LeafSurvives: covers leaf types that keep the kind of what they read, floats that may round and enumerations included; a leaf that turned one kind of value into another would need its own condition.
- EnvLaws.BatchUpdatesFile: is for values without line breaks, as a loader that reads line by line sees them; through a reader of quoted values any value reads back (`WrittenValueReadsBack`).
- The regular expressions of all three Python scripts are parameters (an ordered list of matches, predicates on a line, or a classified line); so are Python's `isalpha`, `isalnum` and `strip`.
- The violation lists, allow-lists and git calls of the two checkers; the grouped-import scan beyond its depth walk.
- PanicWholeFile.LinewiseIsWhole: goes one way, since passes that part at a misread character may show the same text after all; on modes the condition is exact (`AlignedIff`).
- EnvFile: failing writes, directories and file permissions; variable substitution by the loader. A loader is any reader that trims keys and scans quoted values.
- PidLock: the PID in the file and locking errors other than a held lock.
- PidLock.WindowsSuffice: goes one way, since an unlink inside a window is harmless when that process then fails to get the lock; the exact condition is `OneInstanceIff`, and for a single window `StaleIffUnlinked`.
- TenantRegistry: the job semaphore, which has the same form, and a closed semaphore, which never happens because nothing closes it.
- TenantScope: failing database calls; the setting, list, sandbox and name-keyed calls, `list_routine_runs` and paginated listing, which have the form of the calls shown; `SystemScope` and `AdminScope`, which delegate.
- TenantScope.InterleavedRun: needs routine ids that are never reused; the database's random ids are not modelled.
- SessionMigration: the secrets' encryption; a secret decrypts to a text or not at all.
- KeyGate: two processes generating keys at once (the re-check of the `.env` file before writing) and the copy of the key in the process environment; the rollback of the file itself is `EnvLaws.RollbackRestores`.
- GhostRows: how rows are read through `from_db_map`, which is the subject of the settings modules; a row is known by its tool.
- CanonicalJson: a float and an integer of the same value are different numbers, as they are in `serde_json`.
- EventBuffer: failing writes to standard error, and machine integer width.
- LogParser: the first pass, which collects panic messages and redacts them; its result is a parameter.
