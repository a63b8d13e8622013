# Models of the tok trace tools, caches and budgets

tok shortens what is sent to a language model: it caches tool results, replaces repeats by stubs or
diffs, hints at cacheable prompt prefixes, keeps tool calls within budgets, and ships scripts that audit
traces and dependency graphs. This project models the stateful cores of that system in Dafny and proves
what their code, comments and documentation promise. `dafny verify dfyconfig.toml` checks all of it.

| module | models | main results |
|---|---|---|
| `UnifiedDiff` | replay of a unified diff on a list of lines | replay equals a declarative reading of the format; swapped hunks undo a replay; which lines may be written otherwise, or left out, without changing a replay |
| `ReplayFormat` | where replay and the format part | exactly which lists of hunks replay treats as the format means them, on every base they fit |
| `ReplaySuccess` | when replay succeeds at all | replay succeeds exactly where each hunk finds its old lines, in any order; exactly which lists of hunks make replay and the format one relation on all bases and outputs |
| `DiffEmitter` | the diff a changed tool result is shown as | printing and parsing hunks is a round trip; replaying the emitted lines on the old text gives the new text, and every header announces the lines behind it |
| `DiffCounts` | a reader of hunk headers that takes the line counts | what it means that headers announce the lines behind them |
| `DiffContext` | how much context a diff shows | every hunk shows three lines around its changes; hunks are split exactly where more than six equal lines lie between |
| `TraceAudit` | validation and audit of trace blocks and whole traces | a block is accepted exactly if it is well formed and its digest and artifacts are sound; order and duplicate findings are exact |
| `TraceSchema` | the documented schema of trace blocks | validation and schema agree exactly up to two lists of rules, one for each side |
| `ResultCache` | the tool-result cache with eviction, ages, legacy entries | an "unchanged" stub only replaces a text that was already delivered, over every run; the cache is a full, bounded queue; exactly when a file read is answered with another text |
| `CacheDiff` | the answer to a changed file | the diff shown leads from the cached text to the call's own text, and which of its lines are left out |
| `CommandCache` | which shell commands may be cached | wrapper stripping ends, is idempotent and forgets any stack of wrappers; exactly which accepted commands without quoting are one simple command of the shell; program by program, what is accepted |
| `CommandText` | flattening a command, and the tokens of text without quoting | flattening keeps the tokens of every text; what the shell reads and the tokenizer does not |
| `DependencyGraph` | depth-first cycle finder | sound, complete, one cycle per edge; empty result if and only if acyclic |
| `LongestPath` | dependency depth | the depth is the longest trail, and on acyclic graphs the longest walk |
| `PromptCache` | cache hints on a system prompt | the hinted block holds exactly the paragraphs that are as before; hinting again changes nothing; exactly when characters are lost |
| `AgentLoop` | entropy, compute and repeat budgets of the chat loop | the counters are a function of the history; bounds on executions and model calls; a call is refused exactly as the third in a row of one tool with the same arguments |
| `DedupFrontier` | repeat analysis of tool results | the dictionaries answer what scans of the history answer; the chosen experiment is the best |
| `DedupReport` | summaries of the analysis, by source and overall | every field of the report is the sum over the emitted source summaries and the bridge logs; the miss histogram is complete |
| `ImageDedup` | replacing repeated images | lists processed one by one equal their concatenation; each image is delivered once; stubs are recoverable |
| `Text` | string and sequence operations the other modules share | joining, trimming, splitting into lines, and decimal numerals |

Code that changes state step by step is a method or a class proved equal to a specification function over
the inputs or the old state; the promises are then lemmas about that function. Functions of other modules
and standard-library machinery (digests, the diff matcher, shell tokenizing, tool-result codecs, file
access, clocks) are parameters: functions, function-typed fields of a `World` or `Env`, a `Fingerprinter`, or
fields of an input record. Nothing is assumed about them beyond what a lemma's `requires` says.

Where the code departs from its documentation or from what it sets out to do, the model follows the code:

- src/tok/compression/_system_prompt_cache.py:7 says content is never removed. Blank paragraphs are.
  `PromptCache.BlankParagraphLost` gives a prompt, `PromptCache.HintKeepsTextIff` the exact condition.
- POSIX.1 (IEEE Std 1003.1), utility `diff`, section "Diff -u or -U Output Format", lets an empty old range
  name the line it follows. Replay inserts before that line instead, and repeats a line when an empty range
  takes its cursor back. It also applies hunks in any order, and empty hunks behind the end of the base.
  `UnifiedDiff.MisplacedInsertion`, `ReplayFormat.LineRepeated`, `ReplaySuccess.WrongOrderAccepted` and
  `ReplaySuccess.ShortBaseAccepted` give inputs. `ReplayFormat.ReplayMatchesFormatIff` is the exact condition
  under which replay finds every output the format gives, `ReplaySuccess.SuccessIsMeantIff` the one under
  which it gives no other, `ReplaySuccess.ReplayIsFormatIff` the one for both.
- The command guards list seven operators (src/tok/compression/__init__.py:122). The tokenizer makes a token of
  every run of `( ) ; < > | &`, so others, such as `&` or `<(`, pass; so do bracket and brace patterns. Line
  breaks become blanks before anything is checked (line 852), so a second command on the next line passes; and
  the tokenizer drops everything behind a `#`, which for the shell is a comment only at the start of a word.
  `CommandCache.BackgroundAccepted`, `CommandCache.NewlineAccepted` and `CommandCache.HashAccepted` give
  commands, `CommandCache.AcceptedIsSimpleIff` the exact condition for commands without quoting.
- The repeat guard compares the texts `name:arguments` (src/tok/adapters/orchestrator.py:574), so a tool whose name
  with a colon starts another tool's name can be taken for it. `AgentLoop.ColonConfuses` gives calls,
  `AgentLoop.NamesConfusedIff` the exact condition on two names.
- A file whose own text holds the marker of the cache's stubs is taken for a host's "unchanged" notice and
  answered with the text cached before, release-critical documents included. `ResultCache.MarkedTextMissed`
  gives such a text for every cached one, `ResultCache.ReplayedIff` and `ResultCache.ReleaseDocsInFullIff` the
  exact conditions.
- docs/spec/tok_trace_schema_v0_1.tok.md and the validator differ in the rules that `TraceSchema.Unchecked` and
  `TraceSchema.Unstated` list; `TraceSchema.ValidationAgreesWithSchema` shows that they agree otherwise.
  `TraceSchema.BaselessDeltaAccepted` gives a block that only the validator takes,
  `TraceSchema.NegativeTurnRefused` one that only the schema takes.

Assumptions made where a lemma needs them: the digest prefixes compared in a run tell the run's texts apart,
and its cache keys name one family of tools each (`ResultCache.CollisionFree`); the canonical digest does not
collide on the payloads of the two blocks compared (`TraceAudit.EqualDigestsAgree`); the edit script is correct
(`DiffEmitter.CorrectOpcodes`), which stands for the diff matcher, and, where hunks are counted, never two equal runs next to each other
(`DiffContext.Alternating`); the diffs the cache shows lead from the one text to the other (`CacheDiff.DiffLeads`),
which `CacheDiff.EmittedLeads` proves of the emitter;
on flattened text without quotes and backslashes the tokenizer, Python's `shlex` with the settings of
src/tok/compression/__init__.py:757-763, cuts at blanks, keeps runs of punctuation apart and drops what follows
a `#` (`CommandText.Tokenizes`).

## Model

| member | source | states |
|---|---|---|
| UnifiedDiff.ReplayHunkLine | scripts/tok_trace_reader.py:321-349 | One pass over a hunk line is the format's step for that kind of line, with the code's errors and negative indexing |
| UnifiedDiff.ReplayHunk | scripts/tok_trace_reader.py:321-350 | The inner loop stops at the next header or the end, and continues the line-by-line run from its cursor |
| UnifiedDiff.ApplyUnifiedDiff | scripts/tok_trace_reader.py:306-353 | The nested cursor loops compute the fold of one step per diff line, errors included, for every base and diff |
| UnifiedDiff.RefusedIff | scripts/tok_trace_reader.py:322-349 | A hunk refuses exactly the lines that are no bare newline and have no blank, minus, plus or backslash in front |
| UnifiedDiff.BareNewlineIsContext | scripts/tok_trace_reader.py:327-332 | Writing a bare newline with its blank changes no replay, wherever it stands: it is an empty context line |
| UnifiedDiff.MarkerIgnored | scripts/tok_trace_reader.py:346-347 | A line with a backslash in front may be left out of any diff |
| UnifiedDiff.PreambleIgnored | scripts/tok_trace_reader.py:308-312 | Whatever stands in front of the first hunk may be left out |
| UnifiedDiff.ErrorTellsLine | scripts/tok_trace_reader.py:321-349 | The error a hunk line stops replay with tells its sign: context, removal, malformed, or an index below the base |
| UnifiedDiff.RunIsRunFrom | scripts/tok_trace_reader.py:306-353 | Folding from the back and continuing from the front agree on every diff |
| UnifiedDiff.NextMatches | scripts/tok_trace_reader.py:299-350 | One more line keeps the cursor at the state reached by applying the parsed hunks, or both are refused |
| UnifiedDiff.ReplayMatchesParse | scripts/tok_trace_reader.py:299-353 | Replaying lines is replaying the hunks they spell; lines that are no patch are refused |
| UnifiedDiff.ApplyBodyExact | scripts/tok_trace_reader.py:321-349 | A hunk body applies if and only if the base holds its old lines there; then it appends its new lines |
| UnifiedDiff.ReplayExact | scripts/tok_trace_reader.py:306-353 | For ordered hunks, replay yields out if and only if out is base with exactly the hunks' lines exchanged between equal gaps |
| UnifiedDiff.SuccessfulReplayDecomposes | scripts/tok_trace_reader.py:306-353 | The same for a whole diff, and the output length is base minus deletions plus insertions |
| UnifiedDiff.SwappedReplayRestoresBase | scripts/tok_trace_reader.py:306-353 | With correct new starts and a new line kept in each hunk, replaying the swapped hunks on the output restores the base |
| UnifiedDiff.InsertionMeaning | scripts/tok_trace_reader.py:313-318 | A pure insertion means: the new lines after the first oldStart lines |
| UnifiedDiff.InsertionReplay | scripts/tok_trace_reader.py:313-318 | Replay puts a pure insertion one line earlier, under Python's slice rules |
| UnifiedDiff.MisplacedInsertion | scripts/tok_trace_reader.py:313-318 | Every non-empty pure insertion has a base on which replay departs from the format |
| ReplayFormat.ForwardAgrees | scripts/tok_trace_reader.py:306-353 | Hunks that consume a line where they insert, and never take the cursor back, replay as the format means |
| ReplayFormat.StartUnique | scripts/tok_trace_reader.py:306-353 | Empty hunks that all start at 0 replay as the format means, although the cursor goes to -1 |
| ReplayFormat.ReplayLength | scripts/tok_trace_reader.py:313-353 | The output is longer than the format's by exactly the lines a cursor that moves back repeats |
| ReplayFormat.RepeatingIsWrong | scripts/tok_trace_reader.py:313-353 | A cursor that moves back makes replay wrong on every base the hunks fit |
| ReplayFormat.InsertionIsWrong | scripts/tok_trace_reader.py:313-345 | A pure insertion anywhere in the list makes replay wrong on some base |
| ReplayFormat.InstancePatches | scripts/tok_trace_reader.py:306-353 | Every list of hunks in the format's order fits a base, so the condition is never met for want of one |
| ReplayFormat.ReplayMatchesFormatIff | scripts/tok_trace_reader.py:306-353 | For any list of hunks, replay does what the format means on every base the hunks fit if and only if they fit none, being out of the format's order, or each inserting hunk consumes a line and the cursor never moves back or all start at 0 |
| ReplayFormat.LineRepeated | scripts/tok_trace_reader.py:313-353 | A replacement followed by an empty hunk, on which replay repeats a line |
| ReplaySuccess.ReplaySucceedsIff | scripts/tok_trace_reader.py:313-353 | Replay succeeds if and only if each hunk finds its old lines at its own start, with Python's negative indexing, whatever the other hunks do |
| ReplaySuccess.CompatibleIff | scripts/tok_trace_reader.py:313-353 | Some base lets replay succeed if and only if no two hunks ask for different lines at one place |
| ReplaySuccess.PatchUnique | scripts/tok_trace_reader.py:306-353 | The format gives a base at most one output |
| ReplaySuccess.FoundPatches | scripts/tok_trace_reader.py:306-353 | Hunks in the format's order that find their old lines patch every base that reaches to their end |
| ReplaySuccess.SuccessIsMeantIff | scripts/tok_trace_reader.py:306-353 | Every successful replay is what the format means if and only if the hunks are incompatible, or in order and replayable, and the last one consumes a line or all start at 0 |
| ReplaySuccess.ReplayIsFormatIff | scripts/tok_trace_reader.py:306-353 | Under the same condition, and no other, replay yields out exactly when out is the patched base, for all bases and outputs |
| ReplaySuccess.DiffIsFormatIff | scripts/tok_trace_reader.py:299-353 | The same for the lines of any diff that parses |
| ReplaySuccess.WrongOrderAccepted | scripts/tok_trace_reader.py:313-353 | Two deletions in the wrong order replay, although the format gives them no meaning on any base |
| ReplaySuccess.ShortBaseAccepted | scripts/tok_trace_reader.py:313-353 | An empty hunk behind line 1 replays on a base without lines |
| DiffEmitter.HeaderRoundTrip | scripts/tok_trace_reader.py:299-303 | The header parser reads back the starts of every header the emitter prints, with or without counts |
| DiffEmitter.HeaderCounts | src/tok/compression/__init__.py:1378-1391 | A reader that takes the counts finds, in every printed header, the starts and the numbers of old and new lines |
| DiffEmitter.HunksAnnounced | src/tok/compression/__init__.py:1378-1391 | Each printed header announces exactly the lines with a blank or minus, and with a blank or plus, up to the next header |
| DiffCounts.ReadersAgree | scripts/tok_trace_reader.py:299-303 | On every line, replay's pattern sees a header exactly where the reader with counts does, with the same starts |
| DiffEmitter.LineRoundTrip | scripts/tok_trace_reader.py:322-349 | A printed hunk line reads back as itself whatever its text, and is never taken for a header |
| DiffEmitter.PatchRoundTrip | src/tok/compression/__init__.py:1378-1391 | Parsing the printed hunks gives the hunks, also when deleted lines look like file headers |
| DiffEmitter.SwappedDiffRestoresBase | scripts/tok_trace_reader.py:306-353 | Printing the swapped hunks of a replayed diff gives lines whose replay restores the base |
| DiffEmitter.DiffHunksPatch | src/tok/compression/__init__.py:1378-1391 | Trimming and grouping any correct edit script gives ordered hunks with correct starts that patch old into new |
| DiffEmitter.DeltaRoundTrip | src/tok/compression/__init__.py:1378-1391 | Replaying the emitted diff lines on the old lines gives exactly the new lines, and each header announces the lines behind it; no diff only if the lines are equal |
| DiffEmitter.DiffStarts | src/tok/compression/__init__.py:1378-1391 | A diff names the old and the new side and then starts with a hunk |
| DiffContext.ThreeLinesOfContext | src/tok/compression/__init__.py:1378-1391 | Every emitted hunk shows three lines of context at either end, fewer only at an end of the old text, never more than six in a row, and some change; between hunks a line is left out |
| DiffEmitter.ChangedLinesExact | src/tok/compression/__init__.py:1373-1375 | The count is the number of inserted and deleted lines minus those that render like a file header |
| TraceAudit.ValidateBlock | scripts/tok_trace_reader.py:84-236 | The checks, each appending its error in turn, find the specified list, which is empty if and only if the block is well formed; a list or dict looked up in a set of names raises |
| TraceAudit.EnvelopeErrorsName | scripts/tok_trace_reader.py:103-118 | Each envelope error is reported exactly if the field it names is wrong |
| TraceAudit.ObservationErrorsName | scripts/tok_trace_reader.py:120-127 | Each observation error is reported exactly if the field it names is wrong |
| TraceAudit.ValidIffWellFormed | scripts/tok_trace_reader.py:84-236 | Validation finds no error if and only if the block meets the rules of its sections |
| TraceSchema.ValidationAgreesWithSchema | docs/spec/tok_trace_schema_v0_1.tok.md:10-142 | A block is valid and keeps the schema's unchecked rules if and only if it conforms to the schema and keeps the validator's unstated rules |
| TraceSchema.NewlineAccepted | scripts/tok_trace_reader.py:13 | A digest with a newline after it is taken for a digest |
| TraceSchema.BaselessDeltaAccepted | scripts/tok_trace_reader.py:142-150 | A whole delta block without a base to resolve is valid, but does not conform |
| TraceSchema.NegativeTurnRefused | docs/spec/tok_trace_schema_v0_1.tok.md:28 | A whole block with a negative turn conforms, but is not valid |
| TraceAudit.DeltaAuditExact | scripts/tok_trace_reader.py:356-399 | The delta audit is clean if and only if base and delta match their hashes and replay reproduces the final bytes |
| TraceAudit.ArtifactsExact | scripts/tok_trace_reader.py:402-420 | The artifact audit of a valid block is clean if and only if its local content has the declared hash and size and its delta is sound |
| TraceAudit.AcceptedExact | scripts/tok_trace_reader.py:423-439 | A block does not fail if and only if it is well formed and its digest and local artifacts are sound |
| TraceAudit.PassExact | scripts/tok_trace_reader.py:423-439 | A pass is an accepted block without warnings; its declared digest is the canonical one |
| TraceAudit.WarnsIff | scripts/tok_trace_reader.py:239-262 | An accepted block is passed with warnings exactly for a draft digest, missing content, or remote content where a reference or message is expected |
| TraceAudit.EqualDigestsAgree | scripts/tok_trace_reader.py:65-70 | Two passing blocks of equal digest agree on observation, content, audit and extensions, if the digest does not collide on their payloads |
| TraceAudit.LatestIsGreatest | scripts/tok_trace_reader.py:476-485 | While no inversion occurred, the remembered position of a session is its greatest |
| TraceAudit.NextInversion | scripts/tok_trace_reader.py:476-485 | Comparing with the last position alone notices a new inversion if and only if there is one, adjacent or not |
| TraceAudit.NoteId | scripts/tok_trace_reader.py:465-469 | A duplicate is reported if and only if an earlier fixture has the id; the seen set is the set of ids so far |
| TraceAudit.NotePosition | scripts/tok_trace_reader.py:471-485 | A position behind its session's latest is reported, and the latest position is replaced |
| TraceAudit.FindingsExact | scripts/tok_trace_reader.py:450-486 | Duplicates number the ids minus the distinct ids; disorder is reported if and only if some session has two positions inverted |
| TraceAudit.AuditFixtureFile | scripts/tok_trace_reader.py:442-486 | The loop reports, in order, what the history says about each fixture, with those two exact counts; it raises only if a fixture does |
| ResultCache.ResultCache.Set | src/tok/compression/__init__.py:1246-1251 | Writing an existing key keeps its place in the order, a new key goes last |
| ResultCache.ResultCache.EvictOldest | src/tok/compression/__init__.py:1252-1258 | Keys leave from the front until the bound of 256 holds |
| ResultCache.ResultCache.StoreCacheEntry | src/tok/compression/__init__.py:1232-1272 | A store keeps a well-formed cache within its bound, holds the new entry and changes no other; a file read is answered in full, and the reported saving is exact |
| ResultCache.BuildFileStub | src/tok/compression/__init__.py:1562-1583 | Joining the stub's parts gives the stub |
| ResultCache.ResultCache.ServeCachedContent | src/tok/compression/__init__.py:1513-1623 | The branches compute the specified answer and rewrite; a file read that matches gets its own text or a shorter stub, the stub only once the entry counts as read, with an exact saving |
| ResultCache.ResultCache.ProcessCacheHit | src/tok/compression/__init__.py:1085-1213 | Whole new state and answer of a fresh hit: release document, stub or match, changed command, diff |
| ResultCache.ResultCache.ApplyResultCache | src/tok/compression/__init__.py:937-1059 | The mutable cache computes the specified state and answer for every call, bypass and stale entries included |
| CacheDiff.ChangedReadLeads | src/tok/compression/__init__.py:1195-1213 | A fresh read of a changed file is answered with diff lines that replay the cached text into its own, unless they are more than 1000; tools without context miss exactly the context lines |
| CacheDiff.WithoutContextOmits | src/tok/compression/__init__.py:1485-1487 | The lines kept are, in order, exactly those without a blank in front |
| CacheDiff.EmittedLeads | src/tok/compression/__init__.py:1378-1391 | The emitter's diffs, for correct scripts, lead from the lines of the one text to those of the other |
| ResultCache.AnsweredAfreshIff | src/tok/compression/__init__.py:1305-1330 | A call stores its own text exactly if there is no entry, the entry is older than its time to live, or its file is newer; a file read then gets its text in full |
| ResultCache.StubServedIff | src/tok/compression/__init__.py:1543-1588 | An unchanged, completely read file is answered by its stub exactly if that is shorter and the host's limit of 2000 characters allows it |
| ResultCache.NoticeIff | src/tok/compression/__init__.py:1495-1510 | A text is taken for a host's notice exactly if it is empty or holds one of two phrases; the test for short texts finds nothing more unless a hash collides |
| ResultCache.PrecisionInFull | src/tok/compression/__init__.py:1531-1541 | Precision reads are never shortened |
| ResultCache.FirstErrorShortened | src/tok/compression/__init__.py:1259-1272 | Files aside, only a first result that is an error, and no evidence, is answered by the error's short form |
| ResultCache.SearchServed | src/tok/compression/__init__.py:1590-1606 | A repeated search is answered in full for exact content, otherwise by its compressed matches exactly if they are shorter |
| ResultCache.CommandStubNames | src/tok/compression/__init__.py:1608-1616 | A command's stub ends with its first 160 characters |
| ResultCache.BypassLeavesCache | src/tok/compression/__init__.py:967-984 | A call that bypasses the cache leaves it as it is |
| ResultCache.RunPrefix | src/tok/compression/__init__.py:937-1059 | Answers depend on earlier calls only |
| ResultCache.StoreKeepsInvariant | src/tok/compression/__init__.py:1244-1258 | A store keeps the bound, holds the new entry with the hash of its text, and evicts at most the oldest other key |
| ResultCache.StepKeepsInvariant | src/tok/compression/__init__.py:937-1059 | Any call keeps the cache well formed and within 256 entries, and a key just stored is present |
| ResultCache.CacheIsQueue | src/tok/compression/__init__.py:1244-1258 | Over every run the keys are the latest arrivals in order, all of them up to 256: eviction is first in first out and only at the bound, and a refresh moves nothing |
| ResultCache.CacheHolds256 | src/tok/compression/__init__.py:1252-1258 | The cache holds as many keys as arrived, up to 256 |
| ResultCache.HashesDescribe | src/tok/compression/__init__.py:1344-1370 | Over every run an entry carries the hash of its own raw text, or still the hash and text it started with |
| ResultCache.ApplyRewrites | src/tok/compression/__init__.py:1344-1370 | A hit rewrites its entry with the same text and hash, marked as completely read, and nothing else |
| ResultCache.RunEarns | src/tok/compression/__init__.py:937-1059 | From legacy entries only, every live file entry's text was delivered for its key, twice once it counts as read |
| ResultCache.FirstReadGuarantee | src/tok/compression/__init__.py:1534-1588 | A file read is answered "unchanged" only if that text was answered verbatim for its key twice before, or once and inherited |
| ResultCache.ThirdReadIsStubbed | src/tok/compression/__init__.py:1534-1588 | The bound of two is attained: from an empty cache the third young read of an unchanged file gets the stub if it is shorter |
| ResultCache.MatchNeverGrows | src/tok/compression/__init__.py:1146-1179 | A matching file or command result is never answered longer than it is, and the reported saving is exact |
| ResultCache.HostStubBringsContent | src/tok/compression/__init__.py:1495-1510 | A host's own stub or an empty read of a cached file is answered with the cached text |
| ResultCache.ReplayedIff | src/tok/compression/__init__.py:1116-1179 | A fresh file read is answered with the cached text if and only if its text is taken for a host's notice; otherwise with its own text, its stub or what changed in it |
| ResultCache.ReleaseDocsInFullIff | src/tok/compression/__init__.py:1074-1117 | Unless bypassed, a release-critical document is answered in full if and only if its text is not taken for a host's notice while another text is cached |
| ResultCache.MarkedTextMissed | src/tok/compression/__init__.py:1495-1510 | The cached text with the marker at its end is a new text that is answered with the old one |
| ResultCache.StubIsRecognized | src/tok/compression/__init__.py:1495-1510 | The file stub the cache serves contains the marker by which it recognizes stubs |
| ResultCache.StubRecoversContent | src/tok/compression/__init__.py:1495-1510 | Sending a served stub back for the same call returns the file text it replaced |
| CommandCache.StripCommandWrappers | src/tok/compression/__init__.py:736-754 | The loop computes the stripped command, which is a suffix of the tokens with no wrapper in front |
| CommandCache.StripIdempotent | src/tok/compression/__init__.py:736-754 | Stripping twice is stripping once, and leaves commands without a wrapper alone |
| CommandCache.StripOne | src/tok/compression/__init__.py:738-753 | One env, uv run or python -m wrapper in front of a plain command is looked through |
| CommandCache.WrappersDoNotMatter | src/tok/compression/__init__.py:736-754 | Any stack of wrappers in front of a plain command strips like the command itself |
| CommandCache.SettingIff | src/tok/compression/__init__.py:736-754 | A setting in front of a command is a name, an equals sign and any value |
| CommandCache.FindShape | src/tok/compression/__init__.py:782-783 | find is accepted exactly without its five actions |
| CommandCache.SedShape | src/tok/compression/__init__.py:778-779 | sed is accepted exactly with -n and without in-place editing |
| CommandCache.GitShape | src/tok/compression/__init__.py:770-771 | git is accepted exactly with eleven reading subcommands |
| CommandCache.RuffShape | src/tok/compression/__init__.py:774-775 | ruff is accepted exactly as a check that fixes nothing |
| CommandCache.EslintShape | src/tok/compression/__init__.py:813-814 | eslint is accepted exactly when it fixes nothing |
| CommandCache.CargoAndGoShape | src/tok/compression/__init__.py:786-791 | cargo is accepted to test, check and lint, go to test |
| CommandCache.PackageShape | src/tok/compression/__init__.py:794-802 | Package managers are accepted for tests and three scripts; the list of mutating subcommands never decides |
| CommandCache.TscShape | src/tok/compression/__init__.py:805-810 | The compiler is accepted exactly when it emits nothing, also behind npx |
| CommandCache.JqShape | src/tok/compression/__init__.py:817-819 | jq is accepted exactly with an argument behind its filter that is no flag |
| CommandCache.ReaderShape | src/tok/compression/__init__.py:822-848 | Fifteen programs that read or test are accepted whatever their arguments |
| CommandCache.OthersRefused | src/tok/compression/__init__.py:822-825 | No other program is accepted |
| CommandCache.GuardsRefuse | src/tok/compression/__init__.py:853-859 | Substitution, each of the seven operators, a star and a question mark are refused |
| CommandCache.AcceptedIsAllowListed | src/tok/compression/__init__.py:822-865 | An accepted command is what stripping leaves of the tokens, starts with an allow-listed program and has none of the seven listed tokens, no star and no question mark |
| CommandText.ChunksAppend | src/tok/compression/__init__.py:852 | Texts that meet between two runs have the words, and the tokens, of both, one after the other |
| CommandText.WhiteSpaceIgnored | src/tok/compression/__init__.py:852 | Any white space between two parts, line breaks included, flattens like one blank |
| CommandText.FlattenKeepsTokens | src/tok/compression/__init__.py:852-855 | Flattening a command keeps its tokens |
| CommandCache.AcceptedIsSimpleIff | src/tok/compression/__init__.py:851-865 | An accepted command without quoting is one command of the shell without operators and patterns if and only if no line break joins two commands in it, no operator or pattern is hidden behind a # inside a word, and no token is an unlisted operator or holds a bracket or brace |
| CommandCache.GuardedIsSimpleIff | src/tok/compression/__init__.py:855-859 | The same of every command whose tokens pass the guards, allow-listed or not |
| CommandCache.LineBreaksIgnored | src/tok/compression/__init__.py:851-865 | For any tokenizer, commands on two lines are accepted exactly when they are on one line, and under the same name |
| CommandCache.HashIgnored | src/tok/compression/__init__.py:851-865 | Behind a # nothing counts but substitution: the command is accepted exactly when the part in front is, and under its name |
| CommandCache.NextLineAccepted | src/tok/compression/__init__.py:851-865 | Behind a listing, any command of passable tokens passes on the next line |
| CommandCache.NewlineAccepted | src/tok/compression/__init__.py:851-865 | A listing and a removal on the next line are accepted |
| CommandCache.HiddenCommandAccepted | src/tok/compression/__init__.py:851-865 | Behind an accepted command, a # inside a word hides any other command that does not substitute |
| CommandCache.HashAccepted | src/tok/compression/__init__.py:851-865 | A listing and a removal behind a # inside a word are accepted |
| CommandCache.OperatorAcceptedIff | src/tok/compression/__init__.py:121-122 | A listing joined to any words by an operator is accepted if and only if the operator is not one of the seven |
| CommandCache.BackgroundAccepted | src/tok/compression/__init__.py:851-865 | A listing sent to the background and a removal after it are accepted |
| CommandCache.WrappedSharesName | src/tok/compression/__init__.py:851-865 | A wrapped command is accepted exactly when its own text and tokens pass the guards and the plain command is accepted, and then under the same cache name |
| DependencyGraph.IndexOf | scripts/analyze_dependency_tree.py:311 | The position of the first occurrence, which exists whenever the search asks for it |
| DependencyGraph.CycleOnPath | scripts/analyze_dependency_tree.py:309-314 | The slice of the path from the node met again is a simple cycle closed by the last edge |
| DependencyGraph.CycleFinder.ReportCycle | scripts/analyze_dependency_tree.py:309-314 | Exactly one cycle is added, closed by the edge just followed, which closed none before |
| DependencyGraph.CycleFinder.Leave | scripts/analyze_dependency_tree.py:325 | A node leaves the stack when all its dependencies are finished or closed a reported cycle |
| DependencyGraph.CycleFinder.Dfs | scripts/analyze_dependency_tree.py:308-325 | The search ends, restores the stack, keeps the invariant, and either reports one cycle or visits its node |
| DependencyGraph.WalkDescends | scripts/analyze_dependency_tree.py:308-325 | A walk that avoids closing edges strictly descends in finishing order |
| DependencyGraph.OrderMeansCovered | scripts/analyze_dependency_tree.py:302-331 | Dependencies-first finishing order means every cycle uses an edge that closes a reported one |
| DependencyGraph.FindDependencyCycles | scripts/analyze_dependency_tree.py:302-331 | Reported lists are simple cycles with distinct closing edges; every cycle meets one; empty if and only if acyclic |
| LongestPath.GetDepth | scripts/analyze_dependency_tree.py:270-283 | The loop over dependencies with copied visited sets ends on every finite graph and computes the depth |
| LongestPath.DepthBounds | scripts/analyze_dependency_tree.py:270-283 | No trail from a package is longer than its depth |
| LongestPath.DepthAttained | scripts/analyze_dependency_tree.py:270-283 | Some trail, repeating at most its last node, is as long as the depth |
| LongestPath.TrailShort | scripts/analyze_dependency_tree.py:267-288 | A trail has at most as many edges as the graph has keys |
| LongestPath.AcyclicWalkIsTrail | scripts/analyze_dependency_tree.py:267-288 | On an acyclic graph every walk is a trail |
| LongestPath.CalculateMaxDepth | scripts/analyze_dependency_tree.py:267-288 | The result is the length of the longest trail, at most the number of keys, and of the longest walk if the graph is acyclic |
| PromptCache.SplitJoin | src/tok/compression/_system_prompt_cache.py:44-49 | Splitting the join of pieces gives the pieces although the separator overlaps itself |
| PromptCache.ParagraphsRoundTrip | src/tok/compression/_system_prompt_cache.py:44-49 | split(join(filter(split(text)))) is filter(split(text)) for every text |
| PromptCache.LosslessIff | src/tok/compression/_system_prompt_cache.py:44-49 | The joined paragraphs are the text if and only if no paragraph is blank |
| PromptCache.FindStaticPrefixLength | src/tok/compression/_system_prompt_cache.py:31-41 | The counting loop finds the longest common prefix |
| PromptCache.SplitAtJoins | src/tok/compression/_system_prompt_cache.py:44-49 | Static and dynamic part, joined again, are all paragraphs in order |
| PromptCache.HintedText | src/tok/compression/_system_prompt_cache.py:89-104 | The blocks made from a string prompt spell its paragraphs joined |
| PromptCache.HintedIsCommonPrefix | src/tok/compression/_system_prompt_cache.py:80-104 | The first block alone is hinted and holds exactly the paragraphs of the longest common prefix of fingerprints; there is one exactly if they have 200 characters, which are reported |
| PromptCache.HintedListIff | src/tok/compression/_system_prompt_cache.py:106-118 | A list is hinted, in its first block only, exactly if that is a text of 200 characters and the first fingerprint is as before |
| PromptCache.FingerprintsCompare | src/tok/compression/_system_prompt_cache.py:22-28 | Two paragraphs share a fingerprint exactly if they agree once stripped, collisions aside |
| PromptCache.ReentryIsFixedPoint | src/tok/compression/_system_prompt_cache.py:52-118 | Hinting a string keeps paragraphs and fingerprints, and hinting the resulting blocks again returns them unchanged |
| PromptCache.BlocksKeepText | src/tok/compression/_system_prompt_cache.py:106-118 | Hinting a block list changes no text, and doing it twice is doing it once |
| PromptCache.HintKeepsTextIff | src/tok/compression/_system_prompt_cache.py:7 | A hinted string prompt still reads as the prompt if and only if it has no blank paragraph |
| PromptCache.BlankParagraphLost | src/tok/compression/_system_prompt_cache.py:7 | A concrete prompt whose text hinting does not give back |
| AgentLoop.StateIsHistory | src/tok/adapters/orchestrator.py:572-597 | At every moment of every run: entropy is initial minus executed, refused and chained; compute is initial minus heavy; the repeat counter is the run length |
| AgentLoop.VerdictIsHistory | src/tok/adapters/orchestrator.py:572-597 | Whether a call runs or is refused, and why, is what the history of calls decides |
| AgentLoop.NoThirdInARow | src/tok/adapters/orchestrator.py:574-586 | A call is refused as a repeat if and only if it is at least the third of identical signatures in its chat, across replies |
| AgentLoop.RepeatedIffThird | src/tok/adapters/orchestrator.py:574-586 | A call is refused as a repeat exactly if the last two calls of the chat had its name and its arguments, unless a name with a colon starts another |
| AgentLoop.NamesConfusedIff | src/tok/adapters/orchestrator.py:574 | Two tools can be confused for some arguments exactly if one name, followed by a colon, starts the other |
| AgentLoop.ColonConfuses | src/tok/adapters/orchestrator.py:574-586 | Two tools, the first call of one of which is refused as a repeat of the other |
| AgentLoop.ComputeIsRunsAndEdits | src/tok/adapters/orchestrator.py:591-597 | The compute left is the initial one less the executions of run and edit over all chats |
| AgentLoop.FeedbackTellsOutcome | src/tok/adapters/orchestrator.py:583-614 | Feedback starts with [SUCCESS] exactly for an executed call that succeeded and ends with the reply of every executed call |
| AgentLoop.BudgetsHold | src/tok/adapters/orchestrator.py:588-597 | Executions and chains of a chat never exceed the entropy budget, run and edit executions of all chats never the compute budget |
| AgentLoop.Orchestrator.constructor | src/tok/adapters/orchestrator.py:236-244 | Budgets default to 40 and 20 and the state starts empty |
| AgentLoop.Orchestrator.ExecuteTool | src/tok/adapters/orchestrator.py:572-614 | One tool block changes counters and answers as the history decides; it is a repeat exactly as the third call in a row with one name and one list of arguments, if names tell apart |
| AgentLoop.Orchestrator.ExecuteToolBlocks | src/tok/adapters/orchestrator.py:560-618 | All tool blocks of a reply are judged in order, each on the history including the ones before it |
| AgentLoop.FeedbackEmptyIff | src/tok/adapters/orchestrator.py:471 | The joined and stripped feedback of a reply is empty if and only if the reply calls no tool |
| AgentLoop.Orchestrator.ShouldChain | src/tok/adapters/orchestrator.py:620-621 | A turn is chained if and only if its reply called a tool, executed or refused, and entropy is left |
| AgentLoop.Orchestrator.ChainToolFeedback | src/tok/adapters/orchestrator.py:623-638 | Chaining costs one entropy and counts one turn |
| AgentLoop.Orchestrator.Turn | src/tok/adapters/orchestrator.py:441-481 | A turn either goes on with less entropy left, or ends the chat for one of three reasons |
| AgentLoop.Orchestrator.BeginChat | src/tok/adapters/orchestrator.py:419-421 | A chat resets entropy and repeats but not compute |
| AgentLoop.Orchestrator.Chat | src/tok/adapters/orchestrator.py:409-481 | For any model replies the loop ends, with at most initial entropy plus one model calls, and its whole history and answer are given |
| DedupFrontier.MirrorsNext | src/tok/analysis/dedup_frontier.py:908-918 | Recording an event keeps a dictionary equal to backward scans of the history, for each of the three keys |
| DedupFrontier.MirrorsTextsNext | src/tok/analysis/dedup_frontier.py:920 | The set-valued dictionary keeps holding exactly the identities seen with each tool and canonical hash |
| DedupFrontier.LookElsewhere | src/tok/analysis/dedup_frontier.py:720-729 | The other-identity flag holds if and only if an earlier event has the same tool and canonical text under another identity |
| DedupFrontier.Recall | src/tok/analysis/dedup_frontier.py:717-729 | The dictionary lookups are what naive scans of all earlier events give |
| DedupFrontier.Learn | src/tok/analysis/dedup_frontier.py:907-920 | All four dictionaries agree with the history after the event |
| DedupFrontier.ReasonInTaxonomy | src/tok/analysis/dedup_frontier.py:804-834 | Every miss reason that is emitted is in the taxonomy |
| DedupFrontier.HeadroomMeansEarlier | src/tok/analysis/dedup_frontier.py:804-834 | Canonicalization is said to deduplicate only an output that an earlier event had, as it is or canonicalized |
| DedupFrontier.SortDescending | src/tok/analysis/dedup_frontier.py:847-851 | Candidates in descending order of saving and name, none lost or added |
| DedupFrontier.ChooseCandidate | src/tok/analysis/dedup_frontier.py:845-854 | The loop picks the greatest saving, the current one unless beaten, the later name on ties |
| DedupFrontier.BestIsUnique | src/tok/analysis/dedup_frontier.py:845-854 | That choice is determined by the candidates and the current saving |
| DedupFrontier.Assess | src/tok/analysis/dedup_frontier.py:761-870 | The row of an event follows from the event and what was known before it |
| DedupFrontier.AnalyzeEvents | src/tok/analysis/dedup_frontier.py:685-922 | Every row equals what naive scans over all earlier events give |
| DedupFrontier.ReportsAt | src/tok/analysis/dedup_frontier.py:697-922 | The same for the row at any position |
| DedupFrontier.HeadroomIsBest | src/tok/analysis/dedup_frontier.py:836-855 | Incremental headroom is the best applicable saving beyond the current one, never negative, positive if and only if one is chosen |
| DedupFrontier.KeysTell | src/tok/analysis/dedup_frontier.py:712-713 | The keys tell events apart by tool and arguments, and by tool and target, if tool names have no bar |
| DedupFrontier.MatchesIff | src/tok/analysis/dedup_frontier.py:764-776 | An output repeats exactly if the latest event with its identity or target gave it, or another tool gave it last; canonically likewise |
| DedupFrontier.RepeatOfIdentity | src/tok/analysis/dedup_frontier.py:777-781 | A call made before is a repeat of itself, canonical exactly if the latest output differs in volatile parts only |
| DedupFrontier.RepeatOfTarget | src/tok/analysis/dedup_frontier.py:782-789 | A new call for an old target is an alias, canonical under the same condition |
| DedupFrontier.RepeatOfOutput | src/tok/analysis/dedup_frontier.py:790-796 | A new call for a new target repeats an output exactly if another tool gave it last |
| DedupFrontier.RepeatExistsIff | src/tok/analysis/dedup_frontier.py:797-801 | A repeat exists exactly if an earlier event has the identity, the target, the output or the canonical text, or the output was deduplicated |
| DedupFrontier.ReasonMeans | src/tok/analysis/dedup_frontier.py:804-834 | What each miss reason claims, and that an output without a reason was deduplicated or is a long exact repeat |
| DedupFrontier.OpportunityMeans | src/tok/analysis/dedup_frontier.py:377-399 | What each kind of opportunity claims of the event |
| DedupFrontier.CandidateMeans | src/tok/analysis/dedup_frontier.py:412-439 | An experiment is proposed only for a repeated output of a known tool beyond its threshold |
| DedupFrontier.ThresholdsNest | src/tok/analysis/dedup_frontier.py:414-421 | A higher threshold proposes only what the lower ones do |
| DedupFrontier.StableTokenLength | src/tok/analysis/dedup_frontier.py:348-354 | The length subtracted is that of the token with a hash of 16 digits |
| DedupFrontier.FirstSeenIff | src/tok/analysis/dedup_frontier.py:781-802 | An event is first seen if and only if no earlier one has its identity or target and its output was not last seen from another tool |
| DedupFrontier.LatestWithExists | src/tok/analysis/dedup_frontier.py:717-719 | A scan finds nothing if and only if no earlier event has the key |
| DedupReport.CountOpportunities | src/tok/analysis/dedup_frontier.py:1199-1215 | The four counters of the summary's loop equal counts over all opportunities, for every outcome and reason |
| DedupReport.SourceIsTotal | src/tok/analysis/dedup_frontier.py:925-984 | Each field of a source's summary, by its own comprehension or counter, is what the source's opportunities and turns add up to |
| DedupReport.BuildSummary | src/tok/analysis/dedup_frontier.py:1198-1294 | Counter loop, filtered lists and log sums give each field of the report, and the trusted counters, as totals over everything accumulated |
| DedupReport.MakeReport | src/tok/analysis/dedup_frontier.py:1441-1519 | Every field of the report is the sum of that field over the emitted source summaries plus the bridge logs' counts |
| DedupReport.HistogramExact | src/tok/analysis/dedup_frontier.py:976 | The emitted miss histogram sums to the opportunities with a reason if and only if all their reasons are in the taxonomy |
| DedupReport.HistogramComplete | src/tok/analysis/dedup_frontier.py:976 | For the rows of the analysis it always does |
| DedupReport.TaxonomyDistinct | src/tok/analysis/dedup_frontier.py:30-39 | The taxonomy names no reason twice |
| ImageDedup.StripDuplicateImages | src/tok/compression/_image_dedup.py:22-63 | The loop stubs exactly the images whose fingerprint came before, reports the saving and updates the shared set |
| ImageDedup.ChunksIndependent | src/tok/compression/_image_dedup.py:22-63 | Two lists one after the other give what their concatenation gives: output, saving and set |
| ImageDedup.StripAll | src/tok/compression/_image_dedup.py:28-31 | Any sequence of lists with one shared set gives what one call on their concatenation gives |
| ImageDedup.DeliveredOnce | src/tok/compression/_image_dedup.py:55-61 | A fingerprint passes through at most once, and never if seen before |
| ImageDedup.StubNamesMark | src/tok/compression/_image_dedup.py:56 | The fingerprint can be read off the stub |
| ImageDedup.StubsTellApart | src/tok/compression/_image_dedup.py:56 | Stubs of different fingerprints are different |
| ImageDedup.StubIsRecoverable | src/tok/compression/_image_dedup.py:55-57 | Each stub names a fingerprint seen initially or delivered earlier |
| ImageDedup.SecondPassIsIdentity | src/tok/compression/_image_dedup.py:22-63 | With a fresh set a second pass changes nothing and saves nothing |
| ImageDedup.SavingReported | src/tok/compression/_image_dedup.py:52-58 | The real reduction is at most the reported saving, and equal if and only if every stubbed image is at least as long as its stub |
| Text.JoinLines | src/tok/compression/__init__.py:1380-1381 | The lines of a text, put together, are the text |
| Text.LinesAreLines | src/tok/compression/__init__.py:1380-1381 | Each line has no break but its end, all but the last have one, and no return is torn from its newline |
| Text.TrimMeans | src/tok/compression/_system_prompt_cache.py:27 | Stripping takes all white space off both ends and nothing else |
| Text.BasenameMeans | src/tok/compression/__init__.py:739 | The base name is what follows the last slash |
| Text.DecimalRoundTrip | scripts/tok_trace_reader.py:303 | Reading a printed decimal number gives the number |

## Left out

- Functions outside the modelled cores (tool-result codecs, search compression, file skeletons, evidence and precision checks, error normalizers, injection stripping, argument and path normalizers) are parameters; nothing is claimed about what they return.
- SHA-256, JSON encoding, the diff matcher, shell tokenizing, text decoding and the line splitting of files, and file resolution are parameters; clocks and file times are inputs of each cache call.
- Text: lower-casing and digits are those of ASCII; strings are sequences of characters without encoding.
- Locking and concurrent use of the result cache: one call is one step.
- Diagnostic counters, logging, cost and token statistics, message lists and pending deltas.
- Tool execution failures that raise, and the replies of the executor, which are inputs of each call.
- AgentLoop.Orchestrator.Chat: names its history by the events of the replies; what each call did follows from ExecuteTool and the lemmas on runs.
- TraceAudit.ValidateBlock: reports each kind of extension error once, because the order and number of entries of a dict are not modelled.
- TraceAudit.AuditFixtureFile: starts from the decoded list of fixtures; unreadable or malformed files are answered before the loop.
- ResultCache.FirstReadGuarantee: counts the text a legacy entry already held at the start as one delivery, because its own history is not known; entries in the new format at the start are excluded.
- ResultCache.HashesDescribe: says nothing about entries that still stem from the start beyond their keeping hash and text.
- ResultCache.MatchNeverGrows: covers file-like and command-like tools; search headers, trailing newlines and host stubs do not report exact savings.
- DiffEmitter.DeltaRoundTrip: is about the list of diff lines; the joined text, whose headers carry no newline, and diffs stripped of context or replaced by the overflow path are not claimed to replay.
- DiffEmitter.ChangedLinesExact: is about the emitted layout, where changed lines that render like file headers are overlooked as in the code.
- CommandCache.AcceptedIsSimpleIff: is about commands without quotes and backslashes; of others only their tokens are known, as what the tokenizer returns. Operators and patterns are the only syntax of the shell it looks at, not variables, assignments or reserved words.
- CommandCache.HashIgnored: is about commands without quotes and backslashes.
- PromptCache: text that is not a string in a block, and fingerprint collisions, are not modelled.
- ImageDedup: image data that is not a string.
- DedupFrontier: the compression outcome of each event is an input; the four dictionaries are fields of one value.
- DedupReport: rankings, hot targets, the experiment matrix, the patch queue, opportunity classes by source and rendering of the report.
- LongestPath.CalculateMaxDepth: the recursion depth limit of the interpreter is not modelled, nor is it for the cycle finder.
- src/tok/spec/trace.py, a second trace reader, is not part of this model.
- Command line, HTTP, subprocesses, pricing, benchmarks, bill of materials and security scripts: plumbing or single decisions.
