# Verified models of the build and analysis scripts

The `scripts/` directory holds several programs with real algorithms behind them: a source-to-source
function inliner, a changelog engine, a clone detector, a tar reader, a replay simulator, and some
smaller state machines. This project models those algorithms in Dafny and proves what they promise.
Where a promise does not hold for the code as written, the code is kept, a concrete input shows the
failure, and the promise is proved under a condition on the input, an exact one wherever the section
below says "if and only if".

Check everything with `dafny verify dfyconfig.toml`.

## The function inliner (`scripts/inline-functions.ts`)

`Script` is a small JavaScript: blocks with a temporal dead zone, assignments, short-circuit
operators, comparisons, loops, exceptions, module globals, calls among the file's functions and calls
and property reads answered by an arbitrary, history-dependent outside world. Evaluation runs on
fuel, and out of fuel is a third outcome beside a result and an exception; the theorems quantify over
all fuel, so they speak of termination too. The order of two values may be "unordered", as with NaN.

- `ScriptText` prints expressions and parses them back with JavaScript's precedences; a dot behind a
  bare number does not parse. `GuardInversion` compiles guard clauses to the text of one condition.
  For every list of guards it parses to the intended tree, unless a field is read from a parameter
  that a bare number replaces; then it does not parse at all. The tree is truthy exactly when every
  guard is falsy, after evaluating the same operands in the same order.
- `InlineText` says so of the text at every call site, and of the whole replacement. Strict mode
  always leaves a program. Default mode does if and only if no field is read from a parameter whose
  argument is a bare number, around which the code puts no parentheses; `InlineDefects.NumberLosesDot`
  is a call it turns into `if (!(5.foo))`.
- `GuardExactness` makes that exact, for a run of guards as for one: inversion is right if and only if
  no flipped relational comparison that is reached has unordered operands. The file header's
  unconditional claim is wrong for NaN.
- `Inliner`, `InlineSim`, `InlineSite`, `InlineCall` prove one call site: prefix, condition and tail
  do what evaluating the arguments and calling the helper do. `InlineProgram`, `InlineCorrect` and
  `InlineFile` carry this through whole programs, with recursion and loops, in both directions, and
  through the rounds of `inlineFile`, which always end.
- `InlineDefects` relates the default mode to strict mode and gives four files on which strict mode,
  contrary to the header's "exact call semantics", changes the result: a hoisted temporary captured
  by a local of an already inlined helper; a caller's local captured because the free-name analysis
  ignores block scope; a guard that reads a local of the tail and, once inverted, lands outside the
  block that declares it; and a spliced local that is a parameter of the caller, which no identifier
  in the caller's body reserves, so that the result declares its parameter again.
- The theorems therefore ask four conditions, one for each file, all to be read off the source text
  (`CleanRound`): no guard reads a tail local; no scope around a call declares a name that is free in
  the helper; at a call, the chosen temporaries and fresh names are none of the helper's free names,
  and no occurrence is replaced inside a block that declares what replaces it; and no added name is a
  parameter of the caller. They are sufficient; only the last is exact (`RedeclaresIff`).
- `NameReservation` and `FreshNames` follow the shared reserved-name sets: all names added to one
  target block are distinct and new there, `case` clauses of one `switch` counting as one block.

## The changelog engine (`scripts/fix-changelogs.ts`)

`Changelog` parses and prints at the level of lines, `Text` does the line splitting. Printing after
parsing is idempotent on every text. `ChangelogItems` to `ChangelogFixer` follow list items through
dropping, promotion, heading merges, sorting and printing: for any set of promotable lines every
release keeps exactly its other items, each in its category, and [Unreleased] gains exactly the
promoted ones, up to the merging of categories with one title. That merging keeps a section's items
if and only if every merged body that holds anything starts with a list item or finds no item in
front of it; `ChangelogProse` gives a whole changelog on which it does not. `ChangelogVersions` is
the comparison of releases, an order on version numbers and on nothing more: one title that is no
number, added to them, ends the order, and then some list is left unsorted
(`ChangelogFixer.SortsIff`). `ChangelogDiff` reads unified diffs and counts promotable lines per
hunk. `ChangelogPatch` writes them, from edit scripts: what is read from the text of a diff is what
the edits added and removed, line by line, if and only if no added line posing as a file header (`++
b/`) comes before; `PosingRowMisleads` is a diff where one does. `ChangelogTail` collapses old
releases into an archive link.

## The other programs

- `UnionFind`, `CloneClusters`, `CloneRegions` (`scripts/cleanup-scan.ts`): path-compressing
  union-find, and clone clusters as connected components, down to the reported regions.
- `TarNotices`, `TarRoundTrip`, `Utf8` (`scripts/generate-third-party-notices.ts`): the
  reader against archives written by IEEE Std 1003.1-2017 (`pax` utility, "pax Extended Header" and
  "ustar Interchange Format") with the GNU long-name member.
- `Intervals`, `Replay` (`scripts/session-stats/optimize_read_config.py`).
- `Reservoir` (`scripts/tool_io.py`), `Glob` (`scripts/inspect-upstream-sync.ts`), `EditPrefix`
  (`scripts/session-stats/harmony_backtest.py`), `TestPool` (`scripts/ci-test-ts.ts`) and
  `SessionAudit` (`scripts/session-stats/audit.ts`).

`Wrappers` and `Numerals` hold what several of them share.

## Model

| member | source | states |
|---|---|---|
| ScriptText.ParseExact | scripts/inline-functions.ts:294-301 | With JavaScript's precedences and associativity the parser accepts exactly the printed texts of the trees it can build, and gives back the tree. |
| GuardInversion.FlipExact | scripts/inline-functions.ts:138-147 | A flipped comparison is the negation of the original for equalities always, for relations whenever the operands are ordered. |
| GuardInversion.NegText | scripts/inline-functions.ts:315-345 | The negated text, at the precedence level reported for it, is the printed De Morgan dual of the guard with the arguments substituted, a tree that parses back, unless a field is read from a bare number. |
| GuardInversion.ConditionText | scripts/inline-functions.ts:347-360 | The minimally parenthesised condition for any run of guards parses to the conjunction of the negated guards, with re-associated chains kept in evaluation order; where a guard reads a field from a parameter that a bare number replaces, it does not parse. |
| GuardInversion.NegTest | scripts/inline-functions.ts:315-345 | Testing the negated guard gives the opposite answer with the same effects, exceptions and divergence, unless an unordered flipped comparison is met. |
| GuardInversion.ConditionTest | scripts/inline-functions.ts:352-360 | The condition is true exactly when all guards are false in turn, evaluating the same operands in the same order and stopping at the same one. |
| GuardExactness.InversionExactIff | scripts/inline-functions.ts:138-147 | In worlds where every operation is visible, inversion is exact if and only if no flipped relational comparison with unordered operands is reached. |
| GuardExactness.ConditionExactIff | scripts/inline-functions.ts:352-360 | The same for a run of guards combined into one condition. |
| GuardExactness.NaNGuardFails | scripts/inline-functions.ts:138-147 | With NaN operands the guard `a() < b()` and the inverted condition `a() >= b()` are both false, so the tail that used to run is skipped. |
| FreshNames.FreshFromIsLeast | scripts/inline-functions.ts:501-507 | The fresh name is the first free one among the base and its numbered variants. |
| FreshNames.FreshName | scripts/inline-functions.ts:501-507 | The search loop always ends, with that name. |
| Inliner.UsesFree | scripts/inline-functions.ts:848-881 | A parameter counted as unused does not occur in the helper's body. |
| InlineText.SiteTight | scripts/inline-functions.ts:246-263 | Every argument substituted at a call site binds as tightly as the name it stands for. |
| InlineText.SiteText | scripts/inline-functions.ts:848-900 | At every call site every printed expression of the replacement parses back if and only if the mode is strict or the helper reads no field from a parameter whose argument is a bare number; the printed condition parses to the condition of the `if` under that condition on the guards, and else not at all. |
| InlineSim.SimExpr | scripts/inline-functions.ts:294-301 | Substituting settled arguments and renamed locals in an expression keeps value, globals, trace, exceptions and divergence. |
| InlineSim.SimSeq | scripts/inline-functions.ts:294-301 | The same for whole statement lists with blocks, loops and escapes. |
| InlineSite.PrefixRun | scripts/inline-functions.ts:848-881 | The hoisted prefix does what evaluating the arguments left to right does, and leaves every argument's value where the substitution looks for it. |
| InlineCall.CallSite | scripts/inline-functions.ts:837-900 | One call and its replacement, guarded or guardless, strict or default, end alike: same globals and trace, same exception, or both diverge. |
| InlineFresh.AllNewFresh | scripts/inline-functions.ts:772-785 | No name added to a block by all replacements in it was mentioned there before. |
| InlineCorrect.CarryInvoke | scripts/inline-functions.ts:935-946 | Invoking any function before and after inlining a helper gives the same result; fuel n suffices for the new program, 2n+1 for the old one. |
| InlineFile.InlineHelper | scripts/inline-functions.ts:935-946 | Inlining one accepted helper everywhere and deleting it changes the meaning of no other function, in either direction and on every input. |
| InlineFile.RewrittenTable | scripts/inline-functions.ts:935-946 | The rewritten file defines exactly the other functions, each with its calls replaced. |
| InlineFile.RoundsSuffice | scripts/inline-functions.ts:949-959 | Each round removes one function, so a run of at least as many rounds as functions ends with no candidate left. |
| InlineFile.ExportsSurvive | scripts/inline-functions.ts:596-736 | Exported functions are never removed. |
| InlineFile.InlineAllCorrect | scripts/inline-functions.ts:949-959 | A strict run keeps the meaning of every remaining function, over all rounds. |
| InlineFile.InlineFile | scripts/inline-functions.ts:949-959 | The in-place loop computes that run and the names it inlined, in order. |
| InlineDefects.ModesAgree | scripts/inline-functions.ts:215-267 | Default and strict replacements of one call end alike when substituted arguments are settled at the call, nothing evaluated later writes what they read, and no helper local captures them. It compares the programs as trees; `InlineText.SiteText` says when the default one has a text. |
| InlineDefects.NumberLosesDot | scripts/inline-functions.ts:246-263 | A helper with the guard `n.foo`, called with `5`: the default mode prints `!(5.foo)`, which does not parse; the strict mode's text does. |
| InlineDefects.StrictModeCaptures | scripts/inline-functions.ts:772-785 | A file of three functions that two strict rounds turn into one that always throws: the first round leaves a temporary in a helper, the second captures it. |
| InlineDefects.ScopeCheckMisses | scripts/inline-functions.ts:419-452 | A file the checks accept, in which a caller's local replaces the module variable the helper read, because a name bound in a nested block counts as the helper's own everywhere. |
| InlineDefects.GuardLeavesScope | scripts/inline-functions.ts:347-360 | A file the checks accept, in which every call throws and the result goes on: the inverted guard reads the module's variable instead of the tail's uninitialised one. |
| InlineDefects.RedeclaresIff | scripts/inline-functions.ts:772-785 | The rewritten function declares a parameter again if and only if an added name is a parameter. |
| InlineDefects.ParameterClash | scripts/inline-functions.ts:772-785 | A file the checks accept, whose result declares its own parameter again and, block by block, does something else than the call. |
| NameReservation.SiteDistinct | scripts/inline-functions.ts:793-822 | Temporaries and spliced locals of one site are pairwise distinct and avoid every reserved name. |
| NameReservation.PlanStep | scripts/inline-functions.ts:757-785 | Planning one more site keeps all names of a target block distinct, sibling `case` clauses being one block. |
| NameReservation.PlanSites | scripts/inline-functions.ts:935-946 | Over all call sites, sharing the reserved sets, every planned name is new in its block and used once there. |
| Text.LinesRoundTrip | scripts/fix-changelogs.ts:132-138 | Splitting a file written line by line gives the lines back. |
| Text.BlankTrims | scripts/fix-changelogs.ts:209-215 | A line counts as blank exactly when trimming it leaves nothing. |
| Text.TrimBlankLines | scripts/fix-changelogs.ts:209-215 | The two scanning loops remove exactly the blank lines at both ends. |
| Changelog.ParseChangelog | scripts/fix-changelogs.ts:144-173 | The index-driven loops give the prefix up to the first release heading and one section per heading. |
| Changelog.ParseReleaseSection | scripts/fix-changelogs.ts:175-207 | Likewise for the categories of one release. |
| Changelog.OutlineTail | scripts/fix-changelogs.ts:532-535 | The final loop of the printer removes exactly one empty line. |
| ChangelogRoundTrip.RenderChangelog | scripts/fix-changelogs.ts:509-536 | The printing loops give the outline's lines: trimmed blocks, empty categories left out. |
| ChangelogRoundTrip.ParsedOutline | scripts/fix-changelogs.ts:144-207 | Whatever the text, no parsed block contains a heading of its own level or a line break. |
| ChangelogRoundTrip.ParseRender | scripts/fix-changelogs.ts:509-536 | Parsing a printed document recovers it up to blank lines at block ends and empty categories. |
| ChangelogRoundTrip.RenderIsIdempotent | scripts/fix-changelogs.ts:509-536 | Printing after parsing is idempotent on every text. |
| ChangelogItems.ParseItems | scripts/fix-changelogs.ts:241-271 | The scanning loops find every list item with its range and trimmed lines. |
| ChangelogItems.ItemsTrimmed | scripts/fix-changelogs.ts:209-215 | Blank lines at the ends of a body do not matter to its items. |
| ChangelogItems.CompactKeeps | scripts/fix-changelogs.ts:366-384 | Compacting list spacing changes no item and removes blank lines only. |
| ChangelogItems.AppendItems | scripts/fix-changelogs.ts:225-239 | Appending a body adds its items after the others and changes none if and only if the body starts with an item, or is blank, or finds no item in front of it. |
| ChangelogItems.CutItems | scripts/fix-changelogs.ts:273-281 | Filtering by the chosen items' line ranges leaves exactly the other items, in order, with their line numbers. |
| ChangelogFix.AppendSubsectionLines | scripts/fix-changelogs.ts:225-239 | The category gains the body's items and changes none under exactly that condition, and always keeps every non-blank line of both. |
| ChangelogFix.SubsectionHasItem | scripts/fix-changelogs.ts:287-294 | True exactly when the category holds an item of the same text. |
| ChangelogFix.PromoteItems | scripts/fix-changelogs.ts:638-645 | The target gains exactly the promoted items' texts and keeps its own. |
| ChangelogItems.ProseJoins | scripts/fix-changelogs.ts:225-239 | How it fails otherwise, for all bodies: what stands in front of the added body's first item becomes part of the last item before it; the other items of both stay. |
| ChangelogSections.CutSection | scripts/fix-changelogs.ts:317-336 | A section without its chosen items keeps exactly the others. |
| ChangelogSections.DropItems | scripts/fix-changelogs.ts:328-334 | The loop cuts every item whose text is already known. |
| ChangelogSections.PromoteInto | scripts/fix-changelogs.ts:352-359 | The last category of the title, or a new one, gains exactly the promoted items; other categories keep theirs. |
| ChangelogSections.PromoteSection | scripts/fix-changelogs.ts:627-647 | A release loses its promotable items to [Unreleased], which is created only when needed. |
| ChangelogSections.NormalizeSection | scripts/fix-changelogs.ts:386-426 | Merging leaves one category per title that holds anything, in order of first appearance, or in the fixed order for [Unreleased]; heading and leading text stay, and every title keeps its items if and only if the merges are safe. |
| ChangelogFixer.DropUnreleasedDuplicates | scripts/fix-changelogs.ts:317-336 | The first [Unreleased] section loses exactly the items whose text some release or the history has; nothing else changes. |
| ChangelogFixer.PromoteAll | scripts/fix-changelogs.ts:627-647 | Over all sections, with the list shifting under the loop when [Unreleased] is created, releases keep their other items in place and [Unreleased] gains the promotable ones under their categories; it is created only when something is promoted. |
| ChangelogFixer.FixChangelogContent | scripts/fix-changelogs.ts:616-665 | From text to text: prefix, headings and leading texts; which item stands in which release and category once the promotions are made (`Moved`), exactly; of each section, that merging keeps these items if and only if it is safe in `Moved`; [Unreleased] first, then the releases, sorted when their titles are version numbers. |
| ChangelogFixer.Conservation | scripts/fix-changelogs.ts:616-665 | Without historical keys, and where merging is safe, no item text is lost or invented, and none changes its category. |
| ChangelogFixer.SortReleasesSorts | scripts/fix-changelogs.ts:456-462 | For a comparison that is a strict weak order the releases come out sorted, none lost, equal ones in their old order. |
| ChangelogFixer.ReleasesAreSorted | scripts/fix-changelogs.ts:445-462 | Releases whose titles are version numbers come out by falling version, none lost, equal ones in their old order. |
| ChangelogVersions.VersionsAreOrdered | scripts/fix-changelogs.ts:445-454 | The comparison of dotted numbers, part by part with missing parts zero, is a strict weak order. |
| ChangelogVersions.OrderedIff | scripts/fix-changelogs.ts:445-454 | Added to the version numbers, a title leaves the comparison a strict weak order if and only if it is a version number: every dotted part starts with a number. |
| ChangelogVersions.OrderedAmong | scripts/fix-changelogs.ts:445-454 | So is any set of titles that contains the version numbers ordered if and only if it holds nothing else. |
| ChangelogVersions.OtherTitlesAreNot | scripts/fix-changelogs.ts:445-454 | The smallest case: `x` ties with `1` and with `2`, which do not tie. |
| ChangelogFixer.SortsIff | scripts/fix-changelogs.ts:456-462 | The sort puts every list of releases with such titles in order if and only if all of the titles are version numbers. |
| ChangelogFixer.LeftUnsorted | scripts/fix-changelogs.ts:456-462 | For every other title, a list of three releases around it that the sort leaves in the wrong order. |
| ChangelogFixer.XStaysBetween | scripts/fix-changelogs.ts:456-462 | Releases titled `1`, `x` and `2` stay as they are, although `2` belongs before `1`. |
| ChangelogProse.FixGlued | scripts/fix-changelogs.ts:386-426 | A whole changelog whose only section has other items after the fix, although nothing was promoted or dropped. |
| ChangelogDiff.ReadDiff | scripts/fix-changelogs.ts:678-742 | One pass over the diff gives the added and removed items of each hunk with file, line and hunk. |
| ChangelogPatch.HeaderRead | scripts/fix-changelogs.ts:697-702 | From every hunk header the reader takes the number of the hunk's first new line. |
| ChangelogPatch.FindingsExact | scripts/fix-changelogs.ts:678-742 | For the text of every diff, the items found are exactly those the edits add or remove, with file, hunk and new line number, if and only if the diff is honest: no added line `++ b/…` turns the reader away before one of them. |
| ChangelogPatch.TrueLine | scripts/fix-changelogs.ts:704-731 | In an honest diff every candidate is the list item that stands on the reported line of the new file. |
| ChangelogPatch.ReportedLines | scripts/fix-changelogs.ts:678-790 | So is every line in the collector's result. |
| ChangelogPatch.PosingRowMisleads | scripts/fix-changelogs.ts:685-688 | A diff that is not honest: an item on line 3 of one file is reported for line 2 of another. |
| ChangelogDiff.CandidateIsAdded | scripts/fix-changelogs.ts:709-722 | Every candidate is an added list item inside a hunk. |
| ChangelogDiff.PairUp | scripts/fix-changelogs.ts:744-762 | Greedy matching pairs the first removals with the first equal additions. |
| ChangelogDiff.MatchedCount | scripts/fix-changelogs.ts:744-762 | Per file and item text, min(additions, removals) pairs. |
| ChangelogDiff.HunkCount | scripts/fix-changelogs.ts:764-789 | Per hunk, max(0, unmatched additions - unmatched removals) lines are promotable, none beside an added release heading. |
| ChangelogDiff.CollectPromotableAddedItemLines | scripts/fix-changelogs.ts:678-790 | The map holds exactly the lines of the promotable candidates, by file. |
| ChangelogTail.FileBytes | scripts/fix-changelogs.ts:587-592 | A file's UTF-8 size is the sum of its lines' sizes with their newlines. |
| ChangelogTail.KeptFacts | scripts/fix-changelogs.ts:594-613 | A cut before a heading leaves that many sections and ends in a non-blank line. |
| ChangelogTail.CollapseChangelogTail | scripts/fix-changelogs.ts:570-614 | The body with footer fits the budget unless only the two mandatory sections are left; it is a line prefix cut before a release heading, and one section more would not fit. |
| ChangelogTail.SplitArchiveFooter | scripts/fix-changelogs.ts:548-557 | The lines are the body, blank lines, the link and blank lines, the body not ending in a blank line; without a link as last non-blank line the text is left alone. |
| ChangelogTail.FooterRoundTrip | scripts/fix-changelogs.ts:548-561 | Splitting an appended footer gives back body and link. |
| ChangelogTail.CollapsedFooter | scripts/fix-changelogs.ts:548-614 | A collapsed file with its footer splits into a prefix of the original lines with the kept sections, and the link. |
| UnionFind.LinkedIsEquivalence | scripts/cleanup-scan.ts:186-190 | Being linked by the unions made so far is an equivalence. |
| UnionFind.LinkedIsLeast | scripts/cleanup-scan.ts:186-190 | It is contained in every equivalence that contains the unions. |
| UnionFind.RootIsTop | scripts/cleanup-scan.ts:178-185 | Every chain of parents ends in a root. |
| UnionFind.Compressed | scripts/cleanup-scan.ts:181-184 | Pointing an element at its root changes no root. |
| UnionFind.Joined | scripts/cleanup-scan.ts:186-190 | Hanging one root below another gives both trees one root and no cycle. |
| UnionFind.UnionFind.Find | scripts/cleanup-scan.ts:178-185 | Terminates with the root; roots are equal exactly for linked elements. |
| UnionFind.UnionFind.Union | scripts/cleanup-scan.ts:186-190 | Adds exactly this link. |
| CloneClusters.IndexWindows | scripts/cleanup-scan.ts:196-214 | Every window is filed once under its hash. |
| CloneClusters.UniteEqual | scripts/cleanup-scan.ts:215-223 | The matched windows are those whose hash occurs again, and equal windows are linked. |
| CloneClusters.LinkedIsConnected | scripts/cleanup-scan.ts:215-224 | The unions link two windows exactly when every equivalence relates them that relates equal windows and matched windows consecutive in one file. |
| CloneClusters.FindClusters | scripts/cleanup-scan.ts:194-236 | The clusters are the connected components of the matched windows. |
| CloneRegions.Spans | scripts/cleanup-scan.ts:253-268 | Sorted windows become maximal line spans, at least one line apart, that cover exactly their lines. |
| CloneRegions.TotalCounts | scripts/cleanup-scan.ts:256-260 | The size added up over one file's spans counts each covered significant line once. |
| CloneRegions.ClusterCount | scripts/cleanup-scan.ts:238-272 | Over all files, the sizes of the regions add up to the number of significant lines in the cluster's windows. |
| CloneRegions.DescribeCluster | scripts/cleanup-scan.ts:238-272 | A cluster's regions are disjoint and cover exactly the lines of its windows, and its reported size is the number of these lines. |
| CloneRegions.DetectClones | scripts/cleanup-scan.ts:194-274 | Each component is described once; exactly the descriptions with at least two regions are reported, largest first. |
| Utf8.DecodeEncode | scripts/generate-third-party-notices.ts:36 | Decoding inverts encoding. |
| Utf8.EncodeDecode | scripts/generate-third-party-notices.ts:36 | Only the encoding of a string decodes to it: overlong forms and surrogates are errors. |
| Utf8.DecodeTextEncode | scripts/generate-third-party-notices.ts:36 | The fatal decoder gives back every string but for a leading byte order mark. |
| TarNotices.ValidateTarChecksum | scripts/generate-third-party-notices.ts:52-59 | The summing loop compares the stored checksum with the byte sum, its own field counted as spaces. |
| TarNotices.NewlineAfterSpace | scripts/generate-third-party-notices.ts:69-75 | A record accepted by the newline check ends after its space, so every slice is in bounds. |
| TarNotices.ParsePaxPath | scripts/generate-third-party-notices.ts:61-82 | The offset loop reads record by record, strictly forward, and keeps the last path. |
| TarNotices.ReadTarNoticeMembers | scripts/generate-third-party-notices.ts:90-147 | The sorted distinct notices, or the first error in archive order, or the first path that an earlier notice already has. |
| TarRoundTrip.ReadOctal | scripts/generate-third-party-notices.ts:44-50 | A standard octal field reads as its number. |
| TarRoundTrip.HeaderRead | scripts/generate-third-party-notices.ts:103-108 | A standard header reads as its path, size and type. |
| TarRoundTrip.HeaderExists | scripts/generate-third-party-notices.ts:52-59 | Every name, prefix and size that fits has a header whose checksum is right. |
| TarRoundTrip.RecordsRead | scripts/generate-third-party-notices.ts:61-82 | Reading any encoded pax records gives the last path among them. |
| TarRoundTrip.RecordExists | scripts/generate-third-party-notices.ts:67-73 | Every key and value has a record whose decimal length counts its own digits. |
| TarRoundTrip.StepRead | scripts/generate-third-party-notices.ts:113-138 | One member turns the pending paths into those that the neighbouring entries determine. |
| TarRoundTrip.RoundTrip | scripts/generate-third-party-notices.ts:90-147 | Reading a standard archive succeeds exactly when every notice is a readable regular file under its own path, and then gives the notices under their effective paths, sorted. |
| Intervals.Merge | scripts/session-stats/optimize_read_config.py:157-168 | Merging gives the normal form of the same lines. |
| Intervals.NormalDecides | scripts/session-stats/optimize_read_config.py:171-175 | On the normal form a range lies in one interval exactly when it lies in the union. |
| Intervals.NormalIsUnique | scripts/session-stats/optimize_read_config.py:157-168 | A set of lines has one normal form. |
| Intervals.NormalFormNeeded | scripts/session-stats/optimize_read_config.py:171-175 | Without the normal form the test misses a covered range. |
| Intervals.Subtract | scripts/session-stats/optimize_read_config.py:178-194 | What is left is the normal form of exactly the lines outside the intervals. |
| Replay.ChunkRange | scripts/session-stats/optimize_read_config.py:394-405 | Chunks tile the gap, within the cap, all but the last full. |
| Replay.ReadsAreFewest | scripts/session-stats/optimize_read_config.py:394-405 | The number of chunks is the least that the cap allows. |
| Replay.SkipIsExact | scripts/session-stats/optimize_read_config.py:433-441 | A call is skipped exactly when it brings no line that earlier calls do not return. |
| Replay.ReplayPair | scripts/session-stats/optimize_read_config.py:408-456 | The replay covers every observed line; its chunks are disjoint, capped and outside what the calls return; calls are the useful ones plus the fewest reads that fill each missing run of lines; the total is overhead per call, the useful calls and the missing lines at the verbatim rate. |
| Reservoir.ReservoirSample.Add | scripts/tool_io.py:125-134 | The items stay those of the sampled positions. |
| Reservoir.SampleReservoir | scripts/tool_io.py:279-285 | The result holds the elements at the sampled positions, all distinct. |
| Reservoir.FiberCount | scripts/tool_io.py:132-134 | Counting draw sequences by their last draw. |
| Reservoir.Uniform | scripts/tool_io.py:118-134 | n times the number of draw sequences that keep a position equals size times the number of all of them. |
| Glob.GlobToRegExp | scripts/inspect-upstream-sync.ts:87-112 | The loop emits the text of the pattern's expression. |
| Glob.BodyParses | scripts/inspect-upstream-sync.ts:87-112 | That text, with its escapes, classes and groups, parses to the intended expression. |
| Glob.RegExpIsGlob | scripts/inspect-upstream-sync.ts:87-120 | The compiled expression accepts exactly what a direct recursive glob matcher accepts. |
| Glob.MatchesBySegment | scripts/inspect-upstream-sync.ts:87-112 | Without `**` a pattern matches segment by segment, and only paths with as many segments. |
| Glob.DirsAbsorb | scripts/inspect-upstream-sync.ts:92-95 | A leading `**` and slash absorb zero or more whole leading segments. |
| Glob.NormalizeIsIdempotent | scripts/inspect-upstream-sync.ts:114-116 | Normalising twice changes nothing. |
| Glob.ClassifyPath | scripts/inspect-upstream-sync.ts:152-160 | The first rule in order with a matching glob decides, else manual review. |
| EditPrefix.SpansOfPrefix | scripts/session-stats/harmony_backtest.py:323-335 | Cutting a text at a line end keeps exactly the lines before it. |
| EditPrefix.ParseEditBoundary | scripts/session-stats/harmony_backtest.py:472-640 | The line loop with its flags computes the boundary. |
| EditPrefix.ParseLegacyDiffBoundary | scripts/session-stats/harmony_backtest.py:338-446 | Likewise for the older format. |
| EditPrefix.HeaderHasPayload | scripts/session-stats/harmony_backtest.py:588-625 | A kept legacy insert header is followed by a kept payload line. |
| EditPrefix.RunKept | scripts/session-stats/harmony_backtest.py:498-627 | What lies behind the boundary changed nothing but, at most, one waiting header's operation count. |
| EditPrefix.Stable | scripts/session-stats/harmony_backtest.py:472-640 | The boundary is a line end, and parsing the kept prefix again gives the same boundary, files, payload and deleted lines; operation counts differ exactly for a waiting header. |
| TestPool.RunInv | scripts/ci-test-ts.ts:770-906 | Under every interleaving commands are queued, running or finished once each, and attempts follow the retry rule. |
| TestPool.RunsEnd | scripts/ci-test-ts.ts:859-903 | Every interleaving ends. |
| TestPool.NeverStuck | scripts/ci-test-ts.ts:859-903 | Until all workers have returned, one of them can step. |
| TestPool.Complete | scripts/ci-test-ts.ts:770-906 | At the end each command has one outcome after one to three attempts, and `failures` holds exactly the failed or timed-out ones. |
| TestPool.SharesFit | scripts/ci-test-ts.ts:572-575 | Pool width times granted width stays within max(width, budget), and a share is cut only when one file more would not fit. |
| TestPool.FilesFit | scripts/ci-test-ts.ts:596-607 | In any state of the pool the files in flight stay within that bound. |
| TestPool.Pool.TakeNext | scripts/ci-test-ts.ts:859-864 | Shifts the shared queue, or returns. |
| TestPool.Pool.AttemptExits | scripts/ci-test-ts.ts:867-901 | Retries after a crash that was no timeout, at most twice, or records the outcome. |
| SessionAudit.SortIsStable | scripts/session-stats/audit.ts:499-502 | The sort is descending, a permutation, and keeps equal sizes in order. |
| SessionAudit.InsertFirst | scripts/session-stats/audit.ts:497-503 | Truncating before an insertion does not change the front after it. |
| SessionAudit.ScanFile | scripts/session-stats/audit.ts:484-520 | The lazily pruned list is the first twelve of one stable sort of all large results; residency is added up per tool and per path, and is what the requests carried: no difference of request numbers is negative. |
| SessionAudit.ResidencyIsContext | scripts/session-stats/audit.ts:508-518 | Residency is the sum over requests of the result tokens then in context. |
| SessionAudit.ChargedFromCall | scripts/session-stats/audit.ts:484-489 | Charging a result from its call never undercounts, and is exact if and only if no non-empty result arrived after a later request. |

## Left out

- Syntax-tree plumbing, formatting, diff display and command lines of the inliner: the model has its own syntax tree, and `analyze`'s checks are the predicate `Candidate`.
- InlineFile.InlineAllCorrect: the name conditions of `CleanRun` are sufficient; that a violation can change a program is shown by one file for each of them, not for every violation, since a captured name in code that is never reached changes nothing.
- InlineFile.InlineHelper: asks these conditions of the one helper it inlines, and of every function that calls it.
- InlineCall.CallSite: asks them of the site, and in default mode that arguments left in place are settled and stay so.
- InlineDefects.ModesAgree: default mode is compared per call site, on trees, not over a whole run, because its side conditions speak of run-time values.
- Statements of the helper language beyond `const`, `if`, `while`, blocks, `return`, `break`, `continue` and expressions: `switch` appears in `NameReservation` only; getters and proxies in default mode are outside the model.
- InlineText.SiteText: the text model has integer literals in decimal notation, names, member access, calls and operators; other literals, object and function expressions, and statements as text, are not part of it.
- GuardInversion.ConditionText: has the same expressions.
- A parameter used as a callee is never substituted, so callback parameters are outside the model, as are nested closures. Statements at module level, which may call a helper too, are not modelled.
- NameReservation.PlanSites: identifiers are given as sets per block; which syntax positions count as identifiers is not modelled.
- Documents in the changelog engine are values that the methods pass on, not shared objects, so aliasing between sections is not captured; counters for messages are left out.
- ChangelogFixer.FixChangelogContent: rebuilding sections from git history is not part of the model. Version parts are exact integers. JavaScript leaves the order under an inconsistent comparator open, so with a title that is no version number nothing is said of the releases' order but that none is lost; the model sorts by insertion, as a stable sort may.
- ChangelogFixer.SortsIff: its unsorted list, like those of `LeftUnsorted` and `XStaysBetween`, is one of insertion.
- ChangelogDiff.ReadDiff: the hunk-header expression is a parameter, which `ChangelogPatch` fixes; keys joined with NUL are pairs, which agrees as long as paths contain no NUL.
- ChangelogPatch.FindingsExact: file names in diffs are unquoted.
- ChangelogTail.SplitArchiveFooter: the archive-link pattern is a parameter that matches no blank line.
- CloneClusters.FindClusters: the window hash is an arbitrary function, files must keep window indices below 2^24, and line normalisation is not modelled.
- The notice reader's decompression and hashing are left out; the path test is a parameter. A pax `size` record, which the standard lets override the header, is ignored as in the code. By the standard a zero-length `path=` record deletes the field; the code takes the empty path, so the member that follows is looked up under the empty name, and `EffectivePath` does the same.
- TarRoundTrip.RoundTrip: names that start with a byte order mark or, in a long-name member, end in white space are excluded, because the decoder and the trim change them.
- Replay.ReplayPair: rates are exact reals, and the line cap must be at least one, without which the chunk loop does not end.
- Random numbers, the clock, processes and files are parameters everywhere.
- Glob.RegExpIsGlob: strings are sequences of Unicode scalar values. JavaScript's expressions, compiled without the `u` flag, work on UTF-16 code units, so `?` on a character above U+FFFF differs. Only the regular-expression syntax the compiler emits is modelled.
- EditPrefix.ParseEditBoundary: the line expressions are parameters, and the count of lines read is left out.
- TestPool.Complete: output draining and the watchdog timer are outside the model; a zero-width pool, which would run nothing, is excluded.
- SessionAudit.ScanFile: token estimates and argument summaries are inputs.
- The worklist closure of the public-surface scan, the pairing of pending tool calls, policy validation, and the release, benchmark and plotting scripts: plain table look-ups and input checks, or no algorithm of their own.
