# skm state inference, modelled in Dafny

skm surveys a directory tree of Spec-Kit projects and works out where each one
stands. It walks the tree down to the configured scan depth and takes the
parent of every `.specify/` or `specs/` directory it meets, once each, in
discovery order. It skips a parent whose path contains `/.specify/`, that is,
one lying below some `.specify` directory. For each project it resolves the
four lifecycle documents: constitution, spec, plan and tasks. Either all four
come directly from the artifact directory, or the feature layout applies.
There spec, plan and tasks come from the numbered feature directories, where
the highest-sorting name holding each one wins. The constitution comes from
`<parent>/.specify/memory/constitution.md`, whenever that file exists. It then reads the task list with a line-by-line
heuristic. It infers the lifecycle stage from the first missing document and
looks up the next action for that stage. It scores the project with a linear
priority formula over risk, staleness, impact and confidence. Finally it
aggregates all projects into a portfolio summary, which is cached for five
minutes and shown through simple filters.

The Dafny modules follow the program's structure:

| module | file | models |
|---|---|---|
| `Base` | base.dfy | `Option`/`Result` with `?`-style propagation, `u8`, truncating division |
| `Types` | types.dfy | the data model of `lib.rs` |
| `Text` | text.dfy | the `str` operations the engine relies on: `trim`, `lines`, `contains`, `trim_start_matches`, byte order, `parse::<u8>` and `parse::<bool>` |
| `Fs` | fs.dfy | a read-only filesystem snapshot: existence, directories, metadata, text and listings |
| `Artifacts` | artifacts.dfy | `parse_artifacts` and `check_direct_artifacts` |
| `Headings` | headings.dfy | `extract_title` and `count_sections` |
| `Tasks` | tasks.dfy | `parse_tasks_file`: the task-line classifier and its counters |
| `Lifecycle` | stage.dfy | stage detection and the next-action table |
| `Scoring` | priority.dfy | risk, human requirements and the priority formula |
| `Meta` | meta.dfy | the per-project metadata store, `set_value` and the status-cache freshness rule |
| `Finder` | finder.dfy | project discovery, project-type detection and the ignore list |
| `Process` | process.dfy | `process_project`: choosing the artifact root and assembling one record |
| `Portfolio` | portfolio.dfy | `scan_projects` and the filters of `show_status` |

Paths are sequences of components; an absolute path starts with an empty
component. Instants are integers counting nanoseconds. Floating-point
quantities are reals.

Everything outside the process is a parameter:
- the filesystem is a snapshot;
- the directory walk is a sequence of walk items;
- the version-control answers are a function from a project directory to its probe results;
- the current time is a single `now`;
- the scan's duration is a number.

## Model

| member | source | states |
|---|---|---|
| Base.TruncDiv | src/analyzer/priority.rs:99-100 | Division rounds toward zero, as chrono's whole-unit accessors do: exact bounds for non-negative and for negative spans. |
| Types.AllStagesEnumerates | src/lib.rs:65-74 | The eight stages are pairwise distinct, and each sits at its lifecycle index. |
| Types.DefaultTaskSummary | src/lib.rs:94-101 | The derived default summary has every counter 0 and no last activity. |
| Fs.Parent | src/scanner/finder.rs:41 | The parent drops exactly the last component; only the empty path and the root have none. |
| Fs.FileName | src/main.rs:356-358 | The file name is the last component whenever that is not empty, `.` or `..`, and is absent otherwise. A present name is always such a last component. |
| Fs.FileNameAbsent | src/main.rs:356-358 | On a normalised path the name is absent exactly for the empty path, the root, `.` alone and a path ending in `..`. |
| Fs.FileInfoAt | src/scanner/parser.rs:166-183 | The record is built exactly when metadata is readable, and it copies size and mtime. The file is valid iff its text is readable and not blank. Otherwise the result is an I/O error for that path. |
| Text.Trim | src/scanner/parser.rs:218 | The result neither starts nor ends with whitespace, and it sits in the input with only whitespace removed on either side. |
| Text.TrimStartMatches | src/scanner/parser.rs:310 | The input is some number of whole copies of the pattern followed by the result, and the result no longer starts with the pattern. The result is a suffix of the input. |
| Text.TrimStartMatchesUnique | src/scanner/parser.rs:310 | Any split of the input into copies of the pattern and a rest that does not start with it has that rest as the result: all leading copies go, not just one. |
| Text.Lines | src/scanner/parser.rs:217 | No produced line contains a newline. Non-empty text has at least one line, and there are never more lines than characters. |
| Text.LinesOfUnlines | src/scanner/parser.rs:308 | Splitting newline-terminated plain lines returns exactly those lines (round trip with `Unlines`). |
| Text.LinesOfUnlinesThenLast | src/scanner/parser.rs:217 | A final line without a newline is still produced: newline-terminated plain lines followed by a non-empty unterminated line split back into all of them. |
| Text.LinesOfUnlinesCrlf | src/scanner/parser.rs:217 | Lines ending in `\r\n` split back into exactly those lines, with the `\r` dropped. |
| Text.Sort | src/scanner/parser.rs:64 | The result is sorted by name order and is a permutation of the input (same multiset). |
| Text.ParseU8 | src/meta/state.rs:89 | Accepts exactly an optional `+` followed by a non-empty run of digits whose value is below 256, and then returns that value. A leading `-` is rejected. |
| Text.ParseU8OfDecimal | src/meta/state.rs:89 | Every `u8` in decimal, with or without `+`, parses back to itself. |
| Text.ParseBool | src/meta/state.rs:92 | Accepts exactly `true` and `false`, mapping each to its value. |
| Artifacts.Probe | src/scanner/parser.rs:131-153 | An absent path gives nothing. A present path gives its info when metadata is readable, and an I/O error otherwise. |
| Artifacts.CheckDirect | src/scanner/parser.rs:120-156 | Succeeds iff all four probes can be read. Each slot is filled iff its file exists, and it points at that file. The constitution prefers `constitution.md` over `memory/constitution.md`. |
| Artifacts.FeatureNamesIn | src/scanner/parser.rs:42-53 | Keeps exactly the UTF-8 entries that are directories and whose first three characters are ASCII digits. |
| Artifacts.CheckEach | src/scanner/parser.rs:86-87 | Succeeds iff every feature directory's check succeeds, and then holds each directory's own status in order. On failure the error is that of the first directory whose check fails. |
| Artifacts.MemoryConstitution | src/scanner/parser.rs:76-81 | Without a parent there is no constitution. With one, the lookup of `<parent>/.specify/memory/constitution.md` succeeds iff that path is readable, finds a file iff it exists, and otherwise fails with an I/O error for it. |
| Artifacts.FeatureNameExamples | src/scanner/parser.rs:46-51 | Only the first three characters decide. `12`, `001-login` and even the empty name qualify. `01a-draft` and `a01` do not. |
| Artifacts.ParseArtifacts | src/scanner/parser.rs:26-117 | A direct-layout error or a non-empty direct result is returned as is. An unlistable directory with nothing direct gives the empty status. In the feature layout the scan succeeds iff the constitution lookup and every feature directory's check succeed, and the first of those to fail gives the error. A successful result that is empty is exactly the empty status. In the feature layout a successful result's constitution is exactly what the memory-constitution lookup found. |
| Artifacts.FeatureScanFindsNothing | src/scanner/parser.rs:40-116 | In the feature layout, no numbered directory and no memory constitution give the empty status without error. |
| Artifacts.FeatureScanSucceeds | src/scanner/parser.rs:75-112 | In the feature layout, a readable memory constitution path and feature directories that all check successfully make the scan succeed. |
| Artifacts.NewestFirstOrder | src/scanner/parser.rs:63-64 | The feature names reversed after sorting are in descending name order and hold exactly the feature names. |
| Artifacts.FirstInDescending | src/scanner/parser.rs:86-97 | In a column laid out in descending name order, the first present entry belongs to the highest-sorting name that has one. The column is empty iff no name has one. |
| Artifacts.FeatureScanShape | src/scanner/parser.rs:75-108 | In the feature layout the constitution is the memory-constitution lookup's result. Spec, plan and tasks are each the first present entry of the newest-first statuses. |
| Artifacts.FeatureSlotIsLatest | src/scanner/parser.rs:86-108 | In the feature layout, each of spec, plan and tasks is empty iff no feature directory has it. Otherwise it comes from the highest-sorting directory that has it, so spec and plan may come from different directories. |
| Artifacts.FeatureConstitutionFromMemory | src/scanner/parser.rs:75-81 | In the feature layout the constitution is reported iff the parent's `.specify/memory/constitution.md` exists, and it then has that path. It never comes from a feature directory. |
| Headings.HeadingText | src/scanner/parser.rs:310 | The line is some number of whole `# ` markers followed by a rest that does not start with one, and the text is that rest trimmed. It is no longer than the line and has no surrounding whitespace. |
| Headings.HeadingTextExample | src/scanner/parser.rs:310 | Repeated markers all go: `# # x` has the text `x`. |
| Headings.ExtractTitle | src/scanner/parser.rs:307-311 | The title is absent iff no line starts with `# `. Otherwise it is the heading text of the first such line. |
| Headings.ExtractTitleOfDocument | src/scanner/parser.rs:307-311 | A document whose first line is `# ` followed by a trimmed title yields that title. |
| Headings.CountSectionLines | src/scanner/parser.rs:314-318 | The count is at most the number of lines. It is 0 iff no line starts with `## `, and equals the line count iff all do. |
| Headings.CountSections | src/scanner/parser.rs:314-318 | The count is at most the number of lines, and 0 iff no line starts with `## `. |
| Headings.CountSectionLinesAppend | src/scanner/parser.rs:314-318 | Section counts add over consecutive blocks of lines. |
| Headings.HeadingLevelsDistinct | src/scanner/parser.rs:314-318 | A `### ` line is not a section line, and a section line is not a title line. |
| Headings.InsertedHeadingCount | src/scanner/parser.rs:314-318 | Inserting a `### ` line leaves the count unchanged; inserting a `## ` line raises it by one. |
| Tasks.KindTally | src/scanner/parser.rs:233-286 | Each category adds at most one task, with every marker counter no larger than the task counter. Exactly the colon-without-id and plain lines add no task. Completed is 1 exactly for ticked lines, lines opening with the done glyph literals, and `DONE:` lines, and for id lines with a done marker. Parallel is 1 exactly for checkbox lines with `[P]`, `(P)` or `||` and for id lines with `[P]` or `||`. Blocked is 1 exactly for open checkbox lines with `[BLOCKED]` or either blocked glyph literal, and for id lines with `[BLOCKED]` or the prohibited-sign literal. The glyph literals are the source's character sequences (see Left out). |
| Tasks.LineTally | src/scanner/parser.rs:217-286 | A line adds a task iff its trimmed text falls in a counting category. Its completed, parallel and blocked counters are 1 exactly in the cases listed for the category of its trimmed text, with markers looked up in the untrimmed line and glyphs matched as the source's literals. |
| Tasks.Sum | src/scanner/parser.rs:217-287 | Summing per-line contributions over n lines gives counters bounded by n, with completed, parallel and blocked never above total. No lines sum to zero and one line sums to its own contribution; `SumAppend` gives the rest. |
| Tasks.TallyLines | src/scanner/parser.rs:217-287 | A document's counters are bounded by its line count. No lines give zero, and a single line gives its own contribution. |
| Tasks.SumAppend | src/scanner/parser.rs:217-287 | Sums distribute over concatenation. |
| Tasks.TallyLinesAppend | src/scanner/parser.rs:217-287 | A document's counters are the sum of the counters of any split into consecutive blocks: lines do not influence one another. |
| Tasks.ParseTasksFile | src/scanner/parser.rs:202-304 | Succeeds iff the text and the metadata can be read, and otherwise fails with an I/O error for the path. On success the four counters are the line-by-line sums over the file's lines, it is stamped with the file's mtime, completed, parallel and blocked are no larger than total, and total is no larger than the text length. |
| Tasks.ColonDecides | src/scanner/parser.rs:252-254 | A line with a colon and no `[` as its third character is classified only by whether it carries a `T\d{3,4}:` identifier. |
| Tasks.KeywordBranchesUnreachable | src/scanner/parser.rs:281-286 | No trimmed line ever reaches the `TODO:`/`DONE:` branches, because the colon branch claims them first. |
| Tasks.KeywordNeverClassified | src/scanner/parser.rs:252-286 | No text is ever classified as a `TODO:` or `DONE:` line. |
| Tasks.ColonLineTally | src/scanner/parser.rs:252-268 | A colon line with a task identifier is one task. It is completed iff it contains the check-mark literal, `DONE`, `[COMPLETE]`, `[x]` or `[X]`. It is parallel iff it has `[P]` or `||`, and blocked iff it has `[BLOCKED]` or the prohibited-sign literal. A colon line without an identifier adds nothing. |
| Tasks.KeywordLineTally | src/scanner/parser.rs:252-286 | A `TODO:`/`DONE:` line counts only when it also carries a task identifier, and then as a task-identifier line. |
| Tasks.OpenLine | src/scanner/parser.rs:233-241 | A line whose trimmed text opens with `- [ ]` or `* [ ]` is one open task. It is parallel iff it has `[P]`, `(P)` or `||`, and blocked iff it has `[BLOCKED]` or one of the two blocked glyph literals. |
| Tasks.TickedLine | src/scanner/parser.rs:242-250 | A line whose trimmed text opens with `- [x]`, `- [X]`, `* [x]` or `* [X]` is one completed task plus its parallel marker, and is never blocked. |
| Tasks.EmojiDoneLine | src/scanner/parser.rs:269-272 | A colon-free line whose trimmed text opens with the literal `âœ…` or `â˜‘` is one completed task with no markers. |
| Tasks.EmojiOpenLine | src/scanner/parser.rs:273-279 | A colon-free line whose trimmed text opens with the literal `â¬œ`, `âŒ` or `ğŸ”„`, or with `â˜` but not `â˜‘`, is one open task with no markers. |
| Tasks.BallotBoxShadowed | src/scanner/parser.rs:270-274 | The open literal `â˜` is a prefix of the done literal `â˜‘`, which is tested first, so a line opening with `â˜‘` is never an open task. |
| Tasks.ClassifyOtherOpening | src/scanner/parser.rs:233-286 | Colon-free text whose first character starts none of the tested prefixes falls through every branch. |
| Tasks.OtherOpeningCountsNothing | src/scanner/parser.rs:233-286 | A colon-free line whose trimmed text opens with any other character adds nothing to any counter. |
| Tasks.DecodedCheckMarkCountsNothing | src/scanner/parser.rs:270 | A colon-free line opening with the emoji U+2705 itself adds nothing, because the source's literal is a different character sequence. |
| Tasks.NoDigitNoTaskId | src/scanner/parser.rs:211 | Text without an ASCII digit has no task identifier. |
| Tasks.CheckedExample | src/scanner/parser.rs:242-249 | `- [x] T001: setup [P]` counts as one completed, parallel task. |
| Tasks.UncheckedExample | src/scanner/parser.rs:233-241 | `- [ ] T002: wire (P) [BLOCKED]` counts as one open, parallel, blocked task. |
| Tasks.TodoExample | src/scanner/parser.rs:252-282 | `TODO: x` counts nothing. |
| Tasks.DoneExample | src/scanner/parser.rs:252-285 | `- DONE: x` counts nothing. |
| Lifecycle.HasImplementationArtifacts | src/analyzer/stage.rs:85-107 | Every project type answers no. |
| Lifecycle.DetectStage | src/analyzer/stage.rs:4-29 | The stage is indexed by the first missing slot in the order constitution, spec, plan, tasks, and every earlier slot is filled. It is never Test, Review or Done. |
| Lifecycle.FilledPrefix | src/analyzer/stage.rs:4-19 | Counts the leading filled slots: all before it are filled and the next is not. |
| Lifecycle.DetectStageByPrefix | src/analyzer/stage.rs:4-29 | The detected stage is the table entry at the number of leading filled slots. |
| Lifecycle.DetectStageMonotone | src/analyzer/stage.rs:4-29 | Filling more slots never moves a project to an earlier stage. |
| Lifecycle.DetectStageByPresenceOnly | src/analyzer/stage.rs:4-29 | Only which slots are filled matters, not file sizes, times, validity or project type. |
| Lifecycle.NextActionFor | src/analyzer/stage.rs:32-83 | The action is automated exactly at Tasks and Test. Risk is L2 at Bootstrap, Specify and Plan; L1 at Tasks, Test and Review; L3 at Implement; and L0 at Done. |
| Lifecycle.NeedsHumanAttention | src/analyzer/stage.rs:110-117 | True exactly at Bootstrap, Specify, Plan and Review. |
| Lifecycle.AttentionStagesAreManual | src/analyzer/stage.rs:32-117 | A stage needing attention never has an automated or read-only next action. |
| Lifecycle.DetectedStageActions | src/analyzer/stage.rs:4-117 | For detected stages, the action is automated iff the stage is Tasks. Attention is needed iff the risk is L2, which is iff the constitution, spec or plan is missing. |
| Lifecycle.StageDescription | src/analyzer/stage.rs:120-131 | Every stage has a non-empty description. |
| Scoring.CountTrue | src/analyzer/priority.rs:65-85 | The count of raised conditions is at most their number, and 0 iff none is raised. |
| Scoring.CalculateRisk | src/analyzer/priority.rs:59-89 | Risk is one point per raised condition, capped at 3. It is 0 exactly when there are no errors, at most 3 parallel tasks, nothing blocked and a clean tree. |
| Scoring.CalculateRiskMonotone | src/analyzer/priority.rs:59-89 | Switching a condition on never lowers the risk. |
| Scoring.StageRequirement | src/analyzer/priority.rs:129-142 | Input appears exactly at Bootstrap, Specify and Plan; Review exactly at Review; and Test exactly at Test with unfinished tasks. At most one entry. |
| Scoring.DetectHumanRequirements | src/analyzer/priority.rs:122-155 | The stage entries as above, plus Fix iff the tree is dirty and Decision iff a task is blocked. Never Deploy, and at most three entries. |
| Scoring.RankedShape | src/analyzer/priority.rs:127-154 | A stage entry followed by optional Fix and Decision is in increasing rank. |
| Scoring.HumanRequirementsOrdered | src/analyzer/priority.rs:122-155 | The list is ordered stage entry, Fix, Decision, and has no duplicates. |
| Scoring.NormalizeRisk | src/analyzer/priority.rs:92-94 | Three times the normalised risk is the risk. |
| Scoring.NormalizeImpact | src/analyzer/priority.rs:107-114 | Impact 1 maps to 0.33, 2 to 0.66 and 3 to 1.0, and every other value to 0.5; all values lie in [0.33, 1]. |
| Scoring.ImpactLevelsIncrease | src/analyzer/priority.rs:107-114 | Levels 1 < 2 < 3 map to increasing values, the highest to 1. |
| Scoring.NormalizeConfidence | src/analyzer/priority.rs:117-119 | Twice the normalised confidence is the confidence. |
| Scoring.Staleness | src/analyzer/priority.rs:97-104 | Lies in [0, 1]. It is 0 iff at most 0 days have passed and 1 iff at least 7 have; in between it is days/7. |
| Scoring.StalenessMonotone | src/analyzer/priority.rs:97-104 | Older is never less stale. |
| Scoring.ElapsedDays | src/analyzer/priority.rs:98-100 | Whole days in a span, truncated toward zero: exact bounds for non-negative spans, and at most 0 for negative ones. |
| Scoring.Term | src/analyzer/priority.rs:50-54 | A non-negative weight times a unit-interval value lies between 0 and the weight. |
| Scoring.TermMonotone | src/analyzer/priority.rs:50-54 | A non-negative weight preserves order. |
| Scoring.Priority | src/analyzer/priority.rs:36-55 | With non-negative weights, the score is bounded above by needs-human, risk, staleness and impact at their maxima, and below by minus the confidence term. |
| Scoring.PriorityDependsOnEmptiness | src/analyzer/priority.rs:44 | Only whether the requirement list is empty affects the score. |
| Scoring.PriorityMonotone | src/analyzer/priority.rs:36-55 | With non-negative weights, the score rises with risk and age and falls with confidence. |
| Scoring.DefaultWeightsExample | src/analyzer/priority.rs:17-27 | With the default weights 40/25/15/15/10, a week-old project needing a human with risk 2, impact 2 and confidence 1 scores 40 + 50/3 + 15 + 9.9 − 5. |
| Meta.GetProjectMut | src/meta/state.rs:78-81 | Afterwards the id has an entry, which is the old one when present and the default otherwise. No other entry or the version changes. |
| Meta.UpdateEntry | src/meta/state.rs:87-104 | `impact` succeeds iff the value parses as a u8. `approved_by_human` succeeds iff the value is `true`/`false`. `agent_command` always succeeds. `command.<name>` sets that custom command. Any other key is an unknown-key error. Each case changes only its own field. |
| Meta.SetValue | src/meta/state.rs:84-107 | The store gains the id even when the update fails, and keeps every other entry. On success the entry is updated; on failure the entry is the fetched one and the error is returned. |
| Meta.SetCommandThenRead | src/meta/state.rs:97-99 | Setting `command.<name>` and reading `<name>` back gives the value. |
| Meta.SetImpactThenRead | src/meta/state.rs:88-90 | Setting `impact` to a number's decimal text stores that number. |
| Meta.UnknownKeyCreatesEntry | src/meta/state.rs:85-103 | An unknown key fails but still leaves a default entry for a new id. |
| Meta.LoadStore | src/meta/state.rs:48-58 | A missing file gives the default store (version 1.0.0, no projects). An unreadable file gives its error, and a decoded one gives its content. |
| Meta.NumMinutes | src/meta/state.rs:131-133 | Whole minutes in a span, truncated toward zero. |
| Meta.FreshBelowFiveMinutes | src/meta/state.rs:133 | The cache is fresh exactly when it is under 300 seconds old; every negative age is fresh. |
| Meta.LoadCache | src/meta/state.rs:119-138 | A missing file gives no cache and an unreadable one its error. A decoded cache is returned exactly when it is under 300 seconds old. |
| Finder.NewScanner | src/scanner/finder.rs:12-18 | The depth is widened from a byte and the pattern starts at `*/{.specify,specs}`. |
| Finder.WithMaxDepth | src/scanner/finder.rs:20-23 | Only the depth changes. |
| Finder.WithPattern | src/scanner/finder.rs:25-28 | Only the pattern changes. |
| Finder.EntryFileName | src/scanner/finder.rs:65 | An entry's name is its last component, or the whole rendered path when it has none. |
| Finder.CandidateOf | src/scanner/finder.rs:35-54 | A walk item proposes a project iff it is a directory within the depth bound, named `.specify` or (outside any `.specify`) `specs`, whose parent exists and is not inside a `.specify` directory. The proposal is that parent. |
| Finder.Proposals | src/scanner/finder.rs:35-41 | Each walk item's proposal, in walk order. |
| Finder.CandidatesMembers | src/scanner/finder.rs:35-54 | A path is proposed iff some walk item proposes it. |
| Finder.Dedup | src/scanner/finder.rs:49-52 | The result has no duplicates and holds exactly the input's elements. |
| Finder.DedupOrder | src/scanner/finder.rs:49-52 | Kept elements appear in the order of their first occurrence. |
| Finder.KeepFirstProposals | src/scanner/finder.rs:32-57 | The set-guarded loop keeps each proposed path at its first proposal, in order. |
| Finder.FindProjects | src/scanner/finder.rs:31-58 | The result is the first-occurrence list of proposals, without duplicates. A path is found iff some walk item proposes it, and no found path is inside a `.specify` directory. |
| Finder.DiscoveredShape | src/scanner/finder.rs:31-58 | The discovered set is exactly the proposed parents, none inside a `.specify` directory. |
| Finder.DetectProjectType | src/scanner/finder.rs:81-108 | Rust iff `Cargo.toml` exists. Unknown iff none of the seven marker files exists. |
| Finder.DetectProjectTypeByRules | src/scanner/finder.rs:81-108 | The detector is the first-match reading of the marker table Rust, Node, Python, Go, Generic. |
| Finder.ShouldIgnore | src/scanner/finder.rs:111-121 | Ignored iff the last component is one of the six listed names. A path without a last component is never ignored. |
| Finder.ShouldIgnoreLastComponent | src/scanner/finder.rs:111-121 | Only the last component counts. |
| Process.SelectArtifacts | src/main.rs:299-331 | If `specs/` exists: its error or non-empty result is returned; an empty result falls back to `.specify/` when that exists, and stays empty otherwise. Without `specs/`, `.specify/` decides. |
| Process.ParseAbsentDirectory | src/scanner/parser.rs:35-42 | An absent directory yields the empty status without error. |
| Process.NeitherRootIsEmpty | src/main.rs:325-330 | With neither root present the project has no artifacts. |
| Process.TasksOf | src/main.rs:334-338 | Without a tasks artifact the summary is the all-zero default; otherwise the tasks file is parsed. Completed, parallel and blocked never exceed total. |
| Process.ProjectId | src/main.rs:356-359 | The id is the directory name, or `unknown` without one. |
| Process.ImpactOf | src/main.rs:361-362 | The stored impact, or 2 when there is no entry or no impact. |
| Process.ConfidenceOf | src/main.rs:363 | The confidence is 1 or 2, and 2 exactly when a human approved the project. |
| Process.LastUpdated | src/main.rs:374-377 | The spec's mtime, or now without a spec. |
| Process.NoSpecNoStaleness | src/main.rs:374-382 | A project without a spec has 0 elapsed days and no staleness. |
| Process.MetadataDefaults | src/main.rs:361-363 | An unconfigured id scores with impact 2 and confidence 1, also after `get_project_mut` gave it a default entry. |
| Process.SetImpactIsScored | src/main.rs:362 | The impact stored through `set_value` is the impact the scorer uses. |
| Process.Assemble | src/main.rs:340-402 | The record's path, project type, artifacts, tasks and status are the inputs. The id and update time follow the rules above. The stage is detected from the artifacts and the type, and the next action and requirements follow from the stage. The priority is the formula applied to those requirements, the risk, the days since the update, and the stored impact and confidence. |
| Process.ProcessProject | src/main.rs:283-403 | Artifacts, then tasks, then status, then error probe: the first failure is the error. The result is Ok iff all four succeed, and is then the record assembled for the directory's detected project type, with completed never above total. |
| Process.CleanProjectHasNoRisk | src/main.rs:351-353 | A clean tree with no errors, no blocked tasks and at most three parallel tasks has risk 0 and no Fix or Decision requirement. |
| Process.ProcessedStage | src/main.rs:348-353 | A processed project is never past Implement. It never asks for Test or Review, and asks for Input iff its constitution, spec or plan is missing. |
| Process.NoSpecScore | src/main.rs:374-385 | Without a spec, the score is the formula with 0 elapsed days. |
| Portfolio.Outcomes | src/main.rs:199-200 | One outcome per discovered directory, in order. |
| Portfolio.OutcomeAt | src/main.rs:199-200 | Each outcome is that directory's `process_project` result. |
| Portfolio.OutcomesRespect | src/main.rs:199-205 | Every successful outcome has completed ≤ total. |
| Portfolio.Successes | src/main.rs:201-214 | No more projects than outcomes. |
| Portfolio.Failures | src/main.rs:216-218 | No more errors than outcomes. |
| Portfolio.OutcomesPartition | src/main.rs:199-220 | Every outcome lands in exactly one of projects and errors. |
| Portfolio.SuccessReported | src/main.rs:201-214 | A successful directory's project is reported, whatever the others do. |
| Portfolio.FailureReported | src/main.rs:216-218 | A failed directory is reported with its path and error, whatever the others do. |
| Portfolio.CompletedWithinTotal | src/main.rs:204-205 | The completed-task sum never exceeds the total-task sum. |
| Portfolio.StageCountsAddUp | src/main.rs:203 | Every project is counted under exactly one stage, so the per-stage counts add up to the number of projects. |
| Portfolio.OccurrencesOnce | src/lib.rs:65-74 | A stage occurs once in a duplicate-free list that holds it, and not at all otherwise. |
| Portfolio.MapSumOfCounts | src/main.rs:195-203 | A map holding each stage's count, with no entry for zero, adds up like the counts. |
| Portfolio.CountIn | src/main.rs:203 | Incrementing the entry of a project's stage, starting from 0, keeps the map equal to the per-stage counts. |
| Portfolio.ScanProjects | src/main.rs:180-281 | The directories processed are the scanner's finds at the configured depth: a directory is processed iff some walk item proposes it. Projects are the successful outcomes and errors the failed ones with their paths, in order. The directory count is the number of those directories, and projects plus errors equal it. Total projects and projects found equal the number of projects. Task sums satisfy completed ≤ total. The per-stage map has an entry iff the count is positive, holds that count, and sums to the project count. Needs-attention counts the scores strictly above the threshold. The average is the mean score, or 0 for no projects. |
| Portfolio.Summarise | src/main.rs:192-251 | The same summary facts, from any outcome list whose successes keep completed ≤ total. |
| Portfolio.FoldChar | src/main.rs:111 | Lower-cases ASCII capitals and maps the Kelvin sign to `k`; leaves every other character as it is. |
| Portfolio.LowerAscii | src/main.rs:111 | Lower-cases a stage name character by character. |
| Portfolio.ParseFilter | src/main.rs:100-115 | `needs-attention` selects scores above the threshold, `incomplete` selects unfinished task lists, and `stage:<name>` selects that name. Anything else, or no filter, keeps everything. |
| Portfolio.Retain | src/main.rs:104-111 | Keeps exactly the projects the filter accepts. A single project is kept iff the filter accepts it, and `RetainAppend` makes the result follow the input order. |
| Portfolio.RetainAppend | src/main.rs:104-111 | Filtering a concatenation is the concatenation of the filtered parts, so the kept projects stay in input order. |
| Portfolio.RetainEverything | src/main.rs:113 | A filter that keeps everything changes nothing. |
| Portfolio.RetainIdempotent | src/main.rs:104-111 | Filtering twice equals filtering once. |
| Portfolio.StageFilterMatchesName | src/main.rs:109-111 | `stage:` followed by a stage's name, in its own or lower case, keeps the projects at that stage. |
| Portfolio.ShowStatus | src/main.rs:89-129 | Rescans exactly when there is no fresh cache. Otherwise it shows the cached portfolio with only its project list filtered. |
| Portfolio.ShowStatusKeepsSummary | src/main.rs:99-115 | Filtering leaves the summary and the scan statistics as cached, and an unknown filter shows the cache unchanged. |

## Left out

- Version control (`scanner/git.rs`): `get_git_status` and `has_recent_errors` are inputs (`Probes`), not modelled. Outside a repository the status reports clean with no errors, which `Process.CleanProjectHasNoRisk` covers as a case.
- Configuration loading (`GlobalConfig::load`, TOML and the home directory): the scan takes a `Config` with the weights, threshold and depth. A load failure in `scan_projects` or in the `needs-attention` filter of `show_status` is therefore not a modelled error path.
- JSON: the stored metadata, the status cache and the cached portfolio are given already decoded (`Stored`). A `serde_json::from_value` failure on cached data is not modelled.
- Writing: `ProjectMetaStore::save`, `StatusCache::save` and the markdown report are I/O. Their failures at the end of `scan_projects` are not modelled.
- Printing: `display_portfolio_status`, the progress and summary lines, JSON output and the `SKM_DEBUG` diagnostics have no effect on the model's results.
- The clock: one `now` serves both the fallback update time and the staleness computation, and it is also `generatedAt`. The source reads the clock separately each time. The scan duration is the parameter `elapsedMs`.
- Floating point: priorities, weights and the average are reals. `f64` rounding, NaN and the `as f64` conversions are not modelled.
- Scoring.Priority: its contract gives only the range. The linear formula itself is stated only by its body, and `Process.Assemble` ties each record's priority to it. One value, for the default weights, is pinned by `Scoring.DefaultWeightsExample`, and the formula's shape by `Scoring.PriorityMonotone` and `Scoring.PriorityDependsOnEmptiness`.
- Lifecycle.StageDescription: states only that each description is non-empty; the eight texts are the body's constants.
- Tasks.KindTally: `\d` in `T\d{3,4}:` is modelled as ASCII digits only; the regex crate's Unicode `\d` also accepts other decimal digits.
- Tasks.Classify and Tasks.KindTally: the parser's glyph literals are not the emoji they stand for. They are the UTF-8 bytes of U+2705, U+2611, U+2B1C, U+2610, U+274C, U+1F504, U+1F6AB and U+26D4 read back as Windows-1252 or Windows-1254 text (`âœ…`, `ğŸš«`, …), with bytes that code page leaves undefined dropped. The model uses those character sequences, as the source does. So a line written with the real emoji matches none of them and counts nothing (`Tasks.DecodedCheckMarkCountsNothing`), and `â˜` is a prefix of `â˜‘`.
- Portfolio.ScanProjects: counters are unbounded naturals. The source's `u32` sums of tasks and its `as u32` counts overflow only past 4 294 967 295.
- Tasks.ParseTasksFile: the four per-file counters are unbounded naturals. The source's `u32` counters, incremented once per line, would overflow only for a file of more than 4 294 967 295 lines.
- Paths are normalised as Rust's `Path::components` yields them: `a/./b` and `a/b/.` are both `a/b`, and a `.` component survives only at the start. So `Path::file_name` of `foo/.` is `foo`, which is what the source sees too.
- Errors are structured values (`ScanFailure(path, cause)`, `IoError(path)`, `SetError`) rather than formatted messages.
- The directory walk (`WalkDir`) is a given sequence of entries with their depths, the root at depth 0. Unreadable entries are `WalkFailure` items, dropped as the source drops them. `glob_pattern` is stored but never consulted, as in the source.
- `has_error_markers` in `analyzer/priority.rs` is not called by the pipeline and always answers no. It is not part of this model.
- Cache age is kept in nanoseconds and truncated to whole seconds, then whole minutes, as chrono's `num_minutes` does.
