# PRGuard: diff anchoring, context assembly, selection, validation and the review lifecycle

PRGuard turns a webhook delivery into a review whose findings are anchored to exact lines of a
diff. This project models the deterministic and the stateful parts of that path and proves what
they are for:

- a finding that is kept stands on a `+` line of the patch that holds exactly the line of the new
  file it cites, a line that comes from nowhere in the old file;
- repository text cannot forge the frame it is sent in, and loses nothing but its escaping;
- trimming keeps as many files as any choice within the budget could;
- validation keeps the best finding of every key and accounts for all the others;
- a commit is enqueued at most once, and findings are conserved, over every interleaving of
  handlers, task deliveries and crashes.

## Files

| file | about |
|---|---|
| `Text.dfy` | lines, decimal numerals, substring search, the order of strings |
| `StableSort.dfy` | `sorted(..., key=...)`: the stable sort and why there is only one |
| `DiffLines.dfy` | hunk headers, `build_line_map` and what its result means for any text |
| `Hunks.dfy` | hunks as data, the text they print as, reading that text back |
| `PatchMeaning.dfy` | what a patch says about two files; anchoring |
| `ChangedFiles.dfy` | `get_pull_files` and `parse_files` |
| `Json.dfy` | JSON values, and `str` and `int` of them |
| `Escaping.dfy`, `Patterns.dfy`, `Decoding.dfy` | `neutralise`: what it removes, spelled out, and what it keeps |
| `Numbering.dfy` | `render_numbered` and its inverse |
| `Context.dfy`, `ContextProperties.dfy` | `build_context`: budget, framing, canonical rendering, citations |
| `ContextMeaning.dfy` | the repository block without the functions that build it |
| `DiffBlock.dfy` | the diff block: what it shows, what can and cannot be forged in it |
| `Trimming.dfy` | `_trim_to_budget` |
| `Validation.dfy` | `_validate` |
| `Pipeline.dfy` | the deterministic middle of `_run_pipeline`; end-to-end anchoring |
| `PipelineMeaning.dfy` | a run's result without the functions that build it |
| `Reviews.dfy` | the tables, the transactions and the store that carries them out |
| `Rows.dfy` | what every transaction writes, column by column |
| `Lifecycle.dfy`, `LifecycleTheorems.dfy` | the protocol as a transition system and what holds of its runs |
| `Redelivery.dfy` | undisturbed handlers and deliveries as runs; what delivering a task again does |
| `EndToEnd.dfy` | every stored finding of every run stands on an added line; what the row reads |

Loops of the source are methods with loops, proved equal to a function or to a declarative
predicate; the results are lemmas about that function or predicate. `dafny verify dfyconfig.toml`
checks everything.

## Where code and documentation disagree

The model follows the code.

- `docs/phases/phase-03-pr-analyzer.md:67` says the `\ No newline at end of file` line is excluded
  from positions. The code counts a position for it (`github/diff.py:73`), and so do `Hunks.PrintHunks`
  and `Hunks.Places`.
- `apps/worker/celery_app.py:31-32` calls the task idempotent. It is not: by `Redelivery.RedeliveryRepeatsFindings` the
  task of every finished review can be delivered again, takes the review back to running and adds the second run's
  findings. Before the delivery only a repository name that does not split promises otherwise
  (`Redelivery.RedeliveryIsHarmlessIff`), and no finished review has one. `Redelivery.WhatADeliveryChanges` says for
  each way a delivery can end when findings and outcome stay, `Redelivery.TaskIsIdempotentIff` when twice is once.
- `github/diff.py:47-48` takes the added set for the lines the pull request changed. `DiffLines.AddedMeansPlusLineIff`
  says when each of its numbers is anchored on a `+` line: exactly when no later hunk shows the number again as context
  with no `+` line after it. Ascending hunks meet that (`DiffLines.AddedMeansPlusLine`); overlapping ones may or may
  not, and `Hunks.OverlappingHunksMisanchor` is a text for which it fails.
- `render_numbered` lines its numbers up in one column. For a negative `start` it can fail
  (`Numbering.NegativeStartMisaligns`); `Numbering.NumbersAlign` gives the exact condition, which every `start` of 0 or
  more meets.
- `agent/context.py:77` says that neutralising strips framing. In the diff block lines are joined on afterwards, so a
  description or a patch that begins with `Human:` completes a marker: `DiffBlock.DiffBlockHasNoTurnIff` says exactly
  when none is there. In the repository block none ever is.

## Model

| member | source | states |
|---|---|---|
| DiffLines.HeaderMatchIsThePattern | github/diff.py:20 | the one-pass header matcher accepts a line, with a start number, exactly when the line has the shape of the pattern and that number is the value of its new-start group |
| DiffLines.BuildLineMap | github/diff.py:43-87 | the returned map and set are the ones the declarative reading fixes: a number is mapped to the last patch line that holds it, counted from the first header; it is added when some `+` line holds it |
| DiffLines.AnchorsAreUnique | github/diff.py:43-87 | that reading leaves no choice: it determines the map and the set |
| DiffLines.ScanMeaning | github/diff.py:50-87 | after any number of lines the loop's variables are what the declarative reading says of them |
| DiffLines.AnchorsOfAnyPatch | github/diff.py:50-87 | for any text, overlapping or malformed hunks included: positions are new-side lines inside the hunks, the map is injective, added numbers are mapped |
| DiffLines.MisanchoredIffShadowed | github/diff.py:83-85 | an added number is anchored off a `+` line exactly when a context line below its `+` line holds it and no `+` line after that does |
| DiffLines.AddedMeansPlusLineIff | github/diff.py:46-48 | for any text: the added numbers are those mapped to a `+` line exactly when no line is shadowed in that way |
| DiffLines.AddedMeansPlusLine | github/diff.py:46-48 | in particular when hunks ascend |
| Hunks.OverlappingHunksMisanchor | github/diff.py:75-85 | a patch text for which line 1 counts as added and is anchored on a context line |
| Hunks.HeaderReadsBack | github/diff.py:20 | a printed header is recognised and its start number survives printing and parsing |
| Hunks.BodyLineReadsBack | github/diff.py:75-85 | a printed body line is never taken for a header or for another kind of line |
| Hunks.PrintedPatchLines | github/diff.py:56-58 | the loop sees exactly the printed lines, whatever trailing newlines follow |
| Hunks.ParserAgreesWithPrinter | github/diff.py:43-87 | reading any printed hunk list (counts spelled out or not, section text, preamble, markers, trailing newlines) gives the map and set computed from the hunks |
| PatchMeaning.TransformsIsApplication | github/diff.py:1-12 | hunks that turn one file into another are a patch whose application gives that other file |
| PatchMeaning.OriginsPair | github/diff.py:46-48 | the alignment the hunks induce covers the new file, pairs equal lines and keeps their order |
| PatchMeaning.Anchoring | github/diff.py:43-87 | for every patch of two files: the line at a number's position is that new-file line, under `+` when added and a space when not; mapped numbers are the lines the hunks show; added numbers are the lines with no origin in the old file |
| ChangedFiles.GitHubClient.GetPullFiles | github/client.py:128-152 | the result and the pages asked for are those of the page-by-page specification; an unopened client makes no request |
| ChangedFiles.PaginationIsTake | github/client.py:128-152 | however the list is cut into non-empty pages, the first `max_files` entries come back in order, and no page is asked for after the cap is reached |
| ChangedFiles.FetchIsBounded | github/client.py:134-152 | whatever the server answers, at most `max_files` requests and at most `max_files` entries |
| ChangedFiles.FetchMeaning | github/client.py:134-152 | for any server, failures included: pages 1, 2, ... as long as each leads on and the files are too few; the last one settles the result, its error or the first `max_files` of all entries got |
| ChangedFiles.ParseFiles | github/diff.py:90-117 | entry by entry, `str` and `int` of whatever JSON values come, the defaults of the source and the line map that the patch means; the first count that is no number ends the parsing with its exception |
| ChangedFiles.ParsedFormIsUnique | github/diff.py:90-117 | an entry has one parsed form, and has it only if its counts are numbers |
| ChangedFiles.FailureMeaning | github/diff.py:99-107 | parsing fails with the exception of the first entry with a count that is no number, additions before deletions, and only then |
| ChangedFiles.ParsedInFields | github/diff.py:32-40 | each field of a parsed entry for strings, numbers, nulls and absent keys; what makes a file reviewable |
| Json.ShownNumbersReadBack | github/diff.py:105-106 | a count that comes as text, spaces around it or not, is read as the number it shows |
| Json.OtherTextIsNoNumber | github/diff.py:105-106 | text with a character other than digits, underscores, signs and spaces is a `ValueError` |
| Json.SignsAndGroups | github/diff.py:105-106 | a plus sign and an underscore between digits make no difference |
| Json.FractionsAreCut | github/diff.py:105-106 | a number with a fraction loses it, toward zero |
| Json.OtherValues | github/diff.py:103-106 | what nulls, booleans, empty and compound values come to |
| StableSort.SortIsTheStableSort | agent/context.py:122 | a list orders another and keeps ties in order exactly when it is the modelled sort of it |
| StableSort.FilterSort | apps/worker/tasks.py:281-283 | sorting commutes with picking out any part |
| Text.LexLeqMeaning | agent/context.py:122 | paths compare as prefix, or by the smaller character at the first place where they differ |
| Escaping.Neutralise | agent/context.py:76-91 | the loop with its occurrence test computes the text that the next rows describe |
| Escaping.ReplaceCreatesNothing | agent/context.py:90 | replacing a pattern leaves none of it and creates no other pattern that was absent |
| Text.ContainsMeaning | agent/context.py:85 | the occurrence test succeeds exactly when the pattern can be read off the text at some place |
| Escaping.NeutralisedIsClean | agent/context.py:43-51 | at no place of the output can one of the seven patterns be read |
| Patterns.NoListedPattern | agent/context.py:43-51 | with the seven patterns spelled out: none can be read at any place of the output, and a text is left alone exactly when none can be read in it |
| Patterns.ListedPatternIsEscaped | agent/context.py:84-90 | with the seven escaped forms spelled out: a pattern among plain text becomes its escaped form and the text around it stays |
| Escaping.NeutralisedFixedPoints | agent/context.py:76-91 | a text is left alone exactly when it has no pattern; neutralising twice is neutralising once |
| Decoding.NeutraliseOnlyEscapes | agent/context.py:76-91 | reading the entities back gives what they give on the original, for the text and for each of its lines; a text without `&` comes back whole; the number of lines is kept |
| Numbering.NumberingRoundTrip | agent/context.py:94-98 | one numbered line per line: spaces, its number, a bar, the line; the number reads back, and stripping the numbers gives the content back, for every start |
| Numbering.NumbersAlign | agent/context.py:97-98 | all numbers take the computed width exactly when the first is no wider than the last; always so from a non-negative start |
| Numbering.NegativeStartMisaligns | agent/context.py:97-98 | numbering ten lines from -9 gives a column of 1 to a number of 2 characters |
| Context.BuildContext | agent/context.py:101-163 | the two loops build the bundle that the next rows describe |
| ContextMeaning.RepositoryBlockMeaning | agent/context.py:119-141 | the block line by line, its text spelled out: opening tag, the text of each file shown, closing tag; the paths shown ascend, and so do those left out |
| ContextMeaning.FilesAreShownGreedily | agent/context.py:122-139 | in path order, a file that can be shown is shown exactly when its text fits in what the files shown before it left |
| ContextMeaning.IsSourceMeaning | agent/context.py:18-38 | a path is source exactly when it ends with one of the listed extensions |
| ContextMeaning.LooksGeneratedMeaning | agent/context.py:67-69 | content looks generated exactly when one of the listed markers can be read within its first 2000 characters |
| ContextProperties.BudgetIsAccounted | agent/context.py:115-141 | included and skipped paths make up the files' paths; the block is the renderings of the included ones plus framing and separators, and the renderings stay within a non-negative budget |
| ContextProperties.TruncationIsExact | agent/context.py:132-135 | the flag is set exactly when an eligible file is not shown, and no such file fits in what is left |
| ContextProperties.RenderingIsCanonical | agent/context.py:111-113 | with distinct paths, blocks, lists and flag do not depend on the order of the files, nor on contents at other paths |
| ContextProperties.RepositoryBlockIsFramed | agent/context.py:119-141 | for all paths and contents the block opens and closes with its own tags, each found once, `</file>` once per included file, the system tags never |
| DiffBlock.RepositoryBlockHasNoTurn | agent/context.py:43-51 | neither `\nHuman:` nor `\nAssistant:` can be read at any place of the repository block, across its joints either |
| DiffBlock.DiffBlockShowsEveryPatch | agent/context.py:143-161 | the block line by line, its text spelled out: header with title and cut description, then in path order three lines for each file that has a patch, then closing tags; each such file once, nothing else |
| DiffBlock.DiffBlockHasNoTurnIff | agent/context.py:143-161 | `\nHuman:` can be read nowhere in the diff block exactly when neither the description nor a shown patch begins with `Human:` and no change type of a shown file carries the marker; likewise `\nAssistant:` |
| DiffBlock.DiffBlockTurns | agent/context.py:143-161 | and how often it holds one |
| DiffBlock.DiffBlockTags | agent/context.py:143-161 | of the five tags it holds as many as the change types of the files shown, which are inserted as they come |
| ContextProperties.CitationsAreStable | agent/context.py:94-98 | line `i` of the rendered content reads number `i + 1` and carries line `i` of the original, up to reading entities back |
| Trimming.TrimToBudget | apps/worker/tasks.py:253-263 | the loop computes the greedy choice over the stable cost order |
| Trimming.TotalMeaning | apps/worker/tasks.py:257-258 | what is summed is additions plus deletions |
| Trimming.TrimIsOptimal | apps/worker/tasks.py:253-263 | with non-negative costs no choice within the budget has more files |
| Trimming.TrimKeepsAPrefix | apps/worker/tasks.py:253-263 | what is kept is a prefix of the stable cost order, ascending in additions plus deletions, within budget, and no file left out would still fit |
| Trimming.LargerBudgetKeepsMore | apps/worker/tasks.py:253-263 | a larger budget keeps the same files first |
| Validation.Validate | apps/worker/tasks.py:266-301 | the loop computes the verdict that the next rows describe |
| Validation.ValidateInFields | apps/worker/tasks.py:277-301 | in fields and literals: kept findings are anchored and carry their position, dropped ones carry the reason that applies; of every anchorable file, line and category one is kept that no other beats by severity (CRITICAL, HIGH, MEDIUM, LOW, INFO, others) or by confidence among equals; the kept list is in that order |
| Validation.OutranksMeaning | apps/worker/tasks.py:281-283 | the sort key is that order |
| Validation.ValidateKeepsBest | apps/worker/tasks.py:277-301 | kept and dropped together are the report; of each key with an anchorable finding exactly one is kept, best in severity then confidence, earliest on ties |
| Validation.JudgeIsFair | apps/worker/tasks.py:284-299 | a kept finding can be anchored and carries its mapped position; a dropped one carries the obstacle it meets, or is a duplicate that meets none |
| Validation.ReportOrderOnlyBreaksTies | apps/worker/tasks.py:281-301 | permuting the report keeps the keys and the ranks of what is kept |
| Validation.ReportOrderKeepsCounts | apps/worker/tasks.py:281-301 | and the number kept, and dropped for each reason |
| Validation.ValidateIsIdempotent | apps/worker/tasks.py:281-301 | validating the kept findings again returns them in the same order at the same positions and drops none |
| Pipeline.RunPipeline | apps/worker/tasks.py:123-172 | parsing, selecting, fetching, trimming, assembling and validating compose to the result that the next rows describe; a response that cannot be parsed ends the run with its exception |
| PipelineMeaning.ReviewedFiles | apps/worker/tasks.py:136-153 | the files reviewed are all the wanted ones when their changed lines are within the limit, otherwise a greatest-in-number part within it that leaves out none that would fit; there is a review exactly when there are any |
| PipelineMeaning.ReviewerIsShown | apps/worker/tasks.py:115-167 | the reviewer is shown the repository block and the diff block of those files, with what could be fetched of the wanted ones |
| PipelineMeaning.FindingsMeaning | apps/worker/tasks.py:170-172 | a reported finding is kept, or dropped as a duplicate, exactly when the reviewed file of its path counts its line as added; it is kept at the position of that file's map; one finding that no other beats is kept per file, line and category |
| PipelineMeaning.DistinctFilesCount | apps/worker/tasks.py:170-171 | with distinct paths that is any reviewed file of its path |
| PipelineMeaning.CountsMeaning | apps/worker/tasks.py:134-180 | the files of the response are counted, their additions and deletions summed, the diff cut |
| PipelineMeaning.SumsMeaning | apps/worker/tasks.py:134-135 | what those sums are |
| Pipeline.KeptFindingsAreAnchored | apps/worker/tasks.py:170-172 | end to end: a kept finding names a selected, untrimmed file, and its position is a `+` line of that file's patch holding the cited line of the new file, a line without origin in the old one |
| Pipeline.NoFindingInATrimmedFile | apps/worker/tasks.py:140-143 | with distinct paths no finding in a file that was not chosen is kept |
| Pipeline.CompletedMeansNothingCut | apps/worker/tasks.py:181-191 | a reviewed row is completed exactly when the wanted files were within the line budget and every eligible one was sent; otherwise it is partial |
| Reviews.ReviewStore.GithubWebhook | apps/api/routes/webhooks.py:75-98 | the upsert's new tables and answer, and one message exactly when a row was created |
| Reviews.ReviewStore.Persist | apps/worker/tasks.py:174-226 | the new tables: the row rewritten, token counts and rounded cost included, a row appended for each kept and each dropped finding, nothing else touched |
| Rows.PersistedRow | apps/worker/tasks.py:174-195 | column by column, the persisted row holds the run's own title, description, counts, diff, usage, partial flag, reason, status and times; other rows stay |
| Rows.PersistedFindings | apps/worker/tasks.py:197-226 | the rows appended repeat each kept finding with its position, then each dropped one with its reason |
| Rows.InsertedRow | apps/api/routes/webhooks.py:109-147 | column by column, the row a webhook inserts |
| Rows.SkippedRow | apps/worker/tasks.py:304-326 | column by column, what `_finish` writes, with and without counts |
| Rows.FailedRow | apps/worker/tasks.py:329-334 | column by column, what `_fail` writes |
| Rows.BegunRow | apps/worker/tasks.py:65-67 | column by column, what the first transaction writes |
| Reviews.ReviewStore.ReviewPullRequest | apps/worker/tasks.py:57-92 | an undisturbed delivery is the begin transaction followed by the one its ending calls for, `Redelivery.DeliveryRuns` says of which steps; without a row, or with a repository name that does not split at a slash, nothing |
| LifecycleTheorems.RedeliveryOnlyTouches | apps/api/routes/webhooks.py:129-149 | an upsert creates the row exactly when no row has the commit; otherwise it changes `updated_at` of that row and nothing else |
| Lifecycle.StepsKeepInv | apps/worker/tasks.py:57-92 | every step of handlers, deliveries and crashes keeps the invariant on key, messages, rows, workers and findings |
| LifecycleTheorems.AtMostOneEnqueue | apps/api/routes/webhooks.py:79-93 | in every reachable state, sends plus live holders plus dead holders of a row's creation are one, and zero without the row |
| LifecycleTheorems.SameCommitSameReview | apps/api/routes/webhooks.py:101-149 | two handlers hold one review exactly when their events agree in repository, number and head commit; it is the only row with that commit |
| LifecycleTheorems.TasksFindTheirRow | apps/worker/tasks.py:62-64 | the `missing` branch is unreachable |
| LifecycleTheorems.LostReviewStaysQueued | apps/api/routes/webhooks.py:77-80 | a review whose handler died between commit and enqueue is never sent and stays queued |
| LifecycleTheorems.RowsAreCoherent | apps/worker/tasks.py:181-192 | status, times, reason and error of every row of every reachable state fit together, overlapping runs included; a row leaves queued only if its task was sent and its repository name has a slash |
| LifecycleTheorems.RunsGrow | apps/worker/tasks.py:57-92 | rows and their insert-time columns are permanent, no status returns to queued, messages and findings are only appended |
| LifecycleTheorems.FindingsAreConserved | apps/worker/tasks.py:174-226 | a review's rows are those of its persisted runs, recording each reported finding exactly once, kept with a position or dropped with a reason; no delivery persists twice; a queued review has none |
| Redelivery.HandlingRuns | apps/api/routes/webhooks.py:75-98 | an undisturbed handler is a run of the protocol and leaves the tables and messages that `ReviewStore.GithubWebhook` promises |
| Redelivery.CrashLosesReview | apps/api/routes/webhooks.py:77-80 | from any state, a handler that creates a row can die with it before the send, and nothing is sent |
| Redelivery.DeliveryRuns | apps/worker/tasks.py:57-92 | an undisturbed delivery, however long and however it ends, is a run and leaves the tables that `ReviewStore.ReviewPullRequest` promises |
| Redelivery.FailureAfterPersist | apps/worker/tasks.py:73-90 | a run can still fail after it persisted: its findings stay and the review ends failed |
| Redelivery.DeliveryMayJustEnd | apps/worker/tasks.py:73-92 | a delivery can end, by a crash or by returning, before or after its last commit, and then changes nothing |
| Redelivery.DeliverChangesNothingIff | apps/worker/tasks.py:65-68 | a delivery's first transaction changes nothing exactly when the name does not split or the review is running since that very moment |
| Redelivery.RedeliveryRepeatsFindings | apps/worker/tasks.py:65-67 | in every reachable state, delivering the task of a finished review takes it back to running, and a run that persists adds its findings to those already there |
| Redelivery.WhatADeliveryChanges | apps/worker/tasks.py:57-92 | in every reachable state and for every ending: findings stay exactly when none is reported, the outcome exactly when the row already says what the ending writes (or the delivery cannot begin); other reviews stay |
| Redelivery.RedeliveryIsHarmlessIff | apps/worker/celery_app.py:29-34 | every ending leaves the findings as they are exactly when the repository name does not split, which no finished review's does |
| Redelivery.TaskIsIdempotentIff | apps/worker/celery_app.py:29-34 | two deliveries that end alike come to the same tables as one, times apart, exactly when the task cannot begin or reports nothing |
| Redelivery.OneDeliveryFinishes | apps/worker/tasks.py:57-92 | there are finished reviews: one delivery finishes any review whose repository name splits, however it ends |
| EndToEnd.StoredFindingsAreAnchored | apps/worker/tasks.py:170-226 | over every interleaving: a finding in the table that is not dropped belongs to a persisted run's review and stands on a `+` line, of a file reviewed in that run, holding exactly the line of the new file it names |
| EndToEnd.PersistedRowReads | apps/worker/tasks.py:174-192 | from the response to the row: the number of its files, the sums of their additions and deletions, the cut texts, and partial exactly when over the limit or truncated |

## Left out

- The reviewer call, its prompt and refusals, and the cost estimate: the report is an arbitrary function of the two blocks.
- HTTP transport, retry timing and rate limits of `_request`: a request comes to a reply or to none.
- JSON entries that are not objects; digits and spaces other than ASCII in a count that comes as text.
- Signature verification, JWT and token minting, `parse_pull_request_event`: an event is an arbitrary value.
- `fnmatch`: `is_ignored` is an arbitrary predicate on paths.
- SQLAlchemy, Alembic, FastAPI, settings and logging: transactions are atomic and the unique key is an index; `xmax = 0` is the `created` flag.
- Column length limits: a persist transaction that the database refuses is a delivery that fails.
- The posting, judging and planning stages that only the documentation describes.
- Digits other than ASCII in hunk headers, and Python's limit on the length of converted integers.
- Surrogate code points: a character is a Unicode scalar value.
- Rounding in floating point: confidences are reals, and `Round3` rounds the exact value.
- `FileDiff` is a value: `parse_files` rewrites a local copy before appending it, so object identity and sharing are not captured.
- A send that the broker accepts although the handler sees an error counts as a send followed by nothing; a broker that stores one send twice is covered on the worker's side only.
- LifecycleTheorems.AtMostOneEnqueue: promises no eventual enqueue, because the code does not retry after a handler dies.
- Trimming.TrimIsOptimal: takes costs to be non-negative, as addition and deletion counts are.
