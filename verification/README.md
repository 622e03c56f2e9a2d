# Coach security scanner, modelled in Dafny

Coach scans a GitHub repository for security problems. A FastAPI backend
accepts a repository URL, records a scan job, and runs a background task.
That job clones the repository, runs Bandit and Semgrep over it, and merges
the two tools' reports into one list of findings. A read endpoint reports
the job's status and, once the job has ended, its results or its error.

A Next.js frontend has four parts modelled here:

- The home page submits the URL and polls the job while a cosmetic progress
  counter runs. It then navigates to the results page.
- The results page reads the repository from its query string, loads the
  results, and shows them with a score colour, severity tabs and a
  vulnerability table.
- A page of suggested fixes has collapsible cards, severity tabs and counts.
- Several small components classify numbers into labels: the scan form's
  URL check, the loading panel, the summary card and the severity bar.

The Dafny modules follow the program's structure:

| module | file | models |
|---|---|---|
| `Wrappers` | wrappers.dfy | `Option` and `Result` |
| `Json` | json.dfy | decoded tool output and Python's `dict.get` |
| `Scanner` | scanner.dfy | `SecurityScanner`: paths, normalisation, `scan` |
| `ScanModel` | scan_model.dfy | `ScanStatus`, the `ScanResult` row, the table |
| `ScanApi` | scan_api.dfy | `create_scan`, `run_scan`, `get_scan_results` |
| `Seqs`, `Text` | seqs.dfy, text.dfy | `filter`, `includes`, `split` |
| `Progress` | progress.dfy | the capped progress ticker and the stage lines |
| `HomePage` | home_page.dfy | `handleScan` and its poll loop |
| `ResultsPage` | results_page.dfy | query string, loading, score colour, tabs, table |
| `ScanForm` | scan_form.dfy | `validateUrl`, `handleSubmit` |
| `LoadingState` | loading_state.dfy | headline and step lines |
| `SummaryCard` | summary_card.dfy | overall status, icon, issue noun |
| `SeverityChart` | severity_chart.dfy | bar percentages and segment visibility |
| `AiFixes` | ai_fixes.dfy | expand map, recommendation total, tabs, badges |

Some things the backend and the pages do not do, so the model does not
either:

- The results page's security score is the fixed `securityScore` of its
  mock data; nothing computes it.
- Severities are copied from the tools' reports verbatim, with no case
  folding or bucketing.
- Findings get no ids and no impact text.
- The scan form, loading panel, summary card and severity bar components
  are not rendered by any page: the home page draws its own inline form
  and loading panel. They are modelled standalone, each against its own
  props.

## Model

| member | source | states |
|---|---|---|
| Json.GetNested | backend/app/utils/scanner.py:88-92 | `d.get(outer, {}).get(key, default)` yields the default when `outer` is absent and the inner lookup when it holds a dict. A present non-dict `outer` raises, with Python's AttributeError text. |
| Scanner.PathJoin | backend/app/utils/scanner.py:17-18 | POSIX join: an absolute second part replaces the first. Otherwise the parts are concatenated, with a `/` inserted exactly when the first part is non-empty and does not already end in one. |
| Scanner.ClonePath | backend/app/utils/scanner.py:17 | A scan's checkout directory is `temp_repos/<scan id>` for a relative id. It is absolute exactly when the id is. |
| Scanner.ResultsPath | backend/app/utils/scanner.py:18 | A scan's report file is `scan_results/<scan id>.json` for a relative id, and always ends in `.json`. |
| Scanner.ClonePathsDistinct | backend/app/utils/scanner.py:17 | Scans with different ids never share a checkout directory. |
| Scanner.ResultsPathsDistinct | backend/app/utils/scanner.py:18 | Scans with different ids never share a report file. |
| Scanner.NormalizeBandit | backend/app/utils/scanner.py:74-82 | Tool is `bandit`. Each field copies its key's value verbatim when present; otherwise it takes the default: `"unknown"`, `"unknown"`, `0`, `""` or `""`. |
| Scanner.NormalizeSemgrep | backend/app/utils/scanner.py:85-93 | Tool is `semgrep`. Severity, message and code come from `extra` and the line from `start`, each with its default (`"unknown"`, `""`, `""`, `0`) when the outer or the inner key is missing. A non-dict `extra` fails before a non-dict `start`; success happens exactly when neither is malformed. |
| Scanner.NormalizeEntry | backend/app/utils/scanner.py:74-93 | A list entry that is not a dict raises Python's AttributeError on its first `.get`. A dict succeeds exactly when the tool's normaliser does, tagged with the tool's name. |
| Scanner.NormalizeAll | backend/app/utils/scanner.py:74-93 | A tool's list is normalised entry by entry: same length, same order. It succeeds exactly when every entry is well shaped; otherwise the error is that of the first malformed entry. |
| Scanner.NormalizeResults | backend/app/utils/scanner.py:65-95 | The envelope carries this scan's id and URL. Length is Bandit count plus Semgrep count. All Bandit findings come first, in order, tagged `bandit`, then the Semgrep findings, in order, tagged `semgrep`. It fails exactly when an entry is malformed, with the error of the first malformed Bandit entry, or, when Bandit is clean, of the first malformed Semgrep entry. |
| Scanner.Scan | backend/app/utils/scanner.py:110-130 | A setup failure or a failed clone answers with an error reply. A report is returned exactly when setup, clone, normalisation and the file write all succeed, and it is the normalised envelope. |
| Scanner.CloneFailureSkipsTools | backend/app/utils/scanner.py:113-118 | After a failed clone the reply does not depend on either tool's output or on the file write. |
| Scanner.BanditRoundTrip | backend/app/utils/scanner.py:74-82 | Any Bandit finding is recovered exactly from the report entry it describes. |
| Scanner.SemgrepRoundTrip | backend/app/utils/scanner.py:85-93 | Any Semgrep finding is recovered exactly from the nested report entry it describes. |
| Scanner.NormalizeAllAppend | backend/app/utils/scanner.py:74-93 | Normalising two concatenated lists of one tool gives the concatenation of their normalisations. |
| ScanModel.ParseStatus | backend/app/models/scan.py:8-12 | Exactly the four strings `pending`, `in_progress`, `completed` and `failed` name a status. |
| ScanModel.StatusValueRoundTrip | backend/app/models/scan.py:8-12 | Every status survives the trip to its string value and back, so the four values are distinct. |
| ScanModel.NewRecordDefaults | backend/app/models/scan.py:20-24 | A new row (`NewRecord`) is `pending`, with no completion time, results or error. |
| ScanApi.CreateScan | backend/app/api/scan.py:44-68 | A fresh id is stored as a pending row holding the URL and creation time. The answer is `pending` with "Scan initiated successfully". Other rows are untouched and validity is kept. An id already present gives a server error. |
| ScanApi.BeginScan | backend/app/api/scan.py:25-27 | The job is marked `in_progress` before the scanner runs. Nothing else changes. |
| ScanApi.FinishScan | backend/app/api/scan.py:30-42 | A return gives `completed` with the returned dict as results; an exception gives `failed` with its text. Both set the completion time and leave other rows alone. |
| ScanApi.RunScan | backend/app/api/scan.py:20-42 | A job ends in a terminal status, and it is `completed` exactly when the scanner returned. A valid table stays valid when the job starts from its pending row, the only way `create_scan` launches it. |
| ScanApi.CallScanner | backend/app/utils/scanner.py:110-130 | `scan` catches its own errors, so the call always returns. |
| ScanApi.CloneFailureEndsCompleted | backend/app/api/scan.py:30-36 | A job whose clone fails ends `completed`, storing the "Failed to clone repository" dict, and never `failed`. |
| ScanApi.GetScanResults | backend/app/api/scan.py:70-84 | An unknown id gives 404 "Scan not found". Otherwise results show only when completed and the error only when failed. |
| ScanApi.ViewMatchesStatus | backend/app/api/scan.py:80-81 | In a valid table results appear exactly when completed and an error exactly when failed. A running job shows neither, nor a completion time. |
| ScanApi.Lifecycle | backend/app/api/scan.py:20-68 | Create, begin and finish each move the status strictly forward, from pending. Every intermediate table is valid, and the last two writes are `run_scan`. |
| Progress.Tick | src/app/page.tsx:38-46 | At or above 95 the timer stops and the value becomes 95. Below it the step is added and the timer keeps running. |
| Progress.Run | src/app/page.tsx:38-46 | Over any run of ticks the value never passes 108 and only grows while the timer runs. A stopped timer rests at 95. |
| Progress.FromZeroBounded | src/app/page.tsx:38-46 | From 0 the counter stays within 0 and 108. |
| Progress.RunNonNegative | src/app/page.tsx:38-46 | A non-negative counter stays non-negative. |
| Progress.OvershootReachable | src/app/page.tsx:38-46 | The bound 108 is attained: the cap is checked before the step is added. |
| Progress.OvershootSettles | src/app/page.tsx:40-43 | An overshooting counter drops back to 95 on the next tick and stops. |
| Progress.Stage | src/app/page.tsx:278-287 | The stage index names one of the four status lines. |
| Progress.StageLines | src/app/page.tsx:278-287 | Exactly one of the four guarded status lines shows, the one for the thresholds reached among 30, 60 and 90. |
| Progress.StageMonotone | src/app/page.tsx:278-287 | The status line only moves forward as progress grows. |
| HomePage.Settle | src/app/page.tsx:53-61 | The poll stops at the first answer that is not `pending` or `in_progress`, and nowhere earlier. |
| HomePage.Poll | src/app/page.tsx:53-61 | One fetch after submission and one more per wait. It ends on the first final status or thrown error, and the fetch count matches. |
| HomePage.HandleScan | src/app/page.tsx:27-81 | An empty URL only sets "Please enter a repository URL". Either final status, including `failed`, gives progress 100 and navigation to `/results?scanId=…&repo=…`. A thrown error resets scanning, progress and the message. |
| HomePage.BackendStatusEndsPoll | src/app/page.tsx:55-58 | Of the backend's four statuses, exactly the two terminal ones end the poll. |
| ResultsPage.TargetRoundTrip | src/app/page.tsx:68-71 | The route the home page pushes (`ResultsTarget`) gives the results page's `searchParams.get("repo")` (`SearchParam`) back the encoded repository. |
| ResultsPage.HomeRouteFetches | src/app/results/page.tsx:111-116 | Following the home page's route, the results page receives the typed URL and starts fetching. |
| ResultsPage.Mount | src/app/results/page.tsx:111-116 | A fetch starts exactly when `repo`, as read by `SearchParam`, is present and non-empty. A started fetch begins loading at 0 percent with the ticker running and no results. Otherwise the page shows "No repository specified" and stops loading. |
| ResultsPage.MissingRepoShowsError | src/app/results/page.tsx:111-116 | Without a usable `repo` the error screen shows at once. |
| ResultsPage.TickPage | src/app/results/page.tsx:140-148 | A tick changes only the progress and the timer, by the home page's ticker rule; results, error, loading and the fetch are unchanged. |
| ResultsPage.FetchDone | src/app/results/page.tsx:150-154 | A finished fetch replaces the results wholesale, sets progress to 100, stops the ticker and ends loading. |
| ResultsPage.Rescan | src/app/results/page.tsx:127-135 | A rescan sets loading again, progress to 0 and the error to empty, then restarts the fetch. Old results stay until new ones arrive. |
| ResultsPage.RescanReplaces | src/app/results/page.tsx:127-154 | After a rescan and any ticks, the page shows exactly the new results, with no earlier error. |
| ResultsPage.Render | src/app/results/page.tsx:161-266 | Loading comes first, then the error, then the results. The loading screen shows the page's percentage and that percentage's stage line, the error screen the page's message, and the report the loaded results. |
| ResultsPage.FetchFailed | src/app/results/page.tsx:104-108 | A mount fetch that throws sets "Failed to load scan results" and ends loading; results, progress and the uncleared ticker are kept. |
| ResultsPage.FetchFailedShowsError | src/app/results/page.tsx:104-108 | After a failed mount fetch the page shows the error screen with that message. |
| ResultsPage.ScoreColor | src/app/results/page.tsx:269-273 | Green exactly from 80, yellow exactly from 60 to 79, red below 60. |
| ResultsPage.ScoreGradient | src/app/results/page.tsx:275-279 | Same three ranges for the ring's gradient. |
| ResultsPage.ColorMatchesGradient | src/app/results/page.tsx:269-279 | Text and ring always share a hue. |
| ResultsPage.TabItems | src/app/results/page.tsx:506-534 | The "all" tab is the whole list. Any other tab holds only entries of its severity. |
| ResultsPage.TabMembership | src/app/results/page.tsx:512-534 | A severity tab holds exactly the entries with that severity. |
| ResultsPage.TabOrder | src/app/results/page.tsx:512-534 | A tab keeps list order: the tab of a concatenation is the concatenation of the tabs. |
| ResultsPage.OtherSeveritiesOnlyUnderAll | src/app/results/page.tsx:506-534 | An entry of any other severity appears under "all" and under no severity tab. |
| ResultsPage.SeverityLabel | src/app/results/page.tsx:548-583 | high→CRITICAL, medium→WARNING, low→NOTICE, anything else→UNKNOWN, each in both directions. |
| ResultsPage.VulnerabilityTable | src/app/results/page.tsx:585-620 | An empty list shows the SECURE notice. Otherwise there is one labelled row per entry, in order. |
| Text.IncludesIff | src/components/home/ScanForm.tsx:24 | The substring search succeeds exactly when the needle occurs at some position. |
| ScanForm.ValidateUrl | src/components/home/ScanForm.tsx:17-31 | A URL passes exactly when it is non-empty and contains `github.com/`. Empty gets the first message, other failures the second, and a pass clears the message. |
| ScanForm.HandleSubmit | src/components/home/ScanForm.tsx:33-38 | `onScan` is called exactly when validation passes, with the unmodified input. The verdict's message is shown. |
| ScanForm.EmptyGetsMissingMessage | src/components/home/ScanForm.tsx:19-27 | The empty check runs first, so "" gets the first message although it also lacks the marker. |
| ScanForm.MarkerAnywherePasses | src/components/home/ScanForm.tsx:24-30 | A URL with `github.com/` anywhere in it passes. |
| ScanForm.PassedUrlIsNonEmpty | src/components/home/ScanForm.tsx:33-38 | A URL handed to `onScan` is never empty, and the form's message is cleared. |
| LoadingState.HeadlineFor | src/components/home/LoadingState.tsx:14-16 | The completion notice shows exactly from 100; below that, the percentage. |
| LoadingState.StepLines | src/components/home/LoadingState.tsx:21-35 | The lines shown are the first k steps, where k counts the thresholds 20, 40, 60 and 80 reached. |
| LoadingState.StepsCumulative | src/components/home/LoadingState.tsx:21-35 | The lines at a lower progress are a prefix of those at any higher one. |
| LoadingState.StepExtremes | src/components/home/LoadingState.tsx:21-35 | No line below 20; all four from 80. |
| SummaryCard.GetSecurityStatus | src/components/results/SummaryCard.tsx:19-24 | Critical iff high > 0. Warning iff no high and medium > 0. Minor Issues iff only low > 0. Secure iff none. |
| SummaryCard.StatusIcon | src/components/results/SummaryCard.tsx:27-39 | The switch yields an icon exactly for the four status texts: a red alert circle for Critical, a yellow alert triangle for Warning, a blue info icon for Minor Issues and a green check circle for Secure. |
| SummaryCard.IconTotal | src/components/results/SummaryCard.tsx:27-39 | Every computed status has an icon, and different statuses get different icons. |
| SummaryCard.TextInjective | src/components/results/SummaryCard.tsx:27-39 | The four status texts are distinct. |
| SummaryCard.StatusMonotone | src/components/results/SummaryCard.tsx:19-24 | Raising any count never makes the status look better. |
| SummaryCard.IssueWord | src/components/results/SummaryCard.tsx:52 | "issue" exactly for one issue; "issues" otherwise, including zero. |
| SeverityChart.Percent | src/components/results/SeverityChart.tsx:18-20 | 0 for a zero total. Otherwise the whole number within one half of 100·count/total, halves rounded up. Never above 100 for a share of the total. |
| SeverityChart.SegmentFor | src/components/results/SeverityChart.tsx:31-54 | A segment exists exactly for a non-zero count. Its width is the percentage, and it shows its count exactly when wider than 10. |
| SeverityChart.BarSegments | src/components/results/SeverityChart.tsx:30-55 | The bar (`Bar`) has one segment per non-zero count; an all-zero result draws nothing. |
| SeverityChart.WidthsBounded | src/components/results/SeverityChart.tsx:17-20 | No segment is wider than 100 percent. |
| SeverityChart.WidthsSumNearHundred | src/components/results/SeverityChart.tsx:17-20 | With a non-zero total the three widths add up to 99, 100 or 101. |
| SeverityChart.WidthsSumExtremes | src/components/results/SeverityChart.tsx:17-20 | Both 101 and 99 occur. |
| AiFixes.InitialExpanded | src/app/AIFixes/page.tsx:198-202 | Every fix id is present and collapsed, and no other key is present. |
| AiFixes.ToggleExpand | src/app/AIFixes/page.tsx:214-219 | The toggled card flips. Every other entry is unchanged and no other key appears. |
| AiFixes.ToggleTwice | src/app/AIFixes/page.tsx:214-219 | Toggling twice restores a defined entry exactly and leaves every card's open state as it was. |
| AiFixes.OpenOneCard | src/app/AIFixes/page.tsx:198-219 | Opening one card after loading leaves exactly that card open. |
| AiFixes.RecommendationTotal | src/app/AIFixes/page.tsx:432 | The sum of list lengths, a missing list counting 0, equals the number of recommendations listed across all fixes. |
| AiFixes.AllRecommendationsAppend | src/app/AIFixes/page.tsx:432 | The listed recommendations of two fix lists concatenate. |
| AiFixes.Tab | src/app/AIFixes/page.tsx:513-531 | A tab holds only fixes of its severity. |
| AiFixes.TabMembership | src/app/AIFixes/page.tsx:513-531 | A tab holds exactly the fixes of its severity. |
| AiFixes.TabOrder | src/app/AIFixes/page.tsx:513-531 | A tab keeps list order. |
| AiFixes.TabCountsPartition | src/app/AIFixes/page.tsx:488-500 | The three tab counts plus the fixes of other severities account for every fix exactly once. |
| AiFixes.GetSeverityData | src/app/AIFixes/page.tsx:326-361 | high/medium/low→HIGH/MEDIUM/LOW, anything else→UNKNOWN, each in both directions. |
| AiFixes.BadgesAgree | src/app/AIFixes/page.tsx:326-361 | This page and the results table treat the same severities as unknown. |
| AiFixes.AddressedPercent | src/app/AIFixes/page.tsx:445 | No number when nothing was detected. Otherwise the share of detected issues with a fix, rounded half up. |
| AiFixes.Load | src/app/AIFixes/page.tsx:190-211 | A successful load shows the report with the initial expand map. A failed one shows "Failed to load AI fixes". Loading ends either way. |
| AiFixes.LoadedCardsCollapsed | src/app/AIFixes/page.tsx:197-202 | A freshly loaded page has every card collapsed. |

## Left out

- Cloning, the Bandit and Semgrep subprocesses, JSON decoding of their output, the report-file write and directory cleanup are not modelled. `ScanEnv` stands for their outcomes. A tool that fails or prints bad JSON contributes an empty list, as in the source.
- A tool report whose `results` value is not a list is not modelled: `ScanEnv` holds each tool's list of entries. The entries themselves are arbitrary JSON values, floats included.
- Directory creation at setup is a possible exception in `ScanEnv`; the file system is not modelled.
- Cleanup errors are printed and swallowed, so they have no effect and are not modelled.
- `generate_scan_id` (`uuid4`) becomes the `freshId` parameter. Its uniqueness is not assumed: a clash is the unique-column error path of `CreateScan`.
- `datetime.utcnow()` becomes the `now` parameters.
- The SQLAlchemy session, commits and FastAPI routing are not modelled. The table is a map keyed by scan id.
- ScanApi.BeginScan: a job whose row is missing leaves the table unchanged. In the source its handler raises again and the background job dies; either way nothing is written.
- Pydantic's `HttpUrl` validation and normalisation of the submitted URL are not modelled; the URL is taken as given.
- The unused `Vulnerability` table and `SCAN_TIMEOUT_SECONDS` have no behaviour to model. Neither has the rest of the configuration or the application wiring.
- Timers (the 300, 500, 1000, 1500 and 2000 ms delays) and the interleaving of the ticker with the poll are not modelled. The ticker's steps are a given sequence of integers in [0, 14], standing for `Math.floor(Math.random() * 15)`.
- HomePage.HandleScan: when the poll has not finished, the contract bounds the progress but does not give its value.
- `encodeURIComponent` and the decoding done by `searchParams.get` are opaque function parameters. The `SearchParam` function returns the raw, undecoded value and does not handle a `#` fragment.
- ResultsPage.FetchDone: loading ends at once, not after the source's 300 ms delay.
- The results page's and the fixes page's `catch` branches cannot be reached, because the mock loads never throw. Both are modelled anyway, as the outcome of a load that throws (`ResultsPage.FetchFailed`, `AiFixes.Load(None)`).
- The mock results and mock fixes are not behaviour. The results page's tab-header counts read the mock's own `severities` field, so no relation to the list is stated for them.
- `handleGenerateFixes` only toggles a flag around a delay and is not modelled. Neither are the clipboard copy and its "Copied" state on the fixes page.
- LoadingState.HeadlineFor: the headline keeps the percentage as a number, and its decimal rendering in the text is not modelled.
- AiFixes.AddressedPercent: the share of detected issues with a fix is rounded exactly, not in floating point; for 29 fixes of 200 detected the page computes 14.499999999999998 and shows 14, where the model gives 15.
- SeverityChart.Percent: the share is computed exactly, not in floating point, so a share that lands within rounding error of a half may round the other way in the source.
- Severity counts are non-negative in the model; the chart's behaviour for negative counts is not modelled.
- JavaScript object keys are strings; the model keys by the numeric id, which maps to its string one-to-one.
- Layout, styling, icons other than the summary card's, the background pattern, the navigation bar, the mobile menu, the fix button and the settings page are presentation and are not modelled.
