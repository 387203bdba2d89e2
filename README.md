# printer-pdf in Dafny

A model of the logic of printer-pdf, a small Go tool that sends PDF files to a
Windows printer through Ghostscript. It exists as a command-line program
(`main.go`) and as an HTTP service (`main2.go`). The model covers the logic
both share and the logic each adds:

- **Status classification** (`parseStatusCode`, module `Classifier`). A raw
  spooler status becomes a label. The trimmed code is matched exactly against
  `0`…`8` and `Normal`. Otherwise a case-insensitive `paper` gives
  "Paper Problem", then `error` gives "Error", and anything else passes through
  unchanged. The three facets of a status line are computed from the raw
  payload, independently of the label: ready, has paper, has error.
- **Status-output parsing** (the line loop of `getPrinterStatus`, module
  `Poller`). The text captured from PowerShell is split on newlines and each
  line is trimmed. A `STATUS:` line sets the label and the facets. A `JOBS:`
  line sets the queue depth when a decimal integer follows. The imperative
  loop `GetPrinterStatus` is proved equal to a declarative snapshot: the
  last `STATUS:` line and the last well-formed `JOBS:` line decide.
- **The Ghostscript command line** (`buildGSArgs`, module `Ghostscript`). It
  is built by successive appends and proved equal to a concatenation of
  segments. Lemmas give its shape, its length bounds and when each optional
  flag is present.
- **The print-job monitor** (`monitorPrintJob`, module `Monitor`). The class
  `JobMonitor` holds `previousJobs` and `paperWarningShown` and updates them
  once per tick. The driver `MonitorPrintJob` ticks through a finite sequence
  of polls. Both are proved against the pure transition `Step` and the run
  `Run`, about which the paper-warning, error, progress and timeout
  properties are proved.
- **The two entry points** (module `Orchestrator`). `HandlePrint` covers
  `handlePrint`: the body check (400), then the defaults, then the ordered
  checks answered 404, 500, 503, 500, 500, or success with a `job_<unix time>`
  id. `RunCli` covers
  `main`: its fixed file, printer and settings, its own order of checks, then
  monitoring without a timeout.
- **Go library behaviour** (module `Text`). This covers `strings.TrimSpace`
  over Unicode white space, `strings.Split` (which never returns an empty
  slice), `ToLower`, `Contains`, `HasPrefix`, `TrimPrefix`, `%d` formatting,
  and the `%d` verb of `fmt.Sscanf`: optional leading white space other than a newline, an optional sign, a run
  of decimal digits, and a 64-bit range.

`parseStatusCode`, the parse loop and `buildGSArgs` occur in both source files
with the same text. The single model serves both, and the table cites the
`main2.go` copy. Go's `int` is taken as 64 bits wide (`int64`), as on the 64-bit
Windows target.

In a few places the code behaves differently from what a reader might
expect, for instance that the first status line counts, that a bad `JOBS:`
line reads as 0, or that a missing printer is answered 404. The model
follows the code:

- A later `STATUS:` or `JOBS:` line overwrites an earlier one, so the last
  line of each kind wins.
- A `JOBS:` line without a number leaves the depth as it was. The depth
  starts at 0.
- When the status query fails, `handlePrint` answers 500 "Printer not found".
  It does not answer 404, which it uses only for a missing file.
- The HTTP handler checks the file before the printer and ignores the error
  facet. The command line checks the printer first and stops on the error
  facet.
- `previousJobs` starts at -1. A first tick that reads `JOBS:-1` therefore
  shows no progress line (see `Monitor.FirstTickShowsDepth`).

Time is a parameter. Each poll carries the elapsed time since monitoring began,
in nanoseconds, as Go's `time.Duration` counts it.

## Model

| member | source | states |
|---|---|---|
| `Text.TrimSpace` | main2.go:239 | `strings.TrimSpace`: the input with its leading and trailing Unicode white space removed |
| `Text.TrimLeft` | main2.go:239 | the result is no longer than the input and does not start with Unicode white space |
| `Text.TrimRight` | main2.go:239 | the result is no longer than the input and does not end with Unicode white space |
| `Text.TrimSpaceIdempotent` | main2.go:256 | trimming a trimmed string changes nothing |
| `Text.TrimSpaceIsSlice` | main2.go:239 | the trimmed string is a contiguous slice of the input with only white space cut on either side |
| `Text.TrimmedIsFixed` | main2.go:256 | a string with no white space at either end is its own trim |
| `Text.NoLeadingSpace` | main2.go:239 | left trimming keeps a string that does not start with white space |
| `Text.SkipSpaceSkipsSpace` | main2.go:239 | every character skipped from the front is white space |
| `Text.SkipSpaceBackSkipsSpace` | main2.go:239 | every character skipped from the back is white space |
| `Text.SkipSpace` | main2.go:239 | the skip stops inside the string at a character that is not white space, or at its end |
| `Text.SkipSpaceBack` | main2.go:239 | the backward skip stops after a character that is not white space, or at the start |
| `Text.ToLower` | main2.go:244 | lowercasing keeps the length and maps each character independently |
| `Text.DiffersAt` | main2.go:240 | a mismatch inside the prefix rules the prefix out |
| `Text.Contains` | main2.go:243-245 | `strings.Contains`: the word occurs at some position of the string |
| `Text.HasPrefix` | main2.go:240 | `strings.HasPrefix`: the string is at least as long as the prefix and starts with it |
| `Text.TrimPrefix` | main2.go:241 | with the prefix present the result is what follows it; otherwise the input is returned unchanged |
| `Text.ContainsLowerSurvivesTrim` | main2.go:277-280 | a word without white space found in the lowercased payload is still found after trimming |
| `Text.TrimmedOccurrence` | main2.go:277-280 | such a word occurs at some position of the lowercased trimmed payload |
| `Text.OccurrenceInsideTrim` | main2.go:277-280 | the occurrence lies inside the part of the payload that trimming keeps |
| `Text.NoSpaceInOccurrence` | main2.go:277-280 | the payload characters under an occurrence of such a word are not white space |
| `Text.OccurrenceInSlice` | main2.go:277-280 | an occurrence inside a slice is an occurrence in the lowercased slice, shifted |
| `Text.LowerOfSlice` | main2.go:277-280 | lowercasing commutes with slicing |
| `Text.Split` | main2.go:237 | splitting always yields at least one piece (the empty text yields one empty line) |
| `Text.SplitPiecesLackSeparator` | main2.go:237 | no piece contains a newline |
| `Text.JoinSplit` | main2.go:237 | joining the pieces with newlines gives the text back |
| `Text.SplitJoin` | main2.go:237 | splitting newline-joined lines that hold no newline gives the lines back |
| `Text.SplitWithoutSeparator` | main2.go:237 | a text without a newline is one line |
| `Text.SplitAtSeparator` | main2.go:237 | the first newline ends the first line and the rest is split on |
| `Text.DigitChar` | main2.go:314 | a digit value below ten is written as a decimal digit |
| `Text.NatToString` | main2.go:314 | a natural number is written as a non-empty run of decimal digits |
| `Text.IntToString` | main2.go:314 | the decimal form of an integer is never empty |
| `Text.DigitValue` | main2.go:248 | a decimal digit has a value below ten |
| `Text.SkipDigits` | main2.go:248 | the digit scan stops at a non-digit or at the end |
| `Text.SkipDigitsSkipsDigits` | main2.go:248 | every character scanned over is a digit |
| `Text.DigitRunLength` | main2.go:248 | the leading digit run ends at a non-digit or at the end |
| `Text.DigitRunIsDigits` | main2.go:248 | the leading digit run consists of digits |
| `Text.DigitsValueOfNatToString` | main2.go:314 | reading back the decimal form of a natural number gives the number |
| `Text.DigitRunOfDigits` | main2.go:248 | the digit run of digits followed by a non-digit is exactly those digits |
| `Text.SkipDigitsOver` | main2.go:248 | the digit scan stops exactly where the digits stop |
| `Text.MagnitudeOfDigits` | main2.go:248 | a digit run followed by a non-digit reads as its value |
| `Text.ScanInt` | main2.go:248 | the `%d` verb of `fmt.Sscanf` on a line without a newline: optional white space, an optional sign and a digit run, read as a 64-bit integer, or nothing when no digit follows or the value does not fit |
| `Text.ScanIntReadsFormattedInt` | main2.go:248 | `%d` scanning reads back every 64-bit integer written by `%d` formatting, whatever non-digit follows |
| `Text.ScanNonNegative` | main2.go:248 | unsigned digits within range read as their value |
| `Text.ScanNegative` | main2.go:248 | a minus sign negates the magnitude that follows it, within range |
| `Text.ScanWithoutSign` | main2.go:248 | text that starts with a digit reads as its magnitude when that fits in 64 bits, and fails otherwise |
| `Text.ScanWithMinus` | main2.go:248 | a minus sign followed by a magnitude reads as its negation when that fits, and fails otherwise |
| `Classifier.ParseStatusCode` | main2.go:255-285 | the label is one of the known labels or the trimmed code itself |
| `Classifier.Classify` | main2.go:257-284 | the label of a trimmed code is a known label or the code itself |
| `Classifier.IsReadyFacet` | main2.go:243 | ready: the raw payload contains "Normal" (case-sensitive) or is exactly "0" (untrimmed) |
| `Classifier.HasPaperFacet` | main2.go:244 | has paper: the lowercased raw payload does not contain "paper" |
| `Classifier.HasErrorFacet` | main2.go:245 | has error: the lowercased raw payload contains "error" |
| `Classifier.ExactCodes` | main2.go:256-275 | after trimming, `0` and `Normal` are "Ready" and `1`…`8` are Paused, Error, Pending Deletion, Paper Jam, Paper Out, Manual Feed, Paper Problem and Offline |
| `Classifier.Fallbacks` | main2.go:276-283 | for any other code, `paper` in any case gives "Paper Problem" ahead of `error`, which gives "Error"; otherwise the trimmed code is returned |
| `Classifier.FallbacksOfTrimmed` | main2.go:276-283 | the same fallbacks, stated for an already trimmed code |
| `Classifier.TrimInvariant` | main2.go:256 | a code and its trimmed form get the same label |
| `Classifier.PaperJam99` | main2.go:277-278 | "PaperJam99" is a "Paper Problem" |
| `Classifier.ExactCodesMentionNeither` | main2.go:257-275 | no exact code contains `paper` or `error` in any case, so the exact cases and the fallbacks never compete |
| `Classifier.FacetsImplyLabel` | main2.go:241-245 | a payload without paper is labelled "Paper Problem", and a payload with an error is labelled "Error" or "Paper Problem" |
| `Classifier.LabelDoesNotImplyFacets` | main2.go:241-245 | the label does not determine the facets: code 2 is "Error" without the error facet, code 5 is "Paper Out" with paper, and " 0" is "Ready" but not ready |
| `Classifier.CodeTwo` | main2.go:262-263 | code 2 is labelled "Error" but has no error facet |
| `Classifier.CodeFive` | main2.go:268-269 | code 5 is labelled "Paper Out" but its paper facet is set |
| `Classifier.PaddedZero` | main2.go:243 | " 0" is labelled "Ready" but fails the untrimmed readiness test |
| `Classifier.Unpadded` | main2.go:256 | a single digit is its own trimmed code |
| `Classifier.AllFacetsAtOnce` | main2.go:241-245 | "Normal paper error" is ready, has no paper and has an error, all at once |
| `Poller.IsStatusLine` | main2.go:239-240 | the trimmed line starts with `STATUS:` |
| `Poller.StatusPayload` | main2.go:241 | the trimmed line without its `STATUS:` prefix, not trimmed again |
| `Poller.JobsReading` | main2.go:247-248 | the value `Sscanf(line, "JOBS:%d")` stores: the trimmed line must start with `JOBS:`, then the `%d` reading of the rest, or nothing |
| `Poller.LineUpdate` | main2.go:239-249 | one pass of the loop body: a trimmed `STATUS:` line sets the label and the three facets from its payload, then a trimmed `JOBS:` line with a readable integer sets the depth |
| `Poller.ParseLines` | main2.go:233-250 | the record after the loop has run over the first n lines, starting from the requested name and zero values |
| `Poller.FetchStatus` | main2.go:228-252 | a failed query is an error; otherwise the record after the loop over the output split on newlines |
| `Poller.Snapshot` | main2.go:233-250 | the declarative reading: the last status line gives label and facets, the last readable jobs line the depth |
| `Poller.LastMatch` | main2.go:238-250 | the last matching line before position n is a position below n, or -1 |
| `Poller.LastMatchIsLast` | main2.go:238-250 | the position found matches and no later line before n does |
| `Poller.LastMatchUnique` | main2.go:238-250 | any position with those two properties is the one found |
| `Poller.PayloadStep` | main2.go:240-246 | one more line changes the deciding payload exactly when it is a status line |
| `Poller.DepthStep` | main2.go:247-249 | one more line changes the depth exactly when it is a well-formed jobs line |
| `Poller.Assemble` | main2.go:233-235 | the snapshot carries the requested name, the depth and an empty error message; without a status line the label is empty and all three facets are false |
| `Poller.FetchedIsSnapshot` | main2.go:228-252 | a query that produced output yields the declarative snapshot of its lines |
| `Poller.ParseLinesIsSnapshot` | main2.go:238-250 | folding the line update over the lines yields the last-match snapshot |
| `Poller.SnapshotStep` | main2.go:238-250 | updating the snapshot of the first n-1 lines with line n gives the snapshot of n lines |
| `Poller.UpdateAssembled` | main2.go:239-249 | a line update moves an assembled snapshot to the one assembled from the updated payload and depth |
| `Poller.ApplyLine` | main2.go:239-249 | trimming, then the `STATUS:` and `JOBS:` branches, compute the line update |
| `Poller.GetPrinterStatus` | main2.go:228-252 | a failed query is an error; otherwise the loop over the split lines yields the snapshot |
| `Poller.LastMatchAt` | main2.go:238-250 | a matching line followed only by non-matching lines is the last match |
| `Poller.MatchSkipsLine` | main2.go:238-250 | removing a non-matching line keeps the same last matching line, and keeps there being none |
| `Poller.NoStatusLine` | main2.go:233-235 | with no status line the label is empty and all three facets are false |
| `Poller.NoJobsLine` | main2.go:233-235 | with no well-formed jobs line the depth stays at 0 |
| `Poller.LaterStatusLineWins` | main2.go:240-246 | the last status line alone decides the label and all three facets |
| `Poller.OtherLinesIgnored` | main2.go:238-250 | a line that is neither status nor well-formed jobs changes nothing |
| `Poller.TypicalOutput` | main2.go:218-220 | the usual three-line output "STATUS:Normal", "JOBS:3", "NAME:…" gives a ready printer with paper, no error and depth 3 |
| `Poller.TypicalPayload` | main2.go:240-241 | the status payload of that output is "Normal" |
| `Poller.TypicalDepth` | main2.go:247-248 | the depth of that output is 3 |
| `Poller.StatusLineNormal` | main2.go:240-241 | "STATUS:Normal" is a status line with payload "Normal" |
| `Poller.JobsLineThree` | main2.go:247-248 | "JOBS:3" reads as depth 3 |
| `Poller.NameLine` | main2.go:238-250 | "NAME:…" is neither a status nor a jobs line |
| `Poller.NormalIsReady` | main2.go:241-245 | "Normal" is labelled "Ready", and is ready, with paper and without error |
| `Ghostscript.GSArgs` | main2.go:305-351 | the fixed flags, the copies and paper flags, the grayscale segment, the duplex segment, then device, printer output and file, concatenated |
| `Ghostscript.PaperSizeChoice` | main2.go:316-327 | a4, letter, legal and a5 select their own paper flag; any other value selects A4 |
| `Ghostscript.AppendPaperSize` | main2.go:316-327 | the switch appends exactly the paper flag of the size |
| `Ghostscript.AppendColor` | main2.go:329-333 | the three grayscale flags are appended, in order, for "monochrome" only |
| `Ghostscript.AppendDuplex` | main2.go:335-344 | duplex on plus the tumble flag, or duplex off, is appended |
| `Ghostscript.BuildGSArgs` | main2.go:305-351 | the appends build exactly the segment concatenation |
| `Ghostscript.GSArgsShape` | main2.go:305-351 | five fixed flags, the copies flag and the paper flag lead; device, printer output and file close; the length is 11 plus 3 for grayscale plus 1 for the tumble flag |
| `Ghostscript.GSArgsLengthBounds` | main2.go:305-351 | every command line has 11 to 15 entries |
| `Ghostscript.GrayFlagsIffMonochrome` | main2.go:329-333 | the grayscale flags follow the paper flag exactly when the colour is "monochrome" |
| `Ghostscript.GrayFlagPresentIffMonochrome` | main2.go:329-333 | a grayscale flag appears anywhere among the flags exactly when the colour is "monochrome" |
| `Ghostscript.NotCopiesOrOutput` | main2.go:314-347 | no grayscale flag can be a copies flag or an output flag, whatever count or printer name they carry |
| `Ghostscript.DuplexPlacement` | main2.go:335-344 | after the optional grayscale segment a double-sided job has duplex on, then a tumble flag that is on exactly for "horizontal"; a single-sided job has duplex off followed by the device flag |
| `Monitor.Wrap64` | main.go:251 | the result is the signed 64-bit value congruent to the input, and the input itself when it fits |
| `Monitor.TimeoutAgreesWithoutOverflow` | main.go:251 | for timeouts up to 9223372036 seconds the wrapping test and the intended test agree |
| `Monitor.TimeoutOverflowCounterexample` | main.go:251 | at 9223372037 seconds the wrapping test fires at any elapsed time while the intended test does not |
| `Monitor.TimeoutExpiredAsWritten` | main.go:251 | the comparison as written: a positive timeout and an elapsed time above the 64-bit wrapped product of the timeout and one second |
| `Monitor.TimeoutExpired` | main.go:251 | the intended comparison: a positive timeout and an elapsed time above that many seconds, without wrap-around |
| `Monitor.PaperEvents` | main.go:225-237 | the paper block's output: a warning when paper is out and none is standing, a notice when paper is back after a warning, else nothing |
| `Monitor.Step` | main.go:212-255 | one tick: fetch failure, empty queue, the paper check, the error check, the progress line and last the timeout, with the non-wrapping timeout test |
| `Monitor.RunFrom` | main.go:210-257 | the ticks from a given poll on, until one stops monitoring or the polls run out |
| `Monitor.Run` | main.go:202-258 | the run from the initial state (depth -1, no warning) |
| `Monitor.JobMonitor.constructor` | main.go:207-208 | a new monitor has no depth shown yet (-1) and no standing paper warning |
| `Monitor.JobMonitor.Tick` | main.go:212-255 | one tick emits the events, updates the two fields and decides the outcome as the transition `Step` does; the timeout uses the non-wrapping test (see Findings) |
| `Monitor.MonitorPrintJob` | main.go:202-258 | ticking through the polls until one stops gives the run `Run` |
| `Monitor.FetchFailureStops` | main.go:213-217 | a failed fetch stops monitoring with no event and no state change |
| `Monitor.EmptyQueueCompletes` | main.go:219-222 | an empty queue completes with no event and no state change, whatever the paper, error and time |
| `Monitor.PaperFlagTracksPaper` | main.go:225-237 | after the paper check, the warning flag is set exactly when paper is out |
| `Monitor.PaperNotices` | main.go:225-237 | the warning is given exactly when paper is out and none is standing; the notice exactly when paper is back after a warning |
| `Monitor.PrinterErrorStops` | main.go:239-242 | an error stops monitoring even with jobs queued, after the paper events and without a progress line |
| `Monitor.ProgressOnChange` | main.go:245-249 | a progress line appears exactly when the depth differs from the last one shown, and the depth is then remembered |
| `Monitor.FirstTickShowsDepth` | main.go:207 | the first tick that reaches the progress check shows the depth unless it is -1 |
| `Monitor.TimeoutChecksLast` | main.go:251-255 | a tick times out exactly when it passed the fetch, empty-queue and error checks and the timeout has passed |
| `Monitor.StepTimesOutAsWritten` | main.go:251-255 | for every timeout up to 9223372036 seconds a tick times out exactly when the source's wrapping test fires and the earlier checks passed |
| `Monitor.RunIgnoresLaterPolls` | main.go:210-257 | once a tick stops monitoring, later polls change nothing |
| `Monitor.NoTimeoutWhenUnlimited` | main.go:251 | with a timeout of 0 or less no run ever times out |
| `Monitor.TimeoutOnlyAfterDeadline` | main.go:251-255 | a run that timed out contains a poll later than the timeout |
| `Monitor.ShortageWarnsOnce` | main.go:225-230 | through consecutive out-of-paper ticks the warning appears once, or not at all when it is already standing |
| `Monitor.DepthsExample` | main.go:245-249 | depths 5, 5, 3, 0 give progress at 5, nothing, progress at 3, then completion |
| `Orchestrator.Defaulted` | main2.go:96-107 | the request with paper size a4, colour "color", one copy and printer MP230 filled in where they are empty or not positive |
| `Orchestrator.PrintResponseFor` | main2.go:88-163 | the answer of the first failing check in the order body, file, status query, readiness, Ghostscript, print run, else success |
| `Orchestrator.CliResultFor` | main.go:71-120 | the end of the command-line chain: status query, readiness, error facet, file, Ghostscript, print run, then monitoring with timeout 0 |
| `Orchestrator.DefaultsFilled` | main2.go:96-107 | after defaulting, paper size, colour and printer are set and copies are at least 1; fields already set are kept, other fields untouched |
| `Orchestrator.DefaultsIdempotent` | main2.go:96-107 | defaulting twice equals defaulting once |
| `Orchestrator.FillDefaults` | main2.go:96-107 | the field-by-field updates fill in the defaults |
| `Orchestrator.HandlePrint` | main2.go:84-164 | the early-return chain answers as `PrintResponseFor` |
| `Orchestrator.BadRequestIff` | main2.go:88-93 | 400 exactly for a malformed body |
| `Orchestrator.FileNotFoundIff` | main2.go:110-115 | 404 exactly when the body decoded and the file is missing |
| `Orchestrator.NotReadyIff` | main2.go:126-131 | 503 exactly when the file exists, the status was fetched and the printer is not ready; the error names the label |
| `Orchestrator.ServerErrorIff` | main2.go:118-157 | 500 exactly when, past the file check, the status query failed or, for a ready printer, Ghostscript is missing or the print run failed |
| `Orchestrator.SuccessIff` | main2.go:159-163 | success (code 200) exactly when every check passes and the run of the command line built from the defaulted request succeeds; the job id is "job_" and the Unix time |
| `Orchestrator.HttpIgnoresErrorFacet` | main2.go:126-163 | a ready printer reporting an error still gets the job |
| `Orchestrator.RunCli` | main.go:30-121 | the command-line chain ends as `CliResultFor` |
| `Orchestrator.CliMonitorsOnlyAfterAllChecks` | main.go:71-120 | monitoring starts exactly when the status was fetched, the printer is ready and error-free, the file exists, Ghostscript was found and the print run succeeded |
| `Orchestrator.CliNeverTimesOut` | main.go:120 | monitoring from the command line never times out |
| `Orchestrator.CliArgs` | main.go:60-66 | the fixed settings give an 11-entry command line with one copy, A4 and duplex off |

## Left out

- The PowerShell query and `exec.Command`/`CombinedOutput` are left out. The captured text, or the failure, is an input (`ProbeResult`), and the script text is not modelled.
- `findGhostscript` is an oracle: `Host.gsPath` is the path found, and empty when none is.
- Files and the clock are oracles too. `os.Stat` not-exist, `filepath.Abs`, the Ghostscript process (`Host.runGs`) and the Unix time (`Host.now`) come with the host.
- Elapsed time arrives as a number of nanoseconds per poll. The ticker, `time.Since` and the 2-second interval are not modelled.
- The monitor runs over a finite sequence of polls. The source polls forever; a run that ends without a stopping tick has outcome `Continue`.
- `Monitor.MonitorPrintJob`: the printer name is not a parameter. Each poll already carries the status-query result that `getPrinterStatus(printerName)` would give. The timeout uses the non-wrapping test `Monitor.TimeoutExpired`, so for a timeout above 9223372036 seconds the model keeps monitoring where the program stops at once (see Findings).
- `Monitor.Step`: uses the non-wrapping timeout test `Monitor.TimeoutExpired` instead of the 64-bit product of main.go:251. The two agree for every timeout up to 9223372036 seconds (`Monitor.StepTimesOutAsWritten`).
- `Monitor.JobMonitor.Tick`: uses the same non-wrapping timeout test as `Monitor.Step`.
- `Monitor.RunFrom`: inherits the non-wrapping timeout test of `Monitor.Step`.
- `Monitor.Run`: inherits the non-wrapping timeout test of `Monitor.Step`.
- The Fiber application, routing, middleware, JSON body decoding and encoding, `handlePrinterStatus` and `handleListFiles` are left out. Body decoding is reduced to `Malformed` or a decoded request.
- `displayStatus` and all console wording are left out. The monitor emits abstract events, and the command line ends with an outcome tag.
- The elapsed seconds printed with `%.0f` are left out. `Progress` carries the elapsed time as a number.
- `Text.ToLower` lowercases ASCII letters only. No other character lowercases to a letter of "paper" or "error", so the two substring tests are unaffected.
- `Text.ScanInt`: `fmt.Sscanf` is modelled for the `%d` verb only. It skips leading white space, including a newline, where `Sscanf` stops with an "unexpected newline" error; this case is never reached, since every line comes from splitting on newlines. It then takes an optional sign and digits, and rejects values outside 64 bits. The prefix `JOBS:` is matched before it, as the format string requires.
- `ErrorMsg` is never assigned in the source, so it is always empty (`Poller.Assemble`).
- Go strings are byte strings; the model treats them as sequences of Unicode scalar values. Nothing depends on the difference: every word and prefix searched for is ASCII, and an invalid byte, which Go reads as the replacement character, is neither white space nor a letter.

## Findings

| source | as written | input that shows it | evidently intended | confidence | as-written member | corrected member |
|---|---|---|---|---|---|---|
| main.go:251 | the timeout is converted with `time.Duration(timeoutSec)*time.Second`, a 64-bit multiplication that wraps around | `timeoutSec = 9223372037`: the product wraps to a negative duration, so the first tick that gets past the error check times out at once | a positive timeout fires only after that many seconds have elapsed | not executed; only absurdly long timeouts are affected | `Monitor.TimeoutOverflowCounterexample` (with `Monitor.TimeoutExpiredAsWritten`, the predicate that models the comparison as written) | `Monitor.TimeoutExpired`, used by `Monitor.Step` and `Monitor.JobMonitor.Tick`; proved by `Monitor.TimeoutOnlyAfterDeadline` and `Monitor.TimeoutAgreesWithoutOverflow` |
