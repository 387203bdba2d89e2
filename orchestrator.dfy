/** The two entry points that tie the pieces together: the HTTP print handler
    (`handlePrint`, with its defaults and its ordered status codes) and the
    command-line `main`, which checks the printer, prints a fixed file and then
    monitors the job. The file system, PowerShell, the Ghostscript lookup and
    process and the clock are oracles supplied by the caller. */
module Orchestrator {
  import opened Text
  import opened Poller
  import opened Ghostscript
  import opened Monitor

  /** A decoded print request. */
  datatype PrintRequest = PrintRequest(fileName: string, printer: string, settings: PrintSettings)

  /** The request body as the body parser leaves it. */
  datatype Body = Malformed | Decoded(request: PrintRequest)

  /** What running Ghostscript gave: success, or the error and the combined
      output. */
  datatype GsRun = GsOk | GsFailed(err: string, output: string)

  /** Everything outside the program: whether a file is missing, its absolute
      path, the PowerShell status query for a printer, the Ghostscript
      executable found (empty when none), the Ghostscript process and the Unix
      time. */
  datatype Host = Host(
    fileMissing: string -> bool,
    absPath: string -> string,
    probe: string -> ProbeResult,
    gsPath: string,
    runGs: (string, seq<string>) -> GsRun,
    now: int64)

  /** An HTTP status code with the PrintResponse body. */
  datatype Response = Response(code: int, success: bool, message: string, jobId: string, error: string)

  const DEFAULT_PRINTER: string := "MP230"
  const DEFAULT_PAPER_SIZE: string := "a4"
  const DEFAULT_COLOR: string := "color"

  function Failure(code: int, error: string): Response {
    Response(code, false, "", "", error)
  }

  /** The request with handlePrint's defaults filled in. */
  function Defaulted(req: PrintRequest): PrintRequest {
    var s := req.settings;
    var paper := if s.paperSize == "" then DEFAULT_PAPER_SIZE else s.paperSize;
    var color := if s.color == "" then DEFAULT_COLOR else s.color;
    var copies := if s.copies <= 0 then 1 else s.copies;
    var printer := if req.printer == "" then DEFAULT_PRINTER else req.printer;
    PrintRequest(req.fileName, printer, s.(paperSize := paper, color := color, copies := copies))
  }

  /** After defaulting, paper size, colour and printer are set and at least one
      copy is asked for; a field that was already set keeps its value, and
      the file name, the duplex choice and the duplex mode are untouched. */
  lemma DefaultsFilled(req: PrintRequest)
    ensures var r := Defaulted(req);
      && r.settings.paperSize != "" && r.settings.color != "" && r.printer != "" && r.settings.copies >= 1
      && (req.settings.paperSize != "" ==> r.settings.paperSize == req.settings.paperSize)
      && (req.settings.color != "" ==> r.settings.color == req.settings.color)
      && (req.printer != "" ==> r.printer == req.printer)
      && (req.settings.copies > 0 ==> r.settings.copies == req.settings.copies)
      && r.fileName == req.fileName
      && r.settings.doubleSided == req.settings.doubleSided
      && r.settings.duplexMode == req.settings.duplexMode
  {
  }

  /** Filling in the defaults twice is filling them in once. */
  lemma DefaultsIdempotent(req: PrintRequest)
    ensures Defaulted(Defaulted(req)) == Defaulted(req)
  {
  }

  /** The default-filling block of handlePrint, one field at a time. */
  method FillDefaults(req: PrintRequest) returns (r: PrintRequest)
    ensures r == Defaulted(req)
  {
    r := req;
    if r.settings.paperSize == "" {
      r := r.(settings := r.settings.(paperSize := "a4"));
    }
    if r.settings.color == "" {
      r := r.(settings := r.settings.(color := "color"));
    }
    if r.settings.copies <= 0 {
      r := r.(settings := r.settings.(copies := 1));
    }
    if r.printer == "" {
      r := r.(printer := "MP230");
    }
  }

  /** The command line handlePrint runs for a defaulted request. */
  function PrintArgs(req: PrintRequest, host: Host): seq<string> {
    GSArgs(req.printer, host.absPath(req.fileName), req.settings)
  }

  /** handlePrint's answer: the first failing check in the order body, file,
      printer status, readiness, Ghostscript, print run; success otherwise. */
  function PrintResponseFor(body: Body, host: Host): Response {
    match body
    case Malformed => Failure(400, "Invalid request body")
    case Decoded(raw) =>
      var req := Defaulted(raw);
      if host.fileMissing(req.fileName) then Failure(404, "File not found: " + req.fileName)
      else
        match FetchStatus(req.printer, host.probe(req.printer))
        case FetchFailed => Failure(500, "Printer not found: " + req.printer)
        case Fetched(status) =>
          if !status.isReady then Failure(503, "Printer not ready: " + status.status)
          else if host.gsPath == "" then Failure(500, "Ghostscript not found")
          else
            match host.runGs(host.gsPath, PrintArgs(req, host))
            case GsFailed(err, output) => Failure(500, "Print failed: " + err + " - " + output)
            case GsOk => Response(200, true, "Print job sent successfully", "job_" + IntToString(host.now), "")
  }

  /** handlePrint. */
  method HandlePrint(body: Body, host: Host) returns (resp: Response)
    ensures resp == PrintResponseFor(body, host)
  {
    if body.Malformed? {
      return Failure(400, "Invalid request body");
    }
    var req := FillDefaults(body.request);
    if host.fileMissing(req.fileName) {
      return Failure(404, "File not found: " + req.fileName);
    }
    var fetched := GetPrinterStatus(req.printer, host.probe(req.printer));
    if fetched.FetchFailed? {
      return Failure(500, "Printer not found: " + req.printer);
    }
    var status := fetched.snapshot;
    if !status.isReady {
      return Failure(503, "Printer not ready: " + status.status);
    }
    var fullPath := host.absPath(req.fileName);
    var gsPath := host.gsPath;
    if gsPath == "" {
      return Failure(500, "Ghostscript not found");
    }
    var args := BuildGSArgs(req.printer, fullPath, req.settings);
    var run := host.runGs(gsPath, args);
    if run.GsFailed? {
      return Failure(500, "Print failed: " + run.err + " - " + run.output);
    }
    return Response(200, true, "Print job sent successfully", "job_" + IntToString(host.now), "");
  }

  /** The status of the defaulted printer, as handlePrint fetches it. */
  function RequestStatus(req: PrintRequest, host: Host): StatusFetch {
    FetchStatus(Defaulted(req).printer, host.probe(Defaulted(req).printer))
  }

  /** A malformed body, and only a malformed body, is answered 400. */
  lemma BadRequestIff(body: Body, host: Host)
    ensures PrintResponseFor(body, host).code == 400 <==> body.Malformed?
  {
  }

  /** 404 exactly when the body decoded and the file is missing; the printer
      is not even queried then. */
  lemma FileNotFoundIff(body: Body, host: Host)
    ensures PrintResponseFor(body, host).code == 404 <==>
      body.Decoded? && host.fileMissing(body.request.fileName)
  {
  }

  /** 503 exactly when the file exists and the status fetch succeeds but the
      printer is not ready; the error names the status label. */
  lemma NotReadyIff(body: Body, host: Host)
    ensures var r := PrintResponseFor(body, host);
      r.code == 503 <==>
        && body.Decoded? && !host.fileMissing(body.request.fileName)
        && RequestStatus(body.request, host).Fetched?
        && !RequestStatus(body.request, host).snapshot.isReady
    ensures var r := PrintResponseFor(body, host);
      r.code == 503 ==> r.error == "Printer not ready: " + RequestStatus(body.request, host).snapshot.status
  {
  }

  /** The three server errors, in order: the status query failed, no
      Ghostscript was found, or the print run failed. */
  lemma ServerErrorIff(body: Body, host: Host)
    ensures var r := PrintResponseFor(body, host);
      r.code == 500 <==>
        && body.Decoded? && !host.fileMissing(body.request.fileName)
        && (|| RequestStatus(body.request, host).FetchFailed?
            || (RequestStatus(body.request, host).snapshot.isReady
                && (host.gsPath == ""
                    || host.runGs(host.gsPath, PrintArgs(Defaulted(body.request), host)).GsFailed?)))
  {
  }

  /** Success exactly when every check passes and the print run succeeds; the
      job id is "job_" followed by the Unix time, and the command line run is
      the one built from the defaulted request. */
  lemma SuccessIff(body: Body, host: Host)
    ensures var r := PrintResponseFor(body, host);
      (r.code == 200 <==> r.success)
      && (r.success <==>
        && body.Decoded? && !host.fileMissing(body.request.fileName)
        && RequestStatus(body.request, host).Fetched?
        && RequestStatus(body.request, host).snapshot.isReady
        && host.gsPath != ""
        && host.runGs(host.gsPath, PrintArgs(Defaulted(body.request), host)).GsOk?)
      && (r.success ==> r.jobId == "job_" + IntToString(host.now) && r.error == "")
  {
  }

  /** The HTTP handler does not look at the error facet: a ready printer that
      reports an error still gets the job. */
  lemma HttpIgnoresErrorFacet(raw: PrintRequest, host: Host)
    requires !host.fileMissing(raw.fileName)
    requires RequestStatus(raw, host).Fetched?
    requires RequestStatus(raw, host).snapshot.isReady && RequestStatus(raw, host).snapshot.hasError
    requires host.gsPath != "" && host.runGs(host.gsPath, PrintArgs(Defaulted(raw), host)).GsOk?
    ensures PrintResponseFor(Decoded(raw), host).success
  {
  }

  /** The command-line program's fixed inputs. */
  const CLI_FILE: string := "test.pdf"
  const CLI_PRINTER: string := "MP230"
  const CLI_SETTINGS: PrintSettings := PrintSettings("a4", "color", false, "vertical", 1)

  /** How the command-line program ends: at one of its six checks, or after
      monitoring the job. */
  datatype CliOutcome =
    | StatusCheckFailed
    | NotReady
    | PrinterReportsError
    | FileMissing
    | GhostscriptMissing
    | PrintFailed(err: string, output: string)
    | Monitored(run: RunResult)

  /** main: the status of the fixed printer first, then readiness, the error
      facet, the file, Ghostscript and the print run; then monitoring with no
      timeout over the polls that follow. */
  function CliResultFor(host: Host, polls: seq<Poll>): CliOutcome {
    match FetchStatus(CLI_PRINTER, host.probe(CLI_PRINTER))
    case FetchFailed => StatusCheckFailed
    case Fetched(status) =>
      if !status.isReady then NotReady
      else if status.hasError then PrinterReportsError
      else if host.fileMissing(CLI_FILE) then FileMissing
      else if host.gsPath == "" then GhostscriptMissing
      else
        match host.runGs(host.gsPath, GSArgs(CLI_PRINTER, host.absPath(CLI_FILE), CLI_SETTINGS))
        case GsFailed(err, output) => PrintFailed(err, output)
        case GsOk => Monitored(Run(polls, 0))
  }

  /** main. */
  method RunCli(host: Host, polls: seq<Poll>) returns (outcome: CliOutcome)
    ensures outcome == CliResultFor(host, polls)
  {
    var fetched := GetPrinterStatus(CLI_PRINTER, host.probe(CLI_PRINTER));
    if fetched.FetchFailed? {
      return StatusCheckFailed;
    }
    var status := fetched.snapshot;
    if !status.isReady {
      return NotReady;
    }
    if status.hasError {
      return PrinterReportsError;
    }
    if host.fileMissing(CLI_FILE) {
      return FileMissing;
    }
    var fullPath := host.absPath(CLI_FILE);
    var gsPath := host.gsPath;
    if gsPath == "" {
      return GhostscriptMissing;
    }
    var args := BuildGSArgs(CLI_PRINTER, fullPath, CLI_SETTINGS);
    var run := host.runGs(gsPath, args);
    if run.GsFailed? {
      return PrintFailed(run.err, run.output);
    }
    var events, monitorOutcome := MonitorPrintJob(0, polls);
    return Monitored(RunResult(events, monitorOutcome));
  }

  /** Monitoring starts exactly when every check before it has passed. */
  lemma CliMonitorsOnlyAfterAllChecks(host: Host, polls: seq<Poll>)
    ensures CliResultFor(host, polls).Monitored? <==>
      && FetchStatus(CLI_PRINTER, host.probe(CLI_PRINTER)).Fetched?
      && FetchStatus(CLI_PRINTER, host.probe(CLI_PRINTER)).snapshot.isReady
      && !FetchStatus(CLI_PRINTER, host.probe(CLI_PRINTER)).snapshot.hasError
      && !host.fileMissing(CLI_FILE)
      && host.gsPath != ""
      && host.runGs(host.gsPath, GSArgs(CLI_PRINTER, host.absPath(CLI_FILE), CLI_SETTINGS)).GsOk?
  {
  }

  /** The command line prints one single-sided colour copy on A4 and never
      times out while monitoring. */
  lemma CliNeverTimesOut(host: Host, polls: seq<Poll>)
    ensures CliResultFor(host, polls).Monitored? ==>
      CliResultFor(host, polls).run.outcome != Stopped(TimedOut)
  {
    NoTimeoutWhenUnlimited(INITIAL_STATE, polls, 0, 0);
  }

  /** The fixed command line of the command-line program: eleven entries, no
      grayscale and duplex off. */
  lemma CliArgs(host: Host)
    ensures var args := GSArgs(CLI_PRINTER, host.absPath(CLI_FILE), CLI_SETTINGS);
      && |args| == 11
      && args[5] == "-dNumCopies=1"
      && args[6] == "-sPAPERSIZE=a4"
      && args[7] == "-dDuplex=false"
  {
    var args := GSArgs(CLI_PRINTER, host.absPath(CLI_FILE), CLI_SETTINGS);
    GSArgsShape(CLI_PRINTER, host.absPath(CLI_FILE), CLI_SETTINGS);
    DuplexPlacement(CLI_PRINTER, host.absPath(CLI_FILE), CLI_SETTINGS);
    assert IntToString(1) == "1";
  }
}
