/** The status poller: getPrinterStatus. The PowerShell query itself is an
    input (its combined output, or the fact that it failed); what is modelled
    is the parse of that output into a PrinterStatus snapshot. */
module Poller {
  import opened Text
  import opened Classifier

  /** The PrinterStatus record. ErrorMsg is never assigned by the source, so it
      is always the empty string. */
  datatype PrinterStatus = PrinterStatus(
    name: string,
    status: string,
    jobsInQueue: int64,
    isReady: bool,
    hasPaper: bool,
    hasError: bool,
    errorMsg: string)

  /** What running the PowerShell query gave: a non-nil error (the printer is
      unknown, or PowerShell failed) or the combined output text. */
  datatype ProbeResult = ProbeFailed | ProbeOutput(text: string)

  /** getPrinterStatus's (status, err) pair. */
  datatype StatusFetch = FetchFailed | Fetched(snapshot: PrinterStatus)

  const STATUS_PREFIX: string := "STATUS:"
  const JOBS_PREFIX: string := "JOBS:"

  /** A line that, once trimmed, starts with "STATUS:". */
  predicate IsStatusLine(line: string) {
    HasPrefix(TrimSpace(line), STATUS_PREFIX)
  }

  /** The raw status code a STATUS line carries: the trimmed line without its
      prefix. It is not trimmed again (the code may start with white space). */
  function StatusPayload(line: string): string {
    TrimPrefix(TrimSpace(line), STATUS_PREFIX)
  }

  /** The value Sscanf(line, "JOBS:%d", ...) stores, if the trimmed line starts
      with "JOBS:" and an integer can be read after it. */
  function JobsReading(line: string): Option<int64> {
    var t := TrimSpace(line);
    if HasPrefix(t, JOBS_PREFIX) then ScanInt(t[|JOBS_PREFIX|..]) else None
  }

  /** A line Sscanf reads a queue depth from. */
  predicate IsJobsLine(line: string) {
    JobsReading(line).Some?
  }

  /** The index of the last of the first n lines that p accepts, or -1 when
      it accepts none of them. */
  function LastMatch<T>(lines: seq<T>, p: T -> bool, n: nat): (k: int)
    requires n <= |lines|
    ensures -1 <= k < n
    decreases n
  {
    if n == 0 then -1
    else if p(lines[n - 1]) then n - 1
    else LastMatch(lines, p, n - 1)
  }

  /** LastMatch finds a line that p accepts, with none accepted after it among
      the first n lines: the last such line, or -1 when p accepts none. */
  lemma {:induction false} LastMatchIsLast<T>(lines: seq<T>, p: T -> bool, n: nat)
    requires n <= |lines|
    ensures LastMatch(lines, p, n) >= 0 ==> p(lines[LastMatch(lines, p, n)])
    ensures forall j :: LastMatch(lines, p, n) < j < n ==> !p(lines[j])
    decreases n
  {
    if n > 0 && !p(lines[n - 1]) {
      LastMatchIsLast(lines, p, n - 1);
    }
  }

  /** LastMatch is the only index meeting its contract, so any index that is
      a match with no match after it (or -1 when nothing matches) is it. */
  lemma LastMatchUnique<T>(lines: seq<T>, p: T -> bool, n: nat, k: int)
    requires n <= |lines| && -1 <= k < n
    requires k >= 0 ==> p(lines[k])
    requires forall j :: k < j < n ==> !p(lines[j])
    ensures LastMatch(lines, p, n) == k
  {
    var m := LastMatch(lines, p, n);
    LastMatchIsLast(lines, p, n);
    if m >= 0 {
      assert p(lines[m]);
    }
    if k >= 0 {
      assert p(lines[k]);
    }
  }

  /** The payload of the last STATUS line among the first n lines, if any. */
  function PayloadOf(lines: seq<string>, n: nat): Option<string>
    requires n <= |lines|
  {
    var s := LastMatch(lines, IsStatusLine, n);
    if s >= 0 then Some(StatusPayload(lines[s])) else None
  }

  /** The reading of the last readable JOBS line among the first n lines, or 0
      if there is none. */
  function DepthOf(lines: seq<string>, n: nat): int64
    requires n <= |lines|
  {
    var j := LastMatch(lines, IsJobsLine, n);
    LastMatchIsLast(lines, IsJobsLine, n);
    if j >= 0 then JobsReading(lines[j]).value else 0
  }

  /** One more line changes the last payload only if it is a STATUS line. */
  lemma PayloadStep(lines: seq<string>, i: nat)
    requires i < |lines|
    ensures PayloadOf(lines, i + 1) == if IsStatusLine(lines[i]) then Some(StatusPayload(lines[i])) else PayloadOf(lines, i)
  {
  }

  /** One more line changes the depth only if it is a readable JOBS line. */
  lemma DepthStep(lines: seq<string>, i: nat)
    requires i < |lines|
    ensures DepthOf(lines, i + 1) == if IsJobsLine(lines[i]) then JobsReading(lines[i]).value else DepthOf(lines, i)
  {
  }

  /** The record for a given last payload and depth: the classification and the
      three facets of the payload, or the empty status and false facets when
      no STATUS line was seen. */
  function Assemble(name: string, payload: Option<string>, jobs: int64): (st: PrinterStatus)
    ensures st.name == name && st.jobsInQueue == jobs && st.errorMsg == ""
    ensures payload.None? ==> st.status == "" && !st.isReady && !st.hasPaper && !st.hasError
  {
    match payload
    case None => PrinterStatus(name, "", jobs, false, false, false, "")
    case Some(p) => PrinterStatus(name, ParseStatusCode(p), jobs, IsReadyFacet(p), HasPaperFacet(p), HasErrorFacet(p), "")
  }

  /** The snapshot after the first n output lines. */
  function SnapshotOf(name: string, lines: seq<string>, n: nat): PrinterStatus
    requires n <= |lines|
  {
    Assemble(name, PayloadOf(lines, n), DepthOf(lines, n))
  }

  /** The snapshot described by all the output lines. */
  function Snapshot(name: string, lines: seq<string>): PrinterStatus {
    SnapshotOf(name, lines, |lines|)
  }

  /** getPrinterStatus with the query's result supplied. */
  function FetchStatus(name: string, probe: ProbeResult): StatusFetch {
    match probe
    case ProbeFailed => FetchFailed
    case ProbeOutput(text) =>
      var lines := Split(text, '\n');
      Fetched(ParseLines(name, lines, |lines|))
  }

  /** A successful fetch reports the snapshot of the output's lines. */
  lemma FetchedIsSnapshot(name: string, text: string)
    ensures FetchStatus(name, ProbeOutput(text)) == Fetched(Snapshot(name, Split(text, '\n')))
  {
    var lines := Split(text, '\n');
    ParseLinesIsSnapshot(name, lines, |lines|);
  }

  /** What one line of the output does to the record being built: a STATUS
      line replaces the status and the three facets, and a line Sscanf reads a
      queue depth from replaces the depth. */
  function LineUpdate(st: PrinterStatus, line: string): PrinterStatus
  {
    var afterStatus :=
      if IsStatusLine(line) then
        var code := StatusPayload(line);
        st.(status := ParseStatusCode(code), isReady := IsReadyFacet(code),
            hasPaper := HasPaperFacet(code), hasError := HasErrorFacet(code))
      else st;
    if IsJobsLine(line) then afterStatus.(jobsInQueue := JobsReading(line).value) else afterStatus
  }

  /** The record after the loop has inspected the first n lines. */
  function ParseLines(name: string, lines: seq<string>, n: nat): PrinterStatus
    requires n <= |lines|
    decreases n
  {
    if n == 0 then PrinterStatus(name, "", 0, false, false, false, "")
    else LineUpdate(ParseLines(name, lines, n - 1), lines[n - 1])
  }

  /** Inspecting the lines one at a time gives the record of the last STATUS
      line and the last readable JOBS line. */
  lemma {:induction false} ParseLinesIsSnapshot(name: string, lines: seq<string>, n: nat)
    requires n <= |lines|
    ensures ParseLines(name, lines, n) == SnapshotOf(name, lines, n)
    decreases n
  {
    if n > 0 {
      ParseLinesIsSnapshot(name, lines, n - 1);
      SnapshotStep(name, lines, n);
    }
  }

  /** One more line updates the snapshot as the loop body updates the record. */
  lemma SnapshotStep(name: string, lines: seq<string>, n: nat)
    requires 0 < n <= |lines|
    ensures LineUpdate(SnapshotOf(name, lines, n - 1), lines[n - 1]) == SnapshotOf(name, lines, n)
  {
    PayloadStep(lines, n - 1);
    DepthStep(lines, n - 1);
    UpdateAssembled(name, PayloadOf(lines, n - 1), DepthOf(lines, n - 1), lines[n - 1], PayloadOf(lines, n), DepthOf(lines, n));
  }

  /** LineUpdate on an assembled record assembles the updated payload and
      depth: the line's payload if it is a STATUS line, its reading if it is a
      readable JOBS line. */
  lemma UpdateAssembled(name: string, payload: Option<string>, jobs: int64, line: string, payload': Option<string>, jobs': int64)
    requires payload' == if IsStatusLine(line) then Some(StatusPayload(line)) else payload
    requires jobs' == if IsJobsLine(line) then JobsReading(line).value else jobs
    ensures LineUpdate(Assemble(name, payload, jobs), line) == Assemble(name, payload', jobs')
  {
  }

  /** The body of getPrinterStatus's loop: one output line trimmed and
      inspected, a STATUS line setting the status and the facets and a
      readable JOBS line setting the queue depth. */
  method ApplyLine(st: PrinterStatus, rawLine: string) returns (status: PrinterStatus)
    ensures status == LineUpdate(st, rawLine)
  {
    status := st;
    var line := TrimSpace(rawLine);
    if HasPrefix(line, STATUS_PREFIX) {
      var statusCode := TrimPrefix(line, STATUS_PREFIX);
      status := status.(
        status := ParseStatusCode(statusCode),
        isReady := IsReadyFacet(statusCode),
        hasPaper := HasPaperFacet(statusCode),
        hasError := HasErrorFacet(statusCode));
    }
    if HasPrefix(line, JOBS_PREFIX) {
      var jobs := ScanInt(line[|JOBS_PREFIX|..]);
      if jobs.Some? {
        status := status.(jobsInQueue := jobs.value);
      }
    }
  }

  /** getPrinterStatus: a failed query is an error; otherwise the output is
      split into lines and each line is inspected in turn. */
  method GetPrinterStatus(name: string, probe: ProbeResult) returns (r: StatusFetch)
    ensures r == FetchStatus(name, probe)
  {
    if probe.ProbeFailed? {
      return FetchFailed;
    }
    var lines := Split(probe.text, '\n');
    var status := PrinterStatus(name, "", 0, false, false, false, "");
    var i := 0;
    while i < |lines|
      invariant 0 <= i <= |lines|
      invariant status == ParseLines(name, lines, i)
    {
      status := ApplyLine(status, lines[i]);
      i := i + 1;
    }
    return Fetched(status);
  }

  // ---------------------------------------------------------------------------
  // What the snapshot says about the lines

  /** A matching line followed only by lines that do not match is the last match. */
  lemma LastMatchAt<T>(before: seq<T>, line: T, after: seq<T>, p: T -> bool)
    requires p(line)
    requires forall k :: 0 <= k < |after| ==> !p(after[k])
    ensures LastMatch(before + [line] + after, p, |before + [line] + after|) == |before|
  {
    var lines := before + [line] + after;
    forall j | |before| < j < |lines| ensures !p(lines[j]) {
      assert lines[j] == after[j - |before| - 1];
    }
    assert lines[|before|] == line;
    LastMatchUnique(lines, p, |lines|, |before|);
  }

  /** Removing a line that p rejects leaves the last p-line where it was in the
      text, one position earlier when it came after the removed line. */
  lemma MatchSkipsLine<T>(before: seq<T>, line: T, after: seq<T>, p: T -> bool)
    requires !p(line)
    ensures var m := LastMatch(before + after, p, |before + after|);
      var k := LastMatch(before + [line] + after, p, |before + [line] + after|);
      (m < 0 <==> k < 0) && (m >= 0 ==> (before + [line] + after)[k] == (before + after)[m])
  {
    var lines := before + [line] + after;
    var shorter := before + after;
    var m := LastMatch(shorter, p, |shorter|);
    LastMatchIsLast(shorter, p, |shorter|);
    var k := if m >= |before| then m + 1 else m;
    forall j | k < j < |lines| ensures !p(lines[j]) {
      if j < |before| {
        assert lines[j] == shorter[j];
      } else if j > |before| {
        assert lines[j] == shorter[j - 1];
      }
    }
    if m >= 0 {
      assert lines[k] == shorter[m];
    }
    LastMatchUnique(lines, p, |lines|, k);
  }

  /** Without a STATUS line the status is empty and all three facets are false. */
  lemma NoStatusLine(name: string, lines: seq<string>)
    requires forall k :: 0 <= k < |lines| ==> !IsStatusLine(lines[k])
    ensures Snapshot(name, lines).status == ""
    ensures !Snapshot(name, lines).isReady && !Snapshot(name, lines).hasPaper && !Snapshot(name, lines).hasError
  {
    LastMatchIsLast(lines, IsStatusLine, |lines|);
  }

  /** Without a readable JOBS line (none at all, or only non-numeric ones) the
      queue depth keeps its initial value 0. */
  lemma NoJobsLine(name: string, lines: seq<string>)
    requires forall k :: 0 <= k < |lines| ==> !IsJobsLine(lines[k])
    ensures Snapshot(name, lines).jobsInQueue == 0
  {
    LastMatchIsLast(lines, IsJobsLine, |lines|);
  }

  /** A STATUS line overrides every earlier one: with no STATUS line after it,
      its payload decides the status and the facets. */
  lemma LaterStatusLineWins(name: string, before: seq<string>, line: string, after: seq<string>)
    requires IsStatusLine(line)
    requires forall k :: 0 <= k < |after| ==> !IsStatusLine(after[k])
    ensures Snapshot(name, before + [line] + after).status == ParseStatusCode(StatusPayload(line))
    ensures Snapshot(name, before + [line] + after).isReady == IsReadyFacet(StatusPayload(line))
    ensures Snapshot(name, before + [line] + after).hasPaper == HasPaperFacet(StatusPayload(line))
    ensures Snapshot(name, before + [line] + after).hasError == HasErrorFacet(StatusPayload(line))
  {
    LastMatchAt(before, line, after, IsStatusLine);
    assert (before + [line] + after)[|before|] == line;
  }

  /** A line that is neither a STATUS line nor a readable JOBS line changes
      nothing, wherever it stands. */
  lemma OtherLinesIgnored(name: string, before: seq<string>, line: string, after: seq<string>)
    requires !IsStatusLine(line) && !IsJobsLine(line)
    ensures Snapshot(name, before + [line] + after) == Snapshot(name, before + after)
  {
    MatchSkipsLine(before, line, after, IsStatusLine);
    MatchSkipsLine(before, line, after, IsJobsLine);
  }

  /** The output the query prints for a ready printer with three queued jobs
      gives a ready, paper-loaded, error-free snapshot of depth 3 under the
      requested name. */
  lemma TypicalOutput()
    ensures Snapshot("MP230", ["STATUS:Normal", "JOBS:3", "NAME:MP230"])
      == PrinterStatus("MP230", "Ready", 3, true, true, false, "")
  {
    TypicalPayload();
    TypicalDepth();
    NormalIsReady();
  }

  lemma TypicalPayload()
    ensures PayloadOf(["STATUS:Normal", "JOBS:3", "NAME:MP230"], 3) == Some("Normal")
  {
    var lines := ["STATUS:Normal", "JOBS:3", "NAME:MP230"];
    StatusLineNormal();
    JobsLineThree();
    NameLine();
    LastMatchUnique(lines, IsStatusLine, 3, 0);
  }

  lemma TypicalDepth()
    ensures DepthOf(["STATUS:Normal", "JOBS:3", "NAME:MP230"], 3) == 3
  {
    var lines := ["STATUS:Normal", "JOBS:3", "NAME:MP230"];
    JobsLineThree();
    NameLine();
    LastMatchUnique(lines, IsJobsLine, 3, 1);
  }

  lemma StatusLineNormal()
    ensures IsStatusLine("STATUS:Normal") && !IsJobsLine("STATUS:Normal")
    ensures StatusPayload("STATUS:Normal") == "Normal"
  {
    var l := "STATUS:Normal";
    TrimmedIsFixed(l);
    assert l[..7] == STATUS_PREFIX;
    assert l[7..] == "Normal";
    DiffersAt(l, JOBS_PREFIX, 0);
  }

  lemma JobsLineThree()
    ensures !IsStatusLine("JOBS:3") && JobsReading("JOBS:3") == Some(3)
  {
    var l := "JOBS:3";
    TrimmedIsFixed(l);
    assert l[..5] == JOBS_PREFIX;
    assert l[5..] == IntToString(3) + "";
    ScanIntReadsFormattedInt(3, "");
  }

  lemma NameLine()
    ensures !IsStatusLine("NAME:MP230") && !IsJobsLine("NAME:MP230")
  {
    var l := "NAME:MP230";
    TrimmedIsFixed(l);
    DiffersAt(l, STATUS_PREFIX, 0);
    DiffersAt(l, JOBS_PREFIX, 0);
  }

  lemma NormalIsReady()
    ensures ParseStatusCode("Normal") == "Ready"
    ensures IsReadyFacet("Normal") && HasPaperFacet("Normal") && !HasErrorFacet("Normal")
  {
    TrimmedIsFixed("Normal");
    assert OccursAt("Normal", "Normal", 0);
    ExactCodesMentionNeither("Normal");
  }
}
