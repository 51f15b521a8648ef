/** The nine verification markers of a release run, how failures mark them, and the exit code they amount to. */
module ReleaseMarkers {
  import opened Prelude

  datatype Name =
    | DeliveryPath
    | ReleaseCreateLinkSubmit
    | ReleaseApproval
    | ReleaseObservingClose
    | ReleaseCockpitQuery
    | ReleaseEvidenceRedaction
    | ReleaseObservationBacklink
    | DurableLocalReset
    | StrictLocalCodexRun

  const REQUIRED: seq<Name> :=
    [ DeliveryPath, ReleaseCreateLinkSubmit, ReleaseApproval, ReleaseObservingClose, ReleaseCockpitQuery,
      ReleaseEvidenceRedaction, ReleaseObservationBacklink, DurableLocalReset, StrictLocalCodexRun ]

  predicate IsClosure(name: Name) {
    name == DurableLocalReset || name == StrictLocalCodexRun
  }

  datatype Status = Passed | Blocked | Failed

  datatype Marker = Marker(name: Name, status: Status, details: seq<Detail>)

  /** The stage a failure is filed under, or a code the strict local Codex evidence supplies. */
  datatype Code =
    | MissingDatabase
    | DatabaseMutationFailed
    | SchemaPushFailed
    | ResetFailed
    | LifecycleFailed
    | CleanupFailed
    | ReopenFailed
    | CodexCode(code: string)

  /** The wording of a marker is not modelled, only what it is built from. */
  datatype Detail = CodeDetail(code: Code) | NotStarted | MissingCodexMarker | Text(text: string)

  /** Handling of texts that is not modelled: diagnostics, redaction, the two scans for unsafe strings, and writing the report. */
  datatype Texts = Texts(
    diagnose: (Code, Option<string>) -> seq<Detail>,
    redact: (Code, string) -> seq<Detail>,
    projectionFailureCode: string -> Option<Code>,
    markersSafe: seq<Marker> -> bool,
    reportSafe: seq<Marker> -> bool,
    reportWritten: seq<Marker> -> bool)

  function MarkersWithClosureBlocked(code: Code): seq<Marker> {
    Map((name: Name) =>
          Marker(name, if IsClosure(name) then Blocked else Passed,
                 if name == DurableLocalReset then [CodeDetail(code)]
                 else if name == StrictLocalCodexRun then [NotStarted] else []),
        REQUIRED)
  }

  /** The last PASSED marker of that name: what a map built from the list in order holds. */
  function LastPassed(markers: seq<Marker>, name: Name): (r: Option<Marker>)
    ensures r.Some? ==> r.value in markers && r.value.name == name && r.value.status == Passed
    ensures r.Some? ==> exists i :: 0 <= i < |markers| && markers[i] == r.value &&
                          forall j :: i < j < |markers| ==> !(markers[j].name == name && markers[j].status == Passed)
    ensures r.None? ==> forall m :: m in markers ==> !(m.name == name && m.status == Passed)
  {
    if markers == [] then None
    else
      var init, last := markers[..|markers| - 1], markers[|markers| - 1];
      assert markers == init + [last];
      if last.name == name && last.status == Passed then
        assert markers[|markers| - 1] == last;
        Some(last)
      else LastPassed(init, name)
  }

  function FailedMarker(texts: Texts, name: Name, code: Code, error: Option<string>, passed: seq<Marker>, codexFailure: Option<(Code, string)>): Marker {
    var earlier := LastPassed(passed, name);
    if name == StrictLocalCodexRun && codexFailure.Some? then
      Marker(name, Failed, texts.redact(codexFailure.value.0, codexFailure.value.1))
    else if earlier.Some? && name != DurableLocalReset then earlier.value
    else if name == DurableLocalReset then Marker(name, Failed, [CodeDetail(code)] + texts.diagnose(code, error))
    else if name == StrictLocalCodexRun then Marker(name, Blocked, [NotStarted])
    else Marker(name, Blocked, [CodeDetail(code)])
  }

  function FailedReleaseFlowMarkers(texts: Texts, code: Code, error: Option<string>, passed: seq<Marker>, codexFailure: Option<(Code, string)>)
    : (markers: seq<Marker>)
    ensures |markers| == |REQUIRED|
    ensures markers[7].name == DurableLocalReset && markers[7].status == Failed
  {
    Map((name: Name) => FailedMarker(texts, name, code, error, passed, codexFailure), REQUIRED)
  }

  function WithCleanupFailureDetails(texts: Texts, markers: seq<Marker>, cleanupErrors: seq<string>): (r: seq<Marker>)
    ensures |r| == |markers|
    ensures cleanupErrors == [] ==> r == markers
    ensures cleanupErrors != [] ==> forall i :: 0 <= i < |markers| ==>
              && r[i].name == markers[i].name
              && markers[i].details <= r[i].details
              && (if markers[i].name == DurableLocalReset then r[i].status == Failed else r[i] == markers[i])
  {
    if cleanupErrors == [] then markers
    else
      Map((m: Marker) =>
            if m.name == DurableLocalReset
              then m.(status := Failed, details := m.details + texts.redact(CleanupFailed, JoinWith(cleanupErrors)))
              else m,
          markers)
  }

  function JoinWith(parts: seq<string>): string {
    if parts == [] then ""
    else if |parts| == 1 then parts[0]
    else parts[0] + "; " + JoinWith(parts[1..])
  }

  function First(markers: seq<Marker>, name: Name): (r: Option<Marker>)
    ensures r.Some? ==> r.value in markers && r.value.name == name
    ensures r.None? ==> forall m :: m in markers ==> m.name != name
  {
    if markers == [] then None
    else if markers[0].name == name then Some(markers[0])
    else First(markers[1..], name)
  }

  function SuccessMarkers(lifecycle: seq<Marker>): seq<Marker> {
    var codex := First(lifecycle, StrictLocalCodexRun);
    Filter((m: Marker) => m.name != StrictLocalCodexRun, lifecycle)
    + [ Marker(ReleaseCockpitQuery, Passed, []),
        Marker(ReleaseEvidenceRedaction, Passed, []),
        Marker(ReleaseObservationBacklink, Passed, []),
        Marker(DurableLocalReset, Passed, []),
        if codex.Some? then codex.value else Marker(StrictLocalCodexRun, Blocked, [MissingCodexMarker]) ]
  }

  // ---- Exit code ----

  function StatusCode(markers: seq<Marker>, allowBlocked: bool): int {
    if exists m :: m in markers && m.status == Failed then 1
    else if forall m :: m in markers ==> m.status == Passed then 0
    else
      var blocked := Filter((m: Marker) => m.status == Blocked, markers);
      if allowBlocked && (forall m :: m in blocked ==> IsClosure(m.name)) then 0 else 1
  }

  /** What a run hands to the command line: markers, or a rejection that never reaches the exit-code function. */
  datatype Outcome = Reported(markers: seq<Marker>) | Rejected

  predicate ReportMade(texts: Texts, markers: seq<Marker>) {
    texts.reportSafe(markers) && texts.reportWritten(markers)
  }

  /** The command's exit code: the report must render and be written before the markers are judged. */
  function ExitCode(texts: Texts, outcome: Outcome, allowBlocked: bool): int {
    match outcome
    case Rejected => 1
    case Reported(markers) =>
      if (forall name :: name in REQUIRED ==> First(markers, name).Some?) && ReportMade(texts, markers)
        then StatusCode(markers, allowBlocked) else 1
  }

  lemma StatusCodeMeaning(markers: seq<Marker>, allowBlocked: bool)
    ensures StatusCode(markers, allowBlocked) in {0, 1}
    ensures StatusCode(markers, allowBlocked) == 0 <==>
            forall m :: m in markers ==> m.status == Passed || (allowBlocked && m.status == Blocked && IsClosure(m.name))
  {
    FilterMembers((m: Marker) => m.status == Blocked, markers);
  }
}
