/**
 The progress table, the result events and how they are filled
 (internal/handler/events.go). Timestamps and processing times are left out.
 */
module Events {
  import opened Wrappers
  import opened Errors
  import opened Options
  import opened Validation
  import opened InspectReport

  newtype Byte = x: int | 0 <= x < 256

  type Bytes = seq<Byte>

  datatype Stage = Downloading | Analyzing | Optimizing | Uploading

  datatype Progress = Progress(sequence: nat, percent: nat, stage: Stage)

  const DOWNLOAD_STARTED: Progress := Progress(1, 5, Downloading)
  const ANALYSIS_STARTED: Progress := Progress(2, 25, Analyzing)
  const OPTIMIZATION_STARTED: Progress := Progress(3, 60, Optimizing)
  const OUTPUT_ANALYSIS_STARTED: Progress := Progress(4, 80, Analyzing)
  const UPLOAD_STARTED: Progress := Progress(5, 90, Uploading)
  const OPTIMIZATION_COMPLETED: Progress := Progress(6, 100, Uploading)

  /** The order in which one delivery reports progress. */
  const PROGRESS_TABLE: seq<Progress> := [
    DOWNLOAD_STARTED, ANALYSIS_STARTED, OPTIMIZATION_STARTED,
    OUTPUT_ANALYSIS_STARTED, UPLOAD_STARTED, OPTIMIZATION_COMPLETED
  ]

  /** Every prefix of the table numbers its entries from 1 and gains percentage; only the whole table shows 100. */
  lemma TableClimbs(n: nat)
    requires n <= |PROGRESS_TABLE|
    ensures forall i :: 0 <= i < n ==> PROGRESS_TABLE[..n][i].sequence == i + 1
    ensures forall i, j :: 0 <= i < j < n ==> PROGRESS_TABLE[..n][i].percent < PROGRESS_TABLE[..n][j].percent
    ensures (exists i :: 0 <= i < n && PROGRESS_TABLE[..n][i].percent >= 100) <==> n == |PROGRESS_TABLE|
    ensures seq(6, i requires 0 <= i < 6 => PROGRESS_TABLE[i].percent) == [5, 25, 60, 80, 90, 100]
  {
    if n == |PROGRESS_TABLE| {
      assert PROGRESS_TABLE[..n][5].percent == 100;
    }
  }

  /** Progress reported in the order of the table so far. */
  ghost predicate Reported(progress: seq<Progress>) {
    progress <= PROGRESS_TABLE
  }

  lemma ReportNext(progress: seq<Progress>, entry: Progress)
    requires Reported(progress) && |progress| < |PROGRESS_TABLE| && entry == PROGRESS_TABLE[|progress|]
    ensures Reported(progress + [entry])
  {
  }

  /** How many progress reports can come before a failure with this reason. */
  predicate ReportsBefore(reason: FailureReason, n: nat) {
    match reason
    case Internal => n == 0
    case Rejected => n <= 1
    case SourceNotFound => n == 1
    case DownloadFailed => n == 1
    case OptimizationFailed => 2 <= n <= 4
    case UploadFailed => n == 5
  }

  datatype PipelineResult = PipelineResult(
    before: Inspection,
    after: Inspection,
    inputSize: nat,
    outputSize: nat,
    outputSha256: Bytes)

  datatype CompleteEvent = CompleteEvent(
    jobId: string,
    correlationId: string,
    identity: Option<Identity>,
    fileId: string,
    fileSize: nat,
    sha256: Bytes,
    originalSize: nat,
    optimizedSize: nat,
    compression: CompressionMethod,
    targetRatioPercent: int,
    profile: EventProfile,
    originalVertexCount: int,
    optimizedVertexCount: int,
    originalTriangleCount: int,
    optimizedTriangleCount: int)

  datatype FailEvent = FailEvent(jobId: string, correlationId: string, identity: Option<Identity>, reason: FailureReason)

  /** What goes to the result queue. */
  datatype Outcome = Completed(complete: CompleteEvent) | Failed(fail: FailEvent)

  function NewCompleteEvent(job: Job, spec: Spec, result: PipelineResult): CompleteEvent {
    CompleteEvent(
      spec.jobId, job.correlationId, job.identity,
      GetFileId(spec.outputTarget), result.outputSize, result.outputSha256,
      result.inputSize, result.outputSize, Draco,
      spec.options.targetRatioPercent, EventValue(spec.options.profile),
      result.before.uploadVertexCount, result.after.uploadVertexCount,
      result.before.glPrimitiveCount, result.after.glPrimitiveCount)
  }

  function NewFailEvent(job: Job, reason: FailureReason): FailEvent {
    FailEvent(job.jobId, job.correlationId, job.identity, reason)
  }

  function CorrelationIdOf(outcome: Outcome): string {
    match outcome
    case Completed(event) => event.correlationId
    case Failed(event) => event.correlationId
  }

  function IdentityOf(outcome: Outcome): Option<Identity> {
    match outcome
    case Completed(event) => event.identity
    case Failed(event) => event.identity
  }

  /** The id under which a result is queued, and which its receiver goes by. */
  function JobIdOf(outcome: Outcome): string {
    match outcome
    case Completed(event) => event.jobId
    case Failed(event) => event.jobId
  }
}
