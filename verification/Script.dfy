/**
 The calls that handling one job makes, in their order, with the answers they got
 (internal/handler/pipeline.go, handler.go, events.go): which answer ends the
 pipeline with which reason, what is reported before it, and what is cleaned up.
 */
module Script {
  import opened Wrappers
  import opened Errors
  import opened Events
  import opened Folds

  /** One call and its answer. A size is missing when asking for it failed. */
  datatype Entry =
    | Made(dir: Option<string>)
    | Signalled(progress: Progress)
    | Asked(size: Option<int>)
    | Downloaded(ok: bool)
    | Statted(size: Option<int>)
    | Inspected(ok: bool)
    | Optimized(ok: bool)
    | Hashed(ok: bool)
    | Uploaded(ok: bool)
    | Cleaned(path: string)
    | Announced(outcome: Outcome, ok: bool)

  /**
   Where the handling of a job is: so many calls of the pipeline answered well,
   stopped by one, cleaned up, or with its result announced.
   */
  datatype Place =
    | Silent
    | Refused
    | Running(step: nat, dir: string)
    | Halted(step: nat, reason: FailureReason, dir: string)
    | Closed(step: nat, failure: Option<FailureReason>)
    | Answered(step: nat, failure: Option<FailureReason>, ok: bool, reported: bool)

  datatype Reply = Unexpected | Well | Fault(reason: FailureReason)

  const BEGIN: Place := Running(0, "")
  const STEPS: nat := 15

  function Sized(max: int, size: Option<int>, reason: FailureReason): Reply {
    if size.None? then Fault(reason) else if size.value > max then Fault(Rejected) else Well
  }

  function Judged(ok: bool, reason: FailureReason): Reply {
    if ok then Well else Fault(reason)
  }

  function Signal(entry: Entry, progress: Progress): Reply {
    if entry == Signalled(progress) then Well else Unexpected
  }

  /** What the pipeline makes of an answer to its call number `step`. */
  function ReplyTo(max: int, step: nat, entry: Entry): Reply {
    match step
    case 0 => if entry.Made? then Judged(entry.dir.Some?, Internal) else Unexpected
    case 1 => Signal(entry, DOWNLOAD_STARTED)
    case 2 => if entry.Asked? then Sized(max, entry.size, SourceNotFound) else Unexpected
    case 3 => if entry.Downloaded? then Judged(entry.ok, DownloadFailed) else Unexpected
    case 4 => if entry.Statted? then Sized(max, entry.size, DownloadFailed) else Unexpected
    case 5 => Signal(entry, ANALYSIS_STARTED)
    case 6 => if entry.Inspected? then Judged(entry.ok, OptimizationFailed) else Unexpected
    case 7 => Signal(entry, OPTIMIZATION_STARTED)
    case 8 => if entry.Optimized? then Judged(entry.ok, OptimizationFailed) else Unexpected
    case 9 => Signal(entry, OUTPUT_ANALYSIS_STARTED)
    case 10 => if entry.Inspected? then Judged(entry.ok, OptimizationFailed) else Unexpected
    case 11 => if entry.Statted? then Judged(entry.size.Some?, OptimizationFailed) else Unexpected
    case 12 => if entry.Hashed? then Judged(entry.ok, OptimizationFailed) else Unexpected
    case 13 => Signal(entry, UPLOAD_STARTED)
    case 14 => if entry.Uploaded? then Judged(entry.ok, UploadFailed) else Unexpected
    case _ => Unexpected
  }

  /** The pipeline goes on after a good answer and ends at a bad one; without a directory there is nothing to clean. */
  function Advance(max: int, step: nat, dir: string, entry: Entry): Option<Place> {
    match ReplyTo(max, step, entry)
    case Unexpected => None
    case Well => Some(Running(step + 1, if entry.Made? && entry.dir.Some? then entry.dir.value else dir))
    case Fault(reason) => Some(if step == 0 then Closed(0, Some(reason)) else Halted(step, reason, dir))
  }

  predicate Says(outcome: Outcome, failure: Option<FailureReason>) {
    match outcome
    case Completed(_) => failure.None?
    case Failed(event) => failure == Some(event.reason)
  }

  function Next(max: int, place: Place, entry: Entry): Option<Place> {
    match place
    case Silent => None
    case Refused =>
      if entry.Announced? && Says(entry.outcome, Some(Rejected))
      then Some(Answered(0, Some(Rejected), entry.ok, false)) else None
    case Running(step, dir) =>
      if step < STEPS then Advance(max, step, dir, entry)
      else if entry == Cleaned(dir) then Some(Closed(step, None)) else None
    case Halted(step, reason, dir) => if entry == Cleaned(dir) then Some(Closed(step, Some(reason))) else None
    case Closed(step, failure) =>
      if entry.Announced? && Says(entry.outcome, failure) then Some(Answered(step, failure, entry.ok, false)) else None
    case Answered(step, failure, ok, reported) =>
      if failure.None? && ok && !reported && entry == Signalled(OPTIMIZATION_COMPLETED)
      then Some(Answered(step, failure, ok, true)) else None
  }

  function Step(max: int): (Place, Entry) -> Option<Place> {
    (place, entry) => Next(max, place, entry)
  }

  /** Where a log leads; None if the calls cannot be these. */
  function After(max: int, start: Place, log: seq<Entry>): Option<Place> {
    Run(Step(max), start, log)
  }

  lemma AfterSnoc(max: int, start: Place, log: seq<Entry>, entry: Entry)
    ensures var before := After(max, start, log);
            After(max, start, log + [entry]) == if before.None? then None else Next(max, before.value, entry)
  {
    hide Next;
    RunSnoc(Step(max), start, log, entry);
  }

  /** Where a call of the pipeline leaves it that did or did not go well. */
  function Then(step: nat, dir: string, well: bool, reason: FailureReason): Place {
    if well then Running(step + 1, dir) else Halted(step, reason, dir)
  }

  lemma MadeNext(max: int, dir: string, made: Option<string>)
    ensures Next(max, Running(0, dir), Made(made))
         == Some(if made.Some? then Running(1, made.value) else Closed(0, Some(Internal)))
  {
  }

  lemma AskedNext(max: int, dir: string, size: Option<int>)
    ensures Next(max, Running(2, dir), Asked(size))
         == Some(Then(2, dir, size.Some? && size.value <= max, if size.Some? then Rejected else SourceNotFound))
  {
  }

  lemma DownloadedNext(max: int, dir: string, ok: bool)
    ensures Next(max, Running(3, dir), Downloaded(ok)) == Some(Then(3, dir, ok, DownloadFailed))
  {
  }

  lemma StattedNext(max: int, dir: string, size: Option<int>)
    ensures Next(max, Running(4, dir), Statted(size))
         == Some(Then(4, dir, size.Some? && size.value <= max, if size.Some? then Rejected else DownloadFailed))
    ensures Next(max, Running(11, dir), Statted(size)) == Some(Then(11, dir, size.Some?, OptimizationFailed))
  {
  }

  lemma InspectedNext(max: int, step: nat, dir: string, ok: bool)
    requires step == 6 || step == 10
    ensures Next(max, Running(step, dir), Inspected(ok)) == Some(Then(step, dir, ok, OptimizationFailed))
  {
  }

  lemma OptimizedNext(max: int, dir: string, ok: bool)
    ensures Next(max, Running(8, dir), Optimized(ok)) == Some(Then(8, dir, ok, OptimizationFailed))
  {
  }

  lemma HashedNext(max: int, dir: string, ok: bool)
    ensures Next(max, Running(12, dir), Hashed(ok)) == Some(Then(12, dir, ok, OptimizationFailed))
  {
  }

  lemma UploadedNext(max: int, dir: string, ok: bool)
    ensures Next(max, Running(14, dir), Uploaded(ok)) == Some(Then(14, dir, ok, UploadFailed))
  {
  }

  lemma CleanedNext(max: int, place: Place)
    requires place.Halted? || (place.Running? && place.step == STEPS)
    ensures Next(max, place, Cleaned(place.dir)) == Some(Closed(place.step, FailureIn(place)))
  {
  }

  lemma AnnouncedNext(max: int, place: Place, outcome: Outcome, ok: bool)
    requires (place == Refused || place.Closed?) && Says(outcome, FailureIn(place))
    ensures Next(max, place, Announced(outcome, ok))
         == Some(Answered(if place.Closed? then place.step else 0, FailureIn(place), ok, false))
  {
  }

  /** Which report comes next. */
  function Due(place: Place): Option<Progress> {
    if place.Running? then
      match place.step
      case 1 => Some(DOWNLOAD_STARTED)
      case 5 => Some(ANALYSIS_STARTED)
      case 7 => Some(OPTIMIZATION_STARTED)
      case 9 => Some(OUTPUT_ANALYSIS_STARTED)
      case 13 => Some(UPLOAD_STARTED)
      case _ => None
    else if place.Answered? && place.failure.None? && place.ok && !place.reported then Some(OPTIMIZATION_COMPLETED)
    else None
  }

  lemma SignalledNext(max: int, place: Place)
    requires Due(place).Some?
    ensures Next(max, place, Signalled(Due(place).value))
         == Some(if place.Running? then Running(place.step + 1, place.dir) else place.(reported := true))
  {
  }

  /** Nothing is left to do: everything announced, and an acknowledged completion reported. */
  predicate Concluded(place: Place) {
    place.Silent? || (place.Answered? && (place.reported <==> place.failure.None? && place.ok))
  }

  function FailureIn(place: Place): Option<FailureReason> {
    match place
    case Silent => None
    case Refused => Some(Rejected)
    case Running(_, _) => None
    case Halted(_, reason, _) => Some(reason)
    case Closed(_, failure) => failure
    case Answered(_, failure, _, _) => failure
  }

  // ----- what a log says by itself -----

  predicate Has(log: seq<Entry>, i: nat, entry: Entry) {
    i < |log| && log[i] == entry
  }

  /** The size of the source, as the store or the disk told it, is above the limit. */
  predicate TooBig(max: int, log: seq<Entry>) {
    || (|log| > 2 && log[2].Asked? && log[2].size.Some? && log[2].size.value > max)
    || (|log| > 4 && log[4].Statted? && log[4].size.Some? && log[4].size.value > max)
  }

  /** The recorded answers that stand for a failure with this reason. */
  predicate Explains(max: int, log: seq<Entry>, reason: FailureReason) {
    match reason
    case Internal => Has(log, 0, Made(None))
    case SourceNotFound => Has(log, 2, Asked(None))
    case Rejected => TooBig(max, log)
    case DownloadFailed => Has(log, 3, Downloaded(false)) || Has(log, 4, Statted(None))
    case OptimizationFailed =>
      || Has(log, 6, Inspected(false)) || Has(log, 8, Optimized(false)) || Has(log, 10, Inspected(false))
      || Has(log, 11, Statted(None)) || Has(log, 12, Hashed(false))
    case UploadFailed => Has(log, 14, Uploaded(false))
  }

  /** The log explains this failure and no other; without a failure it explains none. */
  ghost predicate ExplainedBy(max: int, log: seq<Entry>, failure: Option<FailureReason>) {
    forall reason :: Explains(max, log, reason) <==> failure == Some(reason)
  }

  /** An answer that reports a failure. */
  predicate Refusal(entry: Entry) {
    || entry == Made(None) || entry == Asked(None) || entry == Downloaded(false) || entry == Statted(None)
    || entry == Inspected(false) || entry == Optimized(false) || entry == Hashed(false) || entry == Uploaded(false)
  }

  /** No call reported a failure, and no size of the source is above the limit. */
  predicate Faultless(max: int, log: seq<Entry>) {
    (forall i :: 0 <= i < |log| ==> !Refusal(log[i])) && !TooBig(max, log)
  }

  function Reports(log: seq<Entry>): seq<Progress> {
    if log == [] then []
    else
      var last := log[|log| - 1];
      Reports(log[..|log| - 1]) + if last.Signalled? then [last.progress] else []
  }

  // ----- the shape of a log -----

  ghost predicate Passed(max: int, log: seq<Entry>, n: nat) {
    n <= |log| && forall i :: 0 <= i < n ==> ReplyTo(max, i, log[i]) == Well
  }

  /** How long a log is when the directory has been cleaned up. */
  function ClosedAt(step: nat): nat {
    if step == 0 then 1 else if step < STEPS then step + 2 else STEPS + 1
  }

  ghost predicate Stopped(max: int, log: seq<Entry>, step: nat, failure: Option<FailureReason>) {
    && step <= STEPS && Passed(max, log, step)
    && (failure.None? <==> step == STEPS)
    && (failure.Some? ==> step < |log| && ReplyTo(max, step, log[step]) == Fault(failure.value))
  }

  /** The pipeline has ended and its directory, if it got one, has been cleaned up. */
  ghost predicate Tidied(max: int, log: seq<Entry>, step: nat, failure: Option<FailureReason>) {
    && Stopped(max, log, step, failure) && ClosedAt(step) <= |log|
    && (step > 0 ==>
          var cleaned := log[ClosedAt(step) - 1];
          cleaned.Cleaned? && log[0] == Made(Some(cleaned.path)))
  }

  /** What a log looks like that leads from the beginning to a place. */
  ghost predicate Tells(max: int, log: seq<Entry>, place: Place) {
    match place
    case Silent => false
    case Refused => false
    case Running(step, dir) =>
      |log| == step <= STEPS && Passed(max, log, step) && (step > 0 ==> log[0] == Made(Some(dir)))
    case Halted(step, reason, dir) =>
      step > 0 && |log| == step + 1 && Stopped(max, log, step, Some(reason)) && log[0] == Made(Some(dir))
    case Closed(step, failure) => |log| == ClosedAt(step) && Tidied(max, log, step, failure)
    case Answered(step, failure, ok, reported) =>
      && |log| == ClosedAt(step) + (if reported then 2 else 1) && Tidied(max, log, step, failure)
      && var announced := log[ClosedAt(step)];
      && announced.Announced? && announced.ok == ok && Says(announced.outcome, failure)
      && (reported ==> log[|log| - 1] == Signalled(OPTIMIZATION_COMPLETED) && failure.None? && ok)
  }

  lemma PassedOn(max: int, log: seq<Entry>, n: nat, entry: Entry)
    requires Passed(max, log, n)
    ensures Passed(max, log + [entry], n)
    ensures n == |log| && ReplyTo(max, n, entry) == Well ==> Passed(max, log + [entry], n + 1)
  {
    hide ReplyTo;
  }

  lemma MadeFirst(max: int, step: nat, entry: Entry)
    ensures ReplyTo(max, step, entry) == Well ==> (step == 0 <==> entry.Made?) && (step == 0 ==> entry.dir.Some?)
    ensures ReplyTo(max, step, entry) != Unexpected ==> step < STEPS
  {
  }

  lemma AdvanceTells(max: int, log: seq<Entry>, step: nat, dir: string, entry: Entry)
    requires Tells(max, log, Running(step, dir)) && step < STEPS && Advance(max, step, dir, entry).Some?
    ensures Tells(max, log + [entry], Advance(max, step, dir, entry).value)
  {
    PassedOn(max, log, step, entry);
    MadeFirst(max, step, entry);
    hide ReplyTo, Passed;
    assert step > 0 ==> (log + [entry])[0] == log[0];
  }

  lemma TidiedOn(max: int, log: seq<Entry>, step: nat, failure: Option<FailureReason>, entry: Entry)
    requires Tidied(max, log, step, failure)
    ensures Tidied(max, log + [entry], step, failure)
  {
    PassedOn(max, log, step, entry);
    hide ReplyTo, Passed;
    var longer := log + [entry];
    assert forall i :: 0 <= i < |log| ==> longer[i] == log[i];
  }

  lemma CleanedTells(max: int, log: seq<Entry>, place: Place, entry: Entry)
    requires Tells(max, log, place) && Next(max, place, entry).Some?
    requires place.Halted? || (place.Running? && place.step >= STEPS)
    ensures Tells(max, log + [entry], Next(max, place, entry).value)
  {
    PassedOn(max, log, place.step, entry);
    hide ReplyTo, Passed;
    var longer := log + [entry];
    assert forall i :: 0 <= i < |log| ==> longer[i] == log[i];
  }

  lemma NextTells(max: int, log: seq<Entry>, place: Place, entry: Entry)
    requires Tells(max, log, place) && Next(max, place, entry).Some?
    ensures Tells(max, log + [entry], Next(max, place, entry).value)
  {
    if place.Running? && place.step < STEPS {
      AdvanceTells(max, log, place.step, place.dir, entry);
    } else if place.Running? || place.Halted? {
      CleanedTells(max, log, place, entry);
    } else {
      hide Tidied, Advance;
      TidiedOn(max, log, place.step, place.failure, entry);
    }
  }

  lemma {:induction false} AlwaysTells(max: int, log: seq<Entry>)
    requires After(max, BEGIN, log).Some?
    ensures Tells(max, log, After(max, BEGIN, log).value)
    decreases |log|
  {
    if log != [] {
      var front, last := log[..|log| - 1], log[|log| - 1];
      assert log == front + [last];
      hide Tells, Next;
      AfterSnoc(max, BEGIN, front, last);
      AlwaysTells(max, front);
      NextTells(max, front, After(max, BEGIN, front).value, last);
    }
  }

  lemma NeverSilent(max: int, log: seq<Entry>)
    requires After(max, BEGIN, log).Some?
    ensures !After(max, BEGIN, log).value.Silent?
  {
    AlwaysTells(max, log);
  }

  // ----- reasons -----

  /** An entry that no call of the pipeline is answered by. */
  predicate Quiet(entry: Entry) {
    entry.Cleaned? || entry.Announced? || entry.Signalled?
  }

  /** The answers after the one that stopped the pipeline say nothing of its calls. */
  lemma QuietAfter(max: int, log: seq<Entry>, place: Place)
    requires Tells(max, log, place)
    ensures place.Running? ==> |log| == place.step
    ensures !place.Running? ==> Stopped(max, log, place.step, FailureIn(place))
    ensures !place.Running? ==> forall i :: place.step < i < |log| ==> Quiet(log[i])
    ensures place.Running? || place.step == STEPS ==> forall i :: place.step <= i < |log| ==> Quiet(log[i])
  {
    hide ReplyTo, Passed;
  }

  lemma ExplainsExactly(max: int, log: seq<Entry>, step: nat, failure: Option<FailureReason>)
    requires Passed(max, log, step) && step <= STEPS
    requires failure.Some? ==> step < |log| && ReplyTo(max, step, log[step]) == Fault(failure.value)
    requires failure.None? ==> |log| == step || step == STEPS
    requires forall i :: (if failure.Some? then step < i else step <= i) && i < |log| ==> Quiet(log[i])
    ensures ExplainedBy(max, log, failure)
  {
    forall reason ensures Explains(max, log, reason) <==> failure == Some(reason) {
      ExplainsOne(max, log, step, failure, reason);
    }
  }

  lemma ExplainsOne(max: int, log: seq<Entry>, step: nat, failure: Option<FailureReason>, reason: FailureReason)
    requires Passed(max, log, step) && step <= STEPS
    requires failure.Some? ==> step < |log| && ReplyTo(max, step, log[step]) == Fault(failure.value)
    requires failure.None? ==> |log| == step || step == STEPS
    requires forall i :: (if failure.Some? then step < i else step <= i) && i < |log| ==> Quiet(log[i])
    ensures Explains(max, log, reason) <==> failure == Some(reason)
  {
  }

  /**
   A log explains exactly the failure that stopped its pipeline: refused by size
   only if a recorded size is above the limit, not found exactly when the lookup
   failed, and so on for every reason; and nothing while all goes well.
   */
  lemma ReasonExactly(max: int, log: seq<Entry>)
    requires After(max, BEGIN, log).Some?
    ensures ExplainedBy(max, log, FailureIn(After(max, BEGIN, log).value))
  {
    var place := After(max, BEGIN, log).value;
    AlwaysTells(max, log);
    TellsExactly(max, log, place);
  }

  lemma TellsExactly(max: int, log: seq<Entry>, place: Place)
    requires Tells(max, log, place)
    ensures ExplainedBy(max, log, FailureIn(place))
  {
    QuietAfter(max, log, place);
    hide Passed, ReplyTo, ExplainedBy;
    ExplainsExactly(max, log, place.step, FailureIn(place));
  }

  lemma WellOrNot(max: int, step: nat, entry: Entry)
    ensures ReplyTo(max, step, entry) == Well ==> !Refusal(entry)
    ensures ReplyTo(max, step, entry).Fault? && !Refusal(entry) ==>
              (|| (step == 2 && entry.Asked? && entry.size.Some? && entry.size.value > max)
               || (step == 4 && entry.Statted? && entry.size.Some? && entry.size.value > max))
  {
  }

  /** The pipeline has not failed exactly when no answer reports a failure and the source is within the limit. */
  lemma FaultlessExactly(max: int, log: seq<Entry>)
    requires After(max, BEGIN, log).Some?
    ensures Faultless(max, log) <==> FailureIn(After(max, BEGIN, log).value).None?
  {
    var place := After(max, BEGIN, log).value;
    AlwaysTells(max, log);
    TellsExactly(max, log, place);
    QuietAfter(max, log, place);
    hide After, ReplyTo, Tells;
    assert Explains(max, log, Rejected) <==> FailureIn(place) == Some(Rejected);
    NoRefusal(max, log, place.step, FailureIn(place));
  }

  lemma NoRefusal(max: int, log: seq<Entry>, step: nat, failure: Option<FailureReason>)
    requires Passed(max, log, step)
    requires failure.Some? ==> step < |log| && ReplyTo(max, step, log[step]) == Fault(failure.value)
    requires forall i :: (if failure.Some? then step < i else step <= i) && i < |log| ==> Quiet(log[i])
    ensures failure.None? ==> forall i :: 0 <= i < |log| ==> !Refusal(log[i])
    ensures failure.Some? ==> Refusal(log[step]) || TooBig(max, log)
  {
    hide ReplyTo, Refusal;
    if failure.None? {
      forall i | 0 <= i < |log| ensures !Refusal(log[i]) {
        if i < step {
          WellOrNot(max, i, log[i]);
        } else {
          QuietIsNoRefusal(log[i]);
        }
      }
    } else {
      WellOrNot(max, step, log[step]);
    }
  }

  lemma QuietIsNoRefusal(entry: Entry)
    requires Quiet(entry)
    ensures !Refusal(entry)
  {
  }

  // ----- the result that is announced -----

  lemma OneAnnouncement(max: int, log: seq<Entry>, place: Place, n: nat)
    requires Tells(max, log, place) && n < |log| && log[n].Announced?
    ensures place.Answered? && n == ClosedAt(place.step)
  {
    forall i: nat, entry | ReplyTo(max, i, entry) != Unexpected ensures !entry.Announced? {
    }
    hide ReplyTo;
  }

  /**
   The one result of a job that was accepted: a completion exactly when no call
   reported a failure and no size was above the limit, and otherwise a failure with
   the one reason that the answers explain.
   */
  lemma AnnouncedExactly(max: int, log: seq<Entry>, n: nat)
    requires After(max, BEGIN, log).Some? && n < |log| && log[n].Announced?
    ensures log[n].outcome.Completed? <==> Faultless(max, log)
    ensures log[n].outcome.Failed? ==> ExplainedBy(max, log, Some(log[n].outcome.fail.reason))
    ensures forall i :: 0 <= i < |log| && log[i].Announced? ==> i == n
  {
    var place := After(max, BEGIN, log).value;
    AlwaysTells(max, log);
    ReasonExactly(max, log);
    FaultlessExactly(max, log);
    hide After, Faultless, ExplainedBy, Tidied;
    forall i: nat | i < |log| && log[i].Announced? ensures i == ClosedAt(place.step) {
      OneAnnouncement(max, log, place, i);
    }
  }

  lemma NothingFollows(max: int, place: Place, log: seq<Entry>)
    requires place.Answered? && place.failure.Some? && After(max, place, log).Some?
    ensures log == []
  {
  }

  /** A job refused by the checks is announced as such without any call. */
  lemma RefusedAnnounced(max: int, log: seq<Entry>)
    requires After(max, Refused, log).Some?
    ensures log == [] || (|log| == 1 && log[0].Announced? && Says(log[0].outcome, Some(Rejected)))
    ensures After(max, Refused, log).value.Refused? || After(max, Refused, log).value.Answered?
  {
    if log != [] {
      NothingFollows(max, Next(max, Refused, log[0]).value, log[1..]);
    }
  }

  /** Only a job that was accepted has a pipeline. */
  lemma StartedAt(max: int, start: Place, log: seq<Entry>)
    requires start in {BEGIN, Refused, Silent} && After(max, start, log).Some?
    ensures var place := After(max, start, log).value;
            place.Running? || place.Halted? || place.Closed? ==> start == BEGIN
    ensures start == Silent ==> log == [] && After(max, start, log) == Some(Silent)
  {
    if start == Refused {
      RefusedAnnounced(max, log);
    }
  }

  // ----- reports -----

  /** How many reports stand before a call of the pipeline. */
  function ReportsUpTo(step: nat): nat {
    if step < 2 then 0
    else if step < 6 then 1
    else if step < 8 then 2
    else if step < 10 then 3
    else if step < 14 then 4
    else 5
  }

  function ReportsAt(place: Place): nat {
    match place
    case Silent => 0
    case Refused => 0
    case Running(step, _) => ReportsUpTo(step)
    case Halted(step, _, _) => ReportsUpTo(step)
    case Closed(step, _) => ReportsUpTo(step)
    case Answered(step, _, _, reported) => ReportsUpTo(step) + if reported then 1 else 0
  }

  lemma ReportsSnoc(log: seq<Entry>, entry: Entry)
    ensures Reports(log + [entry]) == Reports(log) + if entry.Signalled? then [entry.progress] else []
  {
    assert (log + [entry])[..|log|] == log;
  }

  lemma NextReports(max: int, place: Place, entry: Entry)
    requires Next(max, place, entry).Some? && ReportsAt(place) <= 5
    requires place.Answered? && place.failure.None? ==> place.step == STEPS
    ensures ReportsAt(Next(max, place, entry).value) == ReportsAt(place) + if entry.Signalled? then 1 else 0
    ensures entry.Signalled? ==> ReportsAt(place) < 6 && entry.progress == PROGRESS_TABLE[ReportsAt(place)]
  {
  }

  lemma {:induction false} ReportsCounted(max: int, log: seq<Entry>)
    requires After(max, BEGIN, log).Some?
    ensures ReportsAt(After(max, BEGIN, log).value) <= |PROGRESS_TABLE|
    ensures Reports(log) == PROGRESS_TABLE[..ReportsAt(After(max, BEGIN, log).value)]
    decreases |log|
  {
    if log != [] {
      var front, last := log[..|log| - 1], log[|log| - 1];
      assert log == front + [last];
      hide Next;
      AfterSnoc(max, BEGIN, front, last);
      ReportsCounted(max, front);
      AlwaysTells(max, front);
      ReportsSnoc(front, last);
      var place := After(max, BEGIN, front).value;
      hide After, Reports;
      StepOfCompletion(max, front, place);
      NextReports(max, place, last);
      hide ReportsAt, Tells;
    }
  }

  lemma StepOfCompletion(max: int, log: seq<Entry>, place: Place)
    requires Tells(max, log, place)
    ensures place.Answered? && place.failure.None? ==> place.step == STEPS
    ensures place.Answered? && place.reported ==> place.failure.None?
  {
    hide ReplyTo, Passed;
  }

  lemma FaultReports(max: int, step: nat, entry: Entry)
    requires ReplyTo(max, step, entry).Fault?
    ensures ReportsBefore(ReplyTo(max, step, entry).reason, ReportsUpTo(step))
  {
  }

  /** So many reports go with this announcement. */
  predicate Fits(entry: Entry, reports: nat)
    requires entry.Announced?
  {
    match entry.outcome
    case Failed(event) => ReportsBefore(event.reason, reports)
    case Completed(_) => reports == if entry.ok then 6 else 5
  }

  /** The reports of a log are a prefix of the progress table, and its length agrees with the result. */
  lemma ReportsExactly(max: int, log: seq<Entry>)
    requires After(max, BEGIN, log).Some?
    ensures Events.Reported(Reports(log))
    ensures var place := After(max, BEGIN, log).value;
            && (FailureIn(place).Some? ==> ReportsBefore(FailureIn(place).value, |Reports(log)|))
            && (FailureIn(place).None? && place.Answered? && Concluded(place) ==>
                  |Reports(log)| == if place.ok then 6 else 5)
  {
    var place := After(max, BEGIN, log).value;
    ReportsCounted(max, log);
    AlwaysTells(max, log);
    StepOfCompletion(max, log, place);
    QuietAfter(max, log, place);
    hide After, Tells, ReplyTo, Passed;
    if FailureIn(place).Some? {
      FaultReports(max, place.step, log[place.step]);
    }
  }

  /** The same for whatever the handler is asked to do, told by the announcement itself. */
  lemma ReportsOf(max: int, start: Place, log: seq<Entry>)
    requires start in {BEGIN, Refused, Silent} && After(max, start, log).Some? && Concluded(After(max, start, log).value)
    ensures Events.Reported(Reports(log))
    ensures forall i :: 0 <= i < |log| && log[i].Announced? ==> Fits(log[i], |Reports(log)|)
  {
    StartedAt(max, start, log);
    if start == BEGIN {
      ReportsExactly(max, log);
      forall i: nat | i < |log| && log[i].Announced? ensures Fits(log[i], |Reports(log)|) {
        AlwaysTells(max, log);
        hide After, Reports, ReportsBefore, Tidied, ReplyTo;
        OneAnnouncement(max, log, After(max, BEGIN, log).value, i);
      }
    } else if start == Refused {
      RefusedAnnounced(max, log);
      assert |log| == 1 ==> log[..0] == [];
    }
  }

  // ----- cleanup -----

  lemma MadeAndCleaned(max: int, step: nat, entry: Entry)
    requires ReplyTo(max, step, entry) != Unexpected
    ensures entry.Made? <==> step == 0
    ensures !entry.Cleaned? && !entry.Announced?
    ensures step == 0 ==> (entry.dir.None? <==> ReplyTo(max, step, entry).Fault?)
  {
  }

  /** The directory, if one could be made, is cleaned up by the call at c, once, after the last call that can use it. */
  ghost predicate CleanedAt(log: seq<Entry>, c: nat) {
    && log != [] && log[0].Made? && (forall i :: 0 < i < |log| ==> !log[i].Made?)
    && (log[0].dir.None? ==> forall i :: 0 <= i < |log| ==> !log[i].Cleaned?)
    && (log[0].dir.Some? ==>
          && 0 < c < |log| && log[c] == Cleaned(log[0].dir.value)
          && (forall i :: 0 <= i < |log| && log[i].Cleaned? ==> i == c)
          && (forall i :: c < i < |log| ==> log[i].Announced? || log[i].Signalled?))
  }

  ghost predicate CleanedUp(log: seq<Entry>) {
    exists c: nat :: CleanedAt(log, c)
  }

  /** Before a result is announced, the work directory has been cleaned up. */
  lemma CleanedUpOnce(max: int, log: seq<Entry>)
    requires After(max, BEGIN, log).Some?
    requires After(max, BEGIN, log).value.Closed? || After(max, BEGIN, log).value.Answered?
    ensures CleanedUp(log)
    ensures forall n :: 0 <= n < |log| && log[n].Announced? ==>
              CleanedAt(log, n - 1) && (log[0].dir.None? ==> n == 1)
  {
    var place := After(max, BEGIN, log).value;
    AlwaysTells(max, log);
    hide After, CleanedAt;
    CleanedOf(max, log, place);
    forall n: nat | n < |log| && log[n].Announced? ensures n == ClosedAt(place.step) {
      OneAnnouncement(max, log, place, n);
    }
  }

  lemma CleanedOf(max: int, log: seq<Entry>, place: Place)
    requires Tells(max, log, place) && (place.Closed? || place.Answered?)
    ensures CleanedAt(log, ClosedAt(place.step) - 1)
    ensures log[0].dir.None? ==> ClosedAt(place.step) == 1
  {
    forall i: nat, entry | ReplyTo(max, i, entry) != Unexpected
      ensures (entry.Made? <==> i == 0) && !entry.Cleaned?
      ensures i == 0 ==> (entry.dir.None? <==> ReplyTo(max, i, entry).Fault?) {
      MadeAndCleaned(max, i, entry);
    }
    hide ReplyTo;
  }

  // ----- a completion -----

  /** Before a completion every call was made, in this order, and answered well. */
  lemma CompletedScript(max: int, log: seq<Entry>, n: nat)
    requires After(max, BEGIN, log).Some? && n < |log| && log[n].Announced? && log[n].outcome.Completed?
    ensures n == 16 && log[0].Made? && log[0].dir.Some?
    ensures log[1] == Signalled(Progress(1, 5, Downloading))
    ensures log[2].Asked? && log[2].size.Some? && log[2].size.value <= max
    ensures log[3] == Downloaded(true)
    ensures log[4].Statted? && log[4].size.Some? && log[4].size.value <= max
    ensures log[5] == Signalled(Progress(2, 25, Analyzing)) && log[6] == Inspected(true)
    ensures log[7] == Signalled(Progress(3, 60, Optimizing)) && log[8] == Optimized(true)
    ensures log[9] == Signalled(Progress(4, 80, Analyzing)) && log[10] == Inspected(true)
    ensures log[11].Statted? && log[11].size.Some? && log[12] == Hashed(true)
    ensures log[13] == Signalled(Progress(5, 90, Uploading)) && log[14] == Uploaded(true)
    ensures log[15] == Cleaned(log[0].dir.value)
    ensures |log| <= 18 && (|log| == 18 ==> log[n].ok && log[17] == Signalled(Progress(6, 100, Uploading)))
  {
    var place := After(max, BEGIN, log).value;
    AlwaysTells(max, log);
    OneAnnouncement(max, log, place, n);
    StepOfCompletion(max, log, place);
    hide After;
    assert Passed(max, log, 15);
    assert ReplyTo(max, 0, log[0]) == ReplyTo(max, 1, log[1]) == ReplyTo(max, 2, log[2]) == ReplyTo(max, 3, log[3]) == Well;
    assert ReplyTo(max, 4, log[4]) == ReplyTo(max, 5, log[5]) == ReplyTo(max, 6, log[6]) == ReplyTo(max, 7, log[7]) == Well;
    assert ReplyTo(max, 8, log[8]) == ReplyTo(max, 9, log[9]) == ReplyTo(max, 10, log[10]) == Well;
    assert ReplyTo(max, 11, log[11]) == ReplyTo(max, 12, log[12]) == ReplyTo(max, 13, log[13]) == ReplyTo(max, 14, log[14]) == Well;
  }
}
