/**
 The errors a handler returns (internal/handler/handler.go, pipeline.go) and what
 the consumer reads off them (internal/mq/consumer.go): the first link of the
 chain that carries a `TerminalResult` or a `Retryable` method decides.
 */
module Errors {
  import opened Wrappers

  datatype FailureReason = Rejected | SourceNotFound | DownloadFailed | OptimizationFailed | UploadFailed | Internal

  /**
   An error chain. `Foreign` is a link made outside the service, with the answers
   of whichever of the two methods it has.
   */
  datatype Error =
    | Foreign(terminal: Option<bool>, retryable: Option<bool>, inner: Option<Error>)
    | Wrapped(cause: Error)
    | PipelineFailure(reason: FailureReason, cause: Error)
    | ResultPublishError(cause: Error)
    | TerminalResultError(cause: Error)

  function Unwrap(error: Error): (cause: Option<Error>)
    ensures cause.Some? ==> cause.value < error
  {
    match error
    case Foreign(_, _, inner) => inner
    case Wrapped(cause) => Some(cause)
    case PipelineFailure(_, cause) => Some(cause)
    case ResultPublishError(cause) => Some(cause)
    case TerminalResultError(cause) => Some(cause)
  }

  /** The answer of the link's own `TerminalResult` method. */
  function OwnTerminal(error: Error): Option<bool> {
    match error
    case Foreign(terminal, _, _) => terminal
    case TerminalResultError(_) => Some(true)
    case _ => None
  }

  /** The answer of the link's own `Retryable` method. */
  function OwnRetryable(error: Error): Option<bool> {
    match error
    case Foreign(_, retryable, _) => retryable
    case ResultPublishError(_) => Some(true)
    case _ => None
  }

  /** errors.As: the first answer along the chain. */
  function FirstAnswer(own: Error -> Option<bool>, error: Error): Option<bool>
    decreases error
  {
    if own(error).Some? then own(error)
    else
      var cause := Unwrap(error);
      if cause.None? then None else FirstAnswer(own, cause.value)
  }

  /** The link at this depth of the chain. */
  function Link(error: Error, depth: nat): Option<Error>
    decreases depth
  {
    if depth == 0 then Some(error)
    else
      var outer := Link(error, depth - 1);
      if outer.None? then None else Unwrap(outer.value)
  }

  /** The link at this depth answers, and none around it does. */
  ghost predicate AnswersFirst(own: Error -> Option<bool>, error: Error, depth: nat, answer: bool) {
    && Link(error, depth).Some? && own(Link(error, depth).value) == Some(answer)
    && forall outer: nat :: outer < depth ==> Link(error, outer).Some? && own(Link(error, outer).value).None?
  }

  lemma {:induction false} LinkInside(error: Error, depth: nat)
    requires Unwrap(error).Some?
    ensures Link(error, depth + 1) == Link(Unwrap(error).value, depth)
  {
    if depth > 0 {
      LinkInside(error, depth - 1);
    }
  }

  /** The outermost link that has an answer gives it, and no link further in can overrule it. */
  lemma {:induction false} FirstAnswerExactly(own: Error -> Option<bool>, error: Error, answer: bool)
    ensures FirstAnswer(own, error) == Some(answer) <==> exists depth: nat :: AnswersFirst(own, error, depth, answer)
    decreases error
  {
    var cause := Unwrap(error);
    if own(error).Some? {
      OwnAnswer(own, error, answer);
    } else if cause.None? {
      NoAnswer(own, error, answer);
    } else {
      FirstAnswerExactly(own, cause.value, answer);
      InnerAnswer(own, error, answer);
    }
  }

  lemma OwnAnswer(own: Error -> Option<bool>, error: Error, answer: bool)
    requires own(error).Some?
    ensures own(error) == Some(answer) <==> exists depth: nat :: AnswersFirst(own, error, depth, answer)
  {
    assert own(error) == Some(answer) ==> AnswersFirst(own, error, 0, answer);
    assert Link(error, 0) == Some(error);
  }

  lemma NoAnswer(own: Error -> Option<bool>, error: Error, answer: bool)
    requires own(error).None? && Unwrap(error).None?
    ensures forall depth: nat :: !AnswersFirst(own, error, depth, answer)
  {
    forall depth: nat ensures !AnswersFirst(own, error, depth, answer) {
      EndOfChain(error, depth);
    }
  }

  lemma {:induction false} EndOfChain(error: Error, depth: nat)
    requires Unwrap(error).None?
    ensures depth > 0 ==> Link(error, depth).None?
  {
    if depth > 1 {
      EndOfChain(error, depth - 1);
    }
  }

  lemma InnerAnswer(own: Error -> Option<bool>, error: Error, answer: bool)
    requires own(error).None? && Unwrap(error).Some?
    ensures (exists depth: nat :: AnswersFirst(own, error, depth, answer)) <==>
              exists depth: nat :: AnswersFirst(own, Unwrap(error).value, depth, answer)
  {
    var cause := Unwrap(error).value;
    forall depth: nat ensures Link(error, depth + 1) == Link(cause, depth) {
      LinkInside(error, depth);
    }
    if depth: nat :| AnswersFirst(own, error, depth, answer) {
      assert depth > 0;
      forall outer: nat | outer < depth - 1 ensures Link(cause, outer).Some? && own(Link(cause, outer).value).None? {
        assert Link(error, outer + 1).Some?;
      }
      assert AnswersFirst(own, cause, depth - 1, answer);
    }
    if depth: nat :| AnswersFirst(own, cause, depth, answer) {
      forall outer: nat | outer < depth + 1 ensures Link(error, outer).Some? && own(Link(error, outer).value).None? {
        assert outer > 0 ==> Link(error, outer - 1 + 1) == Link(cause, outer - 1);
      }
      assert AnswersFirst(own, error, depth + 1, answer);
    }
  }

  predicate IsTerminalResult(error: Option<Error>) {
    error.Some? && FirstAnswer(OwnTerminal, error.value) == Some(true)
  }

  predicate IsRetryable(error: Option<Error>) {
    error.Some? && FirstAnswer(OwnRetryable, error.value) == Some(true)
  }

  function PipelineFailureReason(error: Error): FailureReason
    decreases error
  {
    if error.PipelineFailure? then error.reason
    else
      var cause := Unwrap(error);
      if cause.None? then Internal else PipelineFailureReason(cause.value)
  }

  /** What the consumer makes of a handler's result. */
  datatype Verdict = Ok | Terminal | Retryable | Plain

  function VerdictOf(error: Option<Error>): Verdict {
    if error.None? then Ok
    else if IsTerminalResult(error) then Terminal
    else if IsRetryable(error) then Retryable
    else Plain
  }

  /** An error of a library: no link has either method. */
  predicate Unmarked(error: Error)
    decreases error
  {
    && error.Foreign? && error.terminal.None? && error.retryable.None?
    && (error.inner.Some? ==> Unmarked(error.inner.value))
  }

  /**
   What an outcome error is taken for depends on its cause only through the
   terminal marks inside a publish error: these alone can turn "publish again"
   into "acknowledge".
   */
  lemma VerdictExactly(cause: Error)
    ensures VerdictOf(Some(TerminalResultError(cause))) == Terminal
    ensures VerdictOf(Some(ResultPublishError(cause))) == Retryable <==> !IsTerminalResult(Some(cause))
    ensures VerdictOf(Some(ResultPublishError(cause))) == Terminal <==> IsTerminalResult(Some(cause))
  {
  }

  lemma {:induction false} UnmarkedIsPlain(error: Error)
    requires Unmarked(error)
    ensures VerdictOf(Some(error)) == VerdictOf(Some(Wrapped(error))) == Plain
    ensures FirstAnswer(OwnTerminal, error) == FirstAnswer(OwnRetryable, error) == None
    ensures PipelineFailureReason(error) == Internal
  {
    if error.inner.Some? {
      UnmarkedIsPlain(error.inner.value);
    }
  }

  /** A reason given by the pipeline survives every wrapping on the way out. */
  lemma {:induction false} ReasonSurvives(reason: FailureReason, cause: Error, layers: nat)
    ensures PipelineFailureReason(WrappedTimes(PipelineFailure(reason, cause), layers)) == reason
  {
    if layers > 0 {
      ReasonSurvives(reason, cause, layers - 1);
    }
  }

  function WrappedTimes(error: Error, layers: nat): Error {
    if layers == 0 then error else Wrapped(WrappedTimes(error, layers - 1))
  }
}
