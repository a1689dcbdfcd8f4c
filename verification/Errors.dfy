/** Error chains of the client and the gRPC codes the driver answers with. */
module Errors {
  import opened Text

  datatype Code =
    | InvalidArgument
    | NotFound
    | AlreadyExists
    | ResourceExhausted
    | Internal
    | Unavailable
    | DeadlineExceeded
    | Canceled
    | Unknown
    | Injected(number: int)

  datatype Error =
    | Plain(message: string)
    | Http(status: int, message: string)
    | JobFailed(operation: string, errorCode: string, message: string, bucket: string)
    | QuotaExhausted
    | ContextDone(expired: bool)
    | Coded(code: Code, message: string)
    | Wrapped(prefix: string, cause: Error)

  predicate IsQuotaExhaustedMessage(message: string) {
    var lower := Lower(message);
    Contains(lower, "quota exhausted") || Contains(lower, "quota exceeded")
  }

  /**
   errors.Is(e, clients.ErrQuotaExhausted): the sentinel, or a quota-flagged HTTP or job error, anywhere in the chain.
   */
  predicate IsQuotaExhausted(e: Error) {
    match e
    case QuotaExhausted => true
    case Http(_, message) => IsQuotaExhaustedMessage(message)
    case JobFailed(_, _, message, _) => IsQuotaExhaustedMessage(message)
    case Wrapped(_, cause) => IsQuotaExhausted(cause)
    case _ => false
  }

  /** isHTTPStatus: the status of the HTTP error in the chain. */
  predicate IsHttpStatus(e: Error, status: int) {
    match e
    case Http(s, _) => s == status
    case Wrapped(_, cause) => IsHttpStatus(cause, status)
    case _ => false
  }

  /** The code gRPC reports for an error a handler returns as it is; contexts that are done have codes of their own. */
  function CodeOf(e: Error): Code {
    match e
    case Coded(code, _) => code
    case ContextDone(expired) => if expired then DeadlineExceeded else Canceled
    case Wrapped(_, cause) => CodeOf(cause)
    case _ => Unknown
  }

  /** An error under any number of wrappers, the innermost prefix first. */
  function Wrap(e: Error, prefixes: seq<string>): Error
    decreases |prefixes|
  {
    if prefixes == [] then e else Wrap(Wrapped(prefixes[0], e), prefixes[1..])
  }

  /** What the wrappers say changes neither classification. */
  lemma {:induction false} WrappingKeepsClassification(e: Error, prefixes: seq<string>, status: int)
    ensures IsQuotaExhausted(Wrap(e, prefixes)) == IsQuotaExhausted(e)
    ensures IsHttpStatus(Wrap(e, prefixes), status) == IsHttpStatus(e, status)
    ensures CodeOf(Wrap(e, prefixes)) == CodeOf(e)
    decreases |prefixes|
  {
    if prefixes != [] {
      WrappingKeepsClassification(Wrapped(prefixes[0], e), prefixes[1..], status);
    }
  }

  /** One of the two marker phrases, in any mixture of cases. */
  predicate IsMarker(s: string) {
    Lower(s) == "quota exhausted" || Lower(s) == "quota exceeded"
  }

  /** A marker stands somewhere in the message. */
  ghost predicate HoldsMarker(message: string) {
    exists before, marker, after :: message == before + marker + after && IsMarker(marker)
  }

  lemma MarkerFound(message: string, phrase: string)
    requires Contains(Lower(message), phrase)
    ensures exists before, marker, after :: message == before + marker + after && Lower(marker) == phrase
  {
    var lowBefore, lowAfter := ContainsSplits(Lower(message), phrase);
    var i, j := |lowBefore|, |lowBefore| + |phrase|;
    assert message == message[..i] + message[i..j] + message[j..];
    assert Lower(message[i..j]) == phrase by {
      assert Lower(message)[i..j] == phrase;
    }
  }

  /**
   A message is classified as quota exhaustion exactly when a marker stands somewhere in it, whatever surrounds it.
   */
  lemma QuotaMessageExactly(message: string)
    ensures IsQuotaExhaustedMessage(message) <==> HoldsMarker(message)
  {
    if Contains(Lower(message), "quota exhausted") {
      MarkerFound(message, "quota exhausted");
    } else if Contains(Lower(message), "quota exceeded") {
      MarkerFound(message, "quota exceeded");
    }
    forall before, marker, after | message == before + marker + after && IsMarker(marker)
      ensures IsQuotaExhaustedMessage(message)
    {
      LowerOfConcat(before + marker, after);
      LowerOfConcat(before, marker);
      SplitContains(Lower(before), Lower(marker), Lower(after));
    }
  }
}
