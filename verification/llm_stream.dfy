/**
 One model call as app/common/llm.py makes it: which failures another model may fix, the
 deadline on the first chunk, and the rule that a stream which has started never falls back.

 An exception is its own kind and then the kinds its `__cause__`/`__context__` walk visits;
 the `seen` set of the source only keeps that walk finite.
 */
module LlmStream {
  import opened Common

  datatype Kind =
    | Unavailable          // LLMUnavailable
    | DeadlineExceeded     // LLMDeadlineExceeded, a subclass of LLMUnavailable and of TimeoutError
    | Transport            // httpx.TransportError
    | Timeout              // TimeoutError
    | Api(code: int)       // genai_errors.APIError; 0 when it carries no code
    | StreamInterrupted    // LLMStreamInterrupted
    | Other

  datatype Failure = Failure(kind: Kind, causes: seq<Kind>) {
    function Chain(): seq<Kind> {
      [kind] + causes
    }

    /** `raise Wrapper(...) from this`. */
    function Under(wrapper: Kind): Failure {
      Failure(wrapper, Chain())
    }
  }

  const DEADLINE: Failure := Failure(DeadlineExceeded, [])

  const OTHER: Failure := Failure(Other, [])

  predicate Decisive(k: Kind) {
    k.Unavailable? || k.DeadlineExceeded? || k.Transport? || k.Timeout? || k.Api?
  }

  predicate Fixable(k: Kind) {
    Decisive(k) && (k.Api? ==> k.code == 429 || k.code >= 500)
  }

  /** The first decisive exception of the chain settles it, and it is one another model may fix. */
  ghost predicate Eligible(e: seq<Kind>) {
    exists i :: 0 <= i < |e| && Fixable(e[i]) && forall j :: 0 <= j < i ==> !Decisive(e[j])
  }

  /**
   An outage, a deadline, a transport failure or a time-out is worth another model, and so is a
   rate limit or a server error; any other API error is not, whatever caused it. Only an
   exception that is none of these is judged by its causes.
   */
  lemma TheOutermostDecisiveExceptionSettles(k: Kind, causes: seq<Kind>)
    ensures Eligible([k] + causes) <==>
              match k
              case Unavailable | DeadlineExceeded | Transport | Timeout => true
              case Api(code) => code == 429 || code >= 500
              case StreamInterrupted | Other => Eligible(causes)
    ensures !Eligible([])
  {
    var e := [k] + causes;
    assert e[0] == k;
    if Decisive(k) {
      assert Fixable(k) ==> Eligible(e);
    } else {
      TheOthersAreSkipped(k, causes);
    }
  }

  lemma TheOthersAreSkipped(k: Kind, causes: seq<Kind>)
    requires !Decisive(k)
    ensures Eligible([k] + causes) <==> Eligible(causes)
  {
    var e := [k] + causes;
    if Eligible(e) {
      var i :| 0 <= i < |e| && Fixable(e[i]) && forall j :: 0 <= j < i ==> !Decisive(e[j]);
      assert causes[i - 1] == e[i] && forall j :: 0 <= j < i - 1 ==> causes[j] == e[j + 1];
      assert Eligible(causes);
    }
    if Eligible(causes) {
      var i :| 0 <= i < |causes| && Fixable(causes[i]) && forall j :: 0 <= j < i ==> !Decisive(causes[j]);
      assert e[i + 1] == causes[i] && forall j :: 0 < j < i + 1 ==> e[j] == causes[j - 1];
      assert Eligible(e);
    }
  }

  method IsFallbackEligible(failure: Failure) returns (eligible: bool)
    ensures eligible <==> Eligible(failure.Chain())
  {
    var e := failure.Chain();
    for i := 0 to |e|
      invariant forall j :: 0 <= j < i ==> !Decisive(e[j])
    {
      match e[i]
      case Unavailable | DeadlineExceeded | Transport | Timeout =>
        assert Fixable(e[i]);
        return true;
      case Api(code) =>
        assert Fixable(e[i]) <==> (code == 429 || code >= 500);
        return code == 429 || code >= 500;
      case StreamInterrupted | Other =>
    }
    return false;
  }

  /** What `with_fallbacks` and StickyFallback catch: exceptions_to_handle = (LLMUnavailable,). */
  predicate Handled(e: Failure) {
    e.kind.Unavailable? || e.kind.DeadlineExceeded?
  }

  ghost function Classified(e: Failure): Failure {
    if Handled(e) || !Eligible(e.Chain()) then e else e.Under(Unavailable)
  }

  lemma ClassifiedIsHandledIffEligible(e: Failure)
    ensures Handled(Classified(e)) <==> Eligible(e.Chain())
    ensures Classified(e) == e || Classified(e).causes == e.Chain()
  {
    if Handled(e) {
      assert Fixable(e.Chain()[0]);
    }
  }

  /** What the provider does: the delay before its first item (or its end), its chunks, and how it ends. */
  datatype Provided<C> = Provided(firstAfter: real, chunks: seq<C>, failure: Option<Failure>)

  datatype Streamed<C> = Streamed(chunks: seq<C>, failure: Option<Failure>)

  function WithinDeadline<C>(p: Provided<C>, deadline: Option<real>): Streamed<C> {
    if deadline.Some? && (p.firstAfter > deadline.value
                          || (p.chunks == [] && p.failure.Some? && p.failure.value.kind.Timeout?))
    then Streamed([], Some(DEADLINE))
    else Streamed(p.chunks, p.failure)
  }

  /** What one `_astream` call yields and raises. */
  ghost function CallOf<C>(p: Provided<C>, deadline: Option<real>): Streamed<C> {
    var inner := WithinDeadline(p, deadline);
    if inner.failure.None? then inner
    else if inner.chunks != [] then inner.(failure := Some(inner.failure.value.Under(StreamInterrupted)))
    else inner.(failure := Some(Classified(inner.failure.value)))
  }

  /** `with_first_chunk_deadline`: only the first item is timed. */
  method FirstChunkDeadline<C>(p: Provided<C>, deadline: Option<real>) returns (s: Streamed<C>)
    ensures s == WithinDeadline(p, deadline)
  {
    var next := 0;
    var out := [];
    if deadline.Some? {
      if p.firstAfter > deadline.value {
        return Streamed([], Some(DEADLINE));
      }
      if p.chunks == [] {
        if p.failure.Some? && p.failure.value.kind.Timeout? {
          // asyncio.TimeoutError is TimeoutError, so the provider's own reads as the deadline too.
          return Streamed([], Some(DEADLINE));
        }
        return Streamed([], p.failure);
      }
      out, next := [p.chunks[0]], 1;
    }
    while next < |p.chunks|
      invariant 0 <= next <= |p.chunks| && out == p.chunks[..next]
    {
      out, next := out + [p.chunks[next]], next + 1;
    }
    s := Streamed(out, p.failure);
  }

  method AStream<C>(p: Provided<C>, deadline: Option<real>) returns (s: Streamed<C>)
    ensures s == CallOf(p, deadline)
  {
    var inner := FirstChunkDeadline(p, deadline);
    var started, out := false, [];
    for i := 0 to |inner.chunks|
      invariant out == inner.chunks[..i]
      invariant started <==> i > 0
    {
      started := true;
      out := out + [inner.chunks[i]];
    }
    if inner.failure.None? {
      return Streamed(out, None);
    }
    var e := inner.failure.value;
    if started {
      return Streamed(out, Some(e.Under(StreamInterrupted)));
    }
    var eligible := IsFallbackEligible(e);
    s := Streamed(out, Some(if Handled(e) || !eligible then e else e.Under(Unavailable)));
  }

  /** The provider let the deadline pass, or gave up by itself with a time-out before its first chunk. */
  predicate TimesOut<C>(p: Provided<C>, deadline: Option<real>) {
    deadline.Some? &&
    (p.firstAfter > deadline.value || (p.chunks == [] && p.failure.Some? && p.failure.value.kind == Timeout))
  }

  /**
   What a call passes on: all chunks and the very failure, or none, of a provider in time, the
   failure at most wrapped with its causes kept; and of one that timed out nothing but that.
   */
  lemma ACallIsHonest<C>(p: Provided<C>, deadline: Option<real>)
    ensures TimesOut(p, deadline) ==> CallOf(p, deadline) == Streamed([], Some(Failure(DeadlineExceeded, [])))
    ensures !TimesOut(p, deadline) ==>
              var call := CallOf(p, deadline);
              && call.chunks == p.chunks
              && (call.failure.None? <==> p.failure.None?)
              && (call.failure.Some? ==>
                    || call.failure == p.failure
                    || (call.failure.value.causes == [p.failure.value.kind] + p.failure.value.causes
                        && call.failure.value.kind == if p.chunks == [] then Unavailable else StreamInterrupted))
              && (p.failure.Some? && p.chunks != [] ==> call.failure.value.kind == StreamInterrupted)
  {
  }

  /**
   A call falls back exactly when it showed nothing and its cause is one another model may
   fix. In particular a stream that fails after its first chunk is never retried.
   */
  lemma FallsBackExactlyWhenNothingWasShown<C>(p: Provided<C>, deadline: Option<real>)
    requires CallOf(p, deadline).failure.Some?
    ensures Handled(CallOf(p, deadline).failure.value) <==>
              CallOf(p, deadline).chunks == []
              && (Eligible(p.failure.GetOr(OTHER).Chain()) || (deadline.Some? && p.firstAfter > deadline.value))
    ensures CallOf(p, deadline).chunks != [] ==> CallOf(p, deadline).chunks == p.chunks
  {
    var inner := WithinDeadline(p, deadline);
    ClassifiedIsHandledIffEligible(inner.failure.value);
    if p.failure.Some? && p.failure.value.kind.Timeout? {
      assert Fixable(p.failure.value.Chain()[0]);
    }
    if inner.failure.value == DEADLINE {
      assert Fixable(DEADLINE.Chain()[0]);
    }
  }
}
