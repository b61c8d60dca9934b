/** A body cut after a byte limit: the fault is reported only when the source really had more. */
module TruncatedBody {
  import opened Bytes
  import opened Net

  /** One read of the source: how much it is willing to return, and whether it also fails. */
  datatype SourceStep = SourceStep(take: nat, fails: bool)

  datatype Error = NoError | EndOfBody | SourceFailed | Truncated | Cancelled

  class Body {
    const source: seq<Byte>
    const steps: nat -> SourceStep
    const limit: nat
    var at: nat
    var calls: nat
    var remaining: nat
    var applied: nat
    ghost var delivered: nat

    /** What was delivered is a prefix of the source within the limit; only probes run ahead of it. */
    ghost predicate Valid()
      reads this
    {
      && delivered <= at <= |source|
      && delivered + remaining == limit
      && (remaining > 0 ==> at == delivered)
    }

    constructor (source: seq<Byte>, steps: nat -> SourceStep, limit: nat)
      ensures Valid() && delivered == 0 && applied == 0 && calls == 0 && at == 0
      ensures this.source == source && this.steps == steps && this.limit == limit
    {
      this.source, this.steps, this.limit := source, steps, limit;
      at, calls, remaining, applied, delivered := 0, 0, limit, 0, 0;
    }

    method ReadSource(size: nat) returns (data: seq<Byte>, err: Error)
      requires Valid() && size > 0
      modifies `at, `calls
      ensures at == old(at) + |data| <= |source| && data == source[old(at)..at] && |data| <= size
      ensures calls == old(calls) + 1
      ensures err == if steps(old(calls)).fails then SourceFailed else if old(at) == |source| then EndOfBody
              else NoError
      ensures data == [] <==> old(at) == |source| || steps(old(calls)).take == 0
    {
      var step := steps(calls);
      calls := calls + 1;
      var n := Min(Min(size, step.take), |source| - at);
      data := source[at..at + n];
      err := if step.fails then SourceFailed else if at == |source| then EndOfBody else NoError;
      at := at + n;
    }

    method Read(size: nat, cancelled: bool) returns (data: seq<Byte>, err: Error)
      requires Valid()
      modifies `at, `calls, `remaining, `applied, `delivered
      ensures Valid()
      ensures delivered == old(delivered) + |data| && data == source[old(delivered)..delivered] && |data| <= size
      ensures err == Truncated <==> applied == old(applied) + 1
      ensures err != Truncated ==> applied == old(applied) && at - delivered == old(at) - old(delivered)
      ensures err == Truncated ==> delivered == limit && limit < |source| && data == []
      ensures size > 0 && !cancelled && !steps(old(calls)).fails && steps(old(calls)).take > 0 ==>
                if old(remaining) == 0 then err == if old(at) < |source| then Truncated else EndOfBody
                else if old(at) < |source| then err == NoError && data != []
                else err == EndOfBody
    {
      if size == 0 {
        return [], NoError;
      }
      if cancelled {
        return [], Cancelled;
      }
      if remaining == 0 {
        var probe;
        probe, err := ReadSource(1);
        if probe != [] {
          applied := applied + 1;
          return [], Truncated;
        }
        return [], err;
      }
      data, err := ReadSource(Min(size, remaining));
      remaining, delivered := remaining - |data|, delivered + |data|;
    }
  }

  /**
   * A reader that keeps asking, with buffers of any size, until the first error; `cancelled(i)`: the context has ended
   * by read `i`.
   */
  datatype Reader = Reader(sizes: seq<nat>, cancelled: nat -> bool)

  /** Nobody interferes: the source has no failures or empty reads, and every buffer has room. */
  ghost predicate Willing(steps: nat -> SourceStep, r: Reader) {
    && (forall i: nat :: steps(i).take > 0 && !steps(i).fails && !r.cancelled(i))
    && forall i :: 0 <= i < |r.sizes| ==> r.sizes[i] > 0
  }

  /**
   * Reads to the end.  The reader gets a prefix of the source of at most `limit` bytes; it is told Truncated exactly
   * when the fault was applied, and then it has exactly `limit` bytes and the source had more.  With nobody
   * interfering, that happens exactly when the source is longer than the limit.
   */
  method ReadAll(source: seq<Byte>, steps: nat -> SourceStep, limit: nat, r: Reader)
      returns (got: seq<Byte>, err: Error, applied: nat)
    ensures got <= source && |got| <= limit
    ensures applied == if err == Truncated then 1 else 0
    ensures err == Truncated ==> |got| == limit < |source|
    ensures Willing(steps, r) && |source| < |r.sizes| ==>
              err == (if limit < |source| then Truncated else EndOfBody) && got == source[..Min(limit, |source|)]
  {
    var body := new Body(source, steps, limit);
    got, err := [], NoError;
    var i := 0;
    while i < |r.sizes| && err == NoError
      invariant i <= |r.sizes| && body.Valid() && fresh(body)
      invariant body.source == source && body.steps == steps && body.limit == limit
      invariant got == source[..body.delivered]
      invariant body.applied == if err == Truncated then 1 else 0
      invariant err == Truncated ==> |got| == limit < |source|
      invariant err == NoError && Willing(steps, r) ==> body.at == body.delivered && body.delivered >= i
      invariant err != NoError && Willing(steps, r) ==>
                  err == (if limit < |source| then Truncated else EndOfBody) && body.delivered == Min(limit, |source|)
    {
      var data;
      data, err := body.Read(r.sizes[i], r.cancelled(i));
      got := got + data;
      i := i + 1;
    }
    applied := body.applied;
  }
}
