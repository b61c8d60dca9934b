/** Writing a whole buffer to a connection that may accept it in pieces or fail. */
module Net {
  import opened Bytes

  /** What one `Write` call does: bytes the connection took, and whether it also returned an error. */
  datatype WriteStep = WriteStep(taken: nat, failed: bool)

  function Min(a: nat, b: nat): nat { if a < b then a else b }

  /**
   * How many of `n` pending bytes reach the connection under a schedule; running out of steps is a closed connection.
   */
  function Accepted(n: nat, writes: seq<WriteStep>): (k: nat)
    ensures k <= n
  {
    if n == 0 || writes == [] then 0 else
      var k := Min(writes[0].taken, n);
      if writes[0].failed || k == 0 then k else k + Accepted(n - k, writes[1..])
  }

  /** Whether the schedule takes all `n` bytes before an error or a zero-length write. */
  predicate Completes(n: nat, writes: seq<WriteStep>) {
    n == 0 || (writes != [] && !writes[0].failed && writes[0].taken > 0
               && Completes(n - Min(writes[0].taken, n), writes[1..]))
  }

  lemma {:induction false} CompletesAcceptsAll(n: nat, writes: seq<WriteStep>)
    requires Completes(n, writes)
    ensures Accepted(n, writes) == n
  {
    if n == 0 {
    } else {
      CompletesAcceptsAll(n - Min(writes[0].taken, n), writes[1..]);
    }
  }

  /**
   * A write call, spelt out: an error or an empty write is the end, whatever it took before; otherwise the rest is
   * written with the calls that follow.
   */
  lemma {:induction false} WriteCalls(n: nat, taken: nat, failed: bool, more: seq<WriteStep>)
    requires n > 0
    ensures var writes := [WriteStep(taken, failed)] + more;
            && (failed || taken == 0 ==> !Completes(n, writes) && Accepted(n, writes) == Min(taken, n))
            && (!failed && taken >= n ==> Completes(n, writes) && Accepted(n, writes) == n)
            && (!failed && 0 < taken < n ==>
                  && (Completes(n, writes) <==> Completes(n - taken, more))
                  && Accepted(n, writes) == taken + Accepted(n - taken, more))
            && !Completes(n, []) && Accepted(n, []) == 0
  {
    assert ([WriteStep(taken, failed)] + more)[1..] == more;
  }

  method WriteAll(b: seq<Byte>, writes: seq<WriteStep>) returns (sent: seq<Byte>, ok: bool)
    ensures sent == b[..Accepted(|b|, writes)]
    ensures ok <==> Completes(|b|, writes)
    ensures ok ==> sent == b
  {
    sent, ok := [], true;
    var rest, i := b, 0;
    while |rest| > 0
      invariant 0 <= i <= |writes|
      invariant b == sent + rest
      invariant Accepted(|b|, writes) == |sent| + Accepted(|rest|, writes[i..])
      invariant Completes(|b|, writes) == Completes(|rest|, writes[i..])
    {
      if i == |writes| {
        ok := false;
        return;
      }
      assert writes[i..][1..] == writes[i + 1..];
      var step := writes[i];
      var n := Min(step.taken, |rest|);
      sent := sent + rest[..n];
      i := i + 1;
      rest := rest[n..];
      if step.failed || n == 0 {
        ok := false;
        return;
      }
    }
  }
}
