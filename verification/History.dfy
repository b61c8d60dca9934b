/** Facts established at some point of a history and not revoked since. */
module History {

  predicate HeldFrom<T>(h: seq<T>, j: nat, grants: T -> bool, revokes: T -> bool) {
    j < |h| && grants(h[j]) && forall k :: j < k < |h| ==> !revokes(h[k])
  }

  /** Some entry of `h` grants the fact and no later entry revokes it. */
  ghost predicate Held<T>(h: seq<T>, grants: T -> bool, revokes: T -> bool) {
    exists j: nat :: HeldFrom(h, j, grants, revokes)
  }

  lemma HeldStep<T>(h: seq<T>, t: T, grants: T -> bool, revokes: T -> bool)
    ensures Held(h + [t], grants, revokes) <==> grants(t) || (Held(h, grants, revokes) && !revokes(t))
  {
    var all := h + [t];
    assert all[|h|] == t;
    if grants(t) {
      assert HeldFrom(all, |h|, grants, revokes);
    }
    if Held(h, grants, revokes) && !revokes(t) {
      var j: nat :| HeldFrom(h, j, grants, revokes);
      assert HeldFrom(all, j, grants, revokes);
    }
    if Held(all, grants, revokes) && !grants(t) {
      var j: nat :| HeldFrom(all, j, grants, revokes);
      assert forall k :: j <= k < |h| ==> h[k] == all[k];
      assert HeldFrom(h, j, grants, revokes);
    }
  }

  /** Histories whose every entry is determined by the entries before it are equal. */
  lemma {:induction false} StepByStep<T>(a: seq<T>, b: seq<T>, n: nat)
    requires n <= |a| && n <= |b|
    requires forall k :: 0 <= k < n && a[..k] == b[..k] ==> a[k] == b[k]
    ensures a[..n] == b[..n]
  {
    if n == 0 {
    } else {
      StepByStep(a, b, n - 1);
      assert a[..n] == a[..n - 1] + [a[n - 1]] && b[..n] == b[..n - 1] + [b[n - 1]];
    }
  }
}
