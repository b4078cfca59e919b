/** Vector timestamps and the order `isAfterInterval` puts on them. */
module Vectors {

  type Vec = seq<int>

  function Zero(n: nat): (v: Vec)
    ensures |v| == n && forall i :: 0 <= i < n ==> v[i] == 0
  {
    seq(n, _ => 0)
  }

  /** The timestamp of a message that nobody has filled in. */
  function Unset(n: nat): (v: Vec)
    ensures |v| == n && forall i :: 0 <= i < n ==> v[i] == -1
  {
    seq(n, _ => -1)
  }

  /** The vector after the host's own component is incremented. */
  function Bump(v: Vec, host: nat): (r: Vec)
    ensures |r| == |v| && forall i :: 0 <= i < |v| ==> r[i] == v[i] + (if i == host then 1 else 0)
  {
    if host < |v| then v[host := v[host] + 1] else v
  }

  predicate Leq(a: Vec, b: Vec) {
    |a| == |b| && forall i :: 0 <= i < |a| ==> a[i] <= b[i]
  }

  /** `t` is nowhere below `target` and somewhere above it. */
  predicate After(t: Vec, target: Vec) {
    Leq(target, t) && t != target
  }

  /** The component-wise maximum, which a textbook acquire would compute. */
  function Max(a: Vec, b: Vec): (v: Vec)
    requires |a| == |b|
  {
    seq(|a|, i requires 0 <= i < |a| => if a[i] < b[i] then b[i] else a[i])
  }

  /** The comparison loop over the first `hostnum` components; a null array is the error -1. */
  method IsAfterInterval(timestamp: array?<int>, target: array?<int>, hostnum: nat) returns (r: int)
    requires timestamp != null ==> hostnum <= timestamp.Length
    requires target != null ==> hostnum <= target.Length
    ensures r == -1 <==> timestamp == null || target == null
    ensures timestamp != null && target != null ==>
              r == if After(timestamp[..hostnum], target[..hostnum]) then 1 else 0
    ensures timestamp != null && target != null ==>
              (r == 1 <==> && (forall i :: 0 <= i < hostnum ==> timestamp[i] >= target[i])
                           && (exists i :: 0 <= i < hostnum && timestamp[i] > target[i]))
  {
    if timestamp == null || target == null {
      return -1;
    }
    var bigger := false;
    for i := 0 to hostnum
      invariant forall k :: 0 <= k < i ==> timestamp[k] >= target[k]
      invariant bigger <==> exists k :: 0 <= k < i && timestamp[k] > target[k]
    {
      if timestamp[i] > target[i] {
        bigger := true;
      } else if timestamp[i] < target[i] {
        assert timestamp[..hostnum][i] < target[..hostnum][i];
        return 0;
      }
    }
    if bigger {
      var k :| 0 <= k < hostnum && timestamp[k] > target[k];
      assert timestamp[..hostnum][k] > target[..hostnum][k];
      return 1;
    }
    assert timestamp[..hostnum] == target[..hostnum];
    return 0;
  }

  /** Component by component: nowhere smaller, somewhere larger. */
  ghost predicate Later(t: Vec, target: Vec) {
    && |t| == |target|
    && (forall i :: 0 <= i < |t| ==> t[i] >= target[i])
    && exists i :: 0 <= i < |t| && t[i] > target[i]
  }

  lemma AfterIsLater(t: Vec, target: Vec)
    ensures After(t, target) <==> Later(t, target)
  {
    if After(t, target) {
      var i :| 0 <= i < |t| && t[i] != target[i];
      assert t[i] > target[i];
    }
  }

  /** `After` is a strict partial order that agrees with the pointwise order. */
  lemma StrictPartialOrder(a: Vec, b: Vec, c: Vec)
    ensures !After(a, a)
    ensures !(After(a, b) && After(b, a))
    ensures After(a, b) && After(b, c) ==> After(a, c)
    ensures After(a, b) && Leq(c, b) ==> After(a, c)
    ensures Leq(b, a) && After(b, c) ==> After(a, c)
  {
    if Leq(b, a) && Leq(a, b) {
      assert a == b;
    }
    if Leq(c, b) && Leq(b, a) && a == c {
      assert a == b;
    }
  }

  lemma LeqTransitive(a: Vec, b: Vec, c: Vec)
    requires Leq(a, b) && Leq(b, c)
    ensures Leq(a, c)
  {
  }

  lemma AfterTransitive(a: Vec, b: Vec, c: Vec)
    requires After(a, b) && (After(b, c) || Leq(c, b))
    ensures After(a, c)
  {
    var i :| 0 <= i < |a| && a[i] != b[i];
    assert c[i] <= b[i] < a[i];
  }

  /** What is after is not below. */
  lemma AfterNotBelow(a: Vec, b: Vec)
    requires After(a, b)
    ensures !Leq(a, b) && !After(b, a)
  {
    var i :| 0 <= i < |a| && a[i] != b[i];
    assert a[i] > b[i];
  }

  lemma BumpAfter(v: Vec, host: nat)
    requires host < |v|
    ensures After(Bump(v, host), v) && Leq(v, Bump(v, host))
  {
    assert Bump(v, host)[host] != v[host];
  }
}
