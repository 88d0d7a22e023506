/** Revalidating a path whose dentries are of an old generation (au_reval_dpath, dentry.c). The path is
    numbered upwards: 0 is the dentry, the last is the root, which is always current. */
module Reval {
  import CopyDirs

  class Path {
    /** Whether the dentry's generation is the super block's. */
    const current: array<bool>
    /** The dentries au_refresh_dentry was called for. */
    ghost var calls: seq<nat>

    constructor (n: nat)
      requires n > 0
      ensures fresh(current) && current.Length == n && current[n - 1] && calls == []
    {
      current := new bool[n](i => i == n - 1);
      calls := [];
    }

    /** au_refresh_dentry: refuses when the parent is stale, and brings the generation up to date. */
    method RefreshDentry(d: nat, fails: set<nat>) returns (err: bool)
      requires d + 1 < current.Length && !current[d]
      modifies this, current
      ensures calls == old(calls) + [d] && err == (!old(current[d + 1]) || d in fails)
      ensures current[..] == if err then old(current[..]) else old(current[..])[d := true]
    {
      calls := calls + [d];
      err := !current[d + 1] || d in fails;
      if !err {
        current[d] := true;
      }
    }

    /** simple_reval_dpath, for when FAILED_REFRESH_DIR is not set. Then the parent is current
        (DentryWalk.DirsStayCurrent). */
    method SimpleRevalDpath(fails: set<nat>) returns (err: bool)
      requires current.Length > 1 && current[1]
      modifies this, current
      ensures old(current[0]) ==> !err && calls == old(calls) && current[..] == old(current[..])
      ensures !old(current[0]) ==> calls == old(calls) + [0] && err == (0 in fails)
      ensures current[..] == if err then old(current[..]) else old(current[..])[0 := true]
    {
      if current[0] {
        assert current[..] == current[..][0 := true];
        return false;
      }
      err := RefreshDentry(0, fails);
    }

    /** The slow loop of au_reval_dpath. It refreshes the stale dentries between the nearest current one and
        the dentry, each exactly once, from the top down, so that no refresh meets a stale parent; it stops
        at the first failure, and without one the whole path down to the dentry is current. */
    method RevalDpath(fails: set<nat>) returns (r: Outcome)
      requires current.Length > 0 && current[current.Length - 1] && calls == []
      modifies this, current
      ensures var s, t := old(current[..]), CopyDirs.Nearest(old(current[..]), 0);
              match r
              case Ok => calls == CopyDirs.TopDown(t, 0) && CopyDirs.NoneFails(0, t, fails, {})
                         && forall i :: 0 <= i < |s| ==> current[i] == (i < t || s[i])
              case FailedAt(d) =>
                && d < t && d in fails && calls == CopyDirs.TopDown(t, d) && CopyDirs.NoneFails(d + 1, t, fails, {})
                && forall i :: 0 <= i < |s| ==> current[i] == ((d < i < t) || s[i])
    {
      ghost var s, t := current[..], CopyDirs.Nearest(current[..], 0);
      ghost var k := t;
      while !current[0]
        invariant 0 <= k <= t < current.Length == |s| && current[k]
        invariant forall i :: 0 <= i < |s| ==> current[i] == ((k <= i < t) || s[i])
        invariant calls == CopyDirs.TopDown(t, k) && CopyDirs.NoneFails(k, t, fails, {})
        decreases k
      {
        var d: nat := 0;
        while !current[d + 1]
          invariant d < k && !current[d]
          decreases k - d
        {
          d := d + 1;
        }
        var e := RefreshDentry(d, fails);
        if e {
          return FailedAt(d);
        }
        k := d;
      }
      return Ok;
    }
  }

  datatype Outcome = Ok | FailedAt(d: nat)
}
