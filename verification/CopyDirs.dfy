/** Creating the missing ancestors of an entry on a branch, top down (au_cp_dirs, cpup.c). Ancestors are
    numbered upwards: 0 is the parent, the last is the root, which every branch has. */
module CopyDirs {

  /** The lowest ancestor that exists, from `i` upwards. */
  function Nearest(present: seq<bool>, i: nat): (r: nat)
    requires i < |present| && present[|present| - 1]
    ensures i <= r < |present| && present[r] && forall j :: i <= j < r ==> !present[j]
    decreases |present| - i
  {
    if present[i] then i else Nearest(present, i + 1)
  }

  /** The ancestors `t - 1`, `t - 2`, ..., `k`, in this order. */
  function TopDown(t: nat, k: nat): (r: seq<nat>)
    requires k <= t
    ensures |r| == t - k && forall i :: 0 <= i < |r| ==> r[i] == t - 1 - i
    decreases t - k
  {
    if k == t then [] else TopDown(t, k + 1) + [k]
  }

  /** Neither the pin nor the copy of the ancestors from `lo` below `hi` fails. */
  ghost predicate NoneFails(lo: nat, hi: nat, pinFails: set<nat>, cpFails: set<nat>) {
    forall i :: lo <= i < hi ==> i !in pinFails && i !in cpFails
  }

  datatype Error = PinFailed | CpFailed

  datatype Result = Ok | Err(at: nat, error: Error)

  class Ancestors {
    /** Whether the ancestor's directory exists on the branch. */
    const present: array<bool>
    /** The ancestors `cp` was called for. */
    ghost var calls: seq<nat>

    constructor (n: nat)
      requires n > 0
      ensures fresh(present) && present.Length == n && present[n - 1] && calls == []
    {
      present := new bool[n](i => i == n - 1);
      calls := [];
    }

    /** The `cp` argument: au_cpup_dir or au_cpdown_dir. Its own parent must be there. */
    method Cp(d: nat, fails: set<nat>) returns (err: bool)
      requires d + 1 < present.Length && present[d + 1] && !present[d]
      modifies this, present
      ensures calls == old(calls) + [d] && err == (d in fails)
      ensures present[..] == if err then old(present[..]) else old(present[..])[d := true]
    {
      calls := calls + [d];
      err := d in fails;
      if !err {
        present[d] := true;
      }
    }

    /** au_cp_dirs; `isRoot` says that the parent is the root. It calls `cp` exactly once for each missing
        ancestor below the nearest existing one, from the top down, and stops at the first failure. */
    method CpDirs(pinFails: set<nat>, cpFails: set<nat>) returns (r: Result)
      requires present.Length > 0 && present[present.Length - 1] && calls == []
      modifies this, present
      ensures var s, t := old(present[..]), Nearest(old(present[..]), 0);
              match r
              case Ok => calls == TopDown(t, 0) && present[0] && NoneFails(0, t, pinFails, cpFails)
                         && forall i :: 0 <= i < |s| ==> present[i] == (i < t || s[i])
              case Err(d, CpFailed) =>
                && d < t && d in cpFails && d !in pinFails && calls == TopDown(t, d)
                && NoneFails(d + 1, t, pinFails, cpFails)
                && forall i :: 0 <= i < |s| ==> present[i] == ((d < i < t) || s[i])
              case Err(d, PinFailed) =>
                && d < t && d in pinFails && calls == TopDown(t, d + 1) && NoneFails(d + 1, t, pinFails, cpFails)
                && forall i :: 0 <= i < |s| ==> present[i] == ((d < i < t) || s[i])
    {
      if present.Length == 1 {
        return Ok;
      }
      ghost var s, t := present[..], Nearest(present[..], 0);
      ghost var k := t;
      while true
        invariant 0 <= k <= t < present.Length == |s| && present[k]
        invariant forall i :: 0 <= i < |s| ==> present[i] == ((k <= i < t) || s[i])
        invariant calls == TopDown(t, k) && NoneFails(k, t, pinFails, cpFails)
        decreases k
      {
        if present[0] {
          return Ok;
        }
        // find the top directory that has to be made
        var d: nat, parent: nat := 0, 1;
        while !present[parent]
          invariant d + 1 == parent <= k && !present[d]
          decreases k - parent
        {
          d, parent := parent, parent + 1;
        }
        if d in pinFails {
          return Err(d, PinFailed);
        }
        var err := Cp(d, cpFails);
        if err {
          return Err(d, CpFailed);
        }
        k := d;
      }
    }
  }
}
