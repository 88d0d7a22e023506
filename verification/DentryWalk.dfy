/** The walk over a dentry tree without a stack (dcsub.c), and the refresh at remount that follows it
    (super.c). Dentries are numbered so that a child's number is greater than its parent's. */
module DentryWalk {
  import opened Basics

  /** `slot` is the position among the parent's d_subdirs, so that d_child.next is the next slot.
      `wanted` is d_sb, au_di and the caller's test together; `inUse` is d_count; `isDir` says that d_inode
      is a directory. */
  datatype Dentry = Dentry(parent: nat, slot: nat, kids: seq<nat>, inUse: bool, wanted: bool, isRoot: bool, isDir: bool)

  type Tree = seq<Dentry>

  /** Each child is where it says it is, below a directory; only the top of a tree is IS_ROOT. */
  ghost predicate WellFormed(f: Tree) {
    forall p, k :: 0 <= p < |f| && 0 <= k < |f[p].kids| ==>
      var c := f[p].kids[k];
      p < c < |f| && f[c].parent == p && f[c].slot == k && !f[c].isRoot && f[p].isDir
  }

  /** A dentry other than `root` is in the list of its parent. */
  ghost predicate Under(f: Tree, root: nat, d: nat)
    requires root < |f|
    decreases d
  {
    d < |f| && (d == root ||
      (var p := f[d].parent;
       root <= p < d && f[d].slot < |f[p].kids| && f[p].kids[f[d].slot] == d && Under(f, root, p)))
  }

  // ----- the walk, defined by recursion

  /** What visiting a parent emits. */
  function Emit(f: Tree, p: nat): seq<nat>
    requires p < |f|
  {
    if f[p].wanted && !f[p].isRoot && f[p].inUse then [p] else []
  }

  /** The subtree of a dentry that has children, and the rest of the children of `p` from slot `k` on:
      after each child's subtree the parent is emitted again. */
  function Walk(f: Tree, p: nat): seq<nat>
    requires WellFormed(f) && p < |f|
    decreases |f| - p, 1, 0
  {
    Emit(f, p) + Kids(f, p, 0)
  }

  function Kids(f: Tree, p: nat, k: nat): seq<nat>
    requires WellFormed(f) && p < |f| && k <= |f[p].kids|
    decreases |f| - p, 0, |f[p].kids| - k
  {
    if k == |f[p].kids| then [] else
      Kid(f, p, k) + Kids(f, p, k + 1)
  }

  function Kid(f: Tree, p: nat, k: nat): seq<nat>
    requires WellFormed(f) && p < |f| && k < |f[p].kids|
    decreases |f| - p, 0, |f[p].kids| - k, 0
  {
    var c := f[p].kids[k];
    if !f[c].inUse then []
    else if f[c].kids != [] then Walk(f, c) + Emit(f, p)
    else if f[c].wanted then [c] else []
  }

  /** What is still to come when the loop is at slot `k` of `p`. */
  function Rest(f: Tree, root: nat, p: nat, k: nat): seq<nat>
    requires WellFormed(f) && root < |f| && Under(f, root, p) && k <= |f[p].kids|
    decreases p
  {
    Kids(f, p, k) +
    if p == root then [] else
      var q := f[p].parent;
      Emit(f, q) + Rest(f, root, q, f[p].slot + 1)
  }

  /** How many steps the loop still makes. */
  function KidsSteps(f: Tree, p: nat, k: nat): nat
    requires WellFormed(f) && p < |f| && k <= |f[p].kids|
    decreases |f| - p, |f[p].kids| - k
  {
    if k == |f[p].kids| then 0 else
      var c := f[p].kids[k];
      (if f[c].inUse && f[c].kids != [] then 2 + KidsSteps(f, c, 0) else 1) + KidsSteps(f, p, k + 1)
  }

  function Steps(f: Tree, root: nat, p: nat, k: nat): nat
    requires WellFormed(f) && root < |f| && Under(f, root, p) && k <= |f[p].kids|
    decreases p
  {
    KidsSteps(f, p, k) + if p == root then 0 else 1 + Steps(f, root, f[p].parent, f[p].slot + 1)
  }

  /** Going down to a child that has children. */
  lemma GoDown(f: Tree, root: nat, p: nat, k: nat, out: seq<nat>)
    requires WellFormed(f) && root < |f| && Under(f, root, p) && k < |f[p].kids|
    requires var c := f[p].kids[k]; f[c].inUse && f[c].kids != []
    ensures var c := f[p].kids[k];
            && Under(f, root, c)
            && out + Rest(f, root, p, k) == (out + Emit(f, c)) + Rest(f, root, c, 0)
  {
    hide Steps, KidsSteps;
    var c := f[p].kids[k];
    UnderAbove(f, root, p);
    var up := if p == root then [] else Emit(f, f[p].parent) + Rest(f, root, f[p].parent, f[p].slot + 1);
    var more := Kids(f, p, k + 1);
    assert Rest(f, root, p, k + 1) == more + up;
    assert Kid(f, p, k) == Walk(f, c) + Emit(f, p);
    assert Walk(f, c) == Emit(f, c) + Kids(f, c, 0);
    assert Kids(f, p, k) == Kid(f, p, k) + more;
    assert Rest(f, root, p, k) == Kids(f, p, k) + up;
    assert Rest(f, root, c, 0) == Kids(f, c, 0) + (Emit(f, p) + Rest(f, root, p, k + 1));
    calc {
      Rest(f, root, p, k);
      (((Emit(f, c) + Kids(f, c, 0)) + Emit(f, p)) + more) + up;
      { ConcatAssoc((Emit(f, c) + Kids(f, c, 0)) + Emit(f, p), more, up); }
      ((Emit(f, c) + Kids(f, c, 0)) + Emit(f, p)) + Rest(f, root, p, k + 1);
      { ConcatAssoc(Emit(f, c) + Kids(f, c, 0), Emit(f, p), Rest(f, root, p, k + 1)); }
      (Emit(f, c) + Kids(f, c, 0)) + (Emit(f, p) + Rest(f, root, p, k + 1));
      { ConcatAssoc(Emit(f, c), Kids(f, c, 0), Emit(f, p) + Rest(f, root, p, k + 1)); }
      Emit(f, c) + Rest(f, root, c, 0);
    }
    ConcatAssoc(out, Emit(f, c), Rest(f, root, c, 0));
  }

  lemma GoDownSteps(f: Tree, root: nat, p: nat, k: nat)
    requires WellFormed(f) && root < |f| && Under(f, root, p) && k < |f[p].kids|
    requires var c := f[p].kids[k]; f[c].inUse && f[c].kids != []
    ensures var c := f[p].kids[k];
            Under(f, root, c) && Steps(f, root, c, 0) < Steps(f, root, p, k)
  {
    hide Rest, Kids, Kid, Walk;
    UnderAbove(f, root, p);
    var c := f[p].kids[k];
    assert Steps(f, root, p, k) == 2 + KidsSteps(f, c, 0) + Steps(f, root, p, k + 1);
  }

  lemma {:induction false} UnderAbove(f: Tree, root: nat, d: nat)
    requires root < |f| && Under(f, root, d)
    ensures root <= d < |f|
  {}

  /** Passing a child that is not in use or has no children. */
  lemma PassBy(f: Tree, root: nat, p: nat, k: nat, out: seq<nat>)
    requires WellFormed(f) && root < |f| && Under(f, root, p) && k < |f[p].kids|
    requires var c := f[p].kids[k]; !f[c].inUse || f[c].kids == []
    ensures out + Rest(f, root, p, k) == (out + Kid(f, p, k)) + Rest(f, root, p, k + 1)
  {
    hide KidsSteps, Steps, Kid;
    var up := if p == root then [] else Emit(f, f[p].parent) + Rest(f, root, f[p].parent, f[p].slot + 1);
    ConcatAssoc(Kid(f, p, k), Kids(f, p, k + 1), up);
    ConcatAssoc(out, Kid(f, p, k), Rest(f, root, p, k + 1));
  }

  lemma PassBySteps(f: Tree, root: nat, p: nat, k: nat)
    requires WellFormed(f) && root < |f| && Under(f, root, p) && k < |f[p].kids|
    ensures Steps(f, root, p, k + 1) < Steps(f, root, p, k)
  {}

  /** Going up when the children are done. */
  lemma GoUp(f: Tree, root: nat, p: nat, out: seq<nat>)
    requires WellFormed(f) && root < |f| && Under(f, root, p)
    ensures p == root ==> out + Rest(f, root, p, |f[p].kids|) == out
    ensures p != root ==>
              var q := f[p].parent;
              && Under(f, root, q) && f[p].slot < |f[q].kids|
              && out + Rest(f, root, p, |f[p].kids|) == (out + Emit(f, q)) + Rest(f, root, q, f[p].slot + 1)
              && Steps(f, root, q, f[p].slot + 1) < Steps(f, root, p, |f[p].kids|)
  {
    if p == root {
      assert Rest(f, root, p, |f[p].kids|) == [];
    } else {
      var q := f[p].parent;
      assert Rest(f, root, p, |f[p].kids|) == Emit(f, q) + Rest(f, root, q, f[p].slot + 1);
      ConcatAssoc(out, Emit(f, q), Rest(f, root, q, f[p].slot + 1));
    }
  }

  lemma WalkStart(f: Tree, root: nat)
    requires WellFormed(f) && root < |f|
    ensures Walk(f, root) == Emit(f, root) + Rest(f, root, root, 0)
  {
    assert Kids(f, root, 0) + [] == Kids(f, root, 0);
  }

  lemma KidInRange(f: Tree, p: nat, k: nat)
    requires WellFormed(f) && p < |f| && k < |f[p].kids|
    ensures p < f[p].kids[k] < |f|
  {}

  // ----- the code

  const PER_PAGE: nat := 512

  /** struct au_dcsub_pages */
  class Pages {
    var pages: seq<seq<nat>>

    ghost predicate Valid()
      reads this
    {
      && pages != [] && |pages[|pages| - 1]| <= PER_PAGE
      && forall i :: 0 <= i < |pages| - 1 ==> |pages[i]| == PER_PAGE
    }

    ghost function Contents(): seq<nat>
      reads this
    {
      Concat(pages)
    }

    /** au_dpages_init */
    constructor ()
      ensures Valid() && Contents() == []
    {
      pages := [[]];
    }

    /** au_dpages_append */
    method Append(d: nat)
      requires Valid()
      modifies this
      ensures Valid() && Contents() == old(Contents()) + [d]
    {
      var last := |pages| - 1;
      if |pages[last]| >= PER_PAGE {
        assert (pages + [[d]])[..|pages|] == pages;
        pages := pages + [[d]];
      } else {
        var page := pages[last];
        assert pages[last := page + [d]][..last] == pages[..last];
        ConcatAssoc(Concat(pages[..last]), page, [d]);
        pages := pages[last := page + [d]];
      }
    }

    /** au_dcsub_pages. It terminates and appends exactly the recursive walk. */
    method DcsubPages(f: Tree, root: nat)
      requires Valid() && WellFormed(f) && root < |f|
      modifies this
      ensures Valid() && Contents() == old(Contents()) + Walk(f, root)
    {
      var thisParent: nat, next: nat := root, 0;
      VisitParent(f, thisParent);
      ConcatAssoc(old(Contents()), Emit(f, root), Rest(f, root, root, 0));
      WalkStart(f, root);
      hide Rest, Steps, Walk, Kids, Emit, WellFormed, Pages.Contents;
      while true
        invariant Valid() && Under(f, root, thisParent) && next <= |f[thisParent].kids|
        invariant Contents() + Rest(f, root, thisParent, next) == old(Contents()) + Walk(f, root)
        decreases Steps(f, root, thisParent, next)
      {
        UnderAbove(f, root, thisParent);
        if next < |f[thisParent].kids| {
          KidInRange(f, thisParent, next);
          var dentry := f[thisParent].kids[next];
          if f[dentry].inUse && f[dentry].kids != [] {
            GoDown(f, root, thisParent, next, Contents());
            GoDownSteps(f, root, thisParent, next);
            VisitParent(f, dentry);
            thisParent, next := dentry, 0;
          } else {
            PassBy(f, root, thisParent, next, Contents());
            PassBySteps(f, root, thisParent, next);
            assert Contents() + [] == Contents();
            if f[dentry].inUse && f[dentry].wanted {
              Append(dentry);
            }
            next := next + 1;
          }
        } else {
          GoUp(f, root, thisParent, Contents());
          if thisParent == root {
            return;
          }
          var child := thisParent;
          thisParent := f[child].parent;
          VisitParent(f, thisParent);
          next := f[child].slot + 1;
        }
      }
    }

    /** The label resume. */
    method VisitParent(f: Tree, p: nat)
      requires Valid() && p < |f|
      modifies this
      ensures Valid() && Contents() == old(Contents()) + Emit(f, p)
    {
      assert Contents() + [] == Contents();
      if f[p].wanted && !f[p].isRoot && f[p].inUse {
        Append(p);
      }
    }
  }

  // ----- what the walk visits, and in which order

  /** `d` and all dentries between it and `root` are in use. */
  ghost predicate Reached(f: Tree, root: nat, d: nat)
    requires WellFormed(f) && root < |f|
    decreases d
  {
    Under(f, root, d) && (d == root || (f[d].inUse && Reached(f, root, f[d].parent)))
  }

  ghost predicate Listed(f: Tree, root: nat, d: nat)
    requires WellFormed(f) && root < |f|
  {
    Reached(f, root, d) && Emit(f, d) == [d]
  }

  lemma ReachKid(f: Tree, root: nat, p: nat, k: nat)
    requires WellFormed(f) && root < |f| && Reached(f, root, p) && k < |f[p].kids| && f[f[p].kids[k]].inUse
    ensures Reached(f, root, f[p].kids[k])
  {
    UnderAbove(f, root, p);
  }

  lemma {:induction false} KidsOnly(f: Tree, root: nat, p: nat, k: nat, d: nat)
    requires WellFormed(f) && root < |f| && Reached(f, root, p) && k <= |f[p].kids| && d in Kids(f, p, k)
    ensures Listed(f, root, d)
    decreases |f| - p, |f[p].kids| - k
  {
    if d in Kids(f, p, k + 1) {
      KidsOnly(f, root, p, k + 1, d);
    } else {
      var c := f[p].kids[k];
      assert d in Kid(f, p, k);
      ReachKid(f, root, p, k);
      if f[c].kids == [] {
        assert Emit(f, c) == [c] && d == c;
      } else {
        assert Kid(f, p, k) == Emit(f, c) + Kids(f, c, 0) + Emit(f, p);
        if d in Kids(f, c, 0) {
          KidsOnly(f, root, c, 0, d);
        } else {
          assert d in Emit(f, c) || d in Emit(f, p);
        }
      }
    }
  }

  lemma {:induction false} KidInKids(f: Tree, p: nat, k: nat, j: nat, d: nat)
    requires WellFormed(f) && p < |f| && k <= j < |f[p].kids| && d in Kid(f, p, j)
    ensures d in Kids(f, p, k)
    decreases j - k
  {
    if k == j {
    } else {
      KidInKids(f, p, k + 1, j, d);
    }
  }

  lemma {:induction false} WalkWithin(f: Tree, root: nat, q: nat, d: nat)
    requires WellFormed(f) && root < |f| && Reached(f, root, q) && f[q].kids != [] && d in Walk(f, q)
    ensures d in Walk(f, root)
    decreases q
  {
    if q == root {
    } else {
      var r := f[q].parent;
      assert d in Kid(f, r, f[q].slot);
      KidInKids(f, r, 0, f[q].slot, d);
      WalkWithin(f, root, r, d);
    }
  }

  /** The walk lists exactly the wanted dentries in use whose ancestors up to the root are in use. */
  lemma WalkLists(f: Tree, root: nat, d: nat)
    requires WellFormed(f) && root < |f|
    ensures d in Walk(f, root) <==> Listed(f, root, d)
  {
    if d in Walk(f, root) {
      if d in Kids(f, root, 0) {
        KidsOnly(f, root, root, 0, d);
      }
    }
    if Listed(f, root, d) && d != root {
      var q := f[d].parent;
      if f[d].kids != [] {
        assert Walk(f, d) == [d] + Kids(f, d, 0);
      }
      assert d in Kid(f, q, f[d].slot);
      KidInKids(f, q, 0, f[d].slot, d);
      WalkWithin(f, root, q, d);
    }
  }

  /** Every entry of `xs` comes after its parent, if the parent is listed at all. */
  ghost predicate After(f: Tree, root: nat, pre: seq<nat>, xs: seq<nat>) {
    forall j :: 0 <= j < |xs| ==> AfterParent(f, root, pre + xs[..j], xs[j])
  }

  ghost predicate AfterParent(f: Tree, root: nat, pre: seq<nat>, d: nat) {
    d < |f| && (d == root || (f[d].parent < |f| && (Emit(f, f[d].parent) == [] || f[d].parent in pre)))
  }

  lemma AfterConcat(f: Tree, root: nat, pre: seq<nat>, a: seq<nat>, b: seq<nat>)
    requires After(f, root, pre, a) && After(f, root, pre + a, b)
    ensures After(f, root, pre, a + b)
  {
    forall j | 0 <= j < |a + b| ensures AfterParent(f, root, pre + (a + b)[..j], (a + b)[j]) {
      if j < |a| {
        assert (a + b)[..j] == a[..j];
      } else {
        assert pre + (a + b)[..j] == pre + a + b[..j - |a|];
      }
    }
  }

  lemma AfterMore(f: Tree, root: nat, pre: seq<nat>, more: seq<nat>, d: nat)
    requires AfterParent(f, root, pre, d)
    ensures AfterParent(f, root, pre + more, d) && After(f, root, pre + more, [d])
  {
    assert pre + more + [d][..0] == pre + more;
  }

  lemma {:induction false} KidsAfter(f: Tree, root: nat, p: nat, k: nat, pre: seq<nat>)
    requires WellFormed(f) && root <= p < |f| && k <= |f[p].kids|
    requires Emit(f, p) != [] ==> p in pre
    requires AfterParent(f, root, pre, p)
    ensures After(f, root, pre, Kids(f, p, k))
    decreases |f| - p, |f[p].kids| - k
  {
    if k == |f[p].kids| {
    } else {
      var c := f[p].kids[k];
      AfterMore(f, root, pre, [], p);
      assert pre + [] == pre;
      AfterMore(f, root, pre, [], c);
      if f[c].inUse && f[c].kids != [] {
        var a := Emit(f, c);
        AfterMore(f, root, pre, a, c);
        assert After(f, root, pre, a);
        KidsAfter(f, root, c, 0, pre + a);
        AfterConcat(f, root, pre, a, Kids(f, c, 0));
        var w := Walk(f, c);
        AfterMore(f, root, pre, w, p);
        assert After(f, root, pre + w, Emit(f, p));
        AfterConcat(f, root, pre, w, Emit(f, p));
      }
      assert After(f, root, pre, Kid(f, p, k));
      AfterMore(f, root, pre, Kid(f, p, k), p);
      KidsAfter(f, root, p, k + 1, pre + Kid(f, p, k));
      AfterConcat(f, root, pre, Kid(f, p, k), Kids(f, p, k + 1));
    }
  }

  /** A parent comes before its children. */
  lemma WalkOrder(f: Tree, root: nat)
    requires WellFormed(f) && root < |f|
    ensures After(f, root, [], Walk(f, root))
  {
    var a := Emit(f, root);
    assert After(f, root, [], a);
    KidsAfter(f, root, root, 0, [] + a);
    AfterConcat(f, root, [], a, Kids(f, root, 0));
  }

  // ----- the refresh

  /** au_do_refresh_d on a dentry: only a stale one with a current parent is refreshed. */
  function RefreshOne(f: Tree, current: set<nat>, d: nat, ok: bool): set<nat>
    requires d < |f|
  {
    if f[d].parent in current && d !in current && ok then current + {d} else current
  }

  ghost predicate InRange(f: Tree, xs: seq<nat>) {
    forall j :: 0 <= j < |xs| ==> xs[j] < |f|
  }

  lemma WalkInRange(f: Tree, root: nat)
    requires WellFormed(f) && root < |f|
    ensures InRange(f, Walk(f, root))
  {
    var xs := Walk(f, root);
    forall j | 0 <= j < |xs| ensures xs[j] < |f| {
      WalkLists(f, root, xs[j]);
    }
  }

  /** The pass over the list; `oks[k]` tells whether the k-th refresh, if one is tried, succeeds. */
  ghost function Pass(f: Tree, current: set<nat>, xs: seq<nat>, oks: seq<bool>): set<nat>
    requires |oks| == |xs| && InRange(f, xs)
  {
    if xs == [] then current else
      var k := |xs| - 1;
      RefreshOne(f, Pass(f, current, xs[..k], oks[..k]), xs[k], oks[k])
  }

  /** Current dentries have current parents. */
  ghost predicate Closed(f: Tree, root: nat, current: set<nat>) {
    forall d: nat :: d in current && d != root ==> d < |f| && f[d].parent in current
  }

  /** Whatever fails. */
  lemma {:induction false} PassClosed(f: Tree, root: nat, current: set<nat>, xs: seq<nat>, oks: seq<bool>)
    requires |oks| == |xs| && InRange(f, xs) && Closed(f, root, current)
    ensures Closed(f, root, Pass(f, current, xs, oks)) && current <= Pass(f, current, xs, oks)
  {
    if xs == [] {
    } else {
      PassClosed(f, root, current, xs[..|xs| - 1], oks[..|xs| - 1]);
    }
  }

  /** Dentries of this file system have parents of this file system. */
  ghost predicate WantedUpwards(f: Tree, root: nat)
    requires WellFormed(f) && root < |f|
  {
    forall d: nat :: d != root && Listed(f, root, d) && f[d].parent != root ==> f[f[d].parent].wanted
  }

  lemma {:induction false} PassAll(f: Tree, root: nat, current: set<nat>, xs: seq<nat>, oks: seq<bool>)
    requires |oks| == |xs| && InRange(f, xs) && root in current
    requires forall k :: 0 <= k < |oks| ==> oks[k]
    requires forall j :: 0 <= j < |xs| ==> xs[j] == root || f[xs[j]].parent == root || f[xs[j]].parent in xs[..j]
    ensures current <= Pass(f, current, xs, oks) && forall d :: d in xs ==> d in Pass(f, current, xs, oks)
  {
    if xs == [] {
    } else {
      var k := |xs| - 1;
      forall j | 0 <= j < k
        ensures xs[..k][j] == root || f[xs[..k][j]].parent == root || f[xs[..k][j]].parent in xs[..k][..j]
      {
        assert xs[..k][..j] == xs[..j];
      }
      PassAll(f, root, current, xs[..k], oks[..k]);
      assert xs == xs[..k] + [xs[k]];
    }
  }

  lemma ParentListed(f: Tree, root: nat, d: nat)
    requires WellFormed(f) && root < |f| && WantedUpwards(f, root) && Listed(f, root, d)
    requires d != root && f[d].parent != root
    ensures f[d].parent < |f| && Emit(f, f[d].parent) != []
  {
    var p := f[d].parent;
    assert Reached(f, root, p) && Under(f, root, p);
    var q := f[p].parent;
    assert f[q].kids[f[p].slot] == p;
  }

  /** In the list every dentry but those at the top comes behind its parent. */
  lemma ParentsFirst(f: Tree, root: nat)
    requires WellFormed(f) && root < |f| && WantedUpwards(f, root)
    ensures InRange(f, Walk(f, root))
    ensures var xs := Walk(f, root);
            forall j :: 0 <= j < |xs| ==> xs[j] == root || f[xs[j]].parent == root || f[xs[j]].parent in xs[..j]
  {
    var xs := Walk(f, root);
    WalkOrder(f, root);
    WalkInRange(f, root);
    forall d: nat ensures d in xs <==> Listed(f, root, d) {
      WalkLists(f, root, d);
    }
    forall j | 0 <= j < |xs|
      ensures xs[j] == root || f[xs[j]].parent == root || f[xs[j]].parent in xs[..j]
    {
      var d := xs[j];
      assert AfterParent(f, root, [] + xs[..j], d);
      assert [] + xs[..j] == xs[..j];
      assert Listed(f, root, d);
      if d != root && f[d].parent != root {
        ParentListed(f, root, d);
      }
    }
  }

  /** One pass with successful refreshes leaves no listed dentry stale. */
  lemma OnePassSuffices(f: Tree, root: nat, current: set<nat>, oks: seq<bool>)
    requires WellFormed(f) && root < |f| && f[root].isRoot && WantedUpwards(f, root) && root in current
    requires |oks| == |Walk(f, root)| && forall k :: 0 <= k < |oks| ==> oks[k]
    ensures InRange(f, Walk(f, root))
    ensures forall d: nat :: Listed(f, root, d) ==> d in Pass(f, current, Walk(f, root), oks)
  {
    var xs := Walk(f, root);
    WalkInRange(f, root);
    forall d: nat ensures d in xs <==> Listed(f, root, d) {
      WalkLists(f, root, d);
    }
    ParentsFirst(f, root);
    PassAll(f, root, current, xs, oks);
  }

  /** FAILED_REFRESH_DIR: the refresh of a directory was tried and failed. */
  ghost predicate FailedDir(f: Tree, current: set<nat>, xs: seq<nat>, oks: seq<bool>)
    requires |oks| == |xs| && InRange(f, xs)
  {
    xs != [] &&
      var k := |xs| - 1;
      var c := Pass(f, current, xs[..k], oks[..k]);
      FailedDir(f, current, xs[..k], oks[..k]) || (f[xs[k]].isDir && f[xs[k]].parent in c && xs[k] !in c && !oks[k])
  }

  /** The refresh of anything was tried and failed. */
  ghost predicate FailedAny(f: Tree, current: set<nat>, xs: seq<nat>, oks: seq<bool>)
    requires |oks| == |xs| && InRange(f, xs)
  {
    xs != [] &&
      var k := |xs| - 1;
      var c := Pass(f, current, xs[..k], oks[..k]);
      FailedAny(f, current, xs[..k], oks[..k]) || (f[xs[k]].parent in c && xs[k] !in c && !oks[k])
  }

  /** What `ParentsFirst` says of entry `j`, and that the parent is a directory. */
  ghost predicate BehindDir(f: Tree, root: nat, xs: seq<nat>, j: nat)
    requires j < |xs| && InRange(f, xs)
  {
    var p := f[xs[j]].parent;
    xs[j] == root || p == root || (p in xs[..j] && f[p].isDir)
  }

  lemma {:induction false} PassDirs(f: Tree, root: nat, current: set<nat>, xs: seq<nat>, oks: seq<bool>)
    requires |oks| == |xs| && InRange(f, xs) && root in current && !FailedDir(f, current, xs, oks)
    requires forall j :: 0 <= j < |xs| ==> BehindDir(f, root, xs, j)
    ensures current <= Pass(f, current, xs, oks)
    ensures forall d :: d in xs && f[d].isDir ==> d in Pass(f, current, xs, oks)
  {
    if xs == [] {
    } else {
      var k := |xs| - 1;
      forall j | 0 <= j < k ensures BehindDir(f, root, xs[..k], j) {
        assert BehindDir(f, root, xs, j) && xs[..k][..j] == xs[..j];
      }
      PassDirs(f, root, current, xs[..k], oks[..k]);
      assert xs == xs[..k] + [xs[k]];
      assert BehindDir(f, root, xs, k);
    }
  }

  /** While no directory's refresh fails, whatever else does, every listed directory is current after the pass,
      and so is the parent of every listed dentry. */
  lemma DirsStayCurrent(f: Tree, root: nat, current: set<nat>, oks: seq<bool>)
    requires WellFormed(f) && root < |f| && f[root].isRoot && WantedUpwards(f, root) && root in current
    requires |oks| == |Walk(f, root)|
    ensures InRange(f, Walk(f, root))
    ensures !FailedDir(f, current, Walk(f, root), oks) ==>
              var after := Pass(f, current, Walk(f, root), oks);
              && (forall d: nat :: Listed(f, root, d) && f[d].isDir ==> d in after)
              && forall d: nat :: Listed(f, root, d) && d != root ==> f[d].parent in after
  {
    var xs := Walk(f, root);
    WalkInRange(f, root);
    if !FailedDir(f, current, xs, oks) {
      ParentsFirst(f, root);
      forall d: nat ensures d in xs <==> Listed(f, root, d) {
        WalkLists(f, root, d);
      }
      forall j | 0 <= j < |xs| ensures BehindDir(f, root, xs, j) && (xs[j] != root ==> f[f[xs[j]].parent].isDir) {
        if xs[j] != root {
          ParentIsDir(f, root, xs[j]);
        }
      }
      hide Pass, FailedDir, Walk, Listed, WantedUpwards, WellFormed;
      PassDirs(f, root, current, xs, oks);
    }
  }

  lemma ParentIsDir(f: Tree, root: nat, d: nat)
    requires WellFormed(f) && root < |f| && Listed(f, root, d) && d != root
    ensures f[d].parent < |f| && f[f[d].parent].isDir
  {
    var p := f[d].parent;
    assert f[p].kids[f[d].slot] == d;
  }

  class Super {
    /** The dentries whose generation is the super block's. */
    var current: set<nat>
    var failedRefreshDir: bool

    /** au_remount_refresh: the flag is cleared before. */
    constructor (current: set<nat>)
      ensures this.current == current && !failedRefreshDir
    {
      this.current, failedRefreshDir := current, false;
    }

    /** au_refresh_d; `oks` are the outcomes of au_do_refresh, call by call. */
    method AuRefreshD(f: Tree, root: nat, oks: seq<bool>) returns (err: bool)
      requires WellFormed(f) && root < |f| && |oks| == |Walk(f, root)|
      modifies this
      ensures InRange(f, Walk(f, root))
      ensures current == Pass(f, old(current), Walk(f, root), oks)
      ensures failedRefreshDir == (old(failedRefreshDir) || FailedDir(f, old(current), Walk(f, root), oks))
      ensures err <==> FailedAny(f, old(current), Walk(f, root), oks)
      ensures failedRefreshDir ==> old(failedRefreshDir) || err
      ensures err ==> false in oks
    {
      var dpages := new Pages();
      dpages.DcsubPages(f, root);
      WalkInRange(f, root);
      assert [] + Walk(f, root) == Walk(f, root);
      err := RefreshPages(f, dpages.pages, oks);
    }

    /** The loop over the pages. */
    method RefreshPages(f: Tree, pages: seq<seq<nat>>, oks: seq<bool>) returns (err: bool)
      requires |oks| == |Concat(pages)| && InRange(f, Concat(pages))
      modifies this
      ensures current == Pass(f, old(current), Concat(pages), oks)
      ensures failedRefreshDir == (old(failedRefreshDir) || FailedDir(f, old(current), Concat(pages), oks))
      ensures err <==> FailedAny(f, old(current), Concat(pages), oks)
      ensures failedRefreshDir ==> old(failedRefreshDir) || err
      ensures err ==> false in oks
    {
      ghost var xs, before := Concat(pages), current;
      ghost var done: seq<nat>, doneOks: seq<bool> := [], [];
      err := false;
      var n: nat := 0;
      assert current == Pass(f, before, done, doneOks) && InRange(f, done) && !FailedDir(f, before, done, doneOks)
             && !FailedAny(f, before, done, doneOks);
      PagesNone(pages);
      hide Pass, InRange, Concat, FailedDir, FailedAny;
      for i := 0 to |pages|
        invariant done == Concat(pages[..i]) && n == |done| <= |oks| && doneOks == oks[..n]
        invariant InRange(f, done) && current == Pass(f, before, done, doneOks)
        invariant failedRefreshDir == (old(failedRefreshDir) || FailedDir(f, before, done, doneOks))
        invariant err <==> FailedAny(f, before, done, doneOks)
        invariant failedRefreshDir ==> old(failedRefreshDir) || err
        invariant err ==> false in oks
      {
        ConcatUpTo(pages, i);
        var dpage := pages[i];
        PageInRange(f, xs, done, dpage);
        var m := n + |dpage|;
        SliceCat(oks, n, m);
        PassConcat(f, before, done, dpage, doneOks, oks[n..m]);
        var e := RefreshPage(f, dpage, oks[n..m]);
        err := err || e;
        done, doneOks, n := done + dpage, doneOks + oks[n..m], m;
      }
      assert pages[..|pages|] == pages && oks[..n] == oks;
    }

    /** One page of the list. */
    method RefreshPage(f: Tree, dpage: seq<nat>, oks: seq<bool>) returns (err: bool)
      requires InRange(f, dpage) && |oks| == |dpage|
      modifies this
      ensures current == Pass(f, old(current), dpage, oks)
      ensures failedRefreshDir == (old(failedRefreshDir) || FailedDir(f, old(current), dpage, oks))
      ensures err <==> FailedAny(f, old(current), dpage, oks)
      ensures failedRefreshDir ==> old(failedRefreshDir) || err
      ensures err ==> false in oks
    {
      err := false;
      for j := 0 to |dpage|
        invariant current == Pass(f, old(current), dpage[..j], oks[..j])
        invariant failedRefreshDir == (old(failedRefreshDir) || FailedDir(f, old(current), dpage[..j], oks[..j]))
        invariant err <==> FailedAny(f, old(current), dpage[..j], oks[..j])
        invariant failedRefreshDir ==> old(failedRefreshDir) || err
        invariant err ==> false in oks
      {
        var d := dpage[j];
        assert dpage[..j + 1][..j] == dpage[..j] && oks[..j + 1][..j] == oks[..j];
        if f[d].parent in current && d !in current {
          if oks[j] {
            current := current + {d};
          } else {
            err := true;
            failedRefreshDir := failedRefreshDir || f[d].isDir;
          }
        }
      }
      assert dpage[..|dpage|] == dpage && oks[..|oks|] == oks;
    }
  }

  lemma {:induction false} PassConcat(f: Tree, current: set<nat>, xs: seq<nat>, ys: seq<nat>, oks: seq<bool>,
                                      pks: seq<bool>)
    requires |oks| == |xs| && |pks| == |ys| && InRange(f, xs) && InRange(f, ys)
    ensures InRange(f, xs + ys)
    ensures Pass(f, current, xs + ys, oks + pks) == Pass(f, Pass(f, current, xs, oks), ys, pks)
    ensures FailedDir(f, current, xs + ys, oks + pks) <==>
            FailedDir(f, current, xs, oks) || FailedDir(f, Pass(f, current, xs, oks), ys, pks)
    ensures FailedAny(f, current, xs + ys, oks + pks) <==>
            FailedAny(f, current, xs, oks) || FailedAny(f, Pass(f, current, xs, oks), ys, pks)
    decreases |ys|
  {
    if ys == [] {
      assert xs + ys == xs && oks + pks == oks;
    } else {
      var k := |ys| - 1;
      PassConcat(f, current, xs, ys[..k], oks, pks[..k]);
      assert (xs + ys)[..|xs| + k] == xs + ys[..k];
      assert (oks + pks)[..|xs| + k] == oks + pks[..k];
    }
  }

  lemma PagesNone(pages: seq<seq<nat>>)
    ensures Concat(pages[..0]) == []
  {}

  lemma SliceCat<T>(xs: seq<T>, n: nat, m: nat)
    requires n <= m <= |xs|
    ensures xs[..n] + xs[n..m] == xs[..m]
    ensures forall x :: x in xs[n..m] ==> x in xs
  {}

  lemma PageInRange(f: Tree, xs: seq<nat>, done: seq<nat>, dpage: seq<nat>)
    requires InRange(f, xs) && done + dpage <= xs
    ensures InRange(f, dpage) && |done| + |dpage| <= |xs|
  {
    assert forall j :: 0 <= j < |dpage| ==> dpage[j] == (done + dpage)[|done| + j] == xs[|done| + j];
  }

  lemma {:induction false} ConcatUpTo(pages: seq<seq<nat>>, i: nat)
    requires i < |pages|
    ensures Concat(pages[..i + 1]) == Concat(pages[..i]) + pages[i]
    ensures Concat(pages[..i + 1]) <= Concat(pages)
    decreases |pages| - i
  {
    assert pages[..i + 1][..i] == pages[..i];
    if i + 1 < |pages| {
      ConcatUpTo(pages, i + 1);
    } else {
      assert pages[..i + 1] == pages;
    }
  }
}
