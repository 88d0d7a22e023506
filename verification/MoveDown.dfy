/** Moving a file to a lower branch (mvdown.c): the checks made beforehand, and what the union shows in
    every state of the copy, the removal of the whiteout and the removal of the upper file. */
module MoveDown {
  import opened Basics
  import opened Layers
  import Lookup
  import EntryOps

  /** The parent directory on every branch its own parent is merged from, whether its lookup reaches that
      branch or not, and its private data, which says how far down it is merged. */
  datatype Parent = Parent(all: Stack, di: Lookup.Dinfo)

  /** How many branches are merged: one more than au_dbtaildir. */
  function Depth(p: Parent): nat {
    var tail := Lookup.DbTailDir(p.di);
    if tail < 0 then 0 else if tail >= |p.all| then |p.all| else tail + 1
  }

  function Merged(p: Parent): Stack {
    p.all[..Depth(p)]
  }

  function Shown(p: Parent, n: Name): Option<Node> {
    View(Merged(p), n)
  }

  /** What lookup, and making the directory on lower branches, leave in the private data of a directory that
      exists: no branch from the end of its range to its whiteout holds it unless it is opaque, nor does the
      branch of the whiteout. */
  ghost predicate Sound(p: Parent) {
    && 0 <= p.di.bstart <= p.di.bend < |p.all|
    && (p.di.bwh == -1 || (p.di.bstart < p.di.bwh < |p.all| && p.di.bwh != p.di.bend && p.di.bdiropq < p.di.bwh
                          && !p.all[p.di.bwh].present))
    && -1 <= p.di.bdiropq <= p.di.bend
    && (forall i :: 0 <= i < |p.all| && !p.all[i].present ==> p.all[i].ents == map[])
    && forall i :: p.di.bdiropq == -1 && Depth(p) <= i < |p.all| && (p.di.bwh == -1 || i < p.di.bwh) ==>
        !p.all[i].present
  }

  /** `all` is directory `n`, seen in the layers `s` of its own parent, on each branch; the branches from
      |s| on are those its parent is not merged from. */
  ghost predicate DirOf(s: Stack, n: Name, all: Stack) {
    && |s| <= |all|
    && (forall i :: 0 <= i < |all| && !all[i].present ==> all[i].ents == map[])
    && forall i :: 0 <= i < |s| ==> (all[i].present <==> Lookup.IsDir(s[i], n))
  }

  /** A fresh lookup of a directory leaves sound private data, if and only if nothing is left below the
      branches its parent is merged from, unless the directory ends at a whiteout or an opaque copy itself. */
  lemma LookupIsSound(s: Stack, n: Name, all: Stack)
    requires WellFormed(s) && !Refused(n) && DirOf(s, n, all)
    requires Find(s, n, 0) >= 0 && Lookup.IsDir(s[Find(s, n, 0)], n)
    ensures Lookup.FreshLookup(s, n, |all|).Some?
    ensures var d := Lookup.FreshLookup(s, n, |all|).value.1;
            Sound(Parent(all, d)) <==>
            d.bwh >= 0 || d.bdiropq >= 0 || forall i :: |s| <= i < |all| ==> !all[i].present
  {
    hide Lookup.FreshLookup;
    Lookup.FreshLookupMeaning(s, n, |all|);
    FindMeaning(s, n, 0);
    var d := Lookup.FreshLookup(s, n, |all|).value.1;
    LookedRange(s, n, d);
    var p := Parent(all, d);
    Lookup.TailOf(s, n, d);
    assert d.bwh >= 0 ==> !all[d.bwh].present by {
      if d.bwh >= 0 {
        assert WellFormedLayer(s[d.bwh]) && !IsWhName(n);
      }
    }
    forall i | d.bend < i < |s| && (d.bwh == -1 || i < d.bwh) ensures !all[i].present {
      assert Clear(s, n, 0, i + 1);
      assert !Lookup.IsCopy(s, n, i);
    }
  }

  lemma LookedRange(s: Stack, n: Name, d: Lookup.Dinfo)
    requires Find(s, n, 0) >= 0 && d.bstart == Find(s, n, 0) && Lookup.IsDir(s[d.bstart], n)
    requires Lookup.IsCopy(s, n, d.bend) && d.bwh == Lookup.FirstWh(s, n, 0)
    requires d.bdiropq == -1 || Lookup.IsOpqCopy(s, n, d.bdiropq)
    requires forall i :: Lookup.IsCopy(s, n, i) ==> i <= d.bend
    ensures 0 <= d.bstart <= d.bend < |s| && -1 <= d.bdiropq <= d.bend
    ensures d.bwh == -1 || (d.bend < d.bwh < |s| && HasWh(s[d.bwh], n))
  {
    assert d.bdiropq == -1 || Lookup.IsCopy(s, n, d.bdiropq);
  }

  lemma DepthOf(p: Parent)
    requires Sound(p)
    ensures Depth(p) == 1 + if 0 <= p.di.bdiropq then p.di.bdiropq
                            else if 0 <= p.di.bwh < p.di.bend then p.di.bwh - 1
                            else p.di.bend
  {}

  datatype Error = EINVAL_OPAQUE | EINVAL_WHITEOUT | EINVAL_UPPER | EEXIST | EIO

  // ----- the checks

  /** au_mvd_args_intermediate: the next lower entry, or the first lower whiteout, each -1 when absent. */
  function Intermediate(e: Lookup.Dinfo, s: Stack, n: Name, bsrc: nat): Option<(int, int)>
    requires bsrc < |s| <= |e.hd|
  {
    match Lookup.Walk(Lookup.Scratch(e), s, n, bsrc + 1, true, Lookup.AnyKind, Lookup.Only(Reg))
    case None => None
    case Some((c, d)) => if c == 0 then Some((-1, d.bwh)) else Some((Lookup.Finish(c, d).bstart, -1))
  }

  lemma VisitKeeps(d: Lookup.Dinfo, l: Layer, n: Name, b: nat, allowNeg: bool, typ: Lookup.KindOpt,
                   inode: Lookup.KindOpt)
    requires b < |d.hd| && d.bend < |d.hd|
    ensures var e := Lookup.Visit(d, l, n, b, allowNeg, typ, inode).1;
            && |e.hd| == |d.hd| && d.bend <= e.bend < |e.hd|
            && (0 <= d.bstart < b ==> e.bstart == d.bstart)
            && forall i :: 0 <= i < b ==> e.hd[i] == d.hd[i]
  {}

  /** A walk never touches the slots above where it is, and never lowers the end. */
  lemma {:induction false} WalkKeepsAbove(d: Lookup.Dinfo, s: Stack, n: Name, b: nat, allowNeg: bool,
                                          typ: Lookup.KindOpt, inode: Lookup.KindOpt)
    requires b <= |s| <= |d.hd| && d.bend < |d.hd|
    ensures var r := Lookup.Walk(d, s, n, b, allowNeg, typ, inode);
            r.Some? ==> var e := r.value.1;
              && |e.hd| == |d.hd| && d.bend <= e.bend < |e.hd|
              && (0 <= d.bstart < b ==> e.bstart == d.bstart)
              && forall i :: 0 <= i < b ==> e.hd[i] == d.hd[i]
    decreases |s| - b
  {
    if b == |s| {
    } else {
      VisitKeeps(d, s[b], n, b, allowNeg, typ, inode);
      hide Lookup.Visit;
      if s[b].present {
        var (h, d') := Lookup.Visit(d, s[b], n, b, allowNeg, typ, inode);
        WalkKeepsAbove(d', s, n, b + 1, false, typ, inode);
        WalkKeepsAbove(d', s, n, b + 1, false, Lookup.Only(Dir), inode);
      } else {
        WalkKeepsAbove(d, s, n, b + 1, allowNeg, typ, inode);
      }
    }
  }

  /** What one layer does to a lookup of any kind of entry. */
  lemma VisitAny(d: Lookup.Dinfo, l: Layer, n: Name, b: nat, allowNeg: bool, inode: Lookup.KindOpt)
    requires b < |d.hd| && d.bend < |d.hd| && (HasWh(l, n) ==> !Lookup.BadWh(l, n) && n !in l.ents)
    ensures var (h, e) := Lookup.Visit(d, l, n, b, allowNeg, Lookup.AnyKind, inode);
            && !h.ErrPtr? && (h.Found? ==> !h.slot.Unset?)
            && e.bwh == (if HasWh(l, n) then b else d.bwh)
            && (h.Found? && h.slot.Pos? <==> n in l.ents)
            && (if n in l.ents then e.hd[b].Pos? && b <= e.bend else e.hd[b] == d.hd[b] || e.hd[b] == Lookup.Neg)
            && forall i :: 0 <= i < |d.hd| && i != b ==> e.hd[i] == d.hd[i]
  {}

  /** Below an entry whose slot is already set, a lookup that finds something makes the topmost lower copy
      the first positive slot, and one that finds nothing records the first lower whiteout. */
  lemma {:induction false} WalkBelow(d: Lookup.Dinfo, s: Stack, n: Name, b: nat, allowNeg: bool, inode: Lookup.KindOpt)
    requires b <= |s| <= |d.hd| && d.bend < |d.hd| && d.bwh == -1 && 0 <= d.bstart < b && Lookup.Sound(s, n)
    ensures var r := Lookup.Walk(d, s, n, b, allowNeg, Lookup.AnyKind, inode);
            var f := Find(s, n, b);
            && r.Some? && (r.value.0 > 0 <==> f >= 0)
            && var e := r.value.1;
            && |e.hd| == |d.hd| && e.bend < |e.hd| && e.bstart == d.bstart
            && (forall i :: 0 <= i < b ==> e.hd[i] == d.hd[i])
            && (f < 0 ==> e.bwh == Lookup.FirstWh(s, n, b))
            && (f >= 0 ==> f <= e.bend && e.hd[f].Pos? && forall i :: b <= i < f && d.hd[i] == Lookup.Unset ==>
                !e.hd[i].Pos?)
    decreases |s| - b
  {
    Lookup.WalkFinds(d, s, n, b, allowNeg, inode);
    WalkKeepsAbove(d, s, n, b, allowNeg, Lookup.AnyKind, inode);
    if b == |s| {
    } else {
      if !s[b].present {
        WalkBelow(d, s, n, b + 1, allowNeg, inode);
      } else {
        VisitAny(d, s[b], n, b, allowNeg, inode);
        VisitKeeps(d, s[b], n, b, allowNeg, Lookup.AnyKind, inode);
        hide Lookup.Visit;
        var (h, d') := Lookup.Visit(d, s[b], n, b, allowNeg, Lookup.AnyKind, inode);
        if d'.bwh < 0 {
          if h.Null? || h.slot.Neg? {
            WalkBelow(d', s, n, b + 1, false, inode);
          } else {
            WalkKeepsAbove(d', s, n, b + 1, false, Lookup.Only(Dir), inode);
          }
        }
      }
    }
  }

  /** For a file whose topmost copy is at `bsrc` and that records no whiteout, the check finds what it
      looks for. */
  lemma IntermediateMeaning(e: Lookup.Dinfo, s: Stack, n: Name, bsrc: nat)
    requires bsrc < |s| <= |e.hd| && e.bend < |e.hd| && e.bwh == -1 && e.bstart == bsrc
    requires WellFormed(s) && !Refused(n)
    ensures Intermediate(e, s, n, bsrc) ==
            var f := Find(s, n, bsrc + 1);
            if f >= 0 then Some((f, -1)) else Some((-1, Lookup.FirstWh(s, n, bsrc + 1)))
  {
    Lookup.WellFormedIsSound(s, n);
    var d := Lookup.Scratch(e);
    WalkBelow(d, s, n, bsrc + 1, true, Lookup.Only(Reg));
    var f := Find(s, n, bsrc + 1);
    if f >= 0 {
      var g := Lookup.Walk(d, s, n, bsrc + 1, true, Lookup.AnyKind, Lookup.Only(Reg)).value.1;
      Lookup.UpdateDbstartMeaning(g, bsrc, f);
    }
  }

  /** au_mvd_args_parent, au_mvd_args_intermediate and au_mvd_args_exist; `nonopq` is what au_wbr_nonopq
      answers for the ancestors. They pass exactly when nothing between the two branches, as far as the
      parent is merged, holds or hides the name. */
  method CheckArgs(p: Parent, e: Lookup.Dinfo, n: Name, bsrc: nat, bdst: nat, nonopq: int, owlower: bool)
      returns (err: Option<Error>)
    requires Sound(p) && WellFormed(Merged(p)) && !Refused(n)
    requires bsrc < |Merged(p)| <= |e.hd| && e.bend < |e.hd| && e.bwh == -1 && e.bstart == bsrc
    ensures var f := Find(Merged(p), n, bsrc + 1);
            var w := Lookup.FirstWh(Merged(p), n, bsrc + 1);
            err == if 0 <= nonopq < bdst || 0 <= p.di.bdiropq < bdst then Some(EINVAL_OPAQUE)
                   else if f < 0 && 0 <= w < bdst then Some(EINVAL_WHITEOUT)
                   else if 0 <= f < bdst then Some(EINVAL_UPPER)
                   else if f == bdst && !owlower then Some(EEXIST)
                   else None
  {
    if 0 <= nonopq < bdst || (p.di.bdiropq != -1 && p.di.bdiropq < bdst) {
      return Some(EINVAL_OPAQUE);
    }
    IntermediateMeaning(e, Merged(p), n, bsrc);
    var found := Intermediate(e, Merged(p), n, bsrc);
    if found.None? {
      return Some(EIO);
    }
    var (bfound, bwh) := found.value;
    if bfound == -1 && bsrc < bwh && bwh != -1 && bwh < bdst {
      return Some(EINVAL_WHITEOUT);
    } else if bfound != -1 && bfound < bdst {
      return Some(EINVAL_UPPER);
    }
    if !owlower && bfound == bdst {
      return Some(EEXIST);
    }
    return None;
  }

  /** What the checks promise for a destination below the source. */
  ghost predicate Checked(p: Parent, n: Name, bsrc: nat, bdst: nat) {
    && bsrc < bdst < |p.all| && bsrc < Depth(p)
    && (p.di.bdiropq == -1 || bdst <= p.di.bdiropq)
    && FreeBetween(p, n, bsrc, bdst)
  }

  /** No merged layer between the two branches holds or hides the name. */
  ghost predicate FreeBetween(p: Parent, n: Name, bsrc: nat, bdst: nat)
    requires bdst < |p.all|
  {
    var m := if bdst < Depth(p) then bdst else Depth(p);
    Clear(p.all, n, bsrc + 1, m) && Lacks(p.all, n, bsrc + 1, m)
  }

  lemma {:induction false} FindNone(s: Stack, n: Name, lo: nat, m: nat)
    requires lo <= m <= |s| && Find(s, n, lo) < 0 && Clear(s, n, lo, m)
    ensures Lacks(s, n, lo, m)
    decreases m - lo
  {
    if lo == m {
    } else {
      FindNone(s, n, lo + 1, m);
    }
  }

  lemma ChecksPass(p: Parent, n: Name, bsrc: nat, bdst: nat)
    requires Sound(p) && bsrc < bdst < |p.all| && bsrc < Depth(p)
    requires p.di.bdiropq == -1 || bdst <= p.di.bdiropq
    requires var f := Find(Merged(p), n, bsrc + 1);
             var w := Lookup.FirstWh(Merged(p), n, bsrc + 1);
             if f >= 0 then bdst <= f else w == -1 || bdst <= w
    ensures Checked(p, n, bsrc, bdst)
  {
    var s := Merged(p);
    FindMeaning(s, n, bsrc + 1);
    var f := Find(s, n, bsrc + 1);
    var m := if bdst < Depth(p) then bdst else Depth(p);
    assert Clear(s, n, bsrc + 1, m);
    if f < 0 {
      FindNone(s, n, bsrc + 1, m);
    }
    assert forall j :: 0 <= j < m ==> s[j] == p.all[j];
  }

  // ----- what the states show

  /** Lookup of `n` depends only on the layers down to the one that provides it. */
  lemma {:induction false} FindUpper(s: Stack, t: Stack, n: Name, b: nat, k: nat)
    requires b <= k < |s| && k < |t| && Find(s, n, b) == k
    requires forall j :: b <= j <= k ==> t[j] == s[j]
    ensures Find(t, n, b) == k
    decreases k - b
  {
    if b == k {
    } else {
      FindUpper(s, t, n, b + 1, k);
    }
  }

  /** Layers that hold nothing change nothing when they are appended. */
  lemma {:induction false} FindLonger(s: Stack, t: Stack, n: Name, b: nat)
    requires b <= |s| <= |t| && t[..|s|] == s && forall j :: |s| <= j < |t| ==> t[j].ents == map[]
    ensures Find(t, n, b) == Find(s, n, b)
    decreases |t| - b
  {
    if b < |s| {
      assert t[b] == s[b];
      FindLonger(s, t, n, b + 1);
    } else {
      FindSkip(t, n, b, |t|);
    }
  }

  /** A name every branch says the same about, in a range that did not change, shows the same. */
  lemma SameShown(p: Parent, q: Parent, n: Name)
    requires q.di == p.di && EntryOps.SameName(p.all, q.all, n)
    ensures Shown(q, n) == Shown(p, n)
  {
    assert EntryOps.SameName(Merged(p), Merged(q), n);
    EntryOps.SameShown(Merged(p), Merged(q), n, 0);
  }

  /** As long as the source's branch and those above it stay, so does what the name shows. */
  lemma UpperShown(p: Parent, q: Parent, n: Name, bsrc: nat)
    requires Find(Merged(p), n, 0) == bsrc && bsrc < |Merged(q)|
    requires forall j :: 0 <= j <= bsrc ==> q.all[j] == p.all[j]
    ensures Shown(q, n) == Shown(p, n) && Find(Merged(q), n, 0) == bsrc
  {
    FindUpper(Merged(p), Merged(q), n, 0, bsrc);
  }

  /** The parent directory is made on the destination branch, with the private data au_cpdown_dir leaves. */
  function WithParent(p: Parent, bdst: nat): Parent
    requires bdst < |p.all|
  {
    var di := p.di.(bend := if p.di.bend < bdst then bdst else p.di.bend);
    Parent(p.all[bdst := p.all[bdst].(present := true, ents := map[])],
           if di.bwh == bdst then di.(bwh := -1, bdiropq := bdst) else di)
  }

  /** That changes no name; and the destination is merged unless the parent has a whiteout above it. */
  lemma WithParentShows(p: Parent, bdst: nat, n: Name)
    requires Sound(p) && bdst < |p.all| && !p.all[bdst].present && (p.di.bdiropq == -1 || bdst <= p.di.bdiropq)
    ensures Shown(WithParent(p, bdst), n) == Shown(p, n)
    ensures Depth(p) <= Depth(WithParent(p, bdst))
    ensures bdst < Depth(WithParent(p, bdst)) <==> p.di.bwh == -1 || bdst <= p.di.bwh
    ensures forall j :: Depth(p) <= j < Depth(WithParent(p, bdst)) ==> WithParent(p, bdst).all[j].ents == map[]
  {
    var q := WithParent(p, bdst);
    WithParentDepth(p, bdst);
    assert forall j :: 0 <= j < |p.all| ==> q.all[j].ents == p.all[j].ents && q.all[j].whable == p.all[j].whable;
    hide Depth, WithParent, Sound;
    var s, t, u := Merged(p), Merged(q), q.all[..Depth(p)];
    FindLonger(u, t, n, 0);
    FindFrame(s, u, n, 0);
  }

  lemma WithParentDepth(p: Parent, bdst: nat)
    requires Sound(p) && bdst < |p.all| && !p.all[bdst].present && (p.di.bdiropq == -1 || bdst <= p.di.bdiropq)
    ensures |WithParent(p, bdst).all| == |p.all|
    ensures Depth(p) <= Depth(WithParent(p, bdst)) <= |p.all|
    ensures bdst < Depth(WithParent(p, bdst)) <==> p.di.bwh == -1 || bdst <= p.di.bwh
    ensures forall j :: Depth(p) <= j < Depth(WithParent(p, bdst)) ==> WithParent(p, bdst).all[j].ents == map[]
  {
    DepthOf(p);
  }

  /** `q` shows every ordinary name as `p` does. */
  ghost predicate Same(p: Parent, q: Parent) {
    forall m :: !Refused(m) ==> Shown(q, m) == Shown(p, m)
  }

  ghost predicate SameBut(p: Parent, q: Parent, n: Name) {
    forall m :: !Refused(m) && m != n ==> Shown(q, m) == Shown(p, m)
  }

  /** Since the parent is on the destination branch, only what that branch says about `n` has changed. */
  ghost predicate Within(base: Parent, q: Parent, n: Name, bdst: nat) {
    && q.di == base.di && EntryOps.OnlyName(base.all, q.all, n)
    && bdst < |base.all| == |q.all| && forall j :: 0 <= j < |q.all| && j != bdst ==> q.all[j] == base.all[j]
  }

  lemma WithinShows(base: Parent, q: Parent, n: Name, bsrc: nat, bdst: nat)
    requires Within(base, q, n, bdst) && bsrc < bdst && Find(Merged(base), n, 0) == bsrc
    ensures Same(base, q) && Find(Merged(q), n, 0) == bsrc
  {
    UpperShown(base, q, n, bsrc);
    forall m | !Refused(m) && m != n ensures Shown(q, m) == Shown(base, m) {
      SameShown(base, q, m);
    }
  }

  /** A name that begins with two whiteout prefixes says nothing about any ordinary name. */
  predicate IsTmp(tmp: Name) {
    WH_PFX + WH_PFX <= tmp
  }

  lemma WithinSteps(base: Parent, q: Parent, n: Name, bdst: nat, tmp: Name, node: Node)
    requires Within(base, q, n, bdst) && !Refused(n) && IsTmp(tmp)
    ensures Within(base, q.(all := EntryOps.Put(q.all, bdst, n, node)), n, bdst)
    ensures Within(base, q.(all := EntryOps.Del(q.all, bdst, Wh(n))), n, bdst)
    ensures Within(base, q.(all := EntryOps.Put(q.all, bdst, tmp, node)), n, bdst)
    ensures Within(base, q.(all := EntryOps.Del(q.all, bdst, tmp)), n, bdst)
  {
    hide EntryOps.OnlyName, Refused, IsTmp;
    EntryOps.PutDelOnly(base.all, q.all, bdst, n, n, node);
    EntryOps.PutDelOnly(base.all, q.all, bdst, n, Wh(n), node);
    TmpOnly(base.all, q.all, bdst, n, tmp, node);
  }

  lemma TmpOnly(s: Stack, t: Stack, b: nat, n: Name, tmp: Name, node: Node)
    requires b < |t| && EntryOps.OnlyName(s, t, n) && IsTmp(tmp)
    ensures EntryOps.OnlyName(s, EntryOps.Put(t, b, tmp, node), n) && EntryOps.OnlyName(s, EntryOps.Del(t, b, tmp), n)
  {
    forall m | !Refused(m) && m != n
      ensures EntryOps.SameName(s, EntryOps.Put(t, b, tmp, node), m) && EntryOps.SameName(s, EntryOps.Del(t, b, tmp), m)
      ensures EntryOps.SameWh(s, EntryOps.Put(t, b, tmp, node), m) && EntryOps.SameWh(s, EntryOps.Del(t, b, tmp), m)
    {
      assert tmp[..4] == WH_PFX && WH_PFX <= tmp[4..] && Wh(m)[4..] == m;
      assert EntryOps.SameName(s, t, m) && EntryOps.SameWh(s, t, m);
    }
  }

  /** The upper file is gone and the copy is in place: the name shows the copy exactly when the
      destination is merged. */
  lemma RemovedShows(base: Parent, q: Parent, r: Parent, n: Name, bsrc: nat, bdst: nat)
    requires Within(base, q, n, bdst) && bsrc < bdst && Find(Merged(base), n, 0) == bsrc && !Refused(n)
    requires FreeBetween(base, n, bsrc, bdst)
    requires !HasWh(q.all[bdst], n) && n in q.all[bdst].ents && q.all[bdst].ents[n] == base.all[bsrc].ents[n]
    requires r == Gone(q, n, bsrc)
    ensures SameBut(base, r, n)
    ensures Shown(r, n) == Shown(base, n) <==> bdst < Depth(base)
    ensures Depth(base) <= bdst ==> Shown(r, n) == None
  {
    var s, t := Merged(base), Merged(r);
    EntryOps.PutDelOnly(base.all, q.all, bsrc, n, n, q.all[bdst].ents[n]);
    forall m | !Refused(m) && m != n ensures Shown(r, m) == Shown(base, m) {
      SameShown(base, r, m);
    }
    FindMeaning(s, n, 0);
    var k := if bdst < Depth(base) then bdst else Depth(base);
    WhInjective(n, n);
    assert forall j :: 0 <= j < k && j != bsrc ==> t[j] == base.all[j] == s[j];
    assert Clear(t, n, 0, k) && Lacks(t, n, 0, k);
    FindSkip(t, n, 0, k);
  }

  /** The rename onto the target is refused: it exists and may not be overwritten, or is a directory. */
  predicate Blocked(p: Parent, n: Name, bdst: nat, overwrite: bool)
    requires bdst < |p.all|
  {
    n in p.all[bdst].ents && (!overwrite || p.all[bdst].ents[n].kind == Dir)
  }

  /** The parent directory is on the destination branch, and its private data does not say so. */
  predicate Stale(p: Parent, bdst: nat)
    requires bdst < |p.all|
  {
    p.di.bend < bdst && p.all[bdst].present
  }

  /** All that a failed copy can leave is its temporary file. */
  ghost predicate Left(p: Parent, q: Parent, bdst: nat, tmp: Name, node: Node) {
    bdst < |p.all| && exists data :: q == p.(all := EntryOps.Put(p.all, bdst, tmp, node.(data := data)))
  }

  /** A step of the move is taken and fails. */
  predicate Meets(p: Parent, n: Name, bdst: nat, overwrite: bool, kupper: bool, fail: set<Step>)
    requires bdst < |p.all|
  {
    || Stale(p, bdst) || Blocked(p, n, bdst, overwrite)
    || (!p.all[bdst].present && MkParent in fail)
    || CreateTmp in fail || CopyData in fail || RenameTmp in fail || LkupWh in fail
    || (Wh(n) in p.all[bdst].ents && UnlinkWh in fail)
    || (!kupper && UnlinkUpper in fail)
  }

  datatype Step = MkParent | CreateTmp | CopyData | RenameTmp | RevTmp | LkupWh | UnlinkWh | UnlinkUpper

  class Mover {
    var p: Parent
    /** Every state so far. */
    ghost var trace: seq<Parent>

    constructor (p: Parent)
      ensures this.p == p && trace == []
    {
      this.p := p;
      trace := [];
    }

    ghost predicate AllSame(p0: Parent)
      reads this
    {
      forall q :: q in trace ==> Same(p0, q)
    }

    ghost predicate AllSameBut(p0: Parent, n: Name)
      reads this
    {
      forall q :: q in trace ==> SameBut(p0, q, n)
    }

    /** The directory is what the last change made it, starting from `p0`. */
    ghost predicate Traced(p0: Parent)
      reads this
    {
      p == if trace == [] then p0 else trace[|trace| - 1]
    }

    method Change(q: Parent, ghost p0: Parent, ghost n: Name)
      modifies this
      ensures p == q && trace == old(trace) + [q] && Traced(p0)
      ensures AllSame(p0) <==> old(AllSame(p0)) && Same(p0, q)
      ensures AllSameBut(p0, n) <==> old(AllSameBut(p0, n)) && SameBut(p0, q, n)
    {
      hide Same, SameBut;
      p := q;
      trace := trace + [q];
    }

    /** A step on the destination branch. */
    method Step(all: Stack, ghost p0: Parent, ghost base: Parent, ghost n: Name, ghost bsrc: nat, ghost bdst: nat)
      requires Within(base, p.(all := all), n, bdst) && bsrc < bdst && Find(Merged(base), n, 0) == bsrc
               && Same(p0, base)
      modifies this
      ensures p == old(p).(all := all) && Within(base, p, n, bdst) && Traced(p0)
      ensures AllSame(p0) <==> old(AllSame(p0))
      ensures AllSameBut(p0, n) <==> old(AllSameBut(p0, n))
    {
      WithinShows(base, p.(all := all), n, bsrc, bdst);
      SameTrans(p0, base, p.(all := all), n);
      Change(p.(all := all), p0, n);
    }

    /** au_cpup_simple towards the destination: copy under a temporary name, then rename. */
    method CopyDown(n: Name, bdst: nat, tmp: Name, node: Node, partial: nat, overwrite: bool, fail: set<Step>,
                    ghost p0: Parent, ghost base: Parent, ghost bsrc: nat) returns (err: Option<Step>)
      requires Within(base, p, n, bdst) && bsrc < bdst && Find(Merged(base), n, 0) == bsrc && Same(p0, base)
      requires !Refused(n) && IsTmp(tmp) && tmp !in p.all[bdst].ents
      modifies this
      ensures Within(base, p, n, bdst) && (old(Traced(p0)) ==> Traced(p0))
      ensures AllSame(p0) <==> old(AllSame(p0))
      ensures AllSameBut(p0, n) <==> old(AllSameBut(p0, n))
      ensures err == None ==> p == Copied(old(p), n, bdst, node)
      ensures err.Some? ==> err.value in {CreateTmp, CopyData, RenameTmp}
      ensures err.Some? && RevTmp !in fail ==> p == old(p)
      ensures err.Some? ==> p == old(p) || Left(old(p), p, bdst, tmp, node)
      ensures err.Some? <==> CreateTmp in fail || CopyData in fail || RenameTmp in fail
                             || Blocked(old(p), n, bdst, overwrite)
      ensures err.Some? && err.value !in fail ==>
                err == Some(RenameTmp) && n in old(p).all[bdst].ents
                    && (!overwrite || old(p).all[bdst].ents[n].kind == Dir)
    {
      CopySteps(p.all, bdst, tmp, node.(data := partial), node, n);
      hide Within, Same, SameBut, Merged, Mover.AllSame, Mover.AllSameBut, Find;
      if CreateTmp in fail {
        return Some(CreateTmp);
      }
      WithinSteps(base, p, n, bdst, tmp, node.(data := partial));
      Step(EntryOps.Put(p.all, bdst, tmp, node.(data := partial)), p0, base, n, bsrc, bdst);
      WithinSteps(base, p, n, bdst, tmp, node);
      if CopyData in fail {
        err := Some(CopyData);
      } else {
        Step(EntryOps.Put(p.all, bdst, tmp, node), p0, base, n, bsrc, bdst);
        WithinSteps(base, p, n, bdst, tmp, node);
        if RenameTmp in fail || (n in p.all[bdst].ents && (!overwrite || p.all[bdst].ents[n].kind == Dir)) {
          err := Some(RenameTmp);
        } else {
          WithinSteps(base, p.(all := EntryOps.Del(p.all, bdst, tmp)), n, bdst, tmp, node);
          Step(EntryOps.Put(EntryOps.Del(p.all, bdst, tmp), bdst, n, node), p0, base, n, bsrc, bdst);
          return None;
        }
      }
      if RevTmp !in fail {
        Step(EntryOps.Del(p.all, bdst, tmp), p0, base, n, bsrc, bdst);
      }
    }

    /** au_do_mvdown. Nothing a name shows changes on the way, except at the very end for the name itself
        when the parent has a whiteout between the two branches, which no check looks for: then the file
        is gone. */
    method DoMvdown(n: Name, bsrc: nat, bdst: nat, tmp: Name, partial: nat, overwrite: bool, kupper: bool,
                    fail: set<Step>)
        returns (err: Option<Step>)
      requires trace == [] && Sound(p) && Checked(p, n, bsrc, bdst) && Find(Merged(p), n, 0) == bsrc
      requires !Refused(n) && IsTmp(tmp) && tmp !in p.all[bdst].ents
      modifies this
      ensures AllSameBut(old(p), n) && Traced(old(p))
      ensures AllSame(old(p)) <==> !(err == None && !kupper && 0 <= old(p).di.bwh < bdst)
      ensures err == None || RevTmp !in fail ==> p == After(old(p), n, bsrc, bdst, kupper, err)
      ensures p == After(old(p), n, bsrc, bdst, kupper, err)
              || Left(After(old(p), n, bsrc, bdst, kupper, err), p, bdst, tmp, old(p).all[bsrc].ents[n])
      ensures err.Some? ==> (err.value in fail || err.value in {MkParent, RenameTmp}) && err.value != RevTmp
      ensures old(p).di.bend < bdst && old(p).all[bdst].present ==> err == Some(MkParent)
      ensures err.Some? <==> Meets(old(p), n, bdst, overwrite, kupper, fail)
    {
      hide Same, SameBut, Mover.AllSame, Mover.AllSameBut, Mover.Traced, Merged, Find, Depth, Within, Base, WithParent,
           Sound, Checked;
      ghost var p0 := p;
      BaseReady(p, n, bsrc, bdst);
      BaseIs(p, n, bsrc, bdst);
      Starts(p, n);
      var node := p.all[bsrc].ents[n];
      ghost var base := Base(p, bdst);
      SameTrans(p0, p0, base, n);
      if !(bdst <= p.di.bend && p.all[bdst].present) {
        if MkParent in fail || p.all[bdst].present {
          return Some(MkParent);
        }
        Change(WithParent(p, bdst), p0, n);
      }
      assert p == base;
      err := CopyDown(n, bdst, tmp, node, partial, overwrite, fail, p0, base, bsrc);
      if err == None {
        err := Uncover(n, bsrc, bdst, kupper, fail, p0, base);
      }
    }

    lemma Starts(p0: Parent, n: Name)
      requires trace == [] && p == p0
      ensures AllSame(p0) && AllSameBut(p0, n) && Traced(p0)
    {}

    /** The copy is in place: its whiteout goes, then the upper file. */
    method Uncover(n: Name, bsrc: nat, bdst: nat, kupper: bool, fail: set<Step>, ghost p0: Parent, ghost base: Parent)
        returns (err: Option<Step>)
      requires Within(base, p, n, bdst) && bsrc < bdst && Find(Merged(base), n, 0) == bsrc && Same(p0, base)
               && !Refused(n)
      requires FreeBetween(base, n, bsrc, bdst)
      requires n in p.all[bdst].ents && p.all[bdst].ents[n] == base.all[bsrc].ents[n]
      modifies this
      ensures old(Traced(p0)) ==> Traced(p0)
      ensures AllSameBut(p0, n) <==> old(AllSameBut(p0, n))
      ensures AllSame(p0) <==> old(AllSame(p0)) && !(err == None && !kupper && Depth(base) <= bdst)
      ensures err == Some(LkupWh) || err == Some(UnlinkWh) ==> p == old(p)
      ensures err == Some(UnlinkUpper) || (err == None && kupper) ==> p == Bared(old(p), n, bdst)
      ensures err == None && !kupper ==> p == Gone(Bared(old(p), n, bdst), n, bsrc)
      ensures err.Some? ==> err.value in fail && err.value in {LkupWh, UnlinkWh, UnlinkUpper}
      ensures err.Some? <==> LkupWh in fail || (Wh(n) in old(p).all[bdst].ents && UnlinkWh in fail)
                             || (!kupper && UnlinkUpper in fail)
    {
      assert bdst < |p.all|;
      BaredHas(p, n, bdst);
      hide Same, SameBut, Mover.AllSame, Mover.AllSameBut, Merged, Find, Depth, Within, Mover.Traced, FreeBetween,
           Bared, HasWh;
      hide Gone, Wh, Refused;
      err := RemoveWh(n, bsrc, bdst, fail, p0, base);
      if err == None && !kupper {
        if UnlinkUpper in fail {
          return Some(UnlinkUpper);
        }
        RemoveUpper(n, bsrc, bdst, p0, base);
      }
    }

    method RemoveWh(n: Name, ghost bsrc: nat, bdst: nat, fail: set<Step>, ghost p0: Parent, ghost base: Parent)
        returns (err: Option<Step>)
      requires Within(base, p, n, bdst) && bsrc < bdst && Find(Merged(base), n, 0) == bsrc && Same(p0, base)
               && !Refused(n)
      modifies this
      ensures Within(base, p, n, bdst) && (old(Traced(p0)) ==> Traced(p0))
      ensures AllSame(p0) <==> old(AllSame(p0))
      ensures AllSameBut(p0, n) <==> old(AllSameBut(p0, n))
      ensures p == if err == None then Bared(old(p), n, bdst) else old(p)
      ensures err.Some? ==> err.value in fail && err.value in {LkupWh, UnlinkWh}
      ensures err.Some? <==> LkupWh in fail || (Wh(n) in old(p).all[bdst].ents && UnlinkWh in fail)
    {
      if LkupWh in fail {
        return Some(LkupWh);
      }
      if Wh(n) in p.all[bdst].ents {
        if UnlinkWh in fail {
          return Some(UnlinkWh);
        }
        hide Same, SameBut, Mover.AllSame, Mover.AllSameBut, Merged, Find, Within, Mover.Traced;
        WithinSteps(base, p, n, bdst, Wh(Wh(n)), WHITEOUT);
        Step(EntryOps.Del(p.all, bdst, Wh(n)), p0, base, n, bsrc, bdst);
      }
      return None;
    }

    method RemoveUpper(n: Name, bsrc: nat, ghost bdst: nat, ghost p0: Parent, ghost base: Parent)
      requires Within(base, p, n, bdst) && bsrc < bdst && Find(Merged(base), n, 0) == bsrc && Same(p0, base)
               && !Refused(n)
      requires FreeBetween(base, n, bsrc, bdst)
      requires n in p.all[bdst].ents && p.all[bdst].ents[n] == base.all[bsrc].ents[n] && !HasWh(p.all[bdst], n)
      modifies this
      ensures bsrc < |old(p).all| && p == Gone(old(p), n, bsrc) && Traced(p0)
      ensures AllSameBut(p0, n) <==> old(AllSameBut(p0, n))
      ensures AllSame(p0) <==> old(AllSame(p0)) && bdst < Depth(base)
    {
      RemovedShows(base, p, Gone(p, n, bsrc), n, bsrc, bdst);
      SameTrans(p0, base, Gone(p, n, bsrc), n);
      hide Same, SameBut, Mover.AllSame, Mover.AllSameBut;
      Change(Gone(p, n, bsrc), p0, n);
    }
  }

  /** The file is on the destination branch too. */
  function Copied(p: Parent, n: Name, bdst: nat, node: Node): Parent
    requires bdst < |p.all|
  {
    p.(all := EntryOps.Put(p.all, bdst, n, node))
  }

  /** The file is not on the source branch any more. */
  function Gone(p: Parent, n: Name, bsrc: nat): Parent
    requires bsrc < |p.all|
  {
    p.(all := EntryOps.Del(p.all, bsrc, n))
  }

  /** The destination branch has no whiteout of the name. */
  function Bared(p: Parent, n: Name, bdst: nat): Parent
    requires bdst < |p.all|
  {
    if Wh(n) in p.all[bdst].ents then p.(all := EntryOps.Del(p.all, bdst, Wh(n))) else p
  }

  lemma BaredHas(p: Parent, n: Name, bdst: nat)
    requires bdst < |p.all| && n in p.all[bdst].ents
    ensures var q := Bared(p, n, bdst);
            && |q.all| == |p.all| && !HasWh(q.all[bdst], n) && n in q.all[bdst].ents
            && q.all[bdst].ents[n] == p.all[bdst].ents[n]
            && q == if Wh(n) in p.all[bdst].ents then p.(all := EntryOps.Del(p.all, bdst, Wh(n))) else p
  {
    WhInjective(n, n);
  }

  /** Where the last steps end that stop at `err`, or do not stop. */
  function Uncovered(p: Parent, n: Name, bsrc: nat, bdst: nat, kupper: bool, err: Option<Step>): Parent
    requires bsrc < |p.all| && bdst < |p.all|
  {
    if err == Some(LkupWh) || err == Some(UnlinkWh) then p
    else
      var q := Bared(p, n, bdst);
      if err == Some(UnlinkUpper) || kupper then q else Gone(q, n, bsrc)
  }

  /** The same for the whole move. */
  ghost function After(p: Parent, n: Name, bsrc: nat, bdst: nat, kupper: bool, err: Option<Step>): Parent
    requires bsrc < |p.all| && bdst < |p.all| && n in p.all[bsrc].ents
  {
    if err == Some(MkParent) then p
    else if err.Some? && err.value in {CreateTmp, CopyData, RenameTmp} then Base(p, bdst)
    else Uncovered(Copied(Base(p, bdst), n, bdst, p.all[bsrc].ents[n]), n, bsrc, bdst, kupper, err)
  }

  /** The state the copy starts from. */
  ghost function Base(p: Parent, bdst: nat): Parent
    requires bdst < |p.all|
  {
    if bdst <= p.di.bend && p.all[bdst].present then p else WithParent(p, bdst)
  }

  lemma BaseReady(p: Parent, n: Name, bsrc: nat, bdst: nat)
    requires Sound(p) && Checked(p, n, bsrc, bdst) && Find(Merged(p), n, 0) == bsrc && !Refused(n)
    ensures var base := Base(p, bdst);
            (bdst <= p.di.bend && p.all[bdst].present) || !p.all[bdst].present ==>
              && Same(p, base) && Find(Merged(base), n, 0) == bsrc && Within(base, base, n, bdst)
              && FreeBetween(base, n, bsrc, bdst)
              && (bdst < Depth(base) <==> !(0 <= p.di.bwh < bdst))
              && base.all[bsrc] == p.all[bsrc]
    ensures Same(p, p) && SameBut(p, p, n)
  {
    DepthOf(p);
    if Base(p, bdst) != p && !p.all[bdst].present {
      ParentMade(p, n, bsrc, bdst);
      hide Same, Find, Merged, FreeBetween, Depth, Sound, Checked, WithParent;
    }
  }

  /** What the destination branch holds is what it held. */
  lemma BaseIs(p: Parent, n: Name, bsrc: nat, bdst: nat)
    requires Sound(p) && Checked(p, n, bsrc, bdst) && Find(Merged(p), n, 0) == bsrc
    ensures bsrc < bdst < |p.all| && n in p.all[bsrc].ents
    ensures var base := Base(p, bdst);
            && |base.all| == |p.all|
            && base == (if bdst <= p.di.bend && p.all[bdst].present then p else WithParent(p, bdst))
            && (!Stale(p, bdst) ==> base.all[bdst].ents == p.all[bdst].ents)
  {}

  lemma FreeLonger(p: Parent, q: Parent, n: Name, bsrc: nat, bdst: nat)
    requires bdst < |p.all| == |q.all| && FreeBetween(p, n, bsrc, bdst) && Depth(p) <= Depth(q)
    requires forall j :: 0 <= j < bdst ==> q.all[j] == p.all[j]
    requires forall j :: Depth(p) <= j < Depth(q) ==> q.all[j].ents == map[]
    ensures FreeBetween(q, n, bsrc, bdst)
  {
    hide Depth;
  }

  lemma ParentMade(p: Parent, n: Name, bsrc: nat, bdst: nat)
    requires Sound(p) && Checked(p, n, bsrc, bdst) && Find(Merged(p), n, 0) == bsrc && !p.all[bdst].present
    ensures var base := WithParent(p, bdst);
            && Same(p, base) && Find(Merged(base), n, 0) == bsrc && FreeBetween(base, n, bsrc, bdst)
            && (bdst < Depth(base) <==> !(0 <= p.di.bwh < bdst))
            && |base.all| == |p.all| && base.all[bsrc] == p.all[bsrc]
  {
    assert p.di.bwh >= -1 by { hide Depth, Merged, Find, Checked; }
    hide Sound, Find, Depth, FreeBetween, Shown;
    var base := WithParent(p, bdst);
    forall m ensures Shown(base, m) == Shown(p, m) {
      WithParentShows(p, bdst, m);
    }
    WithParentDepth(p, bdst);
    assert forall j :: 0 <= j < |p.all| && j != bdst ==> base.all[j] == p.all[j];
    hide WithParent;
    FreeLonger(p, base, n, bsrc, bdst);
    FindUpper(Merged(p), Merged(base), n, 0, bsrc);
  }

  /** A file whose parent has a whiteout between the two branches: all checks pass, and after the move the
      file is gone. */
  lemma MvdownLoses()
    ensures exists p: Parent, n: Name, bsrc: nat, bdst: nat ::
              && Sound(p) && WellFormed(p.all) && !Refused(n) && Checked(p, n, bsrc, bdst)
              && Find(Merged(p), n, 0) == bsrc && 0 <= p.di.bwh < bdst
              && bdst < |p.all| && n in p.all[bsrc].ents
              && Shown(After(p, n, bsrc, bdst, false, None), n) == None
  {
    var n, f, none := "f", Layer(true, true, map["f" := Node(Reg, 3, false)]), Layer(false, true, map[]);
    var p := Parent([f, none, none], Lookup.Dinfo(0, 0, 1, -1, []));
    assert |n| == 1;
    forall m: Name ensures |Wh(m)| == |m| + 4 {
      WhInjective(m, m);
    }
    assert forall m: Name :: !HasWh(f, m) && !HasWh(none, m);
    assert Depth(p) == 1 && Merged(p) == [f] && Find(Merged(p), n, 0) == 0;
    assert Sound(p) && WellFormed(p.all) && Checked(p, n, 0, 2);
    var q := After(p, n, 0, 2, false, None);
    assert q.di == Lookup.Dinfo(0, 2, 1, -1, []) && |q.all| == 3 && Depth(q) == 1;
    assert n !in q.all[0].ents && Merged(q) == [q.all[0]];
    assert Shown(After(p, n, 0, 2, false, None), n) == None;
  }

  lemma SameTrans(p: Parent, q: Parent, r: Parent, n: Name)
    requires Same(p, q)
    ensures Same(q, r) <==> Same(p, r)
    ensures SameBut(q, r, n) <==> SameBut(p, r, n)
    ensures Same(p, r) ==> SameBut(p, r, n)
    ensures Same(p, r) <==> SameBut(p, r, n) && (!Refused(n) ==> Shown(r, n) == Shown(p, n))
  {}

  lemma CopySteps(all: Stack, b: nat, tmp: Name, part: Node, node: Node, n: Name)
    requires b < |all| && tmp !in all[b].ents && IsTmp(tmp) && !Refused(n)
    ensures EntryOps.Del(EntryOps.Put(all, b, tmp, part), b, tmp) == all
    ensures EntryOps.Put(EntryOps.Put(all, b, tmp, part), b, tmp, node) == EntryOps.Put(all, b, tmp, node)
    ensures EntryOps.Del(EntryOps.Put(all, b, tmp, node), b, tmp) == all
    ensures forall x :: x != tmp ==> (x in EntryOps.Put(all, b, tmp, node)[b].ents <==> x in all[b].ents)
    ensures n in all[b].ents ==> EntryOps.Put(all, b, tmp, node)[b].ents[n] == all[b].ents[n]
    ensures n != tmp
  {
    assert EntryOps.Del(EntryOps.Put(all, b, tmp, part), b, tmp)[b].ents == all[b].ents;
    assert EntryOps.Del(EntryOps.Put(all, b, tmp, node), b, tmp)[b].ents == all[b].ents;
    assert EntryOps.Put(EntryOps.Put(all, b, tmp, part), b, tmp, node)[b].ents
           == EntryOps.Put(all, b, tmp, node)[b].ents;
    assert tmp[..4] == WH_PFX;
  }
}
