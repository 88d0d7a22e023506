/** Lookup of one name over the layers of its parent (dentry.c), the private data of a dentry
    (dinfo.c), and the question unlink, rmdir and rename ask of it: must a whiteout be made? */
module Lookup {
  import opened Basics
  import opened Layers

  /** A slot of di_hdentry: nothing, a negative lower dentry, or a positive one. */
  datatype HSlot = Unset | Neg | Pos(node: Node)

  /** struct au_dinfo */
  datatype Dinfo = Dinfo(bstart: int, bend: int, bwh: int, bdiropq: int, hd: seq<HSlot>)

  datatype Error = EPERM | EIO

  datatype Result = Ok(count: nat) | Err(error: Error)

  /** NULL, an error pointer, or a lower dentry. */
  datatype LowerDentry = Null | ErrPtr | Found(slot: HSlot)

  datatype KindOpt = AnyKind | Only(kind: Kind)

  /** au_wh_test finds something that is not a regular file. */
  predicate BadWh(l: Layer, n: Name) {
    HasWh(l, n) && l.ents[Wh(n)].kind != Reg
  }

  /** What WellFormed says about one name that lookup accepts. */
  ghost predicate Sound(s: Stack, n: Name) {
    forall i :: 0 <= i < |s| ==>
      && (HasWh(s[i], n) ==> !BadWh(s[i], n) && n !in s[i].ents)
      && (!s[i].present ==> !HasWh(s[i], n) && n !in s[i].ents)
  }

  lemma WellFormedIsSound(s: Stack, n: Name)
    requires WellFormed(s) && !Refused(n)
    ensures Sound(s, n)
  {
    assert !IsWhName(n);
  }

  /** au_do_lookup on private data `d` of a dentry whose own inode has kind `inode`. */
  function Visit(d: Dinfo, l: Layer, n: Name, b: nat, allowNeg: bool, typ: KindOpt, inode: KindOpt)
      : (LowerDentry, Dinfo)
    requires b < |d.hd|
  {
    var d' := if HasWh(l, n) then d.(bwh := b) else d;
    if BadWh(l, n) then (ErrPtr, d)
    else if n !in l.ents then
      if allowNeg then (Found(Neg), Cache(d', b, Neg)) else (Null, d')
    else if HasWh(l, n) || (typ.Only? && typ.kind != l.ents[n].kind) then (Null, d')
    else
      var node := l.ents[n];
      var c := Cache(d', b, Pos(node));
      (Found(Pos(node)),
       if node.kind == Dir && l.whable && inode in {AnyKind, Only(Dir)} && node.opq then c.(bdiropq := b) else c)
  }

  function Cache(d: Dinfo, b: nat, h: HSlot): Dinfo
    requires b < |d.hd|
  {
    d.(bend := if d.bend <= b then b else d.bend,
       bstart := if d.bstart < 0 || b < d.bstart then b else d.bstart,
       hd := d.hd[b := h])
  }

  /** The layers from `b` on, as au_lkup_dentry visits them; None is an error from a layer. */
  function Walk(d: Dinfo, s: Stack, n: Name, b: nat, allowNeg: bool, typ: KindOpt, inode: KindOpt): Option<(nat, Dinfo)>
    requires b <= |s| <= |d.hd|
    decreases |s| - b
  {
    if b == |s| then Some((0, d))
    else if !s[b].present then Walk(d, s, n, b + 1, allowNeg, typ, inode)
    else
      var (h, d') := Visit(d, s[b], n, b, allowNeg, typ, inode);
      if h.ErrPtr? then None
      else if d'.bwh >= 0 then Some((0, d'))
      else if h.Null? || h.slot.Neg? then Walk(d', s, n, b + 1, false, typ, inode)
      else if h.slot.node.kind != Dir || (inode == Only(Dir) && 0 <= d'.bdiropq <= b) then Some((1, d'))
      else
        Counted(1, Walk(d', s, n, b + 1, false, Only(Dir), inode))
  }

  function Counted(k: nat, r: Option<(nat, Dinfo)>): Option<(nat, Dinfo)> {
    if r.None? then None else Some((k + r.value.0, r.value.1))
  }

  // ----- what the walk finds

  ghost predicate Positive(r: Option<(nat, Dinfo)>) {
    r.Some? && r.value.0 > 0
  }

  /** A recorded whiteout stops the walk before anything is counted. */
  lemma {:induction false} StaleWhiteoutHidesAll(d: Dinfo, s: Stack, n: Name, b: nat, allowNeg: bool, typ: KindOpt,
                                                 inode: KindOpt)
    requires b <= |s| <= |d.hd| && d.bwh >= 0
    ensures !Positive(Walk(d, s, n, b, allowNeg, typ, inode))
    decreases |s| - b
  {
    if b == |s| || s[b].present {
    } else {
      StaleWhiteoutHidesAll(d, s, n, b + 1, allowNeg, typ, inode);
    }
  }

  /** The walk counts something exactly when some layer provides the name. */
  lemma {:induction false} WalkFinds(d: Dinfo, s: Stack, n: Name, b: nat, allowNeg: bool, inode: KindOpt)
    requires b <= |s| <= |d.hd| && d.bwh < 0 && Sound(s, n)
    ensures Walk(d, s, n, b, allowNeg, AnyKind, inode).Some?
    ensures Positive(Walk(d, s, n, b, allowNeg, AnyKind, inode)) <==> Find(s, n, b) >= 0
    decreases |s| - b
  {
    if b == |s| {
    } else {
      if !s[b].present {
        WalkFinds(d, s, n, b + 1, allowNeg, inode);
      } else {
        var (h, d') := Visit(d, s[b], n, b, allowNeg, AnyKind, inode);
        if d'.bwh < 0 {
          if h.Null? || h.slot.Neg? {
            WalkFinds(d', s, n, b + 1, false, inode);
          } else {
            DirWalkIsSome(d', s, n, b + 1, inode);
          }
        }
      }
    }
  }

  lemma {:induction false} DirWalkIsSome(d: Dinfo, s: Stack, n: Name, b: nat, inode: KindOpt)
    requires b <= |s| <= |d.hd| && Sound(s, n)
    ensures Walk(d, s, n, b, false, Only(Dir), inode).Some?
    decreases |s| - b
  {
    if b == |s| {
    } else {
      if !s[b].present {
        DirWalkIsSome(d, s, n, b + 1, inode);
      } else {
        DirWalkIsSome(Visit(d, s[b], n, b, false, Only(Dir), inode).1, s, n, b + 1, inode);
      }
    }
  }

  /** `n` is a directory in layer `i`, and no layer in `b..=i` hides it. */
  ghost predicate DirAt(s: Stack, n: Name, b: nat, i: int) {
    b <= i < |s| && n in s[i].ents && s[i].ents[n].kind == Dir && Clear(s, n, b, i + 1)
  }

  ghost predicate OpqAt(s: Stack, n: Name, b: nat, i: int) {
    DirAt(s, n, b, i) && s[i].whable && s[i].ents[n].opq
  }

  /** What one more layer does to a walk that is collecting directories. */
  function CacheDir(d: Dinfo, s: Stack, n: Name, b: nat): (e: Dinfo)
    requires b < |s| <= |d.hd|
  {
    if n in s[b].ents && s[b].ents[n].kind == Dir then
      var c := Cache(d, b, Pos(s[b].ents[n]));
      if s[b].whable && s[b].ents[n].opq then c.(bdiropq := b) else c
    else d
  }

  lemma DirWalkStep(d: Dinfo, s: Stack, n: Name, b: nat)
    requires b < |s| <= |d.hd| && d.bwh == -1 && Sound(s, n) && !HasWh(s[b], n)
    ensures var r := Walk(d, s, n, b, false, Only(Dir), AnyKind);
            var q := Walk(CacheDir(d, s, n, b), s, n, b + 1, false, Only(Dir), AnyKind);
            r.Some? == q.Some? && (r.Some? ==> r.value.1 == q.value.1)
  {}

  /** After the first directory, a lookup of a dentry that is not yet a directory caches every
      directory down to the first whiteout and records that whiteout. */
  lemma {:induction false} DirWalkSlots(d: Dinfo, s: Stack, n: Name, b: nat)
    requires b <= |s| <= |d.hd| && d.bwh == -1 && 0 <= d.bstart < b && Sound(s, n)
    requires forall i :: b <= i < |d.hd| ==> d.hd[i] == Unset
    ensures var r := Walk(d, s, n, b, false, Only(Dir), AnyKind);
            r.Some? && var e := r.value.1;
            && e.bstart == d.bstart && |e.hd| == |d.hd|
            && e.bwh == FirstWh(s, n, b)
            && (forall i :: 0 <= i < |d.hd| ==> e.hd[i] == if DirAt(s, n, b, i) then Pos(s[i].ents[n]) else d.hd[i])
    decreases |s| - b
  {
    if b == |s| || HasWh(s[b], n) {
    } else {
      DirWalkStep(d, s, n, b);
      DirWalkSlots(CacheDir(d, s, n, b), s, n, b + 1);
      DirAtShift(s, n, b);
    }
  }

  /** It leaves di_bend at the lowest copy and di_bdiropq at the lowest opaque copy. */
  lemma {:induction false} DirWalkEnds(d: Dinfo, s: Stack, n: Name, b: nat)
    requires b <= |s| <= |d.hd| && d.bwh == -1 && d.bend < b && Sound(s, n)
    ensures var r := Walk(d, s, n, b, false, Only(Dir), AnyKind);
            r.Some? && var e := r.value.1;
            && (e.bend == d.bend || DirAt(s, n, b, e.bend))
            && (forall i :: DirAt(s, n, b, i) ==> i <= e.bend)
            && (e.bdiropq == d.bdiropq || OpqAt(s, n, b, e.bdiropq))
            && (forall i :: OpqAt(s, n, b, i) ==> i <= e.bdiropq)
    decreases |s| - b
  {
    if b == |s| || HasWh(s[b], n) {
    } else {
      DirWalkStep(d, s, n, b);
      DirWalkEnds(CacheDir(d, s, n, b), s, n, b + 1);
      DirAtShift(s, n, b);
    }
  }

  lemma DirAtShift(s: Stack, n: Name, b: nat)
    requires b < |s| && !HasWh(s[b], n)
    ensures forall i {:trigger DirAt(s, n, b, i)} {:trigger DirAt(s, n, b + 1, i)} ::
              i > b ==> (DirAt(s, n, b, i) <==> DirAt(s, n, b + 1, i))
    ensures forall i {:trigger OpqAt(s, n, b, i)} {:trigger OpqAt(s, n, b + 1, i)} ::
              i > b ==> (OpqAt(s, n, b, i) <==> OpqAt(s, n, b + 1, i))
  {
    forall i | i > b && DirAt(s, n, b + 1, i)
      ensures DirAt(s, n, b, i)
    {}
  }

  /** The first layer at or below `b` that hides `n`, or -1. */
  function FirstWh(s: Stack, n: Name, b: nat): (r: int)
    requires b <= |s|
    ensures r == -1 || (b <= r < |s| && HasWh(s[r], n) && Clear(s, n, b, r))
    ensures r == -1 ==> Clear(s, n, b, |s|)
    decreases |s| - b
  {
    if b == |s| then -1 else if HasWh(s[b], n) then b else FirstWh(s, n, b + 1)
  }

  // ----- a fresh lookup

  /** Layer `i` contributes to the merged entry: it holds the name, nothing hides it, and it is
      either the topmost copy or a directory under a directory. */
  ghost predicate IsCopy(s: Stack, n: Name, i: int) {
    var top := Find(s, n, 0);
    && 0 <= top <= i < |s|
    && n in s[i].ents
    && Clear(s, n, 0, i + 1)
    && (i == top || (s[top].ents[n].kind == Dir && s[i].ents[n].kind == Dir))
  }

  ghost predicate IsOpqCopy(s: Stack, n: Name, i: int) {
    IsCopy(s, n, i) && s[i].whable && s[i].ents[n].kind == Dir && s[i].ents[n].opq
  }

  function Fresh(nbr: nat): Dinfo {
    Dinfo(-1, -1, -1, -1, seq(nbr, _ => Unset))
  }

  /** au_update_dbstart */
  function UpdateDbstart(d: Dinfo, b: nat): (e: Dinfo)
    requires d.bend < |d.hd|
    ensures 0 <= d.bstart ==> 0 <= e.bstart
    ensures e.bdiropq == d.bdiropq
    decreases d.bend + 1 - b
  {
    if b > d.bend then d
    else if d.hd[b].Pos? then d.(bstart := b)
    else UpdateDbstart(d.(hd := d.hd[b := Unset]), b + 1)
  }

  lemma {:induction false} UpdateDbstartMeaning(d: Dinfo, b: nat, t: nat)
    requires b <= t <= d.bend < |d.hd| && d.hd[t].Pos?
    requires forall i :: b <= i < t ==> !d.hd[i].Pos?
    ensures UpdateDbstart(d, b) == d.(bstart := t, hd := UpdateDbstart(d, b).hd)
    ensures |UpdateDbstart(d, b).hd| == |d.hd|
    ensures forall i :: 0 <= i < |d.hd| ==> UpdateDbstart(d, b).hd[i] == if b <= i < t then Unset else d.hd[i]
    decreases t - b
  {
    if b == t {
    } else {
      UpdateDbstartMeaning(d.(hd := d.hd[b := Unset]), b + 1, t);
    }
  }

  /** Nothing has been found yet above layer `b`: at most the first present layer left a negative slot. */
  ghost predicate Leading(d: Dinfo, b: nat, allowNeg: bool) {
    && d.bwh == -1 && d.bdiropq == -1
    && (if allowNeg then d.bstart == d.bend == -1
        else 0 <= d.bstart == d.bend < b && d.bend < |d.hd| && d.hd[d.bend] == Neg)
    && forall i :: 0 <= i < |d.hd| && i != d.bend ==> d.hd[i] == Unset
  }

  /** Layers that neither hold nor hide the name only leave that negative slot. */
  lemma {:induction false} WalkLeads(d: Dinfo, s: Stack, n: Name, b: nat, allowNeg: bool, t: nat, inode: KindOpt)
      returns (e: Dinfo, neg: bool)
    requires b <= t <= |s| <= |d.hd| && Leading(d, b, allowNeg) && Sound(s, n)
    requires Clear(s, n, b, t) && Lacks(s, n, b, t)
    ensures |e.hd| == |d.hd| && Leading(e, t, neg)
    ensures neg <==> allowNeg && forall j :: b <= j < t ==> !s[j].present
    ensures Walk(d, s, n, b, allowNeg, AnyKind, inode) == Walk(e, s, n, t, neg, AnyKind, inode)
    decreases t - b
  {
    e, neg := d, allowNeg;
    if b == t {
    } else {
      assert !HasWh(s[b], n) && n !in s[b].ents;
      if s[b].present {
        var d' := if allowNeg then Cache(d, b, Neg) else d;
        e, neg := WalkLeads(d', s, n, b + 1, false, t, inode);
      } else {
        e, neg := WalkLeads(d, s, n, b + 1, allowNeg, t, inode);
      }
    }
  }

  /** au_lkup_dentry as aufs_lookup uses it, au_update_dbstart included. */
  function FreshLookup(s: Stack, n: Name, nbr: nat): Option<(nat, Dinfo)>
    requires |s| <= nbr
  {
    match Walk(Fresh(nbr), s, n, 0, true, AnyKind, AnyKind)
    case None => None
    case Some((c, d)) => Some((c, Finish(c, d)))
  }

  function Finish(c: nat, d: Dinfo): Dinfo {
    if c > 0 && 0 <= d.bstart && d.bend < |d.hd| then UpdateDbstart(d, d.bstart) else d
  }

  /** The walk from the topmost copy on. */
  lemma WalkFromTop(d: Dinfo, s: Stack, n: Name, top: nat, neg: bool)
    requires top < |s| <= |d.hd| && Leading(d, top, neg) && Sound(s, n) && !HasWh(s[top], n) && n in s[top].ents
    ensures var isdir := s[top].ents[n].kind == Dir;
            var r := Walk(d, s, n, top, neg, AnyKind, AnyKind);
            r.Some? && r.value.0 > 0 && var e := r.value.1;
            && |e.hd| == |d.hd| && 0 <= e.bstart <= top <= e.bend
            && (forall i :: e.bstart <= i < top ==> !e.hd[i].Pos?)
            && (forall i :: 0 <= i < e.bstart ==> e.hd[i] == Unset)
            && (forall i :: top <= i < |d.hd| ==>
                  e.hd[i] == if i == top || (isdir && DirAt(s, n, top + 1, i)) then Pos(s[i].ents[n]) else Unset)
            && (e.bend == top || (isdir && DirAt(s, n, top + 1, e.bend)))
            && (isdir ==> forall i {:trigger DirAt(s, n, top + 1, i)} :: DirAt(s, n, top + 1, i) ==> i <= e.bend)
            && e.bwh == (if isdir then FirstWh(s, n, top + 1) else -1)
            && (isdir ==> forall i {:trigger OpqAt(s, n, top + 1, i)} :: OpqAt(s, n, top + 1, i) ==> i <= e.bdiropq)
            && (if isdir && s[top].whable && s[top].ents[n].opq then
                  e.bdiropq == top || OpqAt(s, n, top + 1, e.bdiropq)
                else e.bdiropq == -1 || (isdir && OpqAt(s, n, top + 1, e.bdiropq)))
  {
    var d' := Visit(d, s[top], n, top, neg, AnyKind, AnyKind).1;
    if s[top].ents[n].kind == Dir {
      DirWalkSlots(d', s, n, top + 1);
      DirWalkEnds(d', s, n, top + 1);
    }
  }

  lemma CopiesFromTop(s: Stack, n: Name, i: int)
    requires Find(s, n, 0) >= 0
    ensures var top := Find(s, n, 0);
            var isdir := s[top].ents[n].kind == Dir;
            && (IsCopy(s, n, i) <==> i == top || (isdir && DirAt(s, n, top + 1, i)))
            && (IsOpqCopy(s, n, i) <==>
                  (i == top && isdir && s[top].whable && s[top].ents[n].opq) || (isdir && OpqAt(s, n, top + 1, i)))
  {
    FindMeaning(s, n, 0);
  }

  /** What the next lemma says, for a name the layers are sound for. */
  lemma FreshLookupOf(s: Stack, n: Name, nbr: nat)
    requires |s| <= nbr && Sound(s, n) && Find(s, n, 0) >= 0
    ensures var r := FreshLookup(s, n, nbr);
            r.Some? && r.value.0 > 0 && var e := r.value.1;
            && e.bstart == Find(s, n, 0)
            && |e.hd| == nbr
            && (forall i :: 0 <= i < nbr ==> e.hd[i] == if IsCopy(s, n, i) then Pos(s[i].ents[n]) else Unset)
            && IsCopy(s, n, e.bend) && (forall i :: IsCopy(s, n, i) ==> i <= e.bend)
            && e.bwh == (if s[e.bstart].ents[n].kind == Dir then FirstWh(s, n, 0) else -1)
            && (e.bdiropq == -1 || IsOpqCopy(s, n, e.bdiropq))
            && (forall i :: IsOpqCopy(s, n, i) ==> i <= e.bdiropq)
  {
    var top := Find(s, n, 0);
    FindMeaning(s, n, 0);
    assert !HasWh(s[top], n) && Clear(s, n, 0, top);
    var d, neg := WalkLeads(Fresh(nbr), s, n, 0, true, top, AnyKind);
    WalkFromTop(d, s, n, top, neg);
    FirstWhSkip(s, n, 0, top + 1);
    var e := Walk(Fresh(nbr), s, n, 0, true, AnyKind, AnyKind).value.1;
    UpdateDbstartMeaning(e, e.bstart, top);
    forall i
      ensures IsCopy(s, n, i) <==> i == top || (s[top].ents[n].kind == Dir && DirAt(s, n, top + 1, i))
      ensures IsOpqCopy(s, n, i) <==>
              (i == top && s[top].ents[n].kind == Dir && s[top].whable && s[top].ents[n].opq)
              || (s[top].ents[n].kind == Dir && OpqAt(s, n, top + 1, i))
    {
      CopiesFromTop(s, n, i);
    }
  }

  /** A fresh positive lookup caches exactly the contributing layers: di_bstart is the layer that
      provides the name, di_bend the lowest copy, di_bwh the whiteout that ended a directory's walk.
      di_bdiropq is the LOWEST opaque copy, because a dentry that is not yet a directory does not stop
      at an opaque one. */
  lemma FreshLookupMeaning(s: Stack, n: Name, nbr: nat)
    requires |s| <= nbr && WellFormed(s) && !Refused(n) && Find(s, n, 0) >= 0
    ensures var r := FreshLookup(s, n, nbr);
            r.Some? && r.value.0 > 0 && var e := r.value.1;
            && e.bstart == Find(s, n, 0)
            && |e.hd| == nbr
            && (forall i :: 0 <= i < nbr ==> e.hd[i] == if IsCopy(s, n, i) then Pos(s[i].ents[n]) else Unset)
            && IsCopy(s, n, e.bend) && (forall i :: IsCopy(s, n, i) ==> i <= e.bend)
            && e.bwh == (if s[e.bstart].ents[n].kind == Dir then FirstWh(s, n, 0) else -1)
            && (e.bdiropq == -1 || IsOpqCopy(s, n, e.bdiropq))
            && (forall i :: IsOpqCopy(s, n, i) ==> i <= e.bdiropq)
  {
    WellFormedIsSound(s, n);
    FreshLookupOf(s, n, nbr);
  }

  /** A name hidden by a whiteout at `b` with no copy above it: the dentry starts at the first layer there is,
      where it gets a negative slot. */
  lemma HiddenLookup(s: Stack, n: Name, nbr: nat, b: nat)
    requires |s| <= nbr && Sound(s, n) && b < |s| && HasWh(s[b], n) && Clear(s, n, 0, b) && Lacks(s, n, 0, b)
    ensures var r := FreshLookup(s, n, nbr);
            && r.Some? && r.value.0 == 0 && r.value.1.bwh == b && r.value.1.bdiropq == -1
            && 0 <= r.value.1.bstart == r.value.1.bend <= b
            && (r.value.1.bstart == b <==> forall j :: 0 <= j < b ==> !s[j].present)
  {
    var d, neg := WalkLeads(Fresh(nbr), s, n, 0, true, b, AnyKind);
    assert s[b].present && !BadWh(s[b], n) && n !in s[b].ents;
    if neg {
      assert Visit(d, s[b], n, b, true, AnyKind, AnyKind).1 == Cache(d.(bwh := b), b, Neg);
    } else {
      assert Visit(d, s[b], n, b, false, AnyKind, AnyKind) == (Null, d.(bwh := b));
    }
  }

  lemma {:induction false} FirstWhSkip(s: Stack, n: Name, b: nat, t: nat)
    requires b <= t <= |s| && Clear(s, n, b, t)
    ensures FirstWh(s, n, b) == FirstWh(s, n, t)
    decreases t - b
  {
    if b == t {
    } else {
      FirstWhSkip(s, n, b + 1, t);
    }
  }

  // ----- the layer range of a directory

  /** au_dbtail */
  function DbTail(d: Dinfo): int {
    if 0 <= d.bend then
      if d.bwh == 0 then 0
      else if 0 < d.bwh < d.bend then d.bwh - 1
      else d.bend
    else d.bend
  }

  /** au_dbtaildir */
  function DbTailDir(d: Dinfo): int {
    var tail := DbTail(d);
    if 0 <= tail && 0 <= d.bdiropq < tail then d.bdiropq else tail
  }

  /** A fresh lookup caches layer `i`, and the layer range of the entry reaches it. */
  ghost predicate Merges(s: Stack, n: Name, i: int) {
    match FreshLookup(s, n, |s|)
    case None => false
    case Some((c, e)) => c > 0 && 0 <= i < |e.hd| && e.hd[i].Pos? && i <= DbTailDir(e)
  }

  /** What that comes to: layer `i` holds a copy, and there is no opaque copy above it unless there is one
      at or below it too. */
  ghost predicate Contributes(s: Stack, n: Name, i: int) {
    IsCopy(s, n, i) && forall o :: IsOpqCopy(s, n, o) && o < i ==> exists k :: i <= k && IsOpqCopy(s, n, k)
  }

  lemma ContributesIsMerged(s: Stack, n: Name, i: int)
    requires Sound(s, n)
    ensures Merges(s, n, i) <==> Contributes(s, n, i)
  {
    if Find(s, n, 0) < 0 {
      WalkFinds(Fresh(|s|), s, n, 0, true, AnyKind);
    } else {
      FreshLookupOf(s, n, |s|);
      var e := FreshLookup(s, n, |s|).value.1;
      TailOf(s, n, e);
      assert e.bdiropq == -1 || IsOpqCopy(s, n, e.bdiropq);
    }
  }

  /** The range of a looked-up entry ends at its lowest opaque copy, or at its lowest copy. */
  lemma TailOf(s: Stack, n: Name, e: Dinfo)
    requires Find(s, n, 0) >= 0 && e.bstart == Find(s, n, 0)
    requires IsCopy(s, n, e.bend) && (forall i :: IsCopy(s, n, i) ==> i <= e.bend)
    requires e.bwh == (if s[e.bstart].ents[n].kind == Dir then FirstWh(s, n, 0) else -1)
    requires (e.bdiropq == -1 || IsOpqCopy(s, n, e.bdiropq)) && forall i :: IsOpqCopy(s, n, i) ==> i <= e.bdiropq
    ensures DbTailDir(e) == if e.bdiropq == -1 then e.bend else e.bdiropq
    ensures IsCopy(s, n, DbTailDir(e))
  {
    assert e.bwh == -1 || e.bend < e.bwh;
    assert e.bdiropq == -1 || IsCopy(s, n, e.bdiropq);
  }

  // ----- the lookup of a dentry that is a directory already

  /** A directory at layer `i`, from `b` on, with no opaque one above it. */
  ghost predicate KeptAt(s: Stack, n: Name, b: nat, i: int) {
    DirAt(s, n, b, i) && forall o {:trigger OpqAt(s, n, b, o)} :: OpqAt(s, n, b, o) ==> i <= o
  }

  /** What it leaves below layer `b`, starting from `d`. */
  ghost predicate Collected(d: Dinfo, e: Dinfo, s: Stack, n: Name, b: nat) {
    && e.bstart == d.bstart && |e.hd| == |d.hd| >= |s|
    && (forall i :: 0 <= i < |d.hd| ==> e.hd[i] == if KeptAt(s, n, b, i) then Pos(s[i].ents[n]) else d.hd[i])
    && (e.bend == d.bend || KeptAt(s, n, b, e.bend)) && (forall i :: KeptAt(s, n, b, i) ==> i <= e.bend)
    && (if e.bdiropq == -1 then forall o :: !OpqAt(s, n, b, o)
        else OpqAt(s, n, b, e.bdiropq) && forall o :: OpqAt(s, n, b, o) ==> e.bdiropq <= o)
  }

  lemma KeptShift(s: Stack, n: Name, b: nat)
    requires b < |s| && !HasWh(s[b], n)
    ensures DirAt(s, n, b, b) <==> IsDir(s[b], n)
    ensures OpqAt(s, n, b, b) <==> IsDir(s[b], n) && s[b].whable && s[b].ents[n].opq
    ensures OpqAt(s, n, b, b) ==> forall i {:trigger KeptAt(s, n, b, i)} :: KeptAt(s, n, b, i) <==> i == b
    ensures !OpqAt(s, n, b, b) ==>
              forall i {:trigger KeptAt(s, n, b, i)} {:trigger KeptAt(s, n, b + 1, i)} ::
                KeptAt(s, n, b, i) <==> (i == b && DirAt(s, n, b, b)) || KeptAt(s, n, b + 1, i)
    ensures !OpqAt(s, n, b, b) ==>
              forall i {:trigger OpqAt(s, n, b, i)} {:trigger OpqAt(s, n, b + 1, i)} ::
                OpqAt(s, n, b, i) <==> OpqAt(s, n, b + 1, i)
  {
    DirAtShift(s, n, b);
    assert forall i :: DirAt(s, n, b, i) ==> i >= b;
    assert forall i {:trigger DirAt(s, n, b + 1, i)} :: DirAt(s, n, b + 1, i) ==> i >= b + 1;
    assert forall i :: OpqAt(s, n, b, i) ==> DirAt(s, n, b, i);
    assert forall i {:trigger OpqAt(s, n, b + 1, i)} :: OpqAt(s, n, b + 1, i) ==> DirAt(s, n, b + 1, i);
  }

  lemma CollectedNone(d: Dinfo, s: Stack, n: Name, b: nat)
    requires b <= |s| <= |d.hd| && d.bdiropq == -1 && (b == |s| || HasWh(s[b], n))
    ensures Collected(d, d, s, n, b) && forall w :: Collected(d, d.(bwh := w), s, n, b)
  {
    assert forall i :: !DirAt(s, n, b, i);
  }

  lemma CollectedStep(d: Dinfo, e: Dinfo, s: Stack, n: Name, b: nat)
    requires b < |s| <= |d.hd| && !HasWh(s[b], n) && d.bdiropq == -1 && 0 <= d.bstart <= d.bend < b
    requires forall i :: b <= i < |d.hd| ==> d.hd[i] == Unset
    requires var d' := CacheDir(d, s, n, b);
             if d'.bdiropq == b then e == d' else Collected(d', e, s, n, b + 1)
    ensures Collected(d, e, s, n, b)
  {
    KeptShift(s, n, b);
    assert forall i {:trigger KeptAt(s, n, b + 1, i)} :: KeptAt(s, n, b + 1, i) ==> i > b;
    hide DirAt, OpqAt, KeptAt;
  }

  /** Such a walk ends at the first opaque directory, or else at the first whiteout. */
  lemma {:induction false} KeptWalk(d: Dinfo, s: Stack, n: Name, b: nat)
    requires b <= |s| <= |d.hd| && d.bwh == -1 && d.bdiropq == -1 && 0 <= d.bstart <= d.bend < b && Sound(s, n)
    requires forall i :: b <= i < |d.hd| ==> d.hd[i] == Unset
    ensures var r := Walk(d, s, n, b, false, Only(Dir), Only(Dir));
            r.Some? && var e := r.value.1;
            Collected(d, e, s, n, b) && e.bwh == if e.bdiropq == -1 then FirstWh(s, n, b) else -1
    decreases |s| - b
  {
    hide Collected;
    if b == |s| || HasWh(s[b], n) {
      CollectedNone(d, s, n, b);
    } else {
      var d' := CacheDir(d, s, n, b);
      if d'.bdiropq == b {
        KeptWalkStop(d, s, n, b);
        CollectedStep(d, d', s, n, b);
      } else {
        KeptWalkStep(d, s, n, b);
        KeptWalk(d', s, n, b + 1);
        CollectedStep(d, Walk(d', s, n, b + 1, false, Only(Dir), Only(Dir)).value.1, s, n, b);
      }
    }
  }

  lemma KeptWalkStop(d: Dinfo, s: Stack, n: Name, b: nat)
    requires b < |s| <= |d.hd| && d.bwh == -1 && Sound(s, n) && !HasWh(s[b], n) && d.bdiropq == -1
    requires CacheDir(d, s, n, b).bdiropq == b
    ensures Walk(d, s, n, b, false, Only(Dir), Only(Dir)) == Some((1, CacheDir(d, s, n, b)))
  {}

  lemma KeptWalkStep(d: Dinfo, s: Stack, n: Name, b: nat)
    requires b < |s| <= |d.hd| && d.bwh == -1 && d.bdiropq == -1 && Sound(s, n) && !HasWh(s[b], n)
    requires CacheDir(d, s, n, b).bdiropq == -1
    ensures var r := Walk(d, s, n, b, false, Only(Dir), Only(Dir));
            var q := Walk(CacheDir(d, s, n, b), s, n, b + 1, false, Only(Dir), Only(Dir));
            r.Some? == q.Some? && (r.Some? ==> r.value.1 == q.value.1)
  {}

  /** au_lkup_dentry as au_refresh_dentry uses it on a directory, au_update_dbstart included. */
  function DirLookup(s: Stack, n: Name, nbr: nat): Option<(nat, Dinfo)>
    requires |s| <= nbr
  {
    match Walk(Fresh(nbr), s, n, 0, true, AnyKind, Only(Dir))
    case None => None
    case Some((c, d)) => Some((c, Finish(c, d)))
  }

  /** Layer `i` holds a copy and no opaque copy is above it. */
  ghost predicate IsKept(s: Stack, n: Name, i: int) {
    IsCopy(s, n, i) && forall o :: IsOpqCopy(s, n, o) ==> i <= o
  }

  /** What the lookup of a directory leaves when it ends at the topmost opaque copy: exactly the copies down
      to that one are cached, and they are the range. */
  ghost predicate DirLooked(e: Dinfo, s: Stack, n: Name) {
    && e.bstart == Find(s, n, 0)
    && (forall i :: 0 <= i < |e.hd| ==> e.hd[i] == if IsKept(s, n, i) then Pos(s[i].ents[n]) else Unset)
    && IsKept(s, n, e.bend) && (forall i :: IsKept(s, n, i) ==> i <= e.bend)
    && (if e.bdiropq == -1 then forall o :: !IsOpqCopy(s, n, o)
        else IsOpqCopy(s, n, e.bdiropq) && forall o :: IsOpqCopy(s, n, o) ==> e.bdiropq <= o)
    && e.bwh == (if e.bdiropq == -1 then FirstWh(s, n, 0) else -1)
    && DbTailDir(e) == if e.bdiropq == -1 then e.bend else e.bdiropq
  }

  /** What the walk leaves when the topmost copy is at `top`; a negative slot may be left above. */
  ghost predicate KeptFrom(e: Dinfo, s: Stack, n: Name, top: nat) {
    && top < |s| <= |e.hd| && 0 <= e.bstart <= top <= e.bend
    && (forall i :: e.bstart <= i < top ==> !e.hd[i].Pos?)
    && (forall i :: 0 <= i < e.bstart ==> e.hd[i] == Unset)
    && (forall i :: top <= i < |e.hd| ==> e.hd[i] == if KeptAt(s, n, top, i) then Pos(s[i].ents[n]) else Unset)
    && KeptAt(s, n, top, e.bend) && (forall i :: KeptAt(s, n, top, i) ==> i <= e.bend)
    && (if e.bdiropq == -1 then forall o :: !OpqAt(s, n, top, o)
        else OpqAt(s, n, top, e.bdiropq) && forall o :: OpqAt(s, n, top, o) ==> e.bdiropq <= o)
    && e.bwh == (if e.bdiropq == -1 then FirstWh(s, n, top + 1) else -1)
  }

  lemma TopStep(d: Dinfo, s: Stack, n: Name, top: nat, neg: bool) returns (e: Dinfo)
    requires top < |s| <= |d.hd| && Leading(d, top, neg) && Sound(s, n) && !HasWh(s[top], n) && IsDir(s[top], n)
    ensures e.bwh == -1 && e.bend == top && |e.hd| == |d.hd| && e.hd == d.hd[top := Pos(s[top].ents[n])]
    ensures e.bstart == if neg then top else d.bstart
    ensures e.bdiropq == if s[top].whable && s[top].ents[n].opq then top else -1
    ensures Walk(d, s, n, top, neg, AnyKind, Only(Dir)) ==
            if e.bdiropq == top then Some((1, e)) else Counted(1, Walk(e, s, n, top + 1, false, Only(Dir), Only(Dir)))
  {
    e := Visit(d, s[top], n, top, neg, AnyKind, Only(Dir)).1;
  }

  /** The walk of a directory from its topmost copy on. */
  lemma KeptFromTop(d: Dinfo, s: Stack, n: Name, top: nat, neg: bool)
    requires top < |s| <= |d.hd| && Leading(d, top, neg) && Sound(s, n) && !HasWh(s[top], n) && IsDir(s[top], n)
    ensures var r := Walk(d, s, n, top, neg, AnyKind, Only(Dir));
            r.Some? && r.value.0 > 0 && |r.value.1.hd| == |d.hd| && KeptFrom(r.value.1, s, n, top)
  {
    hide Walk, Visit, Sound, DirAt, OpqAt;
    KeptShift(s, n, top);
    var e := TopStep(d, s, n, top, neg);
    if e.bdiropq != top {
      KeptWalk(e, s, n, top + 1);
      assert forall i :: KeptAt(s, n, top, i) && i < top + 1 ==> i == top by { AtOrBelow(s, n, top); }
    }
    hide KeptAt;
  }

  lemma AtOrBelow(s: Stack, n: Name, b: nat)
    ensures forall i :: KeptAt(s, n, b, i) ==> i >= b
  {}

  lemma KeptCopies(s: Stack, n: Name)
    requires Find(s, n, 0) >= 0 && IsDir(s[Find(s, n, 0)], n)
    ensures var top := Find(s, n, 0);
            forall i {:trigger IsOpqCopy(s, n, i)} {:trigger IsKept(s, n, i)} ::
              (IsOpqCopy(s, n, i) <==> OpqAt(s, n, top, i)) && (IsKept(s, n, i) <==> KeptAt(s, n, top, i))
  {
    var top := Find(s, n, 0);
    FindMeaning(s, n, 0);
    forall i ensures (IsOpqCopy(s, n, i) <==> OpqAt(s, n, top, i)) && (IsCopy(s, n, i) <==> DirAt(s, n, top, i)) {
      if DirAt(s, n, top, i) {
        assert Clear(s, n, 0, i + 1);
      }
    }
  }

  /** The lookup of a dentry that is a directory already stops at its topmost opaque copy. */
  lemma DirLookupMeaning(s: Stack, n: Name, nbr: nat)
    requires |s| <= nbr && WellFormed(s) && !Refused(n) && Find(s, n, 0) >= 0 && IsDir(s[Find(s, n, 0)], n)
    ensures var r := DirLookup(s, n, nbr);
            r.Some? && r.value.0 > 0 && |r.value.1.hd| == nbr && DirLooked(r.value.1, s, n)
  {
    var top := Find(s, n, 0);
    WellFormedIsSound(s, n);
    FindMeaning(s, n, 0);
    assert !HasWh(s[top], n) && Clear(s, n, 0, top);
    var d, neg := WalkLeads(Fresh(nbr), s, n, 0, true, top, Only(Dir));
    KeptFromTop(d, s, n, top, neg);
    hide Walk, KeptFrom, DirLooked, Sound, Clear, Find;
    KeptFinish(Walk(Fresh(nbr), s, n, 0, true, AnyKind, Only(Dir)).value.1, s, n, top);
  }

  lemma KeptFinish(e: Dinfo, s: Stack, n: Name, top: nat)
    requires KeptFrom(e, s, n, top) && Find(s, n, 0) == top && IsDir(s[top], n) && Clear(s, n, 0, top)
             && !HasWh(s[top], n)
    ensures e.bend < |e.hd| && 0 <= e.bstart
    ensures |UpdateDbstart(e, e.bstart).hd| == |e.hd| && DirLooked(UpdateDbstart(e, e.bstart), s, n)
  {
    hide Find, OpqAt, IsOpqCopy, IsKept;
    FirstWhSkip(s, n, 0, top + 1);
    assert e.bend < |s|;
    KeptCopies(s, n);
    assert KeptAt(s, n, top, top) by { KeptTop(s, n, top); }
    hide KeptAt, Clear, HasWh, FirstWh;
    UpdateDbstartMeaning(e, e.bstart, top);
    assert forall i :: KeptAt(s, n, top, i) ==> i >= top by { AtOrBelow(s, n, top); }
    var f := UpdateDbstart(e, e.bstart);
    hide UpdateDbstart;
    KeptTail(f, s, n, top);
    hide DbTailDir;
  }

  lemma KeptTop(s: Stack, n: Name, top: nat)
    requires top < |s| && IsDir(s[top], n) && !HasWh(s[top], n)
    ensures KeptAt(s, n, top, top)
  {}

  lemma KeptTail(e: Dinfo, s: Stack, n: Name, top: nat)
    requires KeptAt(s, n, top, e.bend) && e.bend >= 0 && Clear(s, n, 0, top)
    requires if e.bdiropq == -1 then forall o :: !OpqAt(s, n, top, o)
             else OpqAt(s, n, top, e.bdiropq) && forall o :: OpqAt(s, n, top, o) ==> e.bdiropq <= o
    requires (forall i :: KeptAt(s, n, top, i) ==> i <= e.bend)
    requires e.bwh == if e.bdiropq == -1 then FirstWh(s, n, 0) else -1
    ensures DbTailDir(e) == if e.bdiropq == -1 then e.bend else e.bdiropq
  {
    if e.bdiropq == -1 {
      assert e.bwh == -1 || e.bend < e.bwh by {
        assert Clear(s, n, top, e.bend + 1);
      }
    } else {
      assert KeptAt(s, n, top, e.bdiropq);
    }
  }

  /** Any other kind of entry is looked up in its topmost copy alone. */
  lemma FileLookup(s: Stack, n: Name, nbr: nat, inode: KindOpt)
    requires |s| <= nbr && WellFormed(s) && !Refused(n) && Find(s, n, 0) >= 0 && !IsDir(s[Find(s, n, 0)], n)
    ensures var r := Walk(Fresh(nbr), s, n, 0, true, AnyKind, inode);
            var top := Find(s, n, 0);
            r.Some? && r.value.0 == 1 &&
            Finish(1, r.value.1) == Dinfo(top, top, -1, -1, Fresh(nbr).hd[top := Pos(s[top].ents[n])])
  {
    var top := Find(s, n, 0);
    WellFormedIsSound(s, n);
    FindMeaning(s, n, 0);
    assert !HasWh(s[top], n) && Clear(s, n, 0, top);
    var d, neg := WalkLeads(Fresh(nbr), s, n, 0, true, top, inode);
    var e := Cache(d, top, Pos(s[top].ents[n]));
    assert Walk(d, s, n, top, neg, AnyKind, inode) == Some((1, e));
    UpdateDbstartMeaning(e, e.bstart, top);
    assert Finish(1, e).hd == Fresh(nbr).hd[top := Pos(s[top].ents[n])];
  }

  /** What the lookup of a name leaves: a file is cached from its topmost copy; the copies of a directory are
      cached down to the first whiteout by a dentry that is not a directory yet, and down to the topmost opaque
      copy by one that is. */
  ghost predicate Cached(e: Dinfo, s: Stack, n: Name, inode: KindOpt)
    requires Find(s, n, 0) >= 0
  {
    var top := Find(s, n, 0);
    if !IsDir(s[top], n) then
      top < |e.hd| && e == Dinfo(top, top, -1, -1, Fresh(|e.hd|).hd[top := Pos(s[top].ents[n])])
    else
      && (inode == Only(Dir) ==> DirLooked(e, s, n))
      && (inode.Only? && inode.kind != Dir ==> e.bdiropq == -1)
      && (inode == AnyKind ==>
            && e.bstart == top && IsCopy(s, n, e.bend) && (forall i :: IsCopy(s, n, i) ==> i <= e.bend)
            && (forall i :: 0 <= i < |e.hd| ==> e.hd[i] == if IsCopy(s, n, i) then Pos(s[i].ents[n]) else Unset)
            && e.bwh == FirstWh(s, n, 0)
            && (e.bdiropq == -1 || IsOpqCopy(s, n, e.bdiropq)) && forall i :: IsOpqCopy(s, n, i) ==> i <= e.bdiropq)
  }

  /** The answer to the lookup of a fresh dentry: positive exactly if the union provides the name. */
  ghost predicate Answered(r: Result, e: Dinfo, s: Stack, n: Name, inode: KindOpt, udbaNone: bool) {
    if Find(s, n, 0) >= 0 then r.Ok? && r.count > 0 && Cached(e, s, n, inode)
    else r == if !udbaNone && e.bstart < 0 then Err(EIO) else Ok(0)
  }

  lemma AnsweredRight(s: Stack, n: Name, nbr: nat, inode: KindOpt, udbaNone: bool)
    requires |s| <= nbr && WellFormed(s) && !Refused(n)
    ensures var w := Walk(Fresh(nbr), s, n, 0, true, AnyKind, inode);
            w.Some? && var e := Finish(w.value.0, w.value.1);
            Answered(if !udbaNone && e.bstart < 0 then Err(EIO) else Ok(w.value.0), e, s, n, inode, udbaNone)
  {
    WellFormedIsSound(s, n);
    WalkFinds(Fresh(nbr), s, n, 0, true, inode);
    var top := Find(s, n, 0);
    if top >= 0 {
      hide Walk, DirLooked, IsCopy, IsOpqCopy;
      FindMeaning(s, n, 0);
      if !IsDir(s[top], n) {
        FileLookup(s, n, nbr, inode);
      } else if inode == Only(Dir) {
        DirLookupMeaning(s, n, nbr);
        assert DirLookup(s, n, nbr).value.1.bstart == top by { DirStart(DirLookup(s, n, nbr).value.1, s, n); }
      } else if inode == AnyKind {
        FreshLookupMeaning(s, n, nbr);
      } else {
        StartKept(s, n, nbr, inode);
        NoOpq(Fresh(nbr), s, n, 0, true, AnyKind, inode);
      }
    }
  }

  /** A lookup that finds nothing finds no opaque mark. */
  lemma {:induction false} NothingOpaque(d: Dinfo, s: Stack, n: Name, b: nat, allowNeg: bool, typ: KindOpt,
                                         inode: KindOpt)
    requires b <= |s| <= |d.hd| && d.bwh < 0
    ensures var r := Walk(d, s, n, b, allowNeg, typ, inode);
            r.Some? && r.value.0 == 0 ==> r.value.1.bdiropq == d.bdiropq
    decreases |s| - b
  {
    if b == |s| {
    } else if s[b].present {
      var d' := Visit(d, s[b], n, b, allowNeg, typ, inode).1;
      if d'.bwh < 0 {
        NothingOpaque(d', s, n, b + 1, false, typ, inode);
      }
    } else {
      NothingOpaque(d, s, n, b + 1, allowNeg, typ, inode);
    }
  }

  /** Opaque marks are only looked for on behalf of directories. */
  lemma {:induction false} NoOpq(d: Dinfo, s: Stack, n: Name, b: nat, allowNeg: bool, typ: KindOpt, inode: KindOpt)
    requires b <= |s| <= |d.hd| && inode.Only? && inode.kind != Dir
    ensures var r := Walk(d, s, n, b, allowNeg, typ, inode); r.Some? ==> r.value.1.bdiropq == d.bdiropq
    decreases |s| - b
  {
    if b == |s| {
    } else if s[b].present {
      var d' := Visit(d, s[b], n, b, allowNeg, typ, inode).1;
      NoOpq(d', s, n, b + 1, false, typ, inode);
      NoOpq(d', s, n, b + 1, false, Only(Dir), inode);
    } else {
      NoOpq(d, s, n, b + 1, allowNeg, typ, inode);
    }
  }

  lemma StartKept(s: Stack, n: Name, nbr: nat, inode: KindOpt)
    requires |s| <= nbr && WellFormed(s) && !Refused(n) && Find(s, n, 0) >= 0
    ensures var w := Walk(Fresh(nbr), s, n, 0, true, AnyKind, inode);
            w.Some? && 0 <= Finish(w.value.0, w.value.1).bstart
  {
    var top := Find(s, n, 0);
    WellFormedIsSound(s, n);
    WalkFinds(Fresh(nbr), s, n, 0, true, inode);
    FindMeaning(s, n, 0);
    assert !HasWh(s[top], n) && Clear(s, n, 0, top);
    var d, neg := WalkLeads(Fresh(nbr), s, n, 0, true, top, inode);
    var (h, e) := Visit(d, s[top], n, top, neg, AnyKind, inode);
    WalkKeepsStart(e, s, n, top + 1, false, Only(Dir), inode);
  }

  lemma DirStart(e: Dinfo, s: Stack, n: Name)
    requires DirLooked(e, s, n)
    ensures e.bstart == Find(s, n, 0)
  {}

  ghost predicate IsDir(l: Layer, n: Name) {
    n in l.ents && l.ents[n].kind == Dir
  }

  /** Layer `i` below `b` holds a directory `n` that nothing below `b` hides. */
  ghost predicate DirBelow(s: Stack, n: Name, b: nat, i: int) {
    DirAt(s, n, b + 1, i)
  }

  /** And it is opaque. */
  ghost predicate OpqBelow(s: Stack, n: Name, b: nat, i: int) {
    OpqAt(s, n, b + 1, i)
  }

  /** With a directory at `b` that nothing is above, what shows besides it are the directories below it down
      to the lowest opaque one; all of them when it is plain and none of them is opaque. */
  lemma DirCopies(t: Stack, b: nat, n: Name, i: int)
    requires b < |t| && Find(t, n, 0) == b && IsDir(t[b], n) && t[b].whable
    ensures Contributes(t, n, i) <==>
            i == b || (&& DirBelow(t, n, b, i)
                       && (t[b].ents[n].opq || (exists o :: OpqBelow(t, n, b, o) && o < i) ==>
                             exists k :: i <= k && OpqBelow(t, n, b, k)))
  {
    forall j
      ensures IsCopy(t, n, j) <==> j == b || DirBelow(t, n, b, j)
      ensures IsOpqCopy(t, n, j) <==> (j == b && t[b].ents[n].opq) || OpqBelow(t, n, b, j)
    {
      CopiesFromTop(t, n, j);
    }
    hide IsCopy, IsOpqCopy;
    assert t[b].ents[n].opq ==> IsOpqCopy(t, n, b);
    if Contributes(t, n, i) && i != b {
      assert DirBelow(t, n, b, i);
    }
  }

  /** A directory that came to be at `b`, and is opaque if there is any directory of its name below, is merged
      from its layer alone, if and only if none of those below is opaque. */
  lemma OnlyLayer(s: Stack, t: Stack, b: nat, n: Name)
    requires b < |s| == |t| && forall j :: b < j < |s| ==> t[j] == s[j]
    requires Find(t, n, 0) == b && IsDir(t[b], n) && t[b].whable
    requires forall i :: DirBelow(s, n, b, i) ==> t[b].ents[n].opq
    ensures (forall i :: Contributes(t, n, i) <==> i == b) <==> forall i :: !OpqBelow(s, n, b, i)
  {
    forall i
      ensures DirBelow(t, n, b, i) <==> DirBelow(s, n, b, i)
      ensures OpqBelow(t, n, b, i) <==> OpqBelow(s, n, b, i)
    {}
    forall i ensures Contributes(t, n, i) <==>
            i == b || (DirBelow(s, n, b, i) && exists k :: i <= k && OpqBelow(s, n, b, k))
    {
      DirCopies(t, b, n, i);
    }
    if i :| OpqBelow(s, n, b, i) {
      assert DirBelow(s, n, b, i) && i != b;
      hide Contributes, DirBelow, OpqBelow;
      assert Contributes(t, n, i);
    }
  }

  /** A whiteout that nothing is above hides the name from every lookup, whatever else its layer holds. */
  lemma {:induction false} CoveredWalk(d: Dinfo, s: Stack, n: Name, b: nat, allowNeg: bool, typ: KindOpt,
                                       inode: KindOpt, w: nat)
    requires b <= w < |s| <= |d.hd| && HasWh(s[w], n) && s[w].present && Lacks(s, n, b, w)
    ensures !Positive(Walk(d, s, n, b, allowNeg, typ, inode))
    decreases w - b
  {
    if b == w {
    } else if s[b].present {
      CoveredWalk(Visit(d, s[b], n, b, allowNeg, typ, inode).1, s, n, b + 1, false, typ, inode, w);
    } else {
      CoveredWalk(d, s, n, b + 1, allowNeg, typ, inode, w);
    }
  }

  lemma CoveredMergesNothing(s: Stack, n: Name, w: nat, i: int)
    requires w < |s| && HasWh(s[w], n) && s[w].present && Lacks(s, n, 0, w)
    ensures !Merges(s, n, i) && !Contributes(s, n, i)
  {
    CoveredWalk(Fresh(|s|), s, n, 0, true, AnyKind, AnyKind, w);
    FindMeaning(s, n, 0);
  }

  /** Without an opaque copy a looked-up directory reaches down to its lowest copy. With opaque copies
      it should end at the topmost one, `o`; it does exactly when there is no second one below. */
  lemma DirRangeExact(s: Stack, n: Name, nbr: nat, o: int)
    requires |s| <= nbr && WellFormed(s) && !Refused(n) && Find(s, n, 0) >= 0
    ensures FreshLookup(s, n, nbr).Some?
    ensures var e := FreshLookup(s, n, nbr).value.1;
            && ((forall i :: !IsOpqCopy(s, n, i)) ==> DbTailDir(e) == e.bend)
            && (IsOpqCopy(s, n, o) && (forall i :: IsOpqCopy(s, n, i) ==> o <= i) ==>
                  (DbTailDir(e) == o <==> forall i :: IsOpqCopy(s, n, i) ==> i == o))
  {
    FreshLookupMeaning(s, n, nbr);
    var e := FreshLookup(s, n, nbr).value.1;
    TailOf(s, n, e);
    if IsOpqCopy(s, n, o) {
      assert IsCopy(s, n, o);
      assert IsCopy(s, n, e.bdiropq);
    }
  }

  /** An opaque directory over a plain one over another opaque one is given all three layers. */
  lemma SecondOpaqueCopyIsMerged()
    ensures exists s: Stack, n: Name ::
              && WellFormed(s) && !Refused(n)
              && IsOpqCopy(s, n, 0)
              && var r := FreshLookup(s, n, |s|); r.Some? && DbTailDir(r.value.1) == 2
  {
    var n := "d";
    var top := Layer(true, true, map["d" := Node(Dir, 0, true)]);
    var mid := Layer(true, true, map["d" := Node(Dir, 1, false)]);
    var s := [top, mid, Layer(true, true, map["d" := Node(Dir, 2, true)])];
    assert |Wh(n)| == 5;
    assert forall i, m: Name :: 0 <= i < 3 && m != "d" ==> m !in s[i].ents;
    forall i, m: Name | 0 <= i < 3 ensures !HasWh(s[i], m) {
      assert |Wh(m)| >= 4;
    }
    assert Find(s, n, 0) == 0;
    assert IsOpqCopy(s, n, 0) && IsOpqCopy(s, n, 2);
    DirRangeExact(s, n, 3, 0);
    FreshLookupMeaning(s, n, 3);
  }

  // ----- is a whiteout needed?

  /** The private data au_di_cp leaves in the temporary dinfo: indices copied, slots empty. */
  function Scratch(d: Dinfo): Dinfo {
    d.(hd := seq(|d.hd|, _ => Unset))
  }

  /** au_wr_dir_need_wh on the branch that holds the entry: positive when a whiteout is needed. */
  function NeedWh(d: Dinfo, s: Stack, n: Name, inode: KindOpt): Option<nat>
    requires 0 <= d.bstart < |s| <= |d.hd|
  {
    match Walk(Scratch(d), s, n, d.bstart + 1, true, AnyKind, inode)
    case None => None
    case Some((c, _)) => Some(c)
  }

  /** Without a recorded whiteout the answer is right: positive iff removing the topmost copy would
      let a lower one show. */
  lemma NeedWhSound(d: Dinfo, s: Stack, n: Name, inode: KindOpt)
    requires 0 <= d.bstart < |s| <= |d.hd| && WellFormed(s) && !Refused(n) && d.bwh < 0
    ensures NeedWh(d, s, n, inode).Some?
    ensures NeedWh(d, s, n, inode).value > 0 <==> Find(s, n, d.bstart + 1) >= 0
  {
    WellFormedIsSound(s, n);
    WalkFinds(Scratch(d), s, n, d.bstart + 1, true, inode);
  }

  /** For a dentry as a fresh lookup leaves it, the answer is right exactly when no whiteout is
      recorded, or no layer between the topmost copy and that whiteout holds the name: au_di_cp hands
      the recorded whiteout to the second lookup, which then stops before it counts. */
  lemma NeedWhExact(s: Stack, n: Name, nbr: nat, inode: KindOpt)
    requires |s| <= nbr && WellFormed(s) && !Refused(n) && Find(s, n, 0) >= 0
    ensures FreshLookup(s, n, nbr).Some?
    ensures var e := FreshLookup(s, n, nbr).value.1;
            && 0 <= e.bstart < |s| <= |e.hd| && e.bwh <= |s|
            && ((NeedWh(e, s, n, inode).Some? && (NeedWh(e, s, n, inode).value > 0 <==> Find(s, n, e.bstart + 1) >= 0))
                <==> e.bwh < 0 || forall j :: e.bstart < j < e.bwh ==> n !in s[j].ents)
  {
    FreshLookupMeaning(s, n, nbr);
    var e := FreshLookup(s, n, nbr).value.1;
    if e.bwh < 0 {
      NeedWhSound(e, s, n, inode);
    } else {
      StaleWhiteoutHidesAll(Scratch(e), s, n, e.bstart + 1, true, AnyKind, inode);
      StaleWalkIsSome(Scratch(e), s, n, e.bstart + 1, true, inode);
      FindMeaning(s, n, e.bstart + 1);
      FindMeaning(s, n, 0);
    }
  }

  /** A directory on two layers above a whiteout: the answer is that no whiteout is needed, but without the
      topmost copy the second one shows. */
  lemma NeedWhMisses()
    ensures exists s: Stack, n: Name ::
              && WellFormed(s) && !Refused(n) && Find(s, n, 0) == 0
              && FreshLookup(s, n, |s|).Some?
              && var e := FreshLookup(s, n, |s|).value.1;
                 e.bstart == 0 < |s| <= |e.hd| && NeedWh(e, s, n, Only(Dir)) == Some(0) && Find(s, n, 1) == 1
  {
    var n := "d";
    var dir := Layer(true, true, map[n := Node(Dir, 0, false)]);
    var s := [dir, dir, Layer(true, true, map[Wh(n) := WHITEOUT])];
    assert |n| == 1 && |Wh(n)| == 5;
    forall m: Name ensures |Wh(m)| == |m| + 4 && (Wh(m) == Wh(n) ==> m == n) {
      WhInjective(m, n);
    }
    assert forall m: Name :: !HasWh(dir, m);
    assert !HasWh(s[0], n) && !HasWh(s[1], n) && HasWh(s[2], n);
    assert Find(s, n, 2) == -1 && Find(s, n, 1) == 1 && Find(s, n, 0) == 0;
    FreshLookupMeaning(s, n, 3);
    assert FirstWh(s, n, 2) == 2 && FirstWh(s, n, 1) == 2 && FirstWh(s, n, 0) == 2;
    NeedWhExact(s, n, 3, Only(Dir));
    StaleWhiteoutHidesAll(Scratch(FreshLookup(s, n, 3).value.1), s, n, 1, true, AnyKind, Only(Dir));
    StaleWalkIsSome(Scratch(FreshLookup(s, n, 3).value.1), s, n, 1, true, Only(Dir));
  }

  lemma {:induction false} StaleWalkIsSome(d: Dinfo, s: Stack, n: Name, b: nat, allowNeg: bool, inode: KindOpt)
    requires b <= |s| <= |d.hd| && d.bwh >= 0 && WellFormed(s) && !Refused(n)
    ensures Walk(d, s, n, b, allowNeg, AnyKind, inode).Some?
    decreases |s| - b
  {
    WellFormedIsSound(s, n);
    if b == |s| || s[b].present {
    } else {
      StaleWalkIsSome(d, s, n, b + 1, allowNeg, inode);
    }
  }

  /** A walk never unsets the start index. */
  lemma {:induction false} WalkKeepsStart(d: Dinfo, s: Stack, n: Name, b: nat, allowNeg: bool, typ: KindOpt,
                                          inode: KindOpt)
    requires b <= |s| <= |d.hd| && 0 <= d.bstart
    ensures var r := Walk(d, s, n, b, allowNeg, typ, inode); r.Some? ==> 0 <= r.value.1.bstart
    decreases |s| - b
  {
    if b == |s| {
    } else {
      if s[b].present {
        var (h, d') := Visit(d, s[b], n, b, allowNeg, typ, inode);
        WalkKeepsStart(d', s, n, b + 1, false, typ, inode);
        WalkKeepsStart(d', s, n, b + 1, false, Only(Dir), inode);
      } else {
        WalkKeepsStart(d, s, n, b + 1, allowNeg, typ, inode);
      }
    }
  }

  // ----- the code

  class Dentry {
    var di: Dinfo
    /** The kind of d_inode; AnyKind when the dentry is negative. */
    const inode: KindOpt

    /** au_di_alloc */
    constructor (nbr: nat, inode: KindOpt)
      ensures di == Fresh(nbr) && this.inode == inode
    {
      di := Fresh(nbr);
      this.inode := inode;
    }

    /** au_do_lookup */
    method DoLookup(l: Layer, n: Name, bindex: nat, allowNeg: bool, typ: KindOpt) returns (r: LowerDentry)
      requires bindex < |di.hd|
      modifies this
      ensures (r, di) == Visit(old(di), l, n, bindex, allowNeg, typ, inode)
      ensures |di.hd| == |old(di).hd| && (old(di).bend < |di.hd| ==> di.bend < |di.hd|)
      ensures r.Found? && r.slot.Pos? ==> 0 <= di.bstart && (typ.Only? ==> r.slot.node.kind == typ.kind)
      ensures (0 <= old(di).bstart ==> 0 <= di.bstart) && (r.Found? ==> !r.slot.Unset?)
    {
      var whFound := false;
      if l.whable && Wh(n) in l.ents {
        if l.ents[Wh(n)].kind != Reg {
          return ErrPtr;
        }
        whFound := true;
        di := di.(bwh := bindex);
        if !allowNeg {
          return Null;
        }
      }
      var h := if n in l.ents then Pos(l.ents[n]) else Neg;
      if h.Neg? {
        if !allowNeg {
          return Null;
        }
      } else if whFound || (typ.Only? && typ.kind != h.node.kind) {
        return Null;
      }
      if di.bend <= bindex {
        di := di.(bend := bindex);
      }
      if di.bstart < 0 || bindex < di.bstart {
        di := di.(bstart := bindex);
      }
      di := di.(hd := di.hd[bindex := h]);
      if h.Neg? || h.node.kind != Dir || !l.whable || (inode.Only? && inode.kind != Dir) {
        return Found(h);
      }
      if h.node.opq {
        di := di.(bdiropq := bindex);
      }
      return Found(h);
    }

    /** au_update_dbstart */
    method DropLeadingNegatives()
      requires 0 <= di.bstart && di.bend < |di.hd|
      modifies this
      ensures di == UpdateDbstart(old(di), old(di.bstart))
    {
      var bindex := di.bstart;
      while bindex <= di.bend
        invariant 0 <= bindex && di.bend < |di.hd|
        invariant UpdateDbstart(di, bindex) == UpdateDbstart(old(di), old(di.bstart))
      {
        if di.hd[bindex].Pos? {
          di := di.(bstart := bindex);
          return;
        }
        di := di.(hd := di.hd[bindex := Unset]);
        bindex := bindex + 1;
      }
    }

    /** The loop of au_lkup_dentry; None when a layer reports an error. */
    method WalkLayers(s: Stack, n: Name, bstart: nat) returns (r: Option<nat>)
      requires bstart <= |s| <= |di.hd| && di.bend < |di.hd|
      modifies this
      ensures match Walk(old(di), s, n, bstart, true, AnyKind, inode)
              case None => r == None
              case Some((c, d)) => r == Some(c) && di == d && di.bend < |di.hd| && (c > 0 ==> 0 <= di.bstart)
    {
      hide Visit;
      var typ := AnyKind;
      var allowNeg := true;
      var npositive := 0;
      var bindex := bstart;
      ghost var w := Walk(di, s, n, bstart, true, AnyKind, inode);
      while bindex < |s|
        invariant bindex <= |s| <= |di.hd| && di.bend < |di.hd|
        invariant npositive > 0 ==> 0 <= di.bstart && typ == Only(Dir)
        invariant w == Counted(npositive, Walk(di, s, n, bindex, allowNeg, typ, inode))
      {
        if s[bindex].present {
          var h := DoLookup(s[bindex], n, bindex, allowNeg, typ);
          if h.ErrPtr? {
            return None;
          }
          allowNeg := false;
          if di.bwh >= 0 {
            break;
          }
          if h.Found? && h.slot.Pos? {
            npositive := npositive + 1;
            if typ == AnyKind {
              typ := Only(h.slot.node.kind);
            }
            if typ != Only(Dir) || (inode == Only(Dir) && 0 <= di.bdiropq <= bindex) {
              break;
            }
          }
        }
        bindex := bindex + 1;
      }
      return Some(npositive);
    }

    /** au_lkup_dentry with type 0, on private data whose slots are empty. `s` holds the layers of
        the parent up to au_dbtaildir(parent). */
    method LkupDentry(s: Stack, n: Name, bstart: nat, udbaNone: bool) returns (r: Result)
      requires bstart <= |s| <= |di.hd| && di.bend < |di.hd|
      modifies this
      ensures Refused(n) ==> r == Err(EPERM) && di == old(di)
      ensures !Refused(n) ==>
                match Walk(old(di), s, n, bstart, true, AnyKind, inode)
                case None => r == Err(EIO)
                case Some((c, d)) =>
                  && di == Finish(c, d)
                  && r == if !udbaNone && di.bstart < 0 then Err(EIO) else Ok(c)
      ensures !Refused(n) && WellFormed(s) && bstart == 0 && old(di) == Fresh(|old(di).hd|) ==>
                Answered(r, di, s, n, inode, udbaNone)
    {
      hide Answered, Walk, WellFormed;
      if Refused(n) {
        return Err(EPERM);
      }
      ghost var d0 := di;
      if WellFormed(s) && bstart == 0 && d0 == Fresh(|d0.hd|) {
        AnsweredRight(s, n, |d0.hd|, inode, udbaNone);
      }
      var npositive := WalkLayers(s, n, bstart);
      if npositive.None? {
        return Err(EIO);
      }
      if npositive.value > 0 {
        DropLeadingNegatives();
      }
      if !udbaNone && di.bstart < 0 {
        return Err(EIO);
      }
      return Ok(npositive.value);
    }

    /** The branch of au_wr_dir_need_wh where the entry itself is on the branch to write: the private
        data is swapped out for a copy of its indices, looked up below, and swapped back. */
    method WrDirNeedWh(s: Stack, n: Name, udbaNone: bool) returns (r: Result)
      requires 0 <= di.bstart < |s| <= |di.hd| && di.bend < |di.hd| && !Refused(n)
      modifies this
      ensures di == old(di)
      ensures r == match NeedWh(di, s, n, inode) case None => Err(EIO) case Some(c) => Ok(c)
    {
      var tmp := Fresh(|di.hd|);
      tmp := Dinfo(di.bstart, di.bend, di.bwh, di.bdiropq, tmp.hd);
      assert tmp == Scratch(di);
      WalkKeepsStart(tmp, s, n, tmp.bstart + 1, true, AnyKind, inode);
      tmp, di := di, tmp;
      r := LkupDentry(s, n, tmp.bstart + 1, udbaNone);
      di := tmp;
    }
  }
}
