/** Whole runs. Directories of a union in which files are unlinked, renamed and moved down and directories
    are made, with lower operations failing anywhere, show after every operation exactly what plain
    directories would, each by itself; and their layers stay well formed, which is what lookup and readdir rely on. */
module Runs {
  import opened Basics
  import opened Layers
  import Lookup
  import Readdir
  import EntryOps
  import MoveDown
  import Rename

  /** The layers of several directories of one union. */
  type World = seq<MoveDown.Parent>

  /** A directory without layers. */
  type Flat = imap<Name, Node>

  /** Whether a directory is opaque does not show. */
  function Plain(n: Node): Node {
    n.(opq := false)
  }

  ghost function FlatOf(p: MoveDown.Parent): Flat {
    imap n | !Refused(n) && MoveDown.Shown(p, n).Some? :: Plain(MoveDown.Shown(p, n).value)
  }

  ghost function Flats(w: World): (v: seq<Flat>)
    ensures |v| == |w|
  {
    seq(|w|, d requires 0 <= d < |w| => FlatOf(w[d]))
  }

  /** The layers are well formed, and the directory's private data is what lookup leaves. */
  ghost predicate Good(p: MoveDown.Parent) {
    MoveDown.Sound(p) && WellFormed(p.all)
  }

  ghost predicate Valid(w: World) {
    forall d :: 0 <= d < |w| ==> Good(w[d])
  }

  datatype Op =
    | Unlink(d: nat, n: Name, bindex: nat, efail: set<EntryOps.Step>)
    | Mkdir(d: nat, n: Name, b: nat, dir: Node, alwaysOpq: bool, efail: set<EntryOps.Step>)
    | Ren(a: Rename.RenArgs, rfail: set<Rename.Step>)
    | Mvdown(d: nat, n: Name, bsrc: nat, bdst: nat, tmp: Name, partial: nat, overwrite: bool, kupper: bool,
             mfail: set<MoveDown.Step>)

  // ----- what the operations do to plain directories

  ghost function Effect(v: seq<Flat>, op: Op): (r: seq<Flat>)
    ensures |r| == |v|
  {
    match op
    case Unlink(d, n, _, _) => if d < |v| then v[d := v[d] - {n}] else v
    case Mkdir(d, n, _, dir, _, _) => if d < |v| then v[d := v[d][n := dir]] else v
    case Ren(a, _) => MoveEntry(v, a.srcDir, a.src, a.dstDir, a.dst)
    case Mvdown(_, _, _, _, _, _, _, _, _) => v
  }

  ghost function MoveEntry(v: seq<Flat>, d1: nat, src: Name, d2: nat, dst: Name): (r: seq<Flat>)
    ensures |r| == |v|
  {
    if d1 < |v| && d2 < |v| && src in v[d1] then
      var u := v[d1 := v[d1] - {src}];
      u[d2 := u[d2][dst := v[d1][src]]]
    else v
  }

  // ----- when they may be called, and what they do to the layers

  /** A name a caller can make. */
  predicate Ordinary(n: Name) {
    !Refused(n) && n != "" && !IsDots(n)
  }

  /** lock_hdir_create_wh on a dentry that was just looked up: a branch above the entry always needs the
      whiteout, otherwise au_wr_dir_need_wh decides. */
  function NeedsWh(s: Stack, n: Name, bindex: nat): bool {
    match Lookup.FreshLookup(s, n, |s|)
    case None => false
    case Some((_, e)) =>
      if 0 <= e.bstart < |s| <= |e.hd| && n in s[e.bstart].ents then
        bindex < e.bstart || Some(0) != Lookup.NeedWh(e, s, n, Lookup.Only(s[e.bstart].ents[n].kind))
      else false
  }

  ghost predicate EnabledUnlink(p: MoveDown.Parent, n: Name, bindex: nat) {
    var s := MoveDown.Merged(p);
    var f := Find(s, n, 0);
    !Refused(n) && 0 <= f && s[f].ents[n].kind != Dir && bindex <= f && s[bindex].present && s[bindex].whable
  }

  ghost predicate EnabledMkdir(p: MoveDown.Parent, n: Name, b: nat, dir: Node) {
    var s := MoveDown.Merged(p);
    && Ordinary(n) && b < |s| && s[b].present && s[b].whable && dir.kind == Dir && !dir.opq
    && Find(s, n, 0) < 0 && Clear(s, n, 0, b)
  }

  /** The target branch of a rename, over all directories. */
  function BranchOf(w: World, b: nat): Rename.Branch {
    map d: nat, n | d < |w| && b < |w[d].all| && n in w[d].all[b].ents :: Rename.Key(d, n) := w[d].all[b].ents[n]
  }

  function DirOf(f: Rename.Branch, d: nat): map<Name, Node> {
    map k | k in f && k.dir == d :: k.name := f[k]
  }

  /** The directories with `f` as the content of branch `b`. */
  function Split(w: World, b: nat, f: Rename.Branch): (r: World)
    ensures |r| == |w|
  {
    seq(|w|, d requires 0 <= d < |w| =>
      if b < |w[d].all| then w[d].(all := w[d].all[b := w[d].all[b].(ents := DirOf(f, d))]) else w[d])
  }

  /** Both parents are on the target branch, nothing above it hides or holds the destination, and the flags
      are what the lookups of both names say. */
  ghost predicate EnabledRen(w: World, a: Rename.RenArgs) {
    && a.srcDir < |w| && a.dstDir < |w| && 0 <= a.btgt
    && var e := BranchOf(w, a.btgt);
       var s, d := MoveDown.Merged(w[a.srcDir]), MoveDown.Merged(w[a.dstDir]);
    && a.Ready(e) && Ordinary(a.src) && Ordinary(a.dst) && |a.tmp| > 8
    && a.btgt < |s| && s[a.btgt].present && s[a.btgt].whable
    && a.btgt < |d| && d[a.btgt].present && d[a.btgt].whable
    && Find(s, a.src, 0) == a.btgt && Clear(d, a.dst, 0, a.btgt) && Lacks(d, a.dst, 0, a.btgt)
    && a.Looked(s, d)
  }

  /** The renames the flags are right for: the source is not a directory with a second copy above a whiteout,
      and the destination's whiteout is not on the target branch with the parent on a branch above. */
  ghost predicate RightRen(w: World, a: Rename.RenArgs)
    requires EnabledRen(w, a)
  {
    var s, d := MoveDown.Merged(w[a.srcDir]), MoveDown.Merged(w[a.dstDir]);
    && a.Answerable(s)
    && !(a.WhDst() in BranchOf(w, a.btgt) && exists j :: 0 <= j < a.btgt && d[j].present)
  }

  /** The checks have passed. */
  ghost predicate EnabledMvdown(p: MoveDown.Parent, n: Name, bsrc: nat, bdst: nat, tmp: Name) {
    && MoveDown.Checked(p, n, bsrc, bdst) && Find(MoveDown.Merged(p), n, 0) == bsrc && p.all[bsrc].ents[n].kind == Reg
    && !Refused(n) && MoveDown.IsTmp(tmp) && tmp !in p.all[bdst].ents
  }

  ghost predicate Enabled(w: World, op: Op) {
    match op
    case Unlink(d, n, bindex, _) => d < |w| && EnabledUnlink(w[d], n, bindex)
    case Mkdir(d, n, b, dir, _, _) => d < |w| && EnabledMkdir(w[d], n, b, dir)
    case Ren(a, _) => EnabledRen(w, a)
    case Mvdown(d, n, bsrc, bdst, tmp, _, _, _, _) => d < |w| && EnabledMvdown(w[d], n, bsrc, bdst, tmp)
  }

  /** No failure is met by a second one while the first is undone. */
  predicate Undoable(op: Op) {
    match op
    case Unlink(_, _, _, fail) => EntryOps.RevWh !in fail
    case Mkdir(_, _, _, _, _, fail) => fail !! {EntryOps.RecreateWh, EntryOps.RevOpq, EntryOps.RevDir}
    case Ren(_, fail) => fail !! Rename.REVERTS
    case Mvdown(_, _, _, _, _, _, _, _, fail) => MoveDown.RevTmp !in fail
  }

  /** Also, the flags of a rename are right, a whiteout can be removed that a file was moved down onto, and a
      file is not moved below a whiteout of its parent for good. */
  ghost predicate Harmless(w: World, op: Op)
    requires Enabled(w, op)
  {
    && Undoable(op)
    && (op.Ren? ==> RightRen(w, op.a))
    && (op.Mvdown? ==>
          && (HasWh(w[op.d].all[op.bdst], op.n) ==> op.mfail !! {MoveDown.LkupWh, MoveDown.UnlinkWh})
          && (op.kupper || !(0 <= w[op.d].di.bwh < op.bdst)))
  }

  /** The directory with `s` as its merged layers. */
  function Below(p: MoveDown.Parent, s: Stack): MoveDown.Parent
    requires |s| == MoveDown.Depth(p)
  {
    p.(all := s + p.all[|s|..])
  }

  ghost predicate UnlinkDoes(p: MoveDown.Parent, n: Name, bindex: nat, ok: bool, q: MoveDown.Parent)
    requires EnabledUnlink(p, n, bindex)
  {
    var s := MoveDown.Merged(p);
    q == if ok then Below(p, EntryOps.Unlinked(s, n, Find(s, n, 0), bindex, NeedsWh(s, n, bindex))) else p
  }

  ghost predicate MkdirDoes(p: MoveDown.Parent, n: Name, b: nat, dir: Node, alwaysOpq: bool, ok: bool,
                            q: MoveDown.Parent)
    requires EnabledMkdir(p, n, b, dir)
  {
    var s := MoveDown.Merged(p);
    if ok then q == Below(p, EntryOps.With(s, b, n, Some(dir.(opq := HasWh(s[b], n) || alwaysOpq)), None))
    else q == p || (HasWh(s[b], n) && q == Below(p, EntryOps.Put(s, b, Wh(n), WHITEOUT)))
  }

  ghost predicate RenDoes(w: World, a: Rename.RenArgs, fail: set<Rename.Step>, ok: bool, w2: World)
    requires EnabledRen(w, a)
  {
    var e := BranchOf(w, a.btgt);
    if ok then
      a.Movable(e) && w2 == Split(w, a.btgt, a.Cleaned(e, SrcBdiropq(w, a), Rename.DelWhtmp !in fail))
    else w2 == w
  }

  ghost predicate MvdownDoes(p: MoveDown.Parent, n: Name, bsrc: nat, bdst: nat, kupper: bool, fail: set<MoveDown.Step>,
                             ok: bool, q: MoveDown.Parent)
    requires MoveDown.Checked(p, n, bsrc, bdst) && n in p.all[bsrc].ents
  {
    exists err :: q == MoveDown.After(p, n, bsrc, bdst, kupper, err) && (ok <==> err == None)
        && Stops(p, bdst, fail, err)
  }

  /** Where a move down can stop. */
  ghost predicate Stops(p: MoveDown.Parent, bdst: nat, fail: set<MoveDown.Step>, err: Option<MoveDown.Step>)
    requires bdst < |p.all|
  {
    && (err.Some? ==> err.value in fail || err.value in {MoveDown.MkParent, MoveDown.RenameTmp})
    && err != Some(MoveDown.RevTmp)
    && (p.di.bend < bdst && p.all[bdst].present ==> err == Some(MoveDown.MkParent))
  }

  /** The opaque index of the source of a rename, as its lookup leaves it. */
  function SrcBdiropq(w: World, a: Rename.RenArgs): int
    requires a.srcDir < |w|
  {
    var s := MoveDown.Merged(w[a.srcDir]);
    match Lookup.FreshLookup(s, a.src, |s|) case Some(r) => r.1.bdiropq case None => -1
  }

  /** The operation comes to a step that fails. */
  ghost predicate Meets(w: World, op: Op)
    requires Enabled(w, op)
  {
    match op
    case Unlink(d, n, bindex, fail) =>
      var s := MoveDown.Merged(w[d]);
      || (EntryOps.CreateWh in fail && NeedsWh(s, n, bindex))
      || (EntryOps.UnlinkFile in fail && bindex == Find(s, n, 0))
    case Mkdir(d, n, b, _, alwaysOpq, fail) =>
      var wh := HasWh(MoveDown.Merged(w[d])[b], n);
      || EntryOps.MakeDir in fail || EntryOps.NewInode in fail
      || (EntryOps.CreateOpq in fail && (wh || alwaysOpq))
      || (EntryOps.UnlinkWh in fail && wh)
    case Ren(a, fail) => RenReady(w, a); a.Meets(BranchOf(w, a.btgt), SrcBdiropq(w, a), fail)
    case Mvdown(d, n, _, bdst, _, _, overwrite, kupper, fail) =>
      MoveDown.Meets(w[d], n, bdst, overwrite, kupper, fail)
  }

  /** One operation takes `w` to `w2`; `ok` is its success: it fails exactly if it comes to a step that does. */
  ghost predicate Does(w: World, op: Op, ok: bool, w2: World)
    requires Enabled(w, op)
  {
    (ok <==> !Meets(w, op)) &&
    match op
    case Unlink(d, n, bindex, _) => |w2| == |w| && w2 == w[d := w2[d]] && UnlinkDoes(w[d], n, bindex, ok, w2[d])
    case Mkdir(d, n, b, dir, opq, _) => |w2| == |w| && w2 == w[d := w2[d]] && MkdirDoes(w[d], n, b, dir, opq, ok, w2[d])
    case Ren(a, fail) => RenDoes(w, a, fail, ok, w2)
    case Mvdown(d, n, bsrc, bdst, _, _, _, kupper, fail) =>
      |w2| == |w| && w2 == w[d := w2[d]] && MvdownDoes(w[d], n, bsrc, bdst, kupper, fail, ok, w2[d])
  }

  // ----- plain directories

  lemma MergedBelow(p: MoveDown.Parent, s: Stack)
    requires |s| == MoveDown.Depth(p)
    ensures MoveDown.Merged(Below(p, s)) == s
  {}

  /** When only `n` may have changed, so does the plain directory. */
  lemma FlatChanged(p: MoveDown.Parent, q: MoveDown.Parent, n: Name)
    requires MoveDown.SameBut(p, q, n) && !Refused(n)
    ensures FlatOf(q) == if MoveDown.Shown(q, n).Some? then FlatOf(p)[n := Plain(MoveDown.Shown(q, n).value)]
                         else FlatOf(p) - {n}
  {
    hide MoveDown.Shown, Refused;
    var v, u := FlatOf(p), FlatOf(q);
    forall m | m != n ensures (m in u <==> m in v) && (m in u ==> u[m] == v[m]) {}
    assert n in u <==> MoveDown.Shown(q, n).Some?;
  }

  lemma FlatSame(p: MoveDown.Parent, q: MoveDown.Parent)
    requires MoveDown.Same(p, q)
    ensures FlatOf(q) == FlatOf(p)
  {}

  lemma OnlyNameShown(p: MoveDown.Parent, t: Stack, n: Name)
    requires |t| == MoveDown.Depth(p) && EntryOps.OnlyName(MoveDown.Merged(p), t, n)
    ensures MoveDown.SameBut(p, Below(p, t), n) && MoveDown.Shown(Below(p, t), n) == View(t, n)
  {
    MergedBelow(p, t);
    forall m | !Refused(m) && m != n ensures View(t, m) == View(MoveDown.Merged(p), m) {
      EntryOps.SameShown(MoveDown.Merged(p), t, m, 0);
    }
  }

  // ----- well-formed layers

  /** `m` differs from `l` only in what it says about the names `ns`, and in the raw name `tmp`. */
  ghost predicate ChangedOnly(l: Layer, m: Layer, ns: set<Name>, tmp: Name) {
    && m.present == l.present && m.whable == l.whable
    && forall k :: k !in ns && k != tmp && (forall n :: n in ns ==> k != Wh(n)) ==>
         (k in m.ents <==> k in l.ents) && (k in l.ents ==> m.ents[k] == l.ents[k])
  }

  const TMP: Name := ".wh..wh.x"

  predicate IsTmp(tmp: Name) {
    MoveDown.IsTmp(tmp) && |tmp| > 8
  }

  lemma LayerStays(l: Layer, m: Layer, ns: set<Name>, tmp: Name)
    requires WellFormedLayer(l) && l.present && ChangedOnly(l, m, ns, tmp) && IsTmp(tmp)
    requires forall n :: n in ns ==> Ordinary(n) && (HasWh(m, n) ==> n !in m.ents && m.ents[Wh(n)].kind == Reg)
    ensures WellFormedLayer(m)
  {
    assert tmp[..4] == WH_PFX && tmp[4..8] == WH_PFX && tmp == Wh(tmp[4..]) && IsWhName(tmp[4..]);
    forall x: Name | !IsWhName(x) && HasWh(m, x) && x !in ns ensures x !in m.ents && m.ents[Wh(x)].kind == Reg {
      WhInjective(x, x);
      WhInjective(x, tmp[4..]);
      forall n | n in ns ensures Wh(x) != n && Wh(x) != Wh(n) && x != Wh(n) {
        WhInjective(x, n);
      }
      assert HasWh(l, x);
      assert x != tmp;
    }
    assert "" != tmp && "." != tmp && ".." != tmp;
    forall n ensures Wh(n) != "" && Wh(n) != "." && Wh(n) != ".." {
      assert |Wh(n)| >= 4;
    }
  }

  lemma StackStays(s: Stack, t: Stack, b: nat, ns: set<Name>, tmp: Name)
    requires WellFormed(s) && b < |s| == |t| && t == s[b := t[b]] && s[b].present && ChangedOnly(s[b], t[b], ns, tmp)
             && IsTmp(tmp)
    requires forall n :: n in ns ==> Ordinary(n) && (HasWh(t[b], n) ==> n !in t[b].ents && t[b].ents[Wh(n)].kind == Reg)
    ensures WellFormed(t)
  {
    LayerStays(s[b], t[b], ns, tmp);
  }

  lemma GoodBelow(p: MoveDown.Parent, t: Stack)
    requires Good(p) && |t| == MoveDown.Depth(p) && WellFormed(t)
    requires forall i :: 0 <= i < |t| ==> t[i].present == p.all[i].present
    ensures Good(Below(p, t))
  {
    var q := Below(p, t);
    assert forall i :: 0 <= i < |q.all| ==> q.all[i] == if i < |t| then t[i] else p.all[i];
  }

  // ----- each operation does what it does to plain directories

  lemma NeedsWhRight(s: Stack, n: Name, bindex: nat)
    requires WellFormed(s) && !Refused(n) && 0 <= Find(s, n, 0) && s[Find(s, n, 0)].ents[n].kind != Dir
    ensures NeedsWh(s, n, bindex) <==> bindex < Find(s, n, 0) || Find(s, n, Find(s, n, 0) + 1) >= 0
  {
    EntryOps.NeedWhRightForFiles(s, n, |s|, Lookup.Only(s[Find(s, n, 0)].ents[n].kind));
  }

  lemma UnlinkedShows(s: Stack, n: Name, bstart: nat, bindex: nat, need: bool)
    requires !Refused(n) && bindex <= bstart < |s| && Find(s, n, 0) == bstart && s[bindex].whable
    requires need || (bindex == bstart && Find(s, n, bstart + 1) < 0)
    ensures var t := EntryOps.Unlinked(s, n, bstart, bindex, need);
            |t| == |s| && EntryOps.OnlyName(s, t, n) && Find(t, n, 0) < 0
  {
    EntryOps.UnlinkStates(s, n, bstart, bindex);
    hide Find, EntryOps.OnlyName, EntryOps.Safe, EntryOps.Del, EntryOps.Put;
  }

  lemma UnlinkedStays(s: Stack, n: Name, bstart: nat, bindex: nat, need: bool)
    requires WellFormed(s) && !Refused(n) && bindex <= bstart < |s| && Find(s, n, 0) == bstart && s[bindex].present
    ensures var t := EntryOps.Unlinked(s, n, bstart, bindex, need);
            |t| == |s| && WellFormed(t) && forall i :: 0 <= i < |t| ==> t[i].present == s[i].present
  {
    var t := EntryOps.Unlinked(s, n, bstart, bindex, need);
    FindMeaning(s, n, 0);
    WhInjective(n, n);
    assert WellFormedLayer(s[bstart]);
    assert bindex < bstart ==> n !in s[bindex].ents;
    hide Find, Clear, WellFormedLayer, Lacks;
    assert t == s[bindex := t[bindex]];
    assert ChangedOnly(s[bindex], t[bindex], {n}, TMP);
    StackStays(s, t, bindex, {n}, TMP);
  }

  lemma UnlinkRefines(p: MoveDown.Parent, n: Name, bindex: nat, ok: bool, q: MoveDown.Parent)
    requires Good(p) && EnabledUnlink(p, n, bindex) && UnlinkDoes(p, n, bindex, ok, q)
    ensures Good(q) && FlatOf(q) == if ok then FlatOf(p) - {n} else FlatOf(p)
  {
    if ok {
      var s := MoveDown.Merged(p);
      assert WellFormed(s);
      NeedsWhRight(s, n, bindex);
      var t := EntryOps.Unlinked(s, n, Find(s, n, 0), bindex, NeedsWh(s, n, bindex));
      UnlinkedShows(s, n, Find(s, n, 0), bindex, NeedsWh(s, n, bindex));
      UnlinkedStays(s, n, Find(s, n, 0), bindex, NeedsWh(s, n, bindex));
      assert forall i :: 0 <= i < |s| ==> s[i] == p.all[i];
      hide EntryOps.Unlinked, EntryOps.OnlyName, Find, NeedsWh, WellFormed;
      OnlyNameShown(p, t, n);
      GoodBelow(p, t);
      FlatChanged(p, q, n);
    }
  }

  lemma WithStays(s: Stack, n: Name, b: nat, d: Option<Node>, w: Option<Node>)
    requires WellFormed(s) && Ordinary(n) && b < |s| && s[b].present && !(d.Some? && w.Some?)
    requires w.Some? ==> w.value.kind == Reg
    ensures WellFormed(EntryOps.With(s, b, n, d, w))
  {
    var t := EntryOps.With(s, b, n, d, w);
    WhInjective(n, n);
    assert ChangedOnly(s[b], t[b], {n}, TMP);
    StackStays(s, t, b, {n}, TMP);
  }

  lemma MkdirMade(p: MoveDown.Parent, n: Name, b: nat, dir: Node, alwaysOpq: bool, q: MoveDown.Parent)
    requires Good(p) && EnabledMkdir(p, n, b, dir) && MkdirDoes(p, n, b, dir, alwaysOpq, true, q)
    ensures Good(q) && FlatOf(q) == FlatOf(p)[n := dir]
  {
    var s := MoveDown.Merged(p);
    assert WellFormed(s);
    LacksToo(s, n, b);
    var made := dir.(opq := HasWh(s[b], n) || alwaysOpq);
    var t := EntryOps.With(s, b, n, Some(made), None);
    EntryOps.MkdirShowsOne(s, n, b, dir, alwaysOpq);
    EntryOps.WithOnly(s, b, n, Some(made), None);
    WithStays(s, n, b, Some(made), None);
    OnlyNameShown(p, t, n);
    GoodBelow(p, t);
    FlatChanged(p, q, n);
  }

  /** Where a lookup that found nothing ended. */
  lemma LacksToo(s: Stack, n: Name, b: nat)
    requires WellFormed(s) && Ordinary(n) && b < |s| && Find(s, n, 0) < 0 && Clear(s, n, 0, b)
    ensures Lacks(s, n, 0, b + 1)
  {
    MoveDown.FindNone(s, n, 0, b);
    FindSkip(s, n, 0, b);
    assert WellFormedLayer(s[b]);
  }

  lemma MkdirRefines(p: MoveDown.Parent, n: Name, b: nat, dir: Node, alwaysOpq: bool, ok: bool, q: MoveDown.Parent)
    requires Good(p) && EnabledMkdir(p, n, b, dir) && MkdirDoes(p, n, b, dir, alwaysOpq, ok, q)
    ensures Good(q) && FlatOf(q) == if ok then FlatOf(p)[n := dir] else FlatOf(p)
  {
    if ok {
      MkdirMade(p, n, b, dir, alwaysOpq, q);
    } else if q != p {
      WhiteoutRemade(p, n, b, dir, q);
    }
  }

  /** A failed mkdir may have put a new whiteout in the place of the old one. */
  lemma WhiteoutRemade(p: MoveDown.Parent, n: Name, b: nat, dir: Node, q: MoveDown.Parent)
    requires Good(p) && EnabledMkdir(p, n, b, dir) && HasWh(MoveDown.Merged(p)[b], n)
    requires q == Below(p, EntryOps.Put(MoveDown.Merged(p), b, Wh(n), WHITEOUT))
    ensures Good(q) && FlatOf(q) == FlatOf(p)
  {
    var s := MoveDown.Merged(p);
    var t := EntryOps.Put(s, b, Wh(n), WHITEOUT);
    assert WellFormed(s);
    LacksToo(s, n, b);
    assert forall i :: 0 <= i < |s| ==> s[i] == p.all[i];
    hide MoveDown.Merged, Find, Clear, MoveDown.Depth, EnabledMkdir;
    RemadeShows(s, n, b);
    assert ChangedOnly(s[b], t[b], {n}, TMP);
    WhInjective(n, n);
    StackStays(s, t, b, {n}, TMP);
    assert |s| == MoveDown.Depth(p) by { MergedLength(p); }
    GoodBelow(p, t);
    MergedBelow(p, t);
    FlatSame(p, q);
  }

  lemma MergedLength(p: MoveDown.Parent)
    ensures |MoveDown.Merged(p)| == MoveDown.Depth(p)
  {}

  lemma RemadeShows(s: Stack, n: Name, b: nat)
    requires b < |s| && HasWh(s[b], n) && !Refused(n)
    ensures forall m :: !Refused(m) ==> View(EntryOps.Put(s, b, Wh(n), WHITEOUT), m) == View(s, m)
  {
    var t := EntryOps.Put(s, b, Wh(n), WHITEOUT);
    forall m | !Refused(m) ensures View(t, m) == View(s, m) {
      WhInjective(m, n);
      assert m != Wh(n);
      assert EntryOps.SameName(s, t, m);
      EntryOps.SameShown(s, t, m, 0);
    }
  }

  /** Where the copy of a move down starts from. */
  lemma BaseFacts(p: MoveDown.Parent, n: Name, bsrc: nat, bdst: nat, tmp: Name)
    requires Good(p) && EnabledMvdown(p, n, bsrc, bdst, tmp) && (p.all[bdst].present ==> bdst <= p.di.bend)
    ensures var base := MoveDown.Base(p, bdst);
            && MoveDown.Same(p, base) && Find(MoveDown.Merged(base), n, 0) == bsrc
            && MoveDown.Within(base, base, n, bdst)
            && MoveDown.FreeBetween(base, n, bsrc, bdst) && (bdst < MoveDown.Depth(base) <==> !(0 <= p.di.bwh < bdst))
            && base.all[bsrc] == p.all[bsrc]
            && base.all[bdst].present && (HasWh(base.all[bdst], n) ==> HasWh(p.all[bdst], n))
            && Good(base)
  {
    MoveDown.BaseReady(p, n, bsrc, bdst);
    BaseGood(p, bdst);
    hide MoveDown.Same, MoveDown.FreeBetween, MoveDown.Within, MoveDown.Depth, Find, Good, MoveDown.Base,
         MoveDown.Sound, MoveDown.Merged;
  }

  lemma BaseGood(p: MoveDown.Parent, bdst: nat)
    requires Good(p) && bdst < |p.all| && (p.all[bdst].present ==> bdst <= p.di.bend)
    requires p.di.bdiropq == -1 || bdst <= p.di.bdiropq
    ensures var base := MoveDown.Base(p, bdst);
            Good(base) && base.all[bdst].present && forall n :: HasWh(base.all[bdst], n) ==> HasWh(p.all[bdst], n)
  {
    var base := MoveDown.Base(p, bdst);
    MoveDown.DepthOf(p);
    assert forall j :: 0 <= j < |p.all| && j != bdst ==> base.all[j] == p.all[j];
    assert base == p || base.all[bdst].ents == map[];
  }

  /** From the copy on. */
  lemma CopiedShows(base: MoveDown.Parent, n: Name, bsrc: nat, bdst: nat, tmp: Name)
    requires Find(MoveDown.Merged(base), n, 0) == bsrc && bsrc < bdst && MoveDown.Within(base, base, n, bdst)
    requires MoveDown.FreeBetween(base, n, bsrc, bdst)
    requires !Refused(n) && MoveDown.IsTmp(tmp)
    ensures var copied := MoveDown.Copied(base, n, bdst, base.all[bsrc].ents[n]);
            var bared := MoveDown.Bared(copied, n, bdst);
            && MoveDown.Same(base, copied) && MoveDown.Same(base, bared)
            && if bdst < MoveDown.Depth(base) then MoveDown.Same(base, MoveDown.Gone(bared, n, bsrc))
               else MoveDown.Shown(MoveDown.Gone(bared, n, bsrc), n) == None
    ensures MoveDown.Shown(base, n).Some?
  {
    var node := base.all[bsrc].ents[n];
    var copied := MoveDown.Copied(base, n, bdst, node);
    var bared := MoveDown.Bared(copied, n, bdst);
    assert MoveDown.Shown(base, n).Some?;
    MoveDown.WithinSteps(base, base, n, bdst, tmp, node);
    MoveDown.WithinSteps(base, copied, n, bdst, tmp, node);
    hide MoveDown.FreeBetween, MoveDown.Depth, Find, MoveDown.Merged, MoveDown.Within, MoveDown.Shown;
    MoveDown.WithinShows(base, copied, n, bsrc, bdst);
    MoveDown.WithinShows(base, bared, n, bsrc, bdst);
    MoveDown.BaredHas(copied, n, bdst);
    MoveDown.RemovedShows(base, bared, MoveDown.Gone(bared, n, bsrc), n, bsrc, bdst);
    MoveDown.SameTrans(base, base, MoveDown.Gone(bared, n, bsrc), n);
  }

  /** What shows does not change, whichever step a move down stops at; only when it does not stop, and removes
      the upper file above a destination that a whiteout of the parent keeps out of the merge, the file is
      gone. */
  lemma MvdownShows(p: MoveDown.Parent, n: Name, bsrc: nat, bdst: nat, tmp: Name, kupper: bool,
                    fail: set<MoveDown.Step>, err: Option<MoveDown.Step>)
    requires Good(p) && EnabledMvdown(p, n, bsrc, bdst, tmp) && Stops(p, bdst, fail, err)
    ensures if err == None && !kupper && 0 <= p.di.bwh < bdst
            then MoveDown.Shown(p, n).Some? && MoveDown.Shown(MoveDown.After(p, n, bsrc, bdst, kupper, err), n) == None
            else MoveDown.Same(p, MoveDown.After(p, n, bsrc, bdst, kupper, err))
  {
    assert MoveDown.Same(p, p);
    if p.di.bend < bdst && p.all[bdst].present {
      hide *;
      MkParentStops(p, n, bsrc, bdst, kupper, fail, err);
    } else {
      BaseFacts(p, n, bsrc, bdst, tmp);
      var base := MoveDown.Base(p, bdst);
      CopiedShows(base, n, bsrc, bdst, tmp);
      AfterStates(p, n, bsrc, bdst, kupper, err);
      assert MoveDown.Shown(base, n) == MoveDown.Shown(p, n);
      hide *;
      var copied := MoveDown.Copied(base, n, bdst, base.all[bsrc].ents[n]);
      var bared := MoveDown.Bared(copied, n, bdst);
      MoveDown.SameTrans(p, base, copied, n);
      MoveDown.SameTrans(p, base, bared, n);
      MoveDown.SameTrans(p, base, MoveDown.Gone(bared, n, bsrc), n);
    }
  }

  lemma MkParentStops(p: MoveDown.Parent, n: Name, bsrc: nat, bdst: nat, kupper: bool, fail: set<MoveDown.Step>,
                      err: Option<MoveDown.Step>)
    requires bsrc < |p.all| && bdst < |p.all| && n in p.all[bsrc].ents && Stops(p, bdst, fail, err)
    requires p.di.bend < bdst && p.all[bdst].present
    ensures err == Some(MoveDown.MkParent) && MoveDown.After(p, n, bsrc, bdst, kupper, err) == p
  {}

  lemma AfterStates(p: MoveDown.Parent, n: Name, bsrc: nat, bdst: nat, kupper: bool, err: Option<MoveDown.Step>)
    requires bsrc < |p.all| && bdst < |p.all| && n in p.all[bsrc].ents && err != Some(MoveDown.RevTmp)
    ensures var q := MoveDown.After(p, n, bsrc, bdst, kupper, err);
            var base := MoveDown.Base(p, bdst);
            var copied := MoveDown.Copied(base, n, bdst, p.all[bsrc].ents[n]);
            var bared := MoveDown.Bared(copied, n, bdst);
            if err == None && !kupper then q == MoveDown.Gone(bared, n, bsrc)
            else q == p || q == base || q == copied || q == bared
  {
    assert err.Some? ==> err.value.MkParent? || err.value.CreateTmp? || err.value.CopyData? || err.value.RenameTmp?
                         || err.value.LkupWh? || err.value.UnlinkWh? || err.value.UnlinkUpper?;
    hide MoveDown.Base, MoveDown.Copied, MoveDown.Bared, MoveDown.Gone;
  }

  lemma GoodAll(p: MoveDown.Parent, t: Stack)
    requires Good(p) && |t| == |p.all| && WellFormed(t)
    requires forall i :: 0 <= i < |t| ==> t[i].present == p.all[i].present
    ensures Good(p.(all := t))
  {}

  /** A move down that stops leaves the layers well formed, unless it stops before it can remove the
      whiteout it has copied a file beside. */
  lemma MvdownStays(p: MoveDown.Parent, n: Name, bsrc: nat, bdst: nat, tmp: Name, kupper: bool,
                    fail: set<MoveDown.Step>, err: Option<MoveDown.Step>)
    requires Good(p) && EnabledMvdown(p, n, bsrc, bdst, tmp) && Stops(p, bdst, fail, err)
    ensures Good(MoveDown.After(p, n, bsrc, bdst, kupper, err)) <==>
            !(err in {Some(MoveDown.LkupWh), Some(MoveDown.UnlinkWh)} && HasWh(MoveDown.Base(p, bdst).all[bdst], n))
    ensures HasWh(MoveDown.Base(p, bdst).all[bdst], n) && err != Some(MoveDown.MkParent) ==> HasWh(p.all[bdst], n)
  {
    if p.di.bend < bdst && p.all[bdst].present {
      MkParentStops(p, n, bsrc, bdst, kupper, fail, err);
    } else {
      BaseFacts(p, n, bsrc, bdst, tmp);
      var base := MoveDown.Base(p, bdst);
      assert WellFormedLayer(p.all[bsrc]);
      hide MoveDown.Same, MoveDown.FreeBetween, MoveDown.Within, MoveDown.Depth, Find, MoveDown.Base, EnabledMvdown,
           MoveDown.Sound;
      hide MoveDown.Merged, Good, Stops;
      CopiedStays(base, n, bsrc, bdst, tmp);
      StatesOf(p, n, bsrc, bdst, kupper, err);
    }
  }

  /** The states a move down can stop at, step by step. */
  lemma StatesOf(p: MoveDown.Parent, n: Name, bsrc: nat, bdst: nat, kupper: bool, err: Option<MoveDown.Step>)
    requires bsrc < |p.all| && bdst < |p.all| && n in p.all[bsrc].ents
    ensures var q := MoveDown.After(p, n, bsrc, bdst, kupper, err);
            var base := MoveDown.Base(p, bdst);
            var copied := MoveDown.Copied(base, n, bdst, p.all[bsrc].ents[n]);
            var bared := MoveDown.Bared(copied, n, bdst);
            if err in {Some(MoveDown.LkupWh), Some(MoveDown.UnlinkWh)} then q == copied
            else q == p || q == base || q == bared || q == MoveDown.Gone(bared, n, bsrc)
  {
    hide MoveDown.Base, MoveDown.Copied, MoveDown.Bared, MoveDown.Gone;
  }

  lemma CopiedStays(base: MoveDown.Parent, n: Name, bsrc: nat, bdst: nat, tmp: Name)
    requires Good(base) && bsrc < bdst < |base.all| && n in base.all[bsrc].ents && base.all[bdst].present && !Refused(n)
    ensures var copied := MoveDown.Copied(base, n, bdst, base.all[bsrc].ents[n]);
            var bared := MoveDown.Bared(copied, n, bdst);
            && (Good(copied) <==> !HasWh(base.all[bdst], n)) && Good(bared) && Good(MoveDown.Gone(bared, n, bsrc))
  {
    var copied := MoveDown.Copied(base, n, bdst, base.all[bsrc].ents[n]);
    var bared := MoveDown.Bared(copied, n, bdst);
    var gone := MoveDown.Gone(bared, n, bsrc);
    assert WellFormedLayer(base.all[bsrc]);
    WhInjective(n, n);
    if HasWh(base.all[bdst], n) {
      assert !WellFormedLayer(copied.all[bdst]);
      assert !Good(copied);
    } else {
      LayerChanged(base, copied, bdst, n);
    }
    LayerChanged(base, bared, bdst, n);
    hide Good;
    LayerChanged(bared, gone, bsrc, n);
  }

  /** A change of one layer in what it says about one name. */
  lemma LayerChanged(p: MoveDown.Parent, q: MoveDown.Parent, b: nat, n: Name)
    requires Good(p) && b < |p.all| && p.all[b].present && Ordinary(n)
    requires |q.all| == |p.all| && q == p.(all := p.all[b := q.all[b]])
    requires q.all[b].present == p.all[b].present && q.all[b].whable == p.all[b].whable
    requires q.all[b].ents - {n, Wh(n)} == p.all[b].ents - {n, Wh(n)}
    requires HasWh(q.all[b], n) ==> n !in q.all[b].ents && q.all[b].ents[Wh(n)].kind == Reg
    ensures Good(q)
  {
    forall k | k != n && k != Wh(n)
      ensures (k in q.all[b].ents <==> k in p.all[b].ents)
              && (k in p.all[b].ents ==> q.all[b].ents[k] == p.all[b].ents[k])
    {
      assert k in q.all[b].ents - {n, Wh(n)} <==> k in q.all[b].ents;
      assert k in p.all[b].ents - {n, Wh(n)} <==> k in p.all[b].ents;
    }
    assert ChangedOnly(p.all[b], q.all[b], {n}, TMP);
    StackStays(p.all, q.all, b, {n}, TMP);
    GoodAll(p, q.all);
  }

  /** A move down leaves the plain directory as it is exactly when it does not remove a file above such a
      destination. */
  lemma MvdownRefines(p: MoveDown.Parent, n: Name, bsrc: nat, bdst: nat, tmp: Name, kupper: bool,
                      fail: set<MoveDown.Step>, ok: bool, q: MoveDown.Parent)
    requires Good(p) && EnabledMvdown(p, n, bsrc, bdst, tmp) && MvdownDoes(p, n, bsrc, bdst, kupper, fail, ok, q)
    ensures FlatOf(q) == FlatOf(p) <==> !(ok && !kupper && 0 <= p.di.bwh < bdst)
    ensures (HasWh(p.all[bdst], n) ==> fail !! {MoveDown.LkupWh, MoveDown.UnlinkWh}) ==> Good(q)
  {
    var err :| q == MoveDown.After(p, n, bsrc, bdst, kupper, err) && (ok <==> err == None) && Stops(p, bdst, fail, err);
    MvdownStays(p, n, bsrc, bdst, tmp, kupper, fail, err);
    MvdownShows(p, n, bsrc, bdst, tmp, kupper, fail, err);
    hide MoveDown.Same, MoveDown.FreeBetween, MoveDown.Within, MoveDown.Depth, Find, MoveDown.Base, EnabledMvdown,
         MoveDown.Sound;
    hide MoveDown.After, Good, MoveDown.Shown;
    if ok && !kupper && 0 <= p.di.bwh < bdst {
      assert n in FlatOf(p) && n !in FlatOf(q);
    } else {
      FlatSame(p, q);
    }
  }

  // ----- rename

  /** `ents` is directory `d` of the branch. */
  ghost predicate Holds(e: Rename.Branch, d: nat, ents: map<Name, Node>) {
    forall n :: (n in ents <==> Rename.Key(d, n) in e) && (n in ents ==> ents[n] == e[Rename.Key(d, n)])
  }

  lemma BranchHolds(w: World, b: nat, d: nat)
    requires d < |w| && b < |w[d].all|
    ensures Holds(BranchOf(w, b), d, w[d].all[b].ents)
  {}

  lemma DirHolds(f: Rename.Branch, d: nat)
    ensures Holds(f, d, DirOf(f, d))
  {
    forall n | Rename.Key(d, n) in f ensures n in DirOf(f, d) {
      assert Rename.Key(d, n).name == n;
    }
  }

  /** The names a rename is about, as far as they are in directory `d`. */
  function NamesIn(a: Rename.RenArgs, d: nat): set<Name> {
    (if d == a.srcDir then {a.src} else {}) + (if d == a.dstDir then {a.dst} else {})
  }

  lemma RenChanges(a: Rename.RenArgs, e: Rename.Branch, bd: int, del: bool, d: nat, l: Layer, m: Layer)
    requires a.Ready(e) && a.Movable(e) && m == l.(ents := m.ents)
    requires Holds(e, d, l.ents) && Holds(a.Cleaned(e, bd, del), d, m.ents)
    ensures ChangedOnly(l, m, NamesIn(a, d), a.tmp)
    ensures d != a.srcDir && d != a.dstDir ==> m == l
  {
    a.RenamedMeaning(e, bd, del);
    hide Rename.RenArgs.Cleaned, Rename.RenArgs.Ready, Rename.RenArgs.Movable, Rename.RenArgs.WantsOpq,
         Rename.RenArgs.HasThargs;
    var ns := NamesIn(a, d);
    forall k: Name | k !in ns && (k != a.tmp || ns == {}) && (forall n :: n in ns ==> k != Wh(n))
      ensures k in m.ents <==> k in l.ents
      ensures k in m.ents ==> m.ents[k] == l.ents[k]
    {
      OtherKey(a, d, k);
    }
    assert ns == {} ==> m.ents == l.ents;
  }

  lemma OtherKey(a: Rename.RenArgs, d: nat, k: Name)
    requires k !in NamesIn(a, d) && (k != a.tmp || NamesIn(a, d) == {}) && forall n :: n in NamesIn(a, d) ==> k != Wh(n)
    ensures Rename.Key(d, k) !in {a.Src(), a.Dst(), a.WhSrc(), a.WhDst(), a.Tmp()}
  {
    assert d == a.srcDir ==> a.src in NamesIn(a, d);
    assert d == a.dstDir ==> a.dst in NamesIn(a, d);
  }

  /** No name lies beside its whiteout in the branch after a rename either, if the destination's is not kept. */
  lemma RenNames(a: Rename.RenArgs, e: Rename.Branch, bd: int, del: bool, d: nat, l: Layer, m: Layer, n: Name)
    requires a.Ready(e) && a.Movable(e) && m == l.(ents := m.ents) && WellFormedLayer(l) && n in NamesIn(a, d)
    requires Holds(e, d, l.ents) && Holds(a.Cleaned(e, bd, del), d, m.ents) && !a.KeepsWh(e)
    requires Ordinary(a.src) && Ordinary(a.dst)
    ensures HasWh(m, n) ==> n !in m.ents && m.ents[Wh(n)].kind == Reg
  {
    a.RenamedMeaning(e, bd, del);
    hide Rename.RenArgs.Cleaned, Rename.RenArgs.Movable, Rename.RenArgs.WantsOpq, Rename.RenArgs.HasThargs;
    if HasWh(m, n) {
      assert Rename.Key(d, Wh(n)) != a.WhDst();
      assert n == a.src && d == a.srcDir && a.src in l.ents && !HasWh(l, a.src);
    }
  }

  /** The layers of one directory before and after. */
  lemma RenLayers(a: Rename.RenArgs, e: Rename.Branch, bd: int, del: bool, d: nat, s: Stack, b: nat,
                  ents: map<Name, Node>)
    requires a.Ready(e) && a.Movable(e) && Ordinary(a.src) && Ordinary(a.dst) && |a.tmp| > 8
    requires WellFormed(s) && b < |s| && ((d == a.srcDir || d == a.dstDir) ==> s[b].present && s[b].whable)
    requires Holds(e, d, s[b].ents) && Holds(a.Cleaned(e, bd, del), d, ents)
    ensures var t := s[b := s[b].(ents := ents)];
            && (!a.KeepsWh(e) ==> WellFormed(t))
            && (a.KeepsWh(e) && d == a.dstDir ==> !WellFormed(t))
            && (d != a.srcDir && d != a.dstDir ==> t == s)
  {
    var l, m := s[b], s[b].(ents := ents);
    RenChanges(a, e, bd, del, d, l, m);
    if d != a.srcDir && d != a.dstDir {
      assert s[b := m] == s;
    } else if !a.KeepsWh(e) {
      forall n | n in NamesIn(a, d) ensures Ordinary(n) && (HasWh(m, n) ==> n !in m.ents && m.ents[Wh(n)].kind == Reg) {
        RenNames(a, e, bd, del, d, l, m, n);
      }
      hide Rename.RenArgs.Cleaned, Rename.RenArgs.Movable, Rename.RenArgs.Ready, Holds, ChangedOnly, WellFormedLayer;
      assert IsTmp(a.tmp) by { assert a.Ready(e); }
      StackStays(s, s[b := m], b, NamesIn(a, d), a.tmp);
    } else if d == a.dstDir {
      a.RenamedMeaning(e, bd, del);
      hide Rename.RenArgs.Cleaned, Rename.RenArgs.Movable, Rename.RenArgs.WantsOpq, Rename.RenArgs.HasThargs;
      assert a.dst in m.ents && HasWh(m, a.dst) && !IsWhName(a.dst);
      assert !WellFormedLayer(s[b := m][b]);
    }
  }

  lemma SplitAt(w: World, b: nat, f: Rename.Branch, d: nat)
    requires d < |w|
    ensures Split(w, b, f)[d] ==
            if b < |w[d].all| then w[d].(all := w[d].all[b := w[d].all[b].(ents := DirOf(f, d))]) else w[d]
  {}

  /** What EnabledRen says, clause by clause. */
  lemma RenReady(w: World, a: Rename.RenArgs)
    requires EnabledRen(w, a)
    ensures a.srcDir < |w| && a.dstDir < |w| && 0 <= a.btgt
    ensures var e, b := BranchOf(w, a.btgt), a.btgt;
            var s, d := MoveDown.Merged(w[a.srcDir]), MoveDown.Merged(w[a.dstDir]);
            && a.Ready(e) && Ordinary(a.src) && Ordinary(a.dst) && |a.tmp| > 8 && a.Looked(s, d)
            && b < |s| && Find(s, a.src, 0) == b
            && b < |d| && Clear(d, a.dst, 0, b) && Lacks(d, a.dst, 0, b)
    ensures a.btgt < MoveDown.Depth(w[a.srcDir]) <= |w[a.srcDir].all|
    ensures a.btgt < MoveDown.Depth(w[a.dstDir]) <= |w[a.dstDir].all|
    ensures w[a.srcDir].all[a.btgt].present && w[a.srcDir].all[a.btgt].whable
    ensures w[a.dstDir].all[a.btgt].present && w[a.dstDir].all[a.btgt].whable
  {}

  lemma GoodPut(p: MoveDown.Parent, b: nat, ents: map<Name, Node>)
    requires Good(p) && b < |p.all| && WellFormed(p.all[b := p.all[b].(ents := ents)])
    ensures Good(p.(all := p.all[b := p.all[b].(ents := ents)]))
  {
    GoodAll(p, p.all[b := p.all[b].(ents := ents)]);
  }

  lemma GoodWhole(p: MoveDown.Parent)
    requires !WellFormed(p.all)
    ensures !Good(p)
  {}

  lemma RenStays(w: World, a: Rename.RenArgs, bd: int, del: bool, d: nat)
    requires Valid(w) && EnabledRen(w, a) && a.Movable(BranchOf(w, a.btgt)) && d < |w|
    ensures var q := Split(w, a.btgt, a.Cleaned(BranchOf(w, a.btgt), bd, del))[d];
            && (!a.KeepsWh(BranchOf(w, a.btgt)) ==> Good(q))
            && (a.KeepsWh(BranchOf(w, a.btgt)) && d == a.dstDir ==> !Good(q))
            && (d != a.srcDir && d != a.dstDir ==> q == w[d])
  {
    var e, b, p := BranchOf(w, a.btgt), a.btgt, w[d];
    assert Good(p) && WellFormed(p.all);
    assert a.srcDir < |w| && a.dstDir < |w| && b >= 0;
    hide *;
    var f := a.Cleaned(e, bd, del);
    SplitAt(w, b, f, d);
    RenReady(w, a);
    if b < |p.all| {
      BranchHolds(w, b, d);
      DirHolds(f, d);
      RenLayers(a, e, bd, del, d, p.all, b, DirOf(f, d));
      if !a.KeepsWh(e) {
        GoodPut(p, b, DirOf(f, d));
      } else if d == a.dstDir {
        GoodWhole(p.(all := p.all[b := p.all[b].(ents := DirOf(f, d))]));
      }
    }
  }

  /** When the flags are right the destination's whiteout does not stay and the source's name does not. */
  lemma RenFlags(w: World, a: Rename.RenArgs)
    requires Valid(w) && EnabledRen(w, a)
    ensures var e, s := BranchOf(w, a.btgt), MoveDown.Merged(w[a.srcDir]);
            && a.btgt < |s|
            && (RightRen(w, a) <==> !a.KeepsWh(e) && (a.whsrc || Find(s, a.src, a.btgt + 1) < 0))
  {
    RenReady(w, a);
    KeepsWhFlag(w, a);
    MergedWhole(w[a.srcDir]);
    var s, d := MoveDown.Merged(w[a.srcDir]), MoveDown.Merged(w[a.dstDir]);
    hide BranchOf, Rename.RenArgs.Ready, Rename.RenArgs.Looked, Rename.RenArgs.Answerable, Find, Clear, Lacks,
         WellFormed, Good;
    hide EnabledRen, MoveDown.Merged, Rename.RenArgs.KeepsWh;
    a.AnswerableExact(s, d, a.btgt);
  }

  lemma MergedWhole(p: MoveDown.Parent)
    requires Good(p)
    ensures WellFormed(MoveDown.Merged(p))
  {}

  lemma KeepsWhFlag(w: World, a: Rename.RenArgs)
    requires Valid(w) && EnabledRen(w, a)
    ensures var e, d := BranchOf(w, a.btgt), MoveDown.Merged(w[a.dstDir]);
            a.KeepsWh(e) <==> a.WhDst() in e && exists j :: 0 <= j < a.btgt && d[j].present
  {
    var e, b := BranchOf(w, a.btgt), a.btgt;
    var s, d := MoveDown.Merged(w[a.srcDir]), MoveDown.Merged(w[a.dstDir]);
    RenReady(w, a);
    BranchHolds(w, b, a.dstDir);
    MergedWhole(w[a.dstDir]);
    assert d[b] == w[a.dstDir].all[b];
    hide BranchOf, Rename.RenArgs.Ready, Rename.RenArgs.Looked, Find, Clear, Lacks, WellFormed, Good, EnabledRen,
         MoveDown.Merged;
    assert a.Shows(e, a.dstDir, d[b]);
    hide Holds, Rename.RenArgs.Shows;
    a.KeepsWhExact(e, s, d, b);
  }

  lemma MergedPut(p: MoveDown.Parent, b: nat, ents: map<Name, Node>)
    requires b < MoveDown.Depth(p)
    ensures var q := p.(all := p.all[b := p.all[b].(ents := ents)]);
            MoveDown.Merged(q) == MoveDown.Merged(p)[b := p.all[b].(ents := ents)]
  {}

  lemma LayeredPut(a: Rename.RenArgs, e: Rename.Branch, f: Rename.Branch, d: nat, p: MoveDown.Parent, b: nat,
                   ents: map<Name, Node>)
    requires b < MoveDown.Depth(p) && p.all[b].present && p.all[b].whable
    requires Holds(e, d, p.all[b].ents) && Holds(f, d, ents)
    ensures a.Layered(e, f, d, MoveDown.Merged(p), MoveDown.Merged(p.(all := p.all[b := p.all[b].(ents := ents)])), b)
  {
    MergedPut(p, b, ents);
    var s := MoveDown.Merged(p);
    assert s[b] == p.all[b];
    hide MoveDown.Merged, MoveDown.Depth;
  }

  lemma RenLayered(w: World, a: Rename.RenArgs, bd: int, del: bool, d: nat)
    requires EnabledRen(w, a) && a.Movable(BranchOf(w, a.btgt)) && (d == a.srcDir || d == a.dstDir)
    ensures var e := BranchOf(w, a.btgt);
            var f := a.Cleaned(e, bd, del);
            a.Layered(e, f, d, MoveDown.Merged(w[d]), MoveDown.Merged(Split(w, a.btgt, f)[d]), a.btgt)
  {
    RenReady(w, a);
    hide *;
    var b := a.btgt;
    var f := a.Cleaned(BranchOf(w, b), bd, del);
    SplitAt(w, b, f, d);
    BranchHolds(w, b, d);
    DirHolds(f, d);
    LayeredPut(a, BranchOf(w, b), f, d, w[d], b, DirOf(f, d));
  }

  lemma SourceShown(w: World, a: Rename.RenArgs)
    requires EnabledRen(w, a)
    ensures a.Src() in BranchOf(w, a.btgt)
    ensures MoveDown.Shown(w[a.srcDir], a.src) == Some(BranchOf(w, a.btgt)[a.Src()])
  {
    BranchHolds(w, a.btgt, a.srcDir);
  }

  lemma NotShown(p: MoveDown.Parent, n: Name)
    ensures MoveDown.Shown(p, n) == None <==> Find(MoveDown.Merged(p), n, 0) < 0
  {}

  /** The entry `src` of directory `d1` becomes `dst` of `d2`; nothing else changes. */
  ghost predicate Moves(w: World, w2: World, d1: nat, src: Name, d2: nat, dst: Name) {
    && d1 < |w| == |w2| && d2 < |w| && !Refused(src) && !Refused(dst) && (d1 != d2 || src != dst)
    && MoveDown.Shown(w2[d1], src) == None
    && MoveDown.Shown(w[d1], src).Some? && MoveDown.Shown(w2[d2], dst).Some?
    && Plain(MoveDown.Shown(w2[d2], dst).value) == Plain(MoveDown.Shown(w[d1], src).value)
    && forall d, n :: 0 <= d < |w| && !Refused(n) && !(d == d1 && n == src) && !(d == d2 && n == dst) ==>
         MoveDown.Shown(w2[d], n) == MoveDown.Shown(w[d], n)
  }

  lemma MovesFlat(w: World, w2: World, d1: nat, src: Name, d2: nat, dst: Name)
    requires Moves(w, w2, d1, src, d2, dst)
    ensures Flats(w2) == MoveEntry(Flats(w), d1, src, d2, dst)
  {
    hide MoveDown.Shown, Refused;
    var r := MoveEntry(Flats(w), d1, src, d2, dst);
    assert src in Flats(w)[d1];
    forall d | 0 <= d < |w| ensures FlatOf(w2[d]) == r[d] {
      forall m ensures (m in FlatOf(w2[d]) <==> m in r[d]) && (m in FlatOf(w2[d]) ==> FlatOf(w2[d])[m] == r[d][m]) {}
    }
  }

  /** The two names of a rename. */
  lemma RenEnds(w: World, a: Rename.RenArgs, bd: int, del: bool, e: Rename.Branch, f: Rename.Branch, w2: World)
    requires EnabledRen(w, a) && e == BranchOf(w, a.btgt) && a.Movable(e)
    requires f == a.Cleaned(e, bd, del) && w2 == Split(w, a.btgt, f)
    ensures a.Src() in e && MoveDown.Shown(w[a.srcDir], a.src) == Some(e[a.Src()])
    ensures a.btgt < |MoveDown.Merged(w[a.srcDir])|
    ensures MoveDown.Shown(w2[a.srcDir], a.src) == None <==>
            a.whsrc || Find(MoveDown.Merged(w[a.srcDir]), a.src, a.btgt + 1) < 0
    ensures MoveDown.Shown(w2[a.dstDir], a.dst) ==
            if a.KeepsWh(e) then None else Some(e[a.Src()].(opq := e[a.Src()].opq || a.WantsOpq(e, bd)))
  {
    RenReady(w, a);
    SourceShown(w, a);
    hide *;
    RenGone(w, a, bd, del, e, f, w2);
    RenArrived(w, a, bd, del, e, f, w2);
  }

  lemma RenGone(w: World, a: Rename.RenArgs, bd: int, del: bool, e: Rename.Branch, f: Rename.Branch, w2: World)
    requires EnabledRen(w, a) && e == BranchOf(w, a.btgt) && a.Movable(e)
    requires f == a.Cleaned(e, bd, del) && w2 == Split(w, a.btgt, f)
    ensures a.btgt < |MoveDown.Merged(w[a.srcDir])|
    ensures MoveDown.Shown(w2[a.srcDir], a.src) == None <==>
            a.whsrc || Find(MoveDown.Merged(w[a.srcDir]), a.src, a.btgt + 1) < 0
  {
    hide *;
    RenReady(w, a);
    RenLayered(w, a, bd, del, a.srcDir);
    a.SourceGone(e, bd, del, MoveDown.Merged(w[a.srcDir]), MoveDown.Merged(w2[a.srcDir]), a.btgt);
    NotShown(w2[a.srcDir], a.src);
  }

  lemma RenArrived(w: World, a: Rename.RenArgs, bd: int, del: bool, e: Rename.Branch, f: Rename.Branch, w2: World)
    requires EnabledRen(w, a) && e == BranchOf(w, a.btgt) && a.Movable(e)
    requires f == a.Cleaned(e, bd, del) && w2 == Split(w, a.btgt, f)
    ensures a.Src() in e
    ensures MoveDown.Shown(w2[a.dstDir], a.dst) ==
            if a.KeepsWh(e) then None else Some(e[a.Src()].(opq := e[a.Src()].opq || a.WantsOpq(e, bd)))
  {
    RenReady(w, a);
    RenLayered(w, a, bd, del, a.dstDir);
    SourceShown(w, a);
    hide *;
    a.DestinationShown(e, bd, del, MoveDown.Merged(w[a.dstDir]), MoveDown.Merged(w2[a.dstDir]), a.btgt);
    ShownIs(w2[a.dstDir], a.dst);
  }

  lemma ShownIs(p: MoveDown.Parent, n: Name)
    ensures MoveDown.Shown(p, n) == View(MoveDown.Merged(p), n)
  {}

  lemma RenOther(w: World, a: Rename.RenArgs, bd: int, del: bool, e: Rename.Branch, f: Rename.Branch, w2: World,
                 d: nat, n: Name)
    requires Valid(w) && EnabledRen(w, a) && e == BranchOf(w, a.btgt) && a.Movable(e)
    requires f == a.Cleaned(e, bd, del) && w2 == Split(w, a.btgt, f)
    requires d < |w| && !Refused(n) && !(d == a.srcDir && n == a.src) && !(d == a.dstDir && n == a.dst)
    ensures MoveDown.Shown(w2[d], n) == MoveDown.Shown(w[d], n)
  {
    if d == a.srcDir || d == a.dstDir {
      RenLayered(w, a, bd, del, d);
      RenReady(w, a);
      hide Rename.RenArgs.Cleaned, Rename.RenArgs.Movable, Rename.RenArgs.Ready, BranchOf, Split, View, EnabledRen,
           MoveDown.Merged;
      hide Rename.RenArgs.Layered;
      a.OtherNames(e, bd, del, d, MoveDown.Merged(w[d]), MoveDown.Merged(w2[d]), a.btgt, n);
    } else {
      RenStays(w, a, bd, del, d);
    }
  }

  lemma RenMoves(w: World, a: Rename.RenArgs, bd: int, del: bool, e: Rename.Branch, f: Rename.Branch, w2: World)
    requires Valid(w) && EnabledRen(w, a) && RightRen(w, a) && e == BranchOf(w, a.btgt) && a.Movable(e)
    requires f == a.Cleaned(e, bd, del) && w2 == Split(w, a.btgt, f)
    ensures Moves(w, w2, a.srcDir, a.src, a.dstDir, a.dst)
  {
    RenReady(w, a);
    RenFlags(w, a);
    RenEnds(w, a, bd, del, e, f, w2);
    hide Rename.RenArgs.Cleaned, Rename.RenArgs.Movable, Rename.RenArgs.Looked, BranchOf, Split, MoveDown.Shown,
         EnabledRen;
    hide MoveDown.Merged, Rename.RenArgs.WantsOpq, MoveDown.Depth, Find, Clear, Lacks, Valid, RightRen;
    forall d, n | 0 <= d < |w| && !Refused(n) && !(d == a.srcDir && n == a.src) && !(d == a.dstDir && n == a.dst)
      ensures MoveDown.Shown(w2[d], n) == MoveDown.Shown(w[d], n)
    {
      RenOther(w, a, bd, del, e, f, w2, d, n);
    }
  }

  /** A successful rename moves the entry of plain directories and leaves the layers well formed if and only
      if its flags are right. */
  lemma RenExact(w: World, a: Rename.RenArgs, bd: int, del: bool, e: Rename.Branch, f: Rename.Branch, w2: World)
    requires Valid(w) && EnabledRen(w, a) && e == BranchOf(w, a.btgt) && a.Movable(e)
    requires f == a.Cleaned(e, bd, del) && w2 == Split(w, a.btgt, f)
    ensures Valid(w2) && Flats(w2) == MoveEntry(Flats(w), a.srcDir, a.src, a.dstDir, a.dst) <==> RightRen(w, a)
  {
    RenReady(w, a);
    RenFlags(w, a);
    RenEnds(w, a, bd, del, e, f, w2);
    hide Rename.RenArgs.Cleaned, Rename.RenArgs.Movable, Rename.RenArgs.Looked, BranchOf, Split, EnabledRen, Good;
    hide MoveDown.Merged, Rename.RenArgs.WantsOpq, MoveDown.Depth, Find, Clear, Lacks, RightRen, MoveDown.Shown;
    if RightRen(w, a) {
      forall d | 0 <= d < |w| ensures Good(w2[d]) {
        RenStays(w, a, bd, del, d);
      }
      RenMoves(w, a, bd, del, e, f, w2);
      MovesFlat(w, w2, a.srcDir, a.src, a.dstDir, a.dst);
    } else if a.KeepsWh(e) {
      RenStays(w, a, bd, del, a.dstDir);
    } else {
      assert a.src in FlatOf(w2[a.srcDir]) && a.src in FlatOf(w[a.srcDir]);
      EntryGone(Flats(w), a.srcDir, a.src, a.dstDir, a.dst);
    }
  }

  lemma EntryGone(v: seq<Flat>, d1: nat, src: Name, d2: nat, dst: Name)
    requires d1 < |v| && d2 < |v| && src in v[d1] && (d1 != d2 || src != dst)
    ensures src !in MoveEntry(v, d1, src, d2, dst)[d1]
  {}

  lemma RenRefines(w: World, a: Rename.RenArgs, fail: set<Rename.Step>, ok: bool, w2: World)
    requires Valid(w) && EnabledRen(w, a) && RenDoes(w, a, fail, ok, w2)
    ensures |w2| == |w|
    ensures ok ==> (Valid(w2) && Flats(w2) == MoveEntry(Flats(w), a.srcDir, a.src, a.dstDir, a.dst) <==> RightRen(w, a))
    ensures !ok ==> w2 == w
  {
    if ok {
      var e := BranchOf(w, a.btgt);
      var bd, del := SrcBdiropq(w, a), Rename.DelWhtmp !in fail;
      RenExact(w, a, bd, del, e, a.Cleaned(e, bd, del), w2);
    }
  }

  // ----- whole runs

  /** One operation that changes one directory. */
  lemma DirRefines(w: World, w2: World, d: nat, f: Flat)
    requires Valid(w) && d < |w| && |w2| == |w| && w2 == w[d := w2[d]] && Good(w2[d]) && FlatOf(w2[d]) == f
    ensures Valid(w2) && Flats(w2) == Flats(w)[d := f]
  {}

  /** One operation on the layers is that operation on plain directories, or nothing when it fails. */
  lemma StepRefines(w: World, op: Op, ok: bool, w2: World)
    requires Valid(w) && Enabled(w, op) && Harmless(w, op) && Does(w, op, ok, w2)
    ensures Valid(w2) && |w2| == |w|
    ensures Flats(w2) == if ok then Effect(Flats(w), op) else Flats(w)
  {
    hide Good, FlatOf, UnlinkDoes, MkdirDoes, RenDoes, MvdownDoes, RightRen, HasWh;
    hide EnabledUnlink, EnabledMkdir, EnabledRen, EnabledMvdown, Meets;
    match op
    case Unlink(d, n, bindex, _) =>
      UnlinkRefines(w[d], n, bindex, ok, w2[d]);
      DirRefines(w, w2, d, FlatOf(w2[d]));
    case Mkdir(d, n, b, dir, opq, _) =>
      MkdirRefines(w[d], n, b, dir, opq, ok, w2[d]);
      DirRefines(w, w2, d, FlatOf(w2[d]));
    case Ren(a, fail) =>
      RenRefines(w, a, fail, ok, w2);
    case Mvdown(d, n, bsrc, bdst, tmp, _, _, kupper, fail) =>
      MvdownRefines(w[d], n, bsrc, bdst, tmp, kupper, fail, ok, w2[d]);
      DirRefines(w, w2, d, FlatOf(w2[d]));
  }

  datatype Event = Event(op: Op, ok: bool)

  /** `ws` are the states around the events. */
  ghost predicate IsRun(ws: seq<World>, es: seq<Event>) {
    && |ws| == |es| + 1 && Valid(ws[0])
    && forall i :: 0 <= i < |es| ==>
         Enabled(ws[i], es[i].op) && Harmless(ws[i], es[i].op) && Does(ws[i], es[i].op, es[i].ok, ws[i + 1])
  }

  /** The successful operations, on plain directories. */
  ghost function Played(v: seq<Flat>, es: seq<Event>): seq<Flat> {
    if es == [] then v
    else
      var u := Played(v, es[..|es| - 1]);
      if es[|es| - 1].ok then Effect(u, es[|es| - 1].op) else u
  }

  lemma DoesMeets(ws: seq<World>, es: seq<Event>)
    requires IsRun(ws, es)
    ensures forall i :: 0 <= i < |es| ==> (es[i].ok <==> !Meets(ws[i], es[i].op))
  {
    hide Meets, Enabled, Harmless, Valid, Does;
    forall i | 0 <= i < |es| ensures es[i].ok <==> !Meets(ws[i], es[i].op) {
      DoesOnce(ws[i], es[i].op, es[i].ok, ws[i + 1]);
    }
  }

  predicate NoFailure(op: Op) {
    match op
    case Unlink(_, _, _, fail) => fail == {}
    case Mkdir(_, _, _, _, _, fail) => fail == {}
    case Ren(_, fail) => fail == {}
    case Mvdown(_, _, _, _, _, _, _, _, fail) => fail == {}
  }

  /** The source of a rename is opaque already where it would be made so. */
  ghost predicate OpaqueAlready(w: World, a: Rename.RenArgs)
    requires EnabledRen(w, a)
  {
    var s := MoveDown.Merged(w[a.srcDir]);
    exists i :: a.btgt < i && Lookup.IsOpqCopy(s, a.src, i)
  }

  /** Where no lower operation fails, unlink and mkdir succeed; so does a rename, but for a directory that is
      opaque and lies over another opaque copy; so does a move down, but onto a stale parent or on a target
      that stands in the way. */
  lemma NoFailureSucceeds(w: World, op: Op, ok: bool, w2: World)
    requires Valid(w) && Enabled(w, op) && Does(w, op, ok, w2) && NoFailure(op)
    ensures op.Unlink? || op.Mkdir? ==> ok
    ensures op.Ren? && !ok ==>
              var e := BranchOf(w, op.a.btgt);
              op.a.Src() in e && e[op.a.Src()].opq && op.a.isdir && OpaqueAlready(w, op.a)
    ensures op.Mvdown? ==>
              (ok <==> !MoveDown.Stale(w[op.d], op.bdst)
                       && !MoveDown.Blocked(w[op.d], op.n, op.bdst, op.overwrite))
  {
    hide Does;
    assert ok <==> !Meets(w, op) by { DoesOnce(w, op, ok, w2); }
    if op.Ren? && !ok {
      StuckRename(w, op.a);
    }
  }

  lemma DoesOnce(w: World, op: Op, ok: bool, w2: World)
    requires Enabled(w, op) && Does(w, op, ok, w2)
    ensures ok <==> !Meets(w, op)
  {
    hide Meets, Enabled;
  }

  lemma StuckRename(w: World, a: Rename.RenArgs)
    requires Valid(w) && EnabledRen(w, a) && Meets(w, Ren(a, {}))
    ensures var e := BranchOf(w, a.btgt); a.Src() in e && e[a.Src()].opq && a.isdir && OpaqueAlready(w, a)
  {
    MetOpaque(w, a);
    RenReady(w, a);
    hide *;
    MergedWhole(w[a.srcDir]);
    BranchHolds(w, a.btgt, a.srcDir);
    OpaqueBelow(w, a);
  }

  lemma MetOpaque(w: World, a: Rename.RenArgs)
    requires Valid(w) && EnabledRen(w, a) && Meets(w, Ren(a, {}))
    ensures a.srcDir < |w| && Good(w[a.srcDir]) && a.isdir && SrcBdiropq(w, a) != a.btgt
    ensures a.Src() in BranchOf(w, a.btgt) && BranchOf(w, a.btgt)[a.Src()].opq
    ensures BranchOf(w, a.btgt)[a.Src()].kind == Dir && !Refused(a.src)
  {
    RenReady(w, a);
    hide BranchOf, Good, MoveDown.Merged, Rename.RenArgs.Looked, EnabledRen, SrcBdiropq, Find;
  }

  lemma OpaqueBelow(w: World, a: Rename.RenArgs)
    requires EnabledRen(w, a) && a.srcDir < |w| && 0 <= a.btgt && !Refused(a.src)
    requires var s := MoveDown.Merged(w[a.srcDir]);
             a.btgt < |s| <= |w[a.srcDir].all| && WellFormed(s) && Find(s, a.src, 0) == a.btgt
    requires Holds(BranchOf(w, a.btgt), a.srcDir, w[a.srcDir].all[a.btgt].ents) && w[a.srcDir].all[a.btgt].whable
    requires a.Src() in BranchOf(w, a.btgt) && BranchOf(w, a.btgt)[a.Src()] .opq
    requires BranchOf(w, a.btgt)[a.Src()].kind == Dir && SrcBdiropq(w, a) != a.btgt
    ensures OpaqueAlready(w, a)
  {
    var s, b := MoveDown.Merged(w[a.srcDir]), a.btgt;
    assert s[b] == w[a.srcDir].all[b];
    hide EnabledRen, BranchOf, MoveDown.Merged, WellFormed;
    Lookup.FreshLookupMeaning(s, a.src, |s|);
    FindMeaning(s, a.src, 0);
    assert Lookup.IsOpqCopy(s, a.src, b);
  }

  /** Over every run the layered directories are the plain ones, and the layers stay well formed. An operation
      fails exactly if it comes to a step that does. */
  lemma {:induction false} RunRefines(ws: seq<World>, es: seq<Event>)
    requires IsRun(ws, es)
    ensures Valid(ws[|es|]) && |ws[|es|]| == |ws[0]|
    ensures Flats(ws[|es|]) == Played(Flats(ws[0]), es)
    ensures forall i :: 0 <= i < |es| ==> (es[i].ok <==> !Meets(ws[i], es[i].op))
  {
    if es == [] {
    } else {
      var k := |es| - 1;
      DoesMeets(ws, es);
      hide Meets;
      hide Valid, Enabled, Harmless, Does, Flats, Effect;
      assert IsRun(ws[..k + 1], es[..k]);
      RunRefines(ws[..k + 1], es[..k]);
      StepRefines(ws[k], es[k].op, es[k].ok, ws[k + 1]);
    }
  }

  /** So after every run readdir lists, in whatever order the lower directories come, exactly the names of
      the plain directory, each once, and lookup finds exactly these. */
  lemma RunListing(ws: seq<World>, es: seq<Event>, d: nat, orders: seq<seq<Name>>)
    requires IsRun(ws, es) && d < |ws[0]|
    ensures d < |ws[|es|]| && d < |Played(Flats(ws[0]), es)|
    ensures var s, v := MoveDown.Merged(ws[|es|][d]), Played(Flats(ws[0]), es)[d];
            Readdir.AllYield(s, orders) ==>
              var names := Readdir.FillLayers(s, orders, |s|).names;
              && Readdir.Distinct(names)
              && forall n :: !Refused(n) && !IsDots(n) ==>
                  (n in names <==> n in v) && (Readdir.LookedUp(s, n, Lookup.AnyKind) <==> n in v)
  {
    RunRefines(ws, es);
    var p := ws[|es|][d];
    var s := MoveDown.Merged(p);
    assert Good(p) && WellFormed(s);
    if Readdir.AllYield(s, orders) {
      Readdir.ReaddirMeaning(s, orders);
      forall n | !Refused(n) && !IsDots(n)
        ensures n in FlatOf(p) <==> Find(s, n, 0) >= 0
        ensures Readdir.LookedUp(s, n, Lookup.AnyKind) <==> Find(s, n, 0) >= 0
      {
        Lookup.WellFormedIsSound(s, n);
        Lookup.WalkFinds(Lookup.Fresh(|s|), s, n, 0, true, Lookup.AnyKind);
      }
    }
  }

  // ----- the code

  /** The union as the operations see it. */
  class Union {
    var dirs: World

    constructor (dirs: World)
      ensures this.dirs == dirs
    {
      this.dirs := dirs;
    }

    /** aufs_unlink */
    method Unlink(d: nat, n: Name, bindex: nat, fail: set<EntryOps.Step>) returns (ok: bool)
      requires Valid(dirs) && Enabled(dirs, Op.Unlink(d, n, bindex, fail)) && Undoable(Op.Unlink(d, n, bindex, fail))
      modifies this
      ensures Does(old(dirs), Op.Unlink(d, n, bindex, fail), ok, dirs)
    {
      var s := MoveDown.Merged(dirs[d]);
      NeedsWhRight(s, n, bindex);
      var parent := new EntryOps.Parent(s);
      var err := parent.Unlink(n, Find(s, n, 0), bindex, NeedsWh(s, n, bindex), fail);
      ok := err == None;
      MergedBack(dirs[d]);
      dirs := dirs[d := Below(dirs[d], parent.s)];
    }

    /** aufs_mkdir */
    method Mkdir(d: nat, n: Name, b: nat, dir: Node, alwaysOpq: bool, fail: set<EntryOps.Step>) returns (ok: bool)
      requires Valid(dirs) && Enabled(dirs, Op.Mkdir(d, n, b, dir, alwaysOpq, fail))
               && Undoable(Op.Mkdir(d, n, b, dir, alwaysOpq, fail))
      modifies this
      ensures Does(old(dirs), Op.Mkdir(d, n, b, dir, alwaysOpq, fail), ok, dirs)
    {
      var s := MoveDown.Merged(dirs[d]);
      LacksToo(s, n, b);
      var parent := new EntryOps.Parent(s);
      var err := parent.Mkdir(n, b, dir, HasWh(s[b], n), alwaysOpq, fail);
      ok := err == None;
      MergedBack(dirs[d]);
      dirs := dirs[d := Below(dirs[d], parent.s)];
    }

    /** aufs_rename */
    method Rename(a: Rename.RenArgs, fail: set<Rename.Step>) returns (ok: bool)
      requires Valid(dirs) && Enabled(dirs, Ren(a, fail)) && Undoable(Ren(a, fail))
      modifies this, a
      ensures Does(old(dirs), Ren(a, fail), ok, dirs)
    {
      hide *;
      RenUndoable(dirs, a, fail);
      RenSane(dirs, a);
      a.ents, a.srcBdiropq := BranchOf(dirs, a.btgt), SrcBdiropq(dirs, a);
      var err := a.DoRename(fail);
      ok := err == None;
      RenDone(dirs, a, SrcBdiropq(dirs, a), fail, ok, a.ents);
      RenIsDone(dirs, a, fail, ok, Split(dirs, a.btgt, a.ents));
      dirs := Split(dirs, a.btgt, a.ents);
    }

    /** au_do_mvdown */
    method Mvdown(d: nat, n: Name, bsrc: nat, bdst: nat, tmp: Name, partial: nat, overwrite: bool, kupper: bool,
                  fail: set<MoveDown.Step>)
        returns (ok: bool)
      requires Valid(dirs) && Enabled(dirs, Op.Mvdown(d, n, bsrc, bdst, tmp, partial, overwrite, kupper, fail))
               && Undoable(Op.Mvdown(d, n, bsrc, bdst, tmp, partial, overwrite, kupper, fail))
      modifies this
      ensures Does(old(dirs), Op.Mvdown(d, n, bsrc, bdst, tmp, partial, overwrite, kupper, fail), ok, dirs)
    {
      var mover := new MoveDown.Mover(dirs[d]);
      var err := mover.DoMvdown(n, bsrc, bdst, tmp, partial, overwrite, kupper, fail);
      ok := err == None;
      dirs := dirs[d := mover.p];
    }
  }

  lemma LayerOf(w: World, a: Rename.RenArgs, d: nat)
    requires Valid(w) && d < |w| && 0 <= a.btgt < |w[d].all| && w[d].all[a.btgt].present && w[d].all[a.btgt].whable
    ensures a.Shows(BranchOf(w, a.btgt), d, w[d].all[a.btgt]) && WellFormedLayer(w[d].all[a.btgt])
  {
    BranchHolds(w, a.btgt, d);
    assert Good(w[d]);
    hide BranchOf, MoveDown.Sound;
  }

  lemma RenSane(w: World, a: Rename.RenArgs)
    requires Valid(w) && EnabledRen(w, a)
    ensures a.Sane(BranchOf(w, a.btgt))
  {
    RenReady(w, a);
    assert !Refused(a.src) && !Refused(a.dst);
    hide *;
    LayerOf(w, a, a.srcDir);
    LayerOf(w, a, a.dstDir);
    a.WellFormedIsSane(BranchOf(w, a.btgt), w[a.srcDir].all[a.btgt], w[a.dstDir].all[a.btgt]);
  }

  lemma SplitBack(w: World, b: nat)
    ensures Split(w, b, BranchOf(w, b)) == w
  {
    hide BranchOf, Split, DirOf;
    forall d | 0 <= d < |w| ensures Split(w, b, BranchOf(w, b))[d] == w[d] {
      SplitAt(w, b, BranchOf(w, b), d);
      if b < |w[d].all| {
        DirHolds(BranchOf(w, b), d);
        BranchHolds(w, b, d);
        assert DirOf(BranchOf(w, b), d) == w[d].all[b].ents;
      }
    }
  }

  lemma RenUndoable(w: World, a: Rename.RenArgs, fail: set<Rename.Step>)
    requires Enabled(w, Ren(a, fail)) && Undoable(Ren(a, fail))
    ensures EnabledRen(w, a) && fail !! Rename.REVERTS && 0 <= a.btgt && a.Ready(BranchOf(w, a.btgt))
    ensures a.srcDir < |w| && a.Src() in BranchOf(w, a.btgt)
  {}

  /** Success leaves the branch renamed, failure as it was. */
  lemma RenDone(w: World, a: Rename.RenArgs, bd: int, fail: set<Rename.Step>, ok: bool, f: Rename.Branch)
    requires EnabledRen(w, a) && a.Movable(BranchOf(w, a.btgt))
    requires f == if ok then a.Cleaned(BranchOf(w, a.btgt), bd, Rename.DelWhtmp !in fail) else BranchOf(w, a.btgt)
    requires bd == SrcBdiropq(w, a)
    ensures RenDoes(w, a, fail, ok, Split(w, a.btgt, f))
  {
    RenReady(w, a);
    SplitBack(w, a.btgt);
    hide BranchOf, Split, EnabledRen, Rename.RenArgs.Ready, Rename.RenArgs.Movable, Rename.RenArgs.Cleaned;
    hide SrcBdiropq;
  }

  lemma RenIsDone(w: World, a: Rename.RenArgs, fail: set<Rename.Step>, ok: bool, w2: World)
    requires EnabledRen(w, a) && RenDoes(w, a, fail, ok, w2) && a.Src() in BranchOf(w, a.btgt)
    requires ok <==> !a.Meets(BranchOf(w, a.btgt), SrcBdiropq(w, a), fail)
    ensures Enabled(w, Ren(a, fail)) && Does(w, Ren(a, fail), ok, w2)
  {
    hide EnabledRen, RenDoes, Rename.RenArgs.Meets, BranchOf, SrcBdiropq;
  }

  lemma MergedBack(p: MoveDown.Parent)
    ensures Below(p, MoveDown.Merged(p)) == p
  {}
}