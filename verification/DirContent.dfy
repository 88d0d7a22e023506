/** What is in a directory that was just made or renamed: a directory of the union is linked to its content on
    each branch through the layers of its parent. */
module DirContent {
  import opened Basics
  import opened Layers
  import Lookup
  import Readdir
  import NameHash
  import EntryOps
  import MoveDown
  import Rename
  import Runs

  /** `all` is what directory `n`, seen in the layers `s` of its parent, contains on each branch. */
  ghost predicate Contains(s: Stack, n: Name, all: Stack) {
    && |all| == |s| && WellFormed(all) && MoveDown.DirOf(s, n, all)
    && forall i :: 0 <= i < |s| ==> all[i].whable == s[i].whable
  }

  /** The directory with the private data a fresh lookup gives it. */
  function Opened(s: Stack, n: Name, all: Stack): MoveDown.Parent {
    MoveDown.Parent(all, match Lookup.FreshLookup(s, n, |s|) case Some(r) => r.1 case None => Lookup.Fresh(|s|))
  }

  /** A directory that was just looked up is what runs start from. */
  lemma OpenedIsGood(s: Stack, n: Name, all: Stack)
    requires WellFormed(s) && !Refused(n) && Contains(s, n, all)
    requires Find(s, n, 0) >= 0 && Lookup.IsDir(s[Find(s, n, 0)], n)
    ensures Runs.Good(Opened(s, n, all))
  {
    MoveDown.LookupIsSound(s, n, all);
  }

  /** What a layer shows by itself. */
  ghost function Own(l: Layer): Runs.Flat {
    imap n | !Refused(n) && View([l], n).Some? :: Runs.Plain(View([l], n).value)
  }

  lemma OwnOf(l: Layer, n: Name)
    ensures View([l], n) == if n in l.ents && !HasWh(l, n) then Some(l.ents[n]) else None
  {
    assert Find([l], n, 1) == -1;
  }

  /** The lowest layer a directory is merged from is one that contributes to it. */
  lemma LowestMerged(t: Stack, n: Name, all: Stack) returns (k: nat)
    requires |all| == |t| && Lookup.Sound(t, n) && Find(t, n, 0) >= 0
    ensures MoveDown.Depth(Opened(t, n, all)) == k + 1 <= |t| && Lookup.Contributes(t, n, k)
    ensures forall i :: Lookup.Contributes(t, n, i) ==> i <= k
  {
    Lookup.FreshLookupOf(t, n, |t|);
    var e := Lookup.FreshLookup(t, n, |t|).value.1;
    Lookup.TailOf(t, n, e);
    k := Lookup.DbTailDir(e);
    Lookup.ContributesIsMerged(t, n, k);
    forall i | Lookup.Contributes(t, n, i) ensures i <= k {
      Lookup.ContributesIsMerged(t, n, i);
    }
  }

  lemma EmptyAbove(t: Stack, n: Name, all: Stack, b: nat)
    requires Contains(t, n, all) && b < |t| && Find(t, n, 0) == b
    ensures forall j :: 0 <= j < b ==> all[j].ents == map[]
  {
    FindMeaning(t, n, 0);
    assert Lacks(t, n, 0, b);
  }

  /** Merged from one layer, a directory shows what that layer shows. */
  lemma OneLayerShows(t: Stack, n: Name, all: Stack, b: nat, m: Name)
    requires Contains(t, n, all) && b < |t| && Find(t, n, 0) == b && MoveDown.Depth(Opened(t, n, all)) == b + 1
    ensures MoveDown.Shown(Opened(t, n, all), m) == View([all[b]], m)
  {
    EmptyAbove(t, n, all, b);
    var s := MoveDown.Merged(Opened(t, n, all));
    assert s == all[..b + 1];
    hide Opened, Contains, MoveDown.Depth, MoveDown.Merged;
    FindSkip(s, m, 0, b);
    OwnOf(all[b], m);
    assert Find(s, m, b + 1) == -1;
  }

  lemma {:induction false} LongerThanAll(ns: set<Name>) returns (k: nat)
    ensures forall n :: n in ns ==> |n| < k
  {
    if ns == {} {
      k := 0;
    } else {
      var n :| n in ns;
      k := LongerThanAll(ns - {n});
      k := if |n| < k then k else |n| + 1;
    }
  }

  /** A name a layer says nothing about. */
  lemma NewName(l: Layer) returns (x: Name)
    ensures !Refused(x) && |x| > 2 && x !in l.ents && Wh(x) !in l.ents
  {
    var k := LongerThanAll(l.ents.Keys);
    x := seq(k + 3, _ => 'x');
    assert x[0] == 'x' && |Wh(x)| > k;
  }

  /** Content in which only layer `b` is as given, and layer `i` holds one name more. */
  ghost function OneMore(t: Stack, n: Name, b: nat, l: Layer, i: nat, x: Name): (all: Stack)
    ensures |all| == |t|
  {
    seq(|t|, j requires 0 <= j < |t| =>
      if j == b then l
      else Layer(Lookup.IsDir(t[j], n), t[j].whable, if j == i then map[x := WHITEOUT] else map[]))
  }

  lemma OneMoreContains(t: Stack, n: Name, b: nat, l: Layer, i: nat, x: Name)
    requires b < |t| && i < |t| && b != i && Lookup.IsDir(t[b], n) && Lookup.IsDir(t[i], n)
    requires WellFormedLayer(l) && l.present && l.whable == t[b].whable && !Refused(x) && |x| > 2
    ensures Contains(t, n, OneMore(t, n, b, l, i, x))
  {
    var all := OneMore(t, n, b, l, i, x);
    forall m: Name ensures Wh(m) != x {
      WhInjective(m, m);
    }
    forall j | 0 <= j < |t| ensures WellFormedLayer(all[j]) {}
  }

  lemma OneMoreShows(t: Stack, n: Name, b: nat, l: Layer, i: nat, x: Name)
    requires b < |t| && i < |t| && b != i && !Refused(x) && x !in l.ents && Wh(x) !in l.ents
    requires i < MoveDown.Depth(Opened(t, n, OneMore(t, n, b, l, i, x)))
    ensures MoveDown.Shown(Opened(t, n, OneMore(t, n, b, l, i, x)), x).Some? && View([l], x) == None
  {
    var all := OneMore(t, n, b, l, i, x);
    var s := MoveDown.Merged(Opened(t, n, all));
    WhInjective(x, x);
    assert forall j :: 0 <= j < |s| ==> s[j] == all[j];
    assert forall j :: 0 <= j < |t| ==> Wh(x) !in all[j].ents;
    assert x in s[i].ents && Clear(s, x, 0, i + 1);
    FindMeaning(s, x, 0);
    OwnOf(l, x);
  }

  /** A directory shows what its topmost layer shows, whatever the others contain, if and only if it is
      merged from that layer alone. */
  lemma OnlyOwn(t: Stack, n: Name, b: nat, l: Layer)
    requires b < |t| && Lookup.Sound(t, n) && Find(t, n, 0) == b && Lookup.IsDir(t[b], n)
    requires WellFormedLayer(l) && l.present && l.whable == t[b].whable
    ensures (forall all: Stack :: Contains(t, n, all) && all[b] == l ==> Runs.FlatOf(Opened(t, n, all)) == Own(l))
            <==> forall i :: Lookup.Contributes(t, n, i) <==> i == b
  {
    if i :| Lookup.Contributes(t, n, i) && i != b {
      assert Lookup.IsCopy(t, n, i);
      var x := NewName(l);
      var all := OneMore(t, n, b, l, i, x);
      OneMoreContains(t, n, b, l, i, x);
      var k := LowestMerged(t, n, all);
      hide Opened, OneMore, MoveDown.Depth, Lookup.Contributes, MoveDown.Shown;
      OneMoreShows(t, n, b, l, i, x);
      assert all[b] == l by { LayerB(t, n, b, l, i, x); }
      assert x in Runs.FlatOf(Opened(t, n, all)) && x !in Own(l);
    } else {
      forall all: Stack | Contains(t, n, all) && all[b] == l ensures Runs.FlatOf(Opened(t, n, all)) == Own(l) {
        var k := LowestMerged(t, n, all);
        hide Opened, MoveDown.Depth, Contains, MoveDown.Shown;
        forall m ensures MoveDown.Shown(Opened(t, n, all), m) == View([l], m) {
          OneLayerShows(t, n, all, b, m);
        }
      }
      var k := LowestMerged(t, n, t);
      assert k == b;
    }
  }

  lemma LayerB(t: Stack, n: Name, b: nat, l: Layer, i: nat, x: Name)
    requires b < |t|
    ensures OneMore(t, n, b, l, i, x)[b] == l
  {}

  // ----- a made directory

  lemma MadeFound(s: Stack, n: Name, b: nat, made: Node)
    requires b < |s| && !Refused(n) && WellFormed(s) && s[b].present && s[b].whable && made.kind == Dir
    requires Clear(s, n, 0, b) && Lacks(s, n, 0, b + 1)
    ensures var t := EntryOps.With(s, b, n, Some(made), None);
            Find(t, n, 0) == b && Lookup.IsDir(t[b], n) && t[b].whable && Lookup.Sound(t, n)
  {
    var t := EntryOps.With(s, b, n, Some(made), None);
    WhInjective(n, n);
    Lookup.WellFormedIsSound(s, n);
    assert forall j :: 0 <= j < |s| && j != b ==> t[j] == s[j];
    assert Lacks(t, n, 0, b) && Clear(t, n, 0, b + 1);
    FindSkip(t, n, 0, b);
  }

  /** After a successful mkdir the new directory is empty, whatever lies below, if and only if no layer below
      holds an unhidden opaque directory of its name. */
  lemma MadeIsEmpty(s: Stack, n: Name, b: nat, dir: Node, alwaysOpq: bool)
    requires b < |s| && !Refused(n) && s[b].present && s[b].whable && Find(s, n, 0) < 0 && dir.kind == Dir && !dir.opq
    requires Clear(s, n, 0, b) && Lacks(s, n, 0, b + 1) && WellFormed(s)
    ensures var t := EntryOps.With(s, b, n, Some(dir.(opq := HasWh(s[b], n) || alwaysOpq)), None);
            (forall all: Stack :: Contains(t, n, all) && all[b].ents == map[] ==>
             Runs.FlatOf(Opened(t, n, all)) == imap[])
            <==> forall i :: !Lookup.OpqBelow(s, n, b, i)
  {
    var made := dir.(opq := HasWh(s[b], n) || alwaysOpq);
    var t := EntryOps.With(s, b, n, Some(made), None);
    var l := Layer(true, true, map[]);
    EntryOps.MkdirShowsOne(s, n, b, dir, alwaysOpq);
    MadeFound(s, n, b, made);
    hide EntryOps.With, Find, Lookup.Contributes, Lookup.OpqBelow, Opened, Runs.FlatOf;
    OnlyOwn(t, n, b, l);
    assert Own(l) == imap[] by {
      forall m ensures m !in Own(l) {
        OwnOf(l, m);
      }
    }
    forall all: Stack | Contains(t, n, all) ensures all[b].ents == map[] <==> all[b] == l {
      assert all[b].present && all[b].whable;
    }
  }

  // ----- a renamed directory

  /** may_rename_srcdir on the layers `m` of a directory from its topmost one on, which is the target branch
      if `onTarget`: of a directory that will be copied up nothing may show, of any other nothing but what is
      on its topmost layer. */
  function MayRename(m: Stack, orders: seq<seq<Name>>, onTarget: bool): bool
    requires |m| == |orders|
  {
    if onTarget then |m| == 1 || Readdir.TestLayers(m, orders, 1, |m|).Some?
    else Readdir.TestLayers(m, orders, 0, |m|).Some?
  }

  /** may_rename_srcdir; true is EXDEV. */
  method MayRenameSrcdir(m: Stack, lower: seq<seq<seq<Readdir.Raw>>>, onTarget: bool, rdhash: nat) returns (err: bool)
    requires rdhash > 0 && m != [] && m[0].present
    requires |m| == |lower| && forall i :: 0 <= i < |m| ==> Readdir.Named(lower[i])
    ensures err <==> !MayRename(m, Readdir.Orders(lower), onTarget)
  {
    if !onTarget {
      var whlist := new NameHash.Table(rdhash);
      err := Readdir.AuTestEmpty(whlist, m, lower);
      return;
    }
    if |m| == 1 {
      return false;
    }
    err := Readdir.AuTestEmptyLower(m, lower, rdhash);
  }

  ghost predicate Reads(m: Stack, orders: seq<seq<Name>>) {
    m != [] && m[0].present && WellFormed(Readdir.AllWhable(m)) && Readdir.AllYield(m, orders)
  }

  /** The directory shows what it will show when it has been renamed. */
  ghost predicate Keeps(m: Stack, onTarget: bool)
    requires m != []
  {
    forall n :: Readdir.IsPlain(n) ==> View(m, n) == if onTarget then View(m[..1], n) else None
  }

  /** Every plain name below the first layer is hidden: then only the first layer shows. */
  lemma TopShows(m: Stack, n: Name)
    requires m != [] && WellFormed(Readdir.AllWhable(m)) && Readdir.IsPlain(n)
    requires Readdir.AllHidden(Readdir.AllWhable(m), 1, |m|) && forall i :: 0 <= i < |m| - 1 ==> m[i].whable
    ensures View(m, n) == View(m[..1], n)
  {
    var t := Readdir.AllWhable(m);
    Readdir.FindButLast(m, n, 0);
    FindMeaning(t, n, 0);
    assert m[..1] == [m[0]] && WellFormedLayer(t[0]);
    OwnOf(m[0], n);
    assert Find(t, n, 0) < 1;
    assert n in m[0].ents ==> !HasWh(t[0], n) && Clear(t, n, 0, 1);
  }

  lemma MayRenameKeeps(m: Stack, orders: seq<seq<Name>>, onTarget: bool)
    requires Reads(m, orders) && MayRename(m, orders, onTarget) && forall i :: 0 <= i < |m| - 1 ==> m[i].whable
    ensures Keeps(m, onTarget)
  {
    if onTarget {
      Readdir.TestLayersMeaning(m, orders, 1, |m|);
      forall n | Readdir.IsPlain(n) ensures View(m, n) == View(m[..1], n) {
        TopShows(m, n);
      }
    } else {
      Readdir.TestEmptyMeaning(m, orders);
      forall n | Readdir.IsPlain(n) ensures View(m, n) == None {
        Readdir.FindButLast(m, n, 0);
      }
    }
  }

  lemma UncountedRenames(perms: seq<bool>, i: nat, onTarget: bool)
    requires i + 1 < |perms| && !perms[i]
    ensures var m, orders := Readdir.Uncounted(perms, i), Readdir.UncountedOrders(|perms|, i);
            Reads(m, orders) && MayRename(m, orders, onTarget) && !Keeps(m, onTarget)
  {
    var m, orders := Readdir.Uncounted(perms, i), Readdir.UncountedOrders(|perms|, i);
    Readdir.UncountedLayers(perms, i);
    Readdir.UncountedFinds(perms, i);
    Readdir.TestEmptyMeaning(m, orders);
    Readdir.TestLayersMeaning(m, orders, 1, |m|);
    Readdir.TestLayersMeaning(m, orders, 0, |m|);
    assert m[..1] == [m[0]] && "x" !in m[0].ents;
    OwnOf(m[0], "x");
    hide Readdir.TestLayers, Readdir.Uncounted, Readdir.UncountedOrders;
    assert View(m, "x").Some?;
  }

  /** A rename that is let through loses nothing of the directory, whatever it contains, if and only if every
      branch it is merged from, but the last one, is whiteout-able. */
  lemma MayRenameIffWhable(perms: seq<bool>, onTarget: bool)
    ensures (forall m: Stack, orders ::
               Readdir.HasPerms(m, perms) && Reads(m, orders) && MayRename(m, orders, onTarget) ==> Keeps(m, onTarget))
            <==> forall i :: 0 <= i < |perms| - 1 ==> perms[i]
  {
    if i :| 0 <= i < |perms| - 1 && !perms[i] {
      UncountedRenames(perms, i, onTarget);
      assert Readdir.HasPerms(Readdir.Uncounted(perms, i), perms);
    } else {
      forall m: Stack, orders | Readdir.HasPerms(m, perms) && Reads(m, orders) && MayRename(m, orders, onTarget)
        ensures Keeps(m, onTarget)
      {
        MayRenameKeeps(m, orders, onTarget);
      }
    }
  }

  lemma {:induction false} FindShift(s: Stack, n: Name, b: nat, lo: nat)
    requires b + lo <= |s|
    ensures Find(s[b..], n, lo) == if Find(s, n, b + lo) < 0 then -1 else Find(s, n, b + lo) - b
    decreases |s| - lo
  {
    if b + lo == |s| {
    } else {
      FindShift(s, n, b, lo + 1);
    }
  }

  /** The layers a directory is merged from, from `b` on. */
  function From(p: MoveDown.Parent, b: nat): Stack {
    if b < MoveDown.Depth(p) then MoveDown.Merged(p)[b..] else []
  }

  /** The directory is on the target branch `b`, it may be renamed, and whiteouts above the last branch count. */
  ghost predicate LetThrough(p: MoveDown.Parent, b: nat, orders: seq<seq<Name>>) {
    var m := From(p, b);
    Reads(m, orders) && MayRename(m, orders, true) && forall i :: 0 <= i < |m| - 1 ==> m[i].whable
  }

  lemma TopViews(r: Stack, b: nat, x: Name)
    requires b < |r| && WellFormed(r) && (forall j :: 0 <= j < b ==> r[j].ents == map[])
    requires Keeps(r[b..], true) && !Refused(x)
    ensures View(r, x) == View([r[b]], x)
  {
    FindSkip(r, x, 0, b);
    FindShift(r, x, b, 0);
    assert r[b..][..1] == [r[b]];
    if !Readdir.IsPlain(x) {
      NotPlain(r, x);
      NotPlain([r[b]], x);
    } else {
      assert View(r[b..], x) == View([r[b]], x);
    }
  }

  /** Before the rename: the directory shows what is on the target branch. */
  lemma SourceShows(s: Stack, n: Name, b: nat, all: Stack, orders: seq<seq<Name>>)
    requires b < |s| && Find(s, n, 0) == b && Contains(s, n, all) && LetThrough(Opened(s, n, all), b, orders)
    ensures Runs.FlatOf(Opened(s, n, all)) == Own(all[b])
  {
    var p := Opened(s, n, all);
    var r := MoveDown.Merged(p);
    EmptyAbove(s, n, all, b);
    assert b < |r| && r[..] == all[..|r|] && WellFormed(all) && From(p, b) == r[b..];
    MayRenameKeeps(r[b..], orders, true);
    hide Opened, Contains, MoveDown.Depth, MoveDown.Merged, MayRename, Reads, Find, From, WellFormedLayer, Keeps, View;
    forall x | !Refused(x) ensures MoveDown.Shown(p, x) == View([all[b]], x) {
      TopViews(r, b, x);
      Runs.ShownIs(p, x);
    }
  }

  lemma NotPlain(s: Stack, n: Name)
    requires WellFormed(s) && !Refused(n) && !Readdir.IsPlain(n)
    ensures View(s, n) == None
  {
    assert forall i :: 0 <= i < |s| ==> WellFormedLayer(s[i]);
  }

  /** A directory that may be renamed shows under its new name what it showed before, whatever the other
      branches hold under that name, if and only if no layer below holds an unhidden opaque directory there. */
  lemma RenamedKeeps(a: Rename.RenArgs, e: Rename.Branch, bdiropq: int, deleted: bool, s: Stack, d: Stack, t: Stack,
                     b: nat, all: Stack, orders: seq<seq<Name>>)
    requires a.Ready(e) && a.Movable(e) && a.isdir && a.btgt == b && a.Looked(s, d) && !a.KeepsWh(e)
    requires a.Layered(e, a.Cleaned(e, bdiropq, deleted), a.dstDir, d, t, b) && WellFormed(d)
    requires b < |s| && WellFormed(s) && Find(s, a.src, 0) == b && a.Shows(e, a.srcDir, s[b])
    requires bdiropq == Lookup.FreshLookup(s, a.src, |s|).value.1.bdiropq
    requires Clear(d, a.dst, 0, b) && Lacks(d, a.dst, 0, b)
    requires Contains(s, a.src, all) && LetThrough(Opened(s, a.src, all), b, orders)
    ensures (forall c: Stack :: Contains(t, a.dst, c) && c[b] == all[b] ==>
               Runs.FlatOf(Opened(t, a.dst, c)) == Runs.FlatOf(Opened(s, a.src, all)))
            <==> forall i :: !Lookup.OpqBelow(d, a.dst, b, i)
  {
    hide *;
    ReadyNames(a, e);
    ArrivedDir(a, e, bdiropq, deleted, d, t, b);
    SourceDir(a, e, s, b, all);
    SourceShows(s, a.src, b, all, orders);
    a.RenamedDirRange(e, bdiropq, deleted, s, d, t, b);
    OnlyOwn(t, a.dst, b, all[b]);
  }

  lemma ReadyNames(a: Rename.RenArgs, e: Rename.Branch)
    requires a.Ready(e)
    ensures !Refused(a.src) && !Refused(a.dst)
  {}

  lemma SourceDir(a: Rename.RenArgs, e: Rename.Branch, s: Stack, b: nat, all: Stack)
    requires a.Ready(e) && a.isdir && b < |s| && a.Shows(e, a.srcDir, s[b]) && Contains(s, a.src, all)
    ensures |all| == |s| && WellFormedLayer(all[b]) && all[b].present && all[b].whable
  {}

  lemma ArrivedDir(a: Rename.RenArgs, e: Rename.Branch, bdiropq: int, deleted: bool, d: Stack, t: Stack, b: nat)
    requires a.Ready(e) && a.Movable(e) && a.isdir && !a.KeepsWh(e) && WellFormed(d)
    requires a.Layered(e, a.Cleaned(e, bdiropq, deleted), a.dstDir, d, t, b)
    requires Clear(d, a.dst, 0, b) && Lacks(d, a.dst, 0, b)
    ensures b < |t| && Find(t, a.dst, 0) == b && Lookup.IsDir(t[b], a.dst) && t[b].whable && Lookup.Sound(t, a.dst)
  {
    hide Rename.RenArgs.Cleaned, Rename.RenArgs.Movable, Rename.RenArgs.WantsOpq, Find, Lookup.BadWh;
    a.DestinationShown(e, bdiropq, deleted, d, t, b);
    a.RenamedMeaning(e, bdiropq, deleted);
    hide Rename.RenArgs.HasThargs, Clear, Lacks, WellFormed;
    Lookup.WellFormedIsSound(d, a.dst);
    assert forall j :: 0 <= j < |d| && j != b ==> t[j] == d[j];
  }
}
