/** Removing a file and making a directory, lower step by lower step (i_op_del.c, i_op_add.c): what the
    union shows in every state on the way, whatever fails. */
module EntryOps {
  import opened Basics
  import opened Layers
  import Lookup

  function Put(s: Stack, b: nat, n: Name, node: Node): Stack
    requires b < |s|
  {
    s[b := s[b].(ents := s[b].ents[n := node])]
  }

  function Del(s: Stack, b: nat, n: Name): Stack
    requires b < |s|
  {
    s[b := s[b].(ents := s[b].ents - {n})]
  }

  /** `t` shows nothing of a lower layer that `s` did not show. */
  ghost predicate Safe(s: Stack, t: Stack, made: Name, b: int) {
    |t| == |s| && forall m, i :: !Refused(m) && Lookup.Contributes(t, m, i) && !(m == made && i == b) ==>
      Lookup.Contributes(s, m, i) && t[i].ents[m] == s[i].ents[m]
  }

  /** What `s` and `t` say about `m` is the same. */
  ghost predicate SameName(s: Stack, t: Stack, m: Name) {
    |t| == |s| && forall j :: 0 <= j < |s| ==>
      && t[j].whable == s[j].whable
      && HasWh(t[j], m) == HasWh(s[j], m)
      && (m in t[j].ents <==> m in s[j].ents)
      && (m in s[j].ents ==> t[j].ents[m] == s[j].ents[m])
  }

  lemma SameShown(s: Stack, t: Stack, m: Name, i: int)
    requires SameName(s, t, m)
    ensures Lookup.Contributes(t, m, i) <==> Lookup.Contributes(s, m, i)
    ensures Lookup.Contributes(s, m, i) ==> t[i].ents[m] == s[i].ents[m]
    ensures View(t, m) == View(s, m)
  {
    SameCopies(s, t, m);
  }

  lemma SameCopies(s: Stack, t: Stack, m: Name)
    requires SameName(s, t, m)
    ensures Find(t, m, 0) == Find(s, m, 0)
    ensures forall i :: Lookup.IsCopy(t, m, i) <==> Lookup.IsCopy(s, m, i)
    ensures forall i :: Lookup.IsOpqCopy(t, m, i) <==> Lookup.IsOpqCopy(s, m, i)
  {
    FindFrame(s, t, m, 0);
    assert forall k :: 0 <= k <= |s| ==> (Clear(t, m, 0, k) <==> Clear(s, m, 0, k));
  }

  /** `t` differs from `s` in what it says about `n` only. */
  ghost predicate OnlyName(s: Stack, t: Stack, n: Name) {
    && |t| == |s|
    && (forall j :: 0 <= j < |s| ==> t[j].present == s[j].present)
    && forall m :: !Refused(m) && m != n ==> SameName(s, t, m) && SameWh(s, t, m)
  }

  /** The whiteouts of `m` are as good as they were. */
  ghost predicate SameWh(s: Stack, t: Stack, m: Name) {
    |t| == |s| && forall j :: 0 <= j < |s| && Lookup.BadWh(t[j], m) ==> Lookup.BadWh(s[j], m)
  }

  /** In `t` every lookup merges the layers that contribute: `Safe` speaks of what lookup gives. */
  ghost predicate Seen(t: Stack) {
    forall m, i :: !Refused(m) ==> (Lookup.Merges(t, m, i) <==> Lookup.Contributes(t, m, i))
  }

  /** A whiteout of `n` at layer `b` that nothing is above. */
  ghost predicate Covered(t: Stack, n: Name, b: nat) {
    b < |t| && HasWh(t[b], n) && t[b].present && Lacks(t, n, 0, b)
  }

  lemma OnlyNameSeen(s: Stack, t: Stack, n: Name, b: nat)
    requires OnlyName(s, t, n) && WellFormed(s) && (Lookup.Sound(t, n) || Covered(t, n, b))
    ensures Seen(t)
  {
    forall m, i | !Refused(m) ensures Lookup.Merges(t, m, i) <==> Lookup.Contributes(t, m, i) {
      if m == n && Covered(t, n, b) {
        Lookup.CoveredMergesNothing(t, n, b, i);
      } else {
        if m != n {
          Lookup.WellFormedIsSound(s, m);
          assert SameName(s, t, m) && SameWh(s, t, m);
        }
        Lookup.ContributesIsMerged(t, m, i);
      }
    }
  }

  /** `t` differs from `s` in what it says about `n` only, and is seen as it is. */
  ghost predicate Kept(s: Stack, t: Stack, n: Name) {
    OnlyName(s, t, n) && (WellFormed(s) ==> Seen(t))
  }

  lemma PutDelOnly(s: Stack, t: Stack, b: nat, n: Name, k: Name, node: Node)
    requires b < |t| && OnlyName(s, t, n) && !Refused(n) && (k == n || k == Wh(n))
    ensures OnlyName(s, Put(t, b, k, node), n) && OnlyName(s, Del(t, b, k), n)
  {
    forall m | !Refused(m) && m != n
      ensures SameName(s, Put(t, b, k, node), m) && SameName(s, Del(t, b, k), m)
      ensures SameWh(s, Put(t, b, k, node), m) && SameWh(s, Del(t, b, k), m)
    {
      WhInjective(m, n);
      WhInjective(n, n);
      assert Wh(m) != k && m != k;
      assert SameName(s, t, m) && SameWh(s, t, m);
    }
  }

  /** A state in which only copies of `n` at layer `b`, if any, contribute to `n` is safe. */
  lemma SafeState(s: Stack, t: Stack, n: Name, b: int)
    requires OnlyName(s, t, n)
    requires forall i :: Lookup.Contributes(t, n, i) ==>
             i == b || (Lookup.Contributes(s, n, i) && t[i].ents[n] == s[i].ents[n])
    ensures Safe(s, t, n, b)
  {
    forall m, i | !Refused(m) && Lookup.Contributes(t, m, i) && !(m == n && i == b)
      ensures Lookup.Contributes(s, m, i) && t[i].ents[m] == s[i].ents[m]
    {
      if m != n {
        SameShown(s, t, m, i);
      }
    }
  }

  /** What shows is what lookup would find: the topmost contributing copy. */
  lemma ShownIsFound(s: Stack, n: Name)
    ensures Find(s, n, 0) >= 0 ==> Lookup.Contributes(s, n, Find(s, n, 0))
    ensures forall i :: Lookup.Contributes(s, n, i) ==> 0 <= Find(s, n, 0) <= i
  {
    FindMeaning(s, n, 0);
    forall i | Lookup.Contributes(s, n, i) ensures 0 <= Find(s, n, 0) <= i {
      assert n in s[i].ents && Clear(s, n, 0, i + 1);
      assert Lacks(s, n, 0, Find(s, n, 0));
    }
  }

  datatype Step = CreateWh | UnlinkFile | RevWh
                | MakeDir | CreateOpq | UnlinkWh | NewInode | RecreateWh | RevOpq | RevDir

  /** The layers of the parent directory, and every state they have been in. */
  class Parent {
    var s: Stack
    ghost var trace: seq<Stack>

    constructor (s: Stack)
      ensures this.s == s && trace == []
    {
      this.s := s;
      trace := [];
    }

    method Change(t: Stack)
      modifies this
      ensures s == t && trace == old(trace) + [t]
    {
      s := t;
      trace := trace + [t];
    }

    ghost predicate AllSafe(s0: Stack, made: Name, b: int)
      reads this
    {
      forall t :: t in trace ==> Safe(s0, t, made, b)
    }

    ghost predicate AllOnly(s0: Stack, n: Name)
      reads this
    {
      forall t :: t in trace ==> Kept(s0, t, n)
    }

    /** The layers are what the last change made them, starting from `s0`. */
    ghost predicate Traced(s0: Stack)
      reads this
    {
      s == if trace == [] then s0 else trace[|trace| - 1]
    }

    /** aufs_unlink: `bstart` holds the file, `bindex` is the branch to write, `needWh` the answer of
        au_wr_dir_need_wh. */
    method Unlink(n: Name, bstart: nat, bindex: nat, needWh: bool, fail: set<Step>) returns (err: Option<Step>)
      requires trace == [] && !Refused(n)
      requires bindex <= bstart < |s| && Find(s, n, 0) == bstart && s[bstart].ents[n].kind != Dir
      requires s[bindex].present && s[bindex].whable && (bindex < bstart ==> needWh)
      modifies this
      ensures AllOnly(old(s), n) && Traced(old(s))
      ensures needWh || Find(old(s), n, bstart + 1) < 0 ==> AllSafe(old(s), n, -1)
      ensures err == None ==> (Find(s, n, 0) < 0 <==> needWh || Find(old(s), n, bstart + 1) < 0)
      ensures err == None ==> s == Unlinked(old(s), n, bstart, bindex, needWh)
      ensures err.Some? <==> (needWh && CreateWh in fail) || (bindex == bstart && UnlinkFile in fail)
      ensures err.Some? ==> err.value in fail && (RevWh !in fail ==> s == old(s))
      ensures err.Some? ==> s == old(s) || s == Put(old(s), bindex, Wh(n), WHITEOUT)
    {
      ghost var s0 := s;
      UnlinkStates(s0, n, bstart, bindex);
      UnlinkKept(s0, n, bstart, bindex);
      hide Safe, Kept, Find;
      if needWh {
        if CreateWh in fail {
          return Some(CreateWh);
        }
        Change(Put(s, bindex, Wh(n), WHITEOUT));
      }
      if bindex == bstart {
        if UnlinkFile in fail {
          if needWh && RevWh !in fail {
            Change(Del(s, bindex, Wh(n)));
          }
          return Some(UnlinkFile);
        }
        Change(Del(s, bstart, n));
      }
      return None;
    }

    /** aufs_mkdir on branch `b`; `wh` says that di_bwh is this branch, so that the whiteout is there. The
        new directory is `dir`. */
    method Mkdir(n: Name, b: nat, dir: Node, wh: bool, alwaysOpq: bool, fail: set<Step>) returns (err: Option<Step>)
      requires trace == [] && !Refused(n) && b < |s| && dir.kind == Dir && !dir.opq && s[b].present && s[b].whable
      requires Find(s, n, 0) < 0 && Clear(s, n, 0, b) && Lacks(s, n, 0, b + 1) && (wh <==> HasWh(s[b], n))
      modifies this
      ensures AllOnly(old(s), n) && Traced(old(s))
      ensures AllSafe(old(s), n, b) <==>
              !(wh && Uncovers(fail) && ((exists i :: Lookup.OpqBelow(old(s), n, b, i))
                                         || (Exposes(fail) && LowerShows(old(s), n, b, RevDir !in fail))))
      ensures err == None ==> s == With(old(s), b, n, Some(dir.(opq := wh || alwaysOpq)), None)
      ensures err.Some? <==> MakeDir in fail || ((wh || alwaysOpq) && CreateOpq in fail)
                             || (wh && UnlinkWh in fail) || NewInode in fail
      ensures err.Some? ==> err.value in fail
      ensures err.Some? && fail !! {RecreateWh, RevOpq, RevDir} ==>
                s == if wh && err == Some(NewInode) then Put(old(s), b, Wh(n), WHITEOUT) else old(s)
    {
      ghost var s0 := s;
      ghost var w := if wh then Some(s[b].ents[Wh(n)]) else None;
      WithSelf(s, b, n);
      MkdirStart(s, n, b, dir, w);
      assert AllSafe(s0, n, b) && AllOnly(s0, n) && Traced(s0);
      hide Safe, Kept, Find, With, LowerShows, HasWh, Clear, Lacks, Put, Parent.AllSafe, Parent.AllOnly, Parent.Traced;
      err := MakeDirectory(b, n, dir, wh || alwaysOpq, fail, s0, w);
      if err == None {
        err := Finish(b, n, dir, wh || alwaysOpq, wh, fail, s0, w);
      }
    }

    /** After the directory is made: epilog, and the labels of the rollback when it fails. */
    method Finish(b: nat, n: Name, dir: Node, diropq: bool, wh: bool, fail: set<Step>, ghost s0: Stack,
                  ghost w: Option<Node>)
        returns (err: Option<Step>)
      requires b < |s0| && !Refused(n) && s0[b].present && s0[b].whable && Find(s0, n, 0) < 0 && dir.kind == Dir
               && !dir.opq
      requires Clear(s0, n, 0, b) && Lacks(s0, n, 0, b + 1) && (wh <==> HasWh(s0[b], n))
      requires w == (if wh then Some(s0[b].ents[Wh(n)]) else None) && (wh ==> diropq)
      requires s == With(s0, b, n, Some(dir.(opq := diropq)), w)
      modifies this
      ensures old(Traced(s0)) ==> Traced(s0)
      ensures AllOnly(s0, n) <==> old(AllOnly(s0, n))
      ensures AllSafe(s0, n, b) <==>
              old(AllSafe(s0, n, b)) && !(wh && UnlinkWh !in fail && ((exists i :: Lookup.OpqBelow(s0, n, b, i))
                                         || (Exposes(fail) && LowerShows(s0, n, b, RevDir !in fail))))
      ensures err == if wh && UnlinkWh in fail then Some(UnlinkWh)
                     else if NewInode in fail then Some(NewInode) else None
      ensures err == None ==> s == With(s0, b, n, Some(dir.(opq := diropq)), None)
      ensures err.Some? && fail !! {RecreateWh, RevOpq, RevDir} ==>
                s == if wh && err == Some(NewInode) then Put(s0, b, Wh(n), WHITEOUT) else s0
    {
      hide Safe, Kept, Find, With, LowerShows, HasWh, Clear, Lacks, Put, Parent.AllSafe, Parent.AllOnly, Parent.Traced;
      hide Lookup.OpqBelow, Lookup.DirBelow;
      NotThere(s0, n, b);
      WithSelf(s0, b, n);
      MkdirStates(s0, n, b, dir, w);
      MkdirStates(s0, n, b, dir, Some(WHITEOUT));
      WithSteps(s0, b, n, None, w, WHITEOUT);
      ghost var w2;
      err, w2 := Epilog(b, n, wh, fail, s0, Some(dir.(opq := diropq)), w);
      if err.Some? {
        Rollback(b, n, dir, diropq, fail, s0, w2);
      }
    }

    /** The directory and its opaque mark; when the mark fails the directory is removed. */
    method MakeDirectory(b: nat, n: Name, dir: Node, diropq: bool, fail: set<Step>, ghost s0: Stack,
                         ghost w: Option<Node>)
        returns (err: Option<Step>)
      requires b < |s0| && s == s0 == With(s0, b, n, None, w) && !dir.opq
      requires Safe(s0, s0, n, b) && Safe(s0, With(s0, b, n, Some(dir), w), n, b)
               && Safe(s0, With(s0, b, n, Some(dir.(opq := true)), w), n, b)
      requires Kept(s0, s0, n) && Kept(s0, With(s0, b, n, Some(dir), w), n)
               && Kept(s0, With(s0, b, n, Some(dir.(opq := true)), w), n)
      modifies this
      ensures AllSafe(s0, n, b) <==> old(AllSafe(s0, n, b))
      ensures AllOnly(s0, n) <==> old(AllOnly(s0, n))
      ensures old(Traced(s0)) ==> Traced(s0)
      ensures err == if MakeDir in fail then Some(MakeDir)
                     else if diropq && CreateOpq in fail then Some(CreateOpq) else None
      ensures err == None ==> s == With(s0, b, n, Some(dir.(opq := diropq)), w)
      ensures err.Some? && RevDir !in fail ==> s == s0
    {
      hide Safe, Kept, With, Parent.AllSafe, Parent.AllOnly, Parent.Traced;
      if MakeDir in fail {
        return Some(MakeDir);
      }
      var live, opq := Some(dir), Some(dir.(opq := true));
      SetEntry(b, n, live, s0, None, w);
      if diropq {
        if CreateOpq in fail {
          if RevDir !in fail {
            SetEntry(b, n, None, s0, live, w);
          }
          return Some(CreateOpq);
        }
        SetEntry(b, n, opq, s0, live, w);
      }
      return None;
    }

    /** The labels out_opq and out_dir. */
    method Rollback(b: nat, n: Name, dir: Node, diropq: bool, fail: set<Step>, ghost s0: Stack, ghost w: Option<Node>)
      requires b < |s0| && s == With(s0, b, n, Some(dir.(opq := diropq)), w)
      modifies this
      ensures old(Traced(s0)) ==> Traced(s0)
      ensures !(diropq && RevOpq in fail) && RevDir !in fail ==> s == With(s0, b, n, None, w)
      ensures AllSafe(s0, n, b) <==>
              && old(AllSafe(s0, n, b))
              && (diropq && RevOpq !in fail ==> Safe(s0, With(s0, b, n, Some(dir.(opq := false)), w), n, b))
              && (!(diropq && RevOpq in fail) && RevDir !in fail ==> Safe(s0, With(s0, b, n, None, w), n, b))
      ensures AllOnly(s0, n) <==>
              && old(AllOnly(s0, n))
              && (diropq && RevOpq !in fail ==> Kept(s0, With(s0, b, n, Some(dir.(opq := false)), w), n))
              && (!(diropq && RevOpq in fail) && RevDir !in fail ==> Kept(s0, With(s0, b, n, None, w), n))
    {
      hide Safe, Kept, With, Parent.AllSafe, Parent.AllOnly, Parent.Traced;
      var live, opq := Some(dir.(opq := false)), Some(dir.(opq := diropq));
      if diropq && RevOpq !in fail {
        SetEntry(b, n, live, s0, opq, w);
      }
      if RevDir !in fail && !(diropq && RevOpq in fail) {
        SetEntry(b, n, None, s0, live, w);
      }
    }

    /** epilog of adding an entry: remove the whiteout and make the inode; when that fails make the
        whiteout again. `w2` is the whiteout it leaves. */
    method Epilog(b: nat, n: Name, wh: bool, fail: set<Step>, ghost s0: Stack, ghost d: Option<Node>,
                  ghost w: Option<Node>)
        returns (err: Option<Step>, ghost w2: Option<Node>)
      requires b < |s0| && s == With(s0, b, n, d, w) && (wh <==> w.Some?)
      modifies this
      ensures s == With(s0, b, n, d, w2) && (old(Traced(s0)) ==> Traced(s0))
      ensures err == if wh && UnlinkWh in fail then Some(UnlinkWh)
                     else if NewInode in fail then Some(NewInode) else None
      ensures w2 == if err == Some(UnlinkWh) then w
                    else if wh && err.Some? && RecreateWh !in fail then Some(WHITEOUT) else None
      ensures AllSafe(s0, n, b) <==>
              && old(AllSafe(s0, n, b))
              && (wh && err != Some(UnlinkWh) ==> Safe(s0, With(s0, b, n, d, None), n, b))
              && (wh && err == Some(NewInode) && RecreateWh !in fail ==> Safe(s0, With(s0, b, n, d, w2), n, b))
      ensures AllOnly(s0, n) <==>
              && old(AllOnly(s0, n))
              && (wh && err != Some(UnlinkWh) ==> Kept(s0, With(s0, b, n, d, None), n))
              && (wh && err == Some(NewInode) && RecreateWh !in fail ==> Kept(s0, With(s0, b, n, d, w2), n))
    {
      hide Safe, Kept, With, Parent.AllSafe, Parent.AllOnly, Parent.Traced;
      w2 := w;
      if wh {
        if UnlinkWh in fail {
          return Some(UnlinkWh), w2;
        }
        SetWhiteout(b, n, None, s0, d, w);
      }
      w2 := None;
      if NewInode !in fail {
        return None, w2;
      }
      if wh && RecreateWh !in fail {
        w2 := Some(WHITEOUT);
        SetWhiteout(b, n, Some(WHITEOUT), s0, d, None);
      }
      return Some(NewInode), w2;
    }

    method SetEntry(b: nat, n: Name, d: Option<Node>, ghost s0: Stack, ghost d0: Option<Node>, ghost w: Option<Node>)
      requires b < |s0| && s == With(s0, b, n, d0, w)
      modifies this
      ensures s == With(s0, b, n, d, w) && Traced(s0)
      ensures AllSafe(s0, n, b) <==> old(AllSafe(s0, n, b)) && Safe(s0, s, n, b)
      ensures AllOnly(s0, n) <==> old(AllOnly(s0, n)) && Kept(s0, s, n)
    {
      hide Safe, Kept, With, Put, Del;
      WithSteps(s0, b, n, d0, w, if d.Some? then d.value else WHITEOUT);
      Change(if d.Some? then Put(s, b, n, d.value) else Del(s, b, n));
    }

    method SetWhiteout(b: nat, n: Name, w: Option<Node>, ghost s0: Stack, ghost d: Option<Node>, ghost w0: Option<Node>)
      requires b < |s0| && s == With(s0, b, n, d, w0)
      modifies this
      ensures s == With(s0, b, n, d, w) && Traced(s0)
      ensures AllSafe(s0, n, b) <==> old(AllSafe(s0, n, b)) && Safe(s0, s, n, b)
      ensures AllOnly(s0, n) <==> old(AllOnly(s0, n)) && Kept(s0, s, n)
    {
      hide Safe, Kept, With, Put, Del;
      WithSteps(s0, b, n, d, w0, if w.Some? then w.value else WHITEOUT);
      Change(if w.Some? then Put(s, b, Wh(n), w.value) else Del(s, b, Wh(n)));
    }
  }

  /** mkdir gets so far as to take the whiteout away. */
  predicate Uncovers(fail: set<Step>) {
    {MakeDir, CreateOpq, UnlinkWh} !! fail
  }

  /** Then the failures that take the opaque mark away too. */
  predicate Exposes(fail: set<Step>) {
    RevOpq !in fail && {NewInode, RecreateWh} <= fail
  }

  /** Without whiteout and opaque mark something of a lower layer shows: a directory beside the new one,
      or whatever is topmost once the new one is removed. */
  ghost predicate LowerShows(s: Stack, n: Name, b: nat, removed: bool)
    requires b < |s|
  {
    (exists i :: Lookup.DirBelow(s, n, b, i)) || (removed && Find(s, n, b + 1) >= 0)
  }

  /** `s` with `d` and `w` as entry and whiteout of `n` in layer `b`. */
  function With(s: Stack, b: nat, n: Name, d: Option<Node>, w: Option<Node>): (t: Stack)
    requires b < |s|
    ensures |t| == |s|
  {
    var base := s[b].ents - {n, Wh(n)};
    var whited := if w.Some? then base[Wh(n) := w.value] else base;
    s[b := s[b].(ents := if d.Some? then whited[n := d.value] else whited)]
  }

  function Unlinked(s: Stack, n: Name, bstart: nat, bindex: nat, needWh: bool): Stack
    requires bstart < |s| && bindex < |s|
  {
    var w := if needWh then Put(s, bindex, Wh(n), WHITEOUT) else s;
    if bindex == bstart then Del(w, bstart, n) else w
  }

  /** The states unlink passes through. */
  lemma UnlinkStates(s: Stack, n: Name, bstart: nat, bindex: nat)
    requires !Refused(n) && bindex <= bstart < |s| && Find(s, n, 0) == bstart && s[bindex].whable
    ensures var w := Put(s, bindex, Wh(n), WHITEOUT);
            && OnlyName(s, w, n) && Safe(s, w, n, -1) && Find(w, n, 0) < 0
            && Del(w, bindex, Wh(n)) == s && OnlyName(s, s, n) && Safe(s, s, n, -1)
            && OnlyName(s, Del(w, bstart, n), n) && Safe(s, Del(w, bstart, n), n, -1)
            && Find(Del(w, bstart, n), n, 0) < 0
            && OnlyName(s, Del(s, bstart, n), n)
            && (Find(Del(s, bstart, n), n, 0) < 0 <==> Find(s, n, bstart + 1) < 0)
            && (Find(s, n, bstart + 1) < 0 ==> Safe(s, Del(s, bstart, n), n, -1))
  {
    FindMeaning(s, n, 0);
    WhInjective(n, n);
    var w := Put(s, bindex, Wh(n), WHITEOUT);
    assert Wh(n) !in s[bindex].ents by { assert !HasWh(s[bindex], n); }
    assert s[bindex].ents[Wh(n) := WHITEOUT] - {Wh(n)} == s[bindex].ents;
    assert Del(w, bindex, Wh(n)) == s;
    PutDelOnly(s, s, bindex, n, Wh(n), WHITEOUT);
    PutDelOnly(s, w, bstart, n, n, WHITEOUT);
    HiddenShowsNothing(s, w, n, bindex);
    HiddenShowsNothing(s, Del(w, bstart, n), n, bindex);
    hide Lookup.Contributes, Find;
    UnlinkPlain(s, n, bstart);
  }

  /** Lookup sees each of them as it is. */
  lemma UnlinkKept(s: Stack, n: Name, bstart: nat, bindex: nat)
    requires !Refused(n) && bindex <= bstart < |s| && Find(s, n, 0) == bstart && s[bindex].whable && s[bindex].present
    ensures var w := Put(s, bindex, Wh(n), WHITEOUT);
            && Kept(s, w, n) && Kept(s, s, n) && Kept(s, Del(w, bstart, n), n) && Kept(s, Del(s, bstart, n), n)
  {
    UnlinkStates(s, n, bstart, bindex);
    FindMeaning(s, n, 0);
    WhInjective(n, n);
    var w := Put(s, bindex, Wh(n), WHITEOUT);
    if WellFormed(s) {
      Lookup.WellFormedIsSound(s, n);
      assert Covered(w, n, bindex) && Covered(Del(w, bstart, n), n, bindex);
      assert Lookup.Sound(Del(s, bstart, n), n);
      hide OnlyName, Lookup.Sound, Covered, Seen, Safe, Find;
      OnlyNameSeen(s, w, n, bindex);
      OnlyNameSeen(s, s, n, bindex);
      OnlyNameSeen(s, Del(w, bstart, n), n, bindex);
      OnlyNameSeen(s, Del(s, bstart, n), n, bindex);
    }
  }

  /** Without a whiteout, whatever is next below shows. */
  lemma UnlinkPlain(s: Stack, n: Name, bstart: nat)
    requires !Refused(n) && bstart < |s| && Find(s, n, 0) == bstart
    ensures var u := Del(s, bstart, n);
            && OnlyName(s, u, n) && OnlyName(s, s, n) && Safe(s, s, n, -1)
            && (Find(u, n, 0) < 0 <==> Find(s, n, bstart + 1) < 0)
            && (Find(s, n, bstart + 1) < 0 ==> Safe(s, u, n, -1))
  {
    FindMeaning(s, n, 0);
    WhInjective(n, n);
    PutDelOnly(s, s, bstart, n, n, WHITEOUT);
    var u := Del(s, bstart, n);
    assert Lacks(u, n, 0, bstart + 1) && Clear(u, n, 0, bstart + 1);
    FindSkip(u, n, 0, bstart + 1);
    FindFrame(s, u, n, bstart + 1);
    if Find(s, n, bstart + 1) < 0 {
      ShownIsFound(u, n);
      SafeState(s, u, n, -1);
    }
  }

  /** A whiteout at `b` with nothing above it shows nothing. */
  lemma HiddenShowsNothing(s: Stack, t: Stack, n: Name, b: nat)
    requires OnlyName(s, t, n) && b < |t| && HasWh(t[b], n) && Lacks(t, n, 0, b)
    ensures Safe(s, t, n, -1) && Safe(s, t, n, b) && Find(t, n, 0) < 0
  {
    ShownIsFound(t, n);
    FindMeaning(t, n, 0);
    SafeState(s, t, n, -1);
    SafeState(s, t, n, b);
  }

  /** For a file as a fresh lookup leaves its dentry, au_wr_dir_need_wh answers right, so unlink does. */
  lemma NeedWhRightForFiles(s: Stack, n: Name, nbr: nat, inode: Lookup.KindOpt)
    requires |s| <= nbr && WellFormed(s) && !Refused(n) && Find(s, n, 0) >= 0 && s[Find(s, n, 0)].ents[n].kind != Dir
    ensures Lookup.FreshLookup(s, n, nbr).Some?
    ensures var e := Lookup.FreshLookup(s, n, nbr).value.1;
            && e.bstart == Find(s, n, 0) && e.bstart < |s| <= |e.hd|
            && var need := Lookup.NeedWh(e, s, n, inode);
            need.Some? && (need.value > 0 <==> Find(s, n, e.bstart + 1) >= 0)
  {
    Lookup.FreshLookupMeaning(s, n, nbr);
    Lookup.NeedWhExact(s, n, nbr, inode);
  }

  // ----- mkdir

  lemma WithSteps(s: Stack, b: nat, n: Name, d: Option<Node>, w: Option<Node>, node: Node)
    requires b < |s|
    ensures Put(With(s, b, n, d, w), b, n, node) == With(s, b, n, Some(node), w)
    ensures Put(With(s, b, n, d, w), b, Wh(n), node) == With(s, b, n, d, Some(node))
    ensures Del(With(s, b, n, d, w), b, n) == With(s, b, n, None, w)
    ensures Del(With(s, b, n, d, w), b, Wh(n)) == With(s, b, n, d, None)
  {
    hide With, Put, Del;
    WithPut(s, b, n, d, w, node);
    WithDel(s, b, n, d, w);
  }

  lemma WithPut(s: Stack, b: nat, n: Name, d: Option<Node>, w: Option<Node>, node: Node)
    requires b < |s|
    ensures Put(With(s, b, n, d, w), b, n, node) == With(s, b, n, Some(node), w)
    ensures Put(With(s, b, n, d, w), b, Wh(n), node) == With(s, b, n, d, Some(node))
  {
    WhInjective(n, n);
    var t := With(s, b, n, d, w);
    assert Put(t, b, n, node)[b].ents == With(s, b, n, Some(node), w)[b].ents;
    assert Put(t, b, Wh(n), node)[b].ents == With(s, b, n, d, Some(node))[b].ents;
  }

  lemma WithDel(s: Stack, b: nat, n: Name, d: Option<Node>, w: Option<Node>)
    requires b < |s|
    ensures Del(With(s, b, n, d, w), b, n) == With(s, b, n, None, w)
    ensures Del(With(s, b, n, d, w), b, Wh(n)) == With(s, b, n, d, None)
  {
    WhInjective(n, n);
    var t := With(s, b, n, d, w);
    assert Del(t, b, n)[b].ents == With(s, b, n, None, w)[b].ents;
    assert Del(t, b, Wh(n))[b].ents == With(s, b, n, d, None)[b].ents;
  }

  lemma NotThere(s: Stack, n: Name, b: nat)
    requires b < |s| && s[b].whable && Lacks(s, n, 0, b + 1)
    ensures n !in s[b].ents && (HasWh(s[b], n) <==> Wh(n) in s[b].ents)
  {}

  lemma WithSelf(s: Stack, b: nat, n: Name)
    requires b < |s| && n !in s[b].ents
    ensures s == With(s, b, n, None, if Wh(n) in s[b].ents then Some(s[b].ents[Wh(n)]) else None)
  {
    WhInjective(n, n);
    var w := if Wh(n) in s[b].ents then Some(s[b].ents[Wh(n)]) else None;
    assert With(s, b, n, None, w)[b].ents == s[b].ents;
  }

  /** What the states of mkdir show. */
  lemma WithShows(s: Stack, b: nat, n: Name, d: Option<Node>, w: Option<Node>)
    requires b < |s| && !Refused(n) && s[b].whable && Find(s, n, 0) < 0
    requires Clear(s, n, 0, b) && Lacks(s, n, 0, b + 1)
    requires d.Some? ==> d.value.kind == Dir
    ensures OnlyName(s, With(s, b, n, d, w), n)
    ensures w.Some? ==> Safe(s, With(s, b, n, d, w), n, b)
    ensures w.None? && d.Some? && d.value.opq ==>
              (Safe(s, With(s, b, n, d, w), n, b) <==> forall i :: !Lookup.OpqBelow(s, n, b, i))
    ensures w.None? && d.Some? && !d.value.opq ==>
              (Safe(s, With(s, b, n, d, w), n, b) <==> forall i :: !Lookup.DirBelow(s, n, b, i))
    ensures w.None? && d.None? ==> (Safe(s, With(s, b, n, d, w), n, b) <==> Find(s, n, b + 1) < 0)
  {
    var t := With(s, b, n, d, w);
    WhInjective(n, n);
    WithOnly(s, b, n, d, w);
    ShownIsFound(s, n);
    assert (n in t[b].ents <==> d.Some?) && (HasWh(t[b], n) <==> w.Some?);
    assert Lacks(t, n, 0, b) && Clear(t, n, 0, b);
    if w.Some? {
      HiddenShowsNothing(s, t, n, b);
    } else {
      assert Clear(t, n, 0, b + 1);
      FindSkip(t, n, 0, b);
      if d.None? {
        FindMeaning(s, n, b + 1);
        FindFrame(s, t, n, b + 1);
        ShownIsFound(t, n);
        if Find(s, n, b + 1) < 0 {
          SafeState(s, t, n, b);
        }
      } else {
        DirShows(s, t, b, n);
      }
    }
  }

  lemma WithOnly(s: Stack, b: nat, n: Name, d: Option<Node>, w: Option<Node>)
    requires b < |s| && !Refused(n)
    ensures OnlyName(s, With(s, b, n, d, w), n)
  {
    var t := With(s, b, n, d, w);
    forall m | !Refused(m) && m != n
      ensures SameName(s, t, m) && SameWh(s, t, m)
    {
      WhInjective(m, n);
      WhInjective(n, n);
      assert m != Wh(n) && Wh(m) != n && Wh(m) != Wh(n);
    }
  }

  lemma DirShows(s: Stack, t: Stack, b: nat, n: Name)
    requires b < |s| == |t| && OnlyName(s, t, n) && Find(s, n, 0) < 0 && !Refused(n)
    requires forall j :: b < j < |s| ==> t[j] == s[j]
    requires Find(t, n, 0) == b && Lookup.IsDir(t[b], n) && t[b].whable
    ensures Safe(s, t, n, b) <==>
            forall i :: if t[b].ents[n].opq then !Lookup.OpqBelow(s, n, b, i) else !Lookup.DirBelow(s, n, b, i)
  {
    ShownIsFound(s, n);
    forall i
      ensures Lookup.DirBelow(t, n, b, i) <==> Lookup.DirBelow(s, n, b, i)
      ensures Lookup.OpqBelow(t, n, b, i) <==> Lookup.OpqBelow(s, n, b, i)
    {}
    forall i ensures Lookup.Contributes(t, n, i) <==>
            i == b || (&& Lookup.DirBelow(s, n, b, i)
                       && (t[b].ents[n].opq || (exists o :: Lookup.OpqBelow(s, n, b, o) && o < i) ==>
                             exists k :: i <= k && Lookup.OpqBelow(s, n, b, k)))
    {
      Lookup.DirCopies(t, b, n, i);
    }
    hide Lookup.Contributes, Lookup.DirBelow, Lookup.OpqBelow, Find;
    if i :| Lookup.OpqBelow(s, n, b, i) {
      assert Lookup.Contributes(t, n, i);
    } else if i :| !t[b].ents[n].opq && Lookup.DirBelow(s, n, b, i) {
      assert Lookup.Contributes(t, n, i);
    } else {
      SafeState(s, t, n, b);
    }
  }

  lemma NoDirBelow(s: Stack, n: Name, b: nat)
    requires b < |s| && Find(s, n, b + 1) < 0
    ensures forall i :: !Lookup.DirBelow(s, n, b, i) && !Lookup.OpqBelow(s, n, b, i)
  {
    FindMeaning(s, n, b + 1);
    assert forall i :: 0 <= i < |s| && n in s[i].ents && Clear(s, n, b + 1, i + 1) ==> i < b + 1;
  }

  /** Lookup sees the states of mkdir as they are. */
  lemma WithKept(s: Stack, b: nat, n: Name, d: Option<Node>, w: Option<Node>)
    requires b < |s| && !Refused(n) && s[b].whable && s[b].present && Lacks(s, n, 0, b)
    ensures Kept(s, With(s, b, n, d, w), n)
  {
    var t := With(s, b, n, d, w);
    WithOnly(s, b, n, d, w);
    WhInjective(n, n);
    if WellFormed(s) {
      Lookup.WellFormedIsSound(s, n);
      assert forall j :: 0 <= j < |s| && j != b ==> t[j] == s[j];
      assert w.Some? ==> Covered(t, n, b);
      assert w.None? ==> Lookup.Sound(t, n);
      hide OnlyName, Lookup.Sound, Covered, Seen;
      OnlyNameSeen(s, t, n, b);
    }
  }

  /** Everything aufs_mkdir goes through, with the old whiteout or a new one, if any. */
  lemma MkdirStates(s: Stack, n: Name, b: nat, dir: Node, w: Option<Node>)
    requires b < |s| && !Refused(n) && s[b].whable && s[b].present && Find(s, n, 0) < 0 && dir.kind == Dir && !dir.opq
    requires Clear(s, n, 0, b) && Lacks(s, n, 0, b + 1)
    ensures var d, o := Some(dir), Some(dir.(opq := true));
            && Kept(s, s, n) && Safe(s, s, n, b)
            && Kept(s, With(s, b, n, d, w), n) && Kept(s, With(s, b, n, o, w), n)
            && Kept(s, With(s, b, n, None, w), n)
            && Kept(s, With(s, b, n, d, None), n) && Kept(s, With(s, b, n, o, None), n)
            && Kept(s, With(s, b, n, None, None), n)
            && (w.Some? ==> Safe(s, With(s, b, n, d, w), n, b) && Safe(s, With(s, b, n, None, w), n, b))
            && (w.Some? ==> Safe(s, With(s, b, n, o, w), n, b))
            && (Safe(s, With(s, b, n, o, None), n, b) <==> forall i :: !Lookup.OpqBelow(s, n, b, i))
            && (Safe(s, With(s, b, n, d, None), n, b) <==> !LowerShows(s, n, b, false))
            && (Safe(s, With(s, b, n, None, None), n, b) <==> Find(s, n, b + 1) < 0)
            && (!HasWh(s[b], n) ==> !LowerShows(s, n, b, true) && forall i :: !Lookup.OpqBelow(s, n, b, i))
            && (LowerShows(s, n, b, true) <==> LowerShows(s, n, b, false) || Find(s, n, b + 1) >= 0)
  {
    var d, o := Some(dir), Some(dir.(opq := true));
    WithSelf(s, b, n);
    WithShows(s, b, n, d, w);
    WithShows(s, b, n, o, w);
    WithShows(s, b, n, None, w);
    WithShows(s, b, n, d, None);
    WithShows(s, b, n, o, None);
    WithShows(s, b, n, None, None);
    hide With, OnlyName, Safe, Seen;
    MkdirKept(s, n, b, dir, w);
    if !HasWh(s[b], n) {
      FindSkip(s, n, 0, b + 1);
      NoDirBelow(s, n, b);
    }
    SelfSafe(s, n, b);
  }

  /** The states before the whiteout goes. */
  lemma MkdirStart(s: Stack, n: Name, b: nat, dir: Node, w: Option<Node>)
    requires b < |s| && !Refused(n) && s[b].whable && s[b].present && Find(s, n, 0) < 0 && dir.kind == Dir && !dir.opq
    requires Clear(s, n, 0, b) && Lacks(s, n, 0, b + 1) && (HasWh(s[b], n) ==> w.Some?)
    ensures Kept(s, s, n) && Kept(s, With(s, b, n, Some(dir), w), n)
            && Kept(s, With(s, b, n, Some(dir.(opq := true)), w), n)
    ensures Safe(s, s, n, b) && Safe(s, With(s, b, n, Some(dir), w), n, b)
    ensures Safe(s, With(s, b, n, Some(dir.(opq := true)), w), n, b)
  {
    MkdirStates(s, n, b, dir, w);
    hide Safe, Kept, With, Lookup.OpqBelow, Lookup.DirBelow, Find;
  }

  lemma SelfSafe(s: Stack, n: Name, b: nat)
    ensures OnlyName(s, s, n) && Safe(s, s, n, b)
  {}

  lemma MkdirKept(s: Stack, n: Name, b: nat, dir: Node, w: Option<Node>)
    requires b < |s| && !Refused(n) && s[b].whable && s[b].present && Lacks(s, n, 0, b + 1)
    ensures var d, o := Some(dir), Some(dir.(opq := true));
            && Kept(s, s, n)
            && Kept(s, With(s, b, n, d, w), n) && Kept(s, With(s, b, n, o, w), n) && Kept(s, With(s, b, n, None, w), n)
            && Kept(s, With(s, b, n, d, None), n) && Kept(s, With(s, b, n, o, None), n)
            && Kept(s, With(s, b, n, None, None), n)
  {
    var d, o := Some(dir), Some(dir.(opq := true));
    WithSelf(s, b, n);
    hide Kept, With;
    WithKept(s, b, n, d, w);
    WithKept(s, b, n, o, w);
    WithKept(s, b, n, None, w);
    WithKept(s, b, n, d, None);
    WithKept(s, b, n, o, None);
    WithKept(s, b, n, None, None);
    WithKept(s, b, n, None, if Wh(n) in s[b].ents then Some(s[b].ents[Wh(n)]) else None);
  }

  /** After a successful mkdir the name is the new directory; it merges with nothing below it if and only if
      no layer below holds an unhidden opaque directory of that name. Then a lookup's range is its layer. */
  lemma MkdirShowsOne(s: Stack, n: Name, b: nat, dir: Node, alwaysOpq: bool)
    requires b < |s| && !Refused(n) && s[b].present && s[b].whable && Find(s, n, 0) < 0 && dir.kind == Dir && !dir.opq
    requires Clear(s, n, 0, b) && Lacks(s, n, 0, b + 1)
    ensures var made := dir.(opq := HasWh(s[b], n) || alwaysOpq);
            var t := With(s, b, n, Some(made), None);
            && View(t, n) == Some(made)
            && ((forall i :: Lookup.Contributes(t, n, i) <==> i == b) <==> forall i :: !Lookup.OpqBelow(s, n, b, i))
            && (WellFormed(s) ==> forall i :: Lookup.Merges(t, n, i) <==> Lookup.Contributes(t, n, i))
            && forall m :: !Refused(m) && m != n ==> View(t, m) == View(s, m)
  {
    var wh := HasWh(s[b], n);
    var made := dir.(opq := wh || alwaysOpq);
    var t := With(s, b, n, Some(made), None);
    WhInjective(n, n);
    WithOnly(s, b, n, Some(made), None);
    forall m | !Refused(m) && m != n ensures View(t, m) == View(s, m) {
      SameShown(s, t, m, 0);
    }
    WithKept(s, b, n, Some(made), None);
    assert Lacks(t, n, 0, b) && Clear(t, n, 0, b + 1);
    FindSkip(t, n, 0, b);
    if !made.opq {
      FindSkip(s, n, 0, b + 1);
      NoDirBelow(s, n, b);
    }
    Lookup.OnlyLayer(s, t, b, n);
  }

  /** An opaque directory under a whiteout: a mkdir that succeeds gives a directory with which the next
      lookup merges the hidden one. */
  lemma MkdirMergesHidden()
    ensures exists s: Stack, n: Name, b: nat, dir: Node ::
              && b < |s| && WellFormed(s) && !Refused(n) && s[b].present && s[b].whable && dir.kind == Dir && !dir.opq
              && Find(s, n, 0) < 0 && Clear(s, n, 0, b) && Lacks(s, n, 0, b + 1) && HasWh(s[b], n)
              && var t := With(s, b, n, Some(dir.(opq := true)), None);
                 Lookup.Merges(t, n, b) && Lookup.Merges(t, n, b + 1)
  {
    var n, dir := "d", Node(Dir, 1, false);
    var s := [Layer(true, true, map[Wh(n) := WHITEOUT]), Layer(true, true, map[n := Node(Dir, 0, true)])];
    assert |n| == 1;
    forall m: Name ensures |Wh(m)| == |m| + 4 && (Wh(m) == Wh(n) ==> m == n) {
      WhInjective(m, n);
    }
    assert HasWh(s[0], n) && !HasWh(s[1], n);
    assert Lookup.OpqBelow(s, n, 0, 1);
    var t := With(s, 0, n, Some(dir.(opq := true)), None);
    MkdirShowsOne(s, n, 0, dir, false);
    assert Find(t, n, 0) == 0;
    assert Lookup.OpqBelow(t, n, 0, 1);
    Lookup.DirCopies(t, 0, n, 0);
    Lookup.DirCopies(t, 0, n, 1);
    assert Lookup.Merges(t, n, 0) && Lookup.Merges(t, n, 0 + 1);
  }

  /** A file under a whiteout: a mkdir whose inode cannot be made, and then not the whiteout either, ends with
      the file in view. */
  lemma MkdirUncovers()
    ensures exists s: Stack, n: Name, b: nat, fail: set<Step> ::
              && b < |s| && WellFormed(s) && !Refused(n) && s[b].present && s[b].whable
              && Find(s, n, 0) < 0 && Clear(s, n, 0, b) && Lacks(s, n, 0, b + 1) && HasWh(s[b], n)
              && Uncovers(fail) && Exposes(fail) && RevDir !in fail && LowerShows(s, n, b, true)
              && View(With(s, b, n, None, None), n).Some?
  {
    var n, fail := "f", {NewInode, RecreateWh};
    var s := [Layer(true, true, map[Wh(n) := WHITEOUT]), Layer(true, true, map[n := Node(Reg, 7, false)])];
    assert |n| == 1;
    forall m: Name ensures |Wh(m)| == |m| + 4 && (Wh(m) == Wh(n) ==> m == n) {
      WhInjective(m, n);
    }
    assert HasWh(s[0], n) && !HasWh(s[1], n);
    assert Find(s, n, 0 + 1) == 1;
    var t := With(s, 0, n, None, None);
    assert Find(t, n, 1) == 1 && Find(t, n, 0) == 1;
    assert Uncovers(fail) && Exposes(fail) && LowerShows(s, n, 0, true) && View(With(s, 0, n, None, None), n).Some?;
  }
}
