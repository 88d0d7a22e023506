/** Renaming on the target branch (do_rename and its rollback, i_op_ren.c). Every lower operation may
    fail, and then changes nothing. */
module Rename {
  import opened Basics
  import opened Layers
  import Lookup

  /** An entry of a branch: a directory and a raw name in it. */
  datatype Key = Key(dir: nat, name: Name)

  type Branch = map<Key, Node>

  /** The lower operations of do_rename, and those of its rollback. */
  datatype Step = CreateWhSrc | LkupWhDst | WhtmpRen | LkupNeg | RenameSrc | CreateOpq | UnlinkWhDst | DelWhtmp
                | RevOpq | RevLkupSrc | RevRename | RevLkupDst | RevWhtmp | RevWhSrc

  const REVERTS: set<Step> := {RevOpq, RevLkupSrc, RevRename, RevLkupDst, RevWhtmp, RevWhSrc}

  /** vfsub_rename: whatever is at `to` is overwritten. */
  function Move(e: Branch, from: Key, to: Key): Branch
    requires from in e
  {
    (e - {from})[to := e[from]]
  }

  function SetOpq(e: Branch, k: Key, opq: bool): Branch
    requires k in e
  {
    e[k := e[k].(opq := opq)]
  }

  lemma MoveBack(e: Branch, from: Key, to: Key)
    requires from in e && to !in e
    ensures Move(Move(e, from, to), to, from) == e
  {
    var r := Move(Move(e, from, to), to, from);
    assert forall k :: k in r <==> k in e;
  }

  lemma PutBack(e: Branch, k: Key, v: Node)
    requires k !in e
    ensures e[k := v] - {k} == e
  {}

  lemma OpqBack(e: Branch, k: Key)
    requires k in e && !e[k].opq
    ensures SetOpq(SetOpq(e, k, true), k, false) == e
  {}

  /** struct au_ren_args, the branch it works on, and the fields of the two dentries it changes. */
  class RenArgs {
    const srcDir: nat
    const dstDir: nat
    const src: Name
    const dst: Name
    const btgt: int
    const isdir: bool
    const whsrc: bool
    const whdst: bool
    const alwaysDiropq: bool
    const dstBdiropq: int
    const dstBend: int
    /** The name au_whtmp_lkup finds free. */
    const tmp: Name
    var ents: Branch
    var srcBwh: int
    var srcBdiropq: int
    var dstBwh: int

    constructor (srcDir: nat, dstDir: nat, src: Name, dst: Name, btgt: int, isdir: bool, whsrc: bool, whdst: bool,
                 alwaysDiropq: bool, dstBdiropq: int, dstBend: int, tmp: Name, ents: Branch,
                 srcBwh: int, srcBdiropq: int, dstBwh: int)
      ensures this.srcDir == srcDir && this.dstDir == dstDir && this.src == src && this.dst == dst
      ensures this.btgt == btgt && this.isdir == isdir && this.whsrc == whsrc && this.whdst == whdst
      ensures this.alwaysDiropq == alwaysDiropq && this.dstBdiropq == dstBdiropq && this.dstBend == dstBend
      ensures this.tmp == tmp && this.ents == ents
      ensures this.srcBwh == srcBwh && this.srcBdiropq == srcBdiropq && this.dstBwh == dstBwh
    {
      this.srcDir, this.dstDir, this.src, this.dst := srcDir, dstDir, src, dst;
      this.btgt, this.isdir, this.whsrc, this.whdst := btgt, isdir, whsrc, whdst;
      this.alwaysDiropq, this.dstBdiropq, this.dstBend := alwaysDiropq, dstBdiropq, dstBend;
      this.tmp, this.ents := tmp, ents;
      this.srcBwh, this.srcBdiropq, this.dstBwh := srcBwh, srcBdiropq, dstBwh;
    }

    function Src(): Key { Key(srcDir, src) }
    function Dst(): Key { Key(dstDir, dst) }
    function WhSrc(): Key { Key(srcDir, Wh(src)) }
    function WhDst(): Key { Key(dstDir, Wh(dst)) }
    function Tmp(): Key { Key(dstDir, tmp) }

    /** What aufs_rename has established: the names are ordinary and different, the source is on the
        target branch, a directory only replaces a directory and nothing else does. */
    ghost predicate Ready(e: Branch) {
      && !Refused(src) && !Refused(dst) && WH_PFX + WH_PFX <= tmp
      && Src() != Dst() && Src() in e && Tmp() !in e
      && (e[Src()].kind == Dir <==> isdir)
      && (Dst() in e ==> (e[Dst()].kind == Dir <==> isdir))
    }

    /** No name lies beside its own whiteout. */
    ghost predicate Sane(e: Branch) {
      !(Src() in e && WhSrc() in e) && !(Dst() in e && WhDst() in e)
    }

    lemma KeysApart()
      requires !Refused(src) && !Refused(dst) && WH_PFX + WH_PFX <= tmp && Src() != Dst()
      ensures Src() != WhSrc() && Src() != WhDst() && Src() != Tmp()
      ensures Dst() != WhSrc() && Dst() != WhDst() && Dst() != Tmp()
      ensures WhSrc() != WhDst() && WhSrc() != Tmp() && WhDst() != Tmp()
    {
      WhInjective(src, dst);
      WhInjective(dst, src);
      assert tmp[..4] == WH_PFX && WH_PFX <= tmp[4..];
      assert Wh(src)[4..] == src && Wh(dst)[4..] == dst;
    }

    // ----- the states the forward steps pass through

    function HasThargs(e: Branch): bool { isdir && Dst() in e }

    function WithWhSrc(e: Branch): Branch {
      if whsrc && WhSrc() !in e then e[WhSrc() := WHITEOUT] else e
    }

    function WithWhtmp(e: Branch): Branch {
      if HasThargs(e) && Dst() in WithWhSrc(e) then Move(WithWhSrc(e), Dst(), Tmp()) else WithWhSrc(e)
    }

    ghost predicate Movable(e: Branch) { Src() in WithWhtmp(e) }

    function Moved(e: Branch): (r: Branch)
      requires Movable(e)
      ensures Dst() in r
    {
      Move(WithWhtmp(e), Src(), Dst())
    }

    /** The directory must be made opaque: something below may hold the destination's name. */
    function WantsOpq(e: Branch, bdiropq: int): bool {
      && isdir
      && ((whdst && WhDst() in e) || dstBdiropq == btgt || btgt < dstBend || alwaysDiropq)
      && bdiropq != btgt
    }

    function MadeOpq(e: Branch, bdiropq: int): Branch
      requires Movable(e)
    {
      if WantsOpq(e, bdiropq) then SetOpq(Moved(e), Dst(), true) else Moved(e)
    }

    function Renamed(e: Branch, bdiropq: int): Branch
      requires Movable(e)
    {
      if whdst && WhDst() in e then MadeOpq(e, bdiropq) - {WhDst()} else MadeOpq(e, bdiropq)
    }

    /** au_ren_del_whtmp removes the directory that was replaced; its failure is ignored. */
    function Cleaned(e: Branch, bdiropq: int, deleted: bool): Branch
      requires Movable(e)
    {
      if HasThargs(e) && deleted then Renamed(e, bdiropq) - {Tmp()} else Renamed(e, bdiropq)
    }

    lemma Stages(e: Branch)
      requires Ready(e)
      ensures Movable(e)
      ensures Dst() in WithWhSrc(e) <==> Dst() in e
      ensures WithWhtmp(e)[Src()] == e[Src()]
      ensures WhDst() in Moved(e) <==> WhDst() in e
      ensures Src() !in Moved(e) && Moved(e)[Dst()] == e[Src()]
      ensures HasThargs(e) ==> Dst() !in WithWhtmp(e) && Tmp() in WithWhtmp(e) && Tmp() !in WithWhSrc(e)
    {
      KeysApart();
    }

    /** Where do_rename jumps when a step fails: how much has to be undone. */
    ghost predicate StoppedAt(e: Branch, bdiropq: int, level: nat)
      requires Movable(e)
      reads this
    {
      match level
      case 0 => ents == e
      case 1 => ents == WithWhSrc(e)
      case 2 => ents == WithWhtmp(e)
      case 3 => ents == Moved(e)
      case 4 => ents == MadeOpq(e, bdiropq)
      case _ => ents == Renamed(e, bdiropq)
    }

    /** One of the steps before the rename is taken and fails. */
    predicate MeetsEarly(e: Branch, fail: set<Step>) {
      || (whsrc && CreateWhSrc in fail)
      || (whdst && LkupWhDst in fail)
      || (isdir && Dst() in e && (WhtmpRen in fail || LkupNeg in fail))
    }

    /** A step is taken and fails; the opaque mark cannot be made on a source that has it. */
    predicate Meets(e: Branch, bdiropq: int, fail: set<Step>)
      requires Src() in e
    {
      || MeetsEarly(e, fail)
      || RenameSrc in fail
      || (WantsOpq(e, bdiropq) && (CreateOpq in fail || e[Src()].opq))
      || (whdst && WhDst() in e && UnlinkWhDst in fail)
    }

    /** The steps before the rename: whiteout for the source, lookup of the destination's whiteout, and a
        destination directory set aside under a temporary name. */
    method Prepare(fail: set<Step>) returns (err: Option<Step>, level: nat, dstWh: bool)
      requires Ready(ents)
      modifies this`ents, this`srcBwh
      ensures level <= 2 && Movable(old(ents)) && StoppedAt(old(ents), srcBdiropq, level)
      ensures err == None ==> level == 2 && dstWh == (whdst && WhDst() in old(ents))
      ensures err.Some? ==> err.value in fail && err.value in {CreateWhSrc, LkupWhDst, WhtmpRen, LkupNeg}
      ensures err.Some? <==> MeetsEarly(old(ents), fail)
      ensures srcBwh == (if level >= 1 && whsrc && WhSrc() !in old(ents) then btgt else old(srcBwh))
    {
      Stages(ents);
      KeysApart();
      dstWh := false;
      var thargs := isdir && Dst() in ents;
      if whsrc {
        if CreateWhSrc in fail {
          return Some(CreateWhSrc), 0, dstWh;
        }
        if WhSrc() !in ents {
          ents := ents[WhSrc() := WHITEOUT];
          srcBwh := btgt;
        }
      }
      if whdst {
        if LkupWhDst in fail {
          return Some(LkupWhDst), 1, dstWh;
        }
        dstWh := WhDst() in ents;
      }
      if thargs {
        if WhtmpRen in fail {
          return Some(WhtmpRen), 1, dstWh;
        }
        ents := Move(ents, Dst(), Tmp());
        if LkupNeg in fail {
          return Some(LkupNeg), 2, dstWh;
        }
      }
      return None, 2, dstWh;
    }

    /** The forward steps. `level` tells how far they came: 0 nothing, 1 whiteout made, 2 destination
        directory set aside, 3 renamed, 4 made opaque, 5 all done. */
    method Forward(fail: set<Step>) returns (err: Option<Step>, level: nat, diropq: bool)
      requires Ready(ents)
      modifies this
      ensures err == None <==> level == 5
      ensures level <= 5 && Movable(old(ents)) && StoppedAt(old(ents), old(srcBdiropq), level)
      ensures level >= 3 ==> diropq == WantsOpq(old(ents), old(srcBdiropq))
      ensures (level == 4 <==> err == Some(UnlinkWhDst)) && (level == 3 ==> isdir)
      ensures level == 4 ==> WhDst() in old(ents)
      ensures level >= 4 && diropq ==> !old(ents)[Src()].opq
      ensures srcBdiropq == (if level >= 4 && diropq then btgt else old(srcBdiropq))
      ensures srcBwh == (if level >= 1 && whsrc && WhSrc() !in old(ents) then btgt else old(srcBwh))
      ensures dstBwh == (if level == 5 && whdst && WhDst() in old(ents) then -1 else old(dstBwh))
      ensures err.Some? ==> err.value in fail || (err == Some(CreateOpq) && old(ents)[Src()].opq)
      ensures err.Some? <==> Meets(old(ents), old(srcBdiropq), fail)
    {
      ghost var e := ents;
      Stages(e);
      var dstWh;
      err, level, dstWh := Prepare(fail);
      diropq := false;
      if err.Some? {
        return;
      }
      hide WithWhtmp, WithWhSrc;
      diropq := isdir && (dstWh || dstBdiropq == btgt || btgt < dstBend || alwaysDiropq);
      if diropq && srcBdiropq == btgt {
        diropq := false;
      }
      if RenameSrc in fail {
        return Some(RenameSrc), 2, diropq;
      }
      ents := Move(ents, Src(), Dst());
      assert ents == Moved(e);
      if diropq {
        if CreateOpq in fail || ents[Dst()].opq {
          return Some(CreateOpq), 3, diropq;
        }
        ents := SetOpq(ents, Dst(), true);
        srcBdiropq := btgt;
      }
      assert ents == MadeOpq(e, old(srcBdiropq));
      if dstWh {
        if UnlinkWhDst in fail {
          return Some(UnlinkWhDst), 4, diropq;
        }
        ents := ents - {WhDst()};
        dstBwh := -1;
      }
      return None, 5, diropq;
    }

    // ----- rollback

    /** The source is still under one of its two names, a directory set aside is under its name or the
        temporary one, and nothing else changed. */
    ghost predicate NothingLost(e: Branch, f: Branch)
      requires Src() in e
    {
      && (exists k :: k in {Src(), Dst()} && k in f && f[k].(opq := e[Src()].opq) == e[Src()])
      && (HasThargs(e) ==> exists k :: k in {Dst(), Tmp()} && k in f && f[k] == e[Dst()])
      && forall k :: k !in {Src(), Dst(), WhSrc(), WhDst(), Tmp()} ==> (k in f <==> k in e) && (k in e ==> f[k] == e[k])
    }

    /** Nothing lost, and the source can be said to be at `at`. */
    ghost predicate SourceAt(e: Branch, f: Branch, at: Key)
      requires Src() in e
    {
      && at in f && f[at].(opq := e[Src()].opq) == e[Src()]
      && (HasThargs(e) ==> (Tmp() in f && f[Tmp()] == e[Dst()]) || (at == Src() && Dst() in f && f[Dst()] == e[Dst()]))
      && (at == Src() && HasThargs(e) && Dst() in f ==> f[Dst()] == e[Dst()])
      && forall k :: k !in {Src(), Dst(), WhSrc(), WhDst(), Tmp()} ==> (k in f <==> k in e) && (k in e ==> f[k] == e[k])
    }

    lemma StoppedKeeps(e: Branch, bdiropq: int, level: nat)
      requires Ready(e) && level <= 5 && Movable(e) && StoppedAt(e, bdiropq, level)
      ensures SourceAt(e, ents, if level >= 3 then Dst() else Src())
    {
      KeysApart();
      Stages(e);
    }

    /** What is left when a non-directory was overwritten: it cannot come back. */
    function Without(f: Branch, overwritten: bool): Branch {
      if overwritten && !isdir then f - {Dst()} else f
    }

    /** au_ren_rev_diropq */
    method RevDiropq(fail: set<Step>, bdiropq: int, ghost e: Branch)
      requires Ready(e) && Movable(e) && SourceAt(e, ents, Dst()) && !e[Src()].opq
      modifies this`ents, this`srcBdiropq
      ensures SourceAt(e, ents, Dst()) && srcBdiropq == bdiropq
      ensures RevOpq !in fail && old(ents) == SetOpq(Moved(e), Dst(), true) ==> ents == Moved(e)
    {
      KeysApart();
      Stages(e);
      OpqBack(Moved(e), Dst());
      if RevOpq !in fail {
        ents := SetOpq(ents, Dst(), false);
      }
      srcBdiropq := bdiropq;
    }

    /** au_ren_rev_rename; `at` is where the source is afterwards. */
    method RevRenameSrc(fail: set<Step>, ghost e: Branch) returns (ghost at: Key)
      requires Ready(e) && Movable(e) && SourceAt(e, ents, Dst())
      modifies this`ents
      ensures (at == Src() || at == Dst()) && SourceAt(e, ents, at)
      ensures fail !! REVERTS && old(ents) == Moved(e) ==> ents == Without(WithWhtmp(e), true)
    {
      KeysApart();
      Stages(e);
      at := Dst();
      if RevLkupSrc !in fail && RevRename !in fail {
        ents := Move(ents, Dst(), Src());
        at := Src();
        if old(ents) == Moved(e) {
          if Dst() !in WithWhtmp(e) {
            MoveBack(WithWhtmp(e), Src(), Dst());
          }
          assert ents == WithWhtmp(e) - {Dst()};
        }
      }
    }

    /** au_ren_rev_whtmp */
    method RevWhtmpRen(fail: set<Step>, ghost e: Branch, ghost at: Key)
      requires Ready(e) && Movable(e) && HasThargs(e) && (at == Src() || at == Dst()) && SourceAt(e, ents, at)
      modifies this`ents
      ensures SourceAt(e, ents, at)
      ensures fail !! REVERTS && old(ents) == WithWhtmp(e) ==> ents == WithWhSrc(e)
    {
      KeysApart();
      Stages(e);
      if RevLkupDst !in fail {
        if Dst() !in ents && RevWhtmp !in fail {
          ents := Move(ents, Tmp(), Dst());
          MoveBack(WithWhSrc(e), Dst(), Tmp());
        }
      }
    }

    /** au_ren_rev_whsrc */
    method RevWhSrcUnlink(fail: set<Step>, bwh: int, ghost e: Branch, ghost at: Key, ghost overwritten: bool)
      requires Ready(e) && Movable(e) && whsrc && (at == Src() || at == Dst()) && SourceAt(e, ents, at)
      modifies this`ents, this`srcBwh
      ensures SourceAt(e, ents, at) && srcBwh == bwh
      ensures fail !! REVERTS && WhSrc() !in e && old(ents) == Without(WithWhSrc(e), overwritten) ==>
                ents == Without(e, overwritten)
    {
      KeysApart();
      if RevWhSrc !in fail {
        ents := ents - {WhSrc()};
      }
      srcBwh := bwh;
    }

    lemma SourceKept(e: Branch, at: Key)
      requires Src() in e && (at == Src() || at == Dst()) && SourceAt(e, ents, at)
      ensures NothingLost(e, ents)
    {}

    /** The labels out_diropq to out_whsrc. */
    method Rollback(fail: set<Step>, level: nat, diropq: bool, thargs: bool, bwh: int, bdiropq: int, ghost e: Branch)
      requires Ready(e) && level <= 4 && Movable(e) && StoppedAt(e, bdiropq, level)
      requires thargs == HasThargs(e)
      requires level >= 3 ==> diropq == WantsOpq(e, bdiropq)
      requires level == 4 && diropq ==> !e[Src()].opq
      requires level == 0 || !whsrc ==> srcBwh == bwh
      requires srcBdiropq == bdiropq || (level == 4 && diropq)
      modifies this
      ensures NothingLost(e, ents)
      ensures srcBwh == bwh && srcBdiropq == bdiropq && dstBwh == old(dstBwh)
      ensures fail !! REVERTS && WhSrc() !in e ==> ents == Without(e, level >= 3)
    {
      StoppedKeeps(e, bdiropq, level);
      hide SourceAt, NothingLost, Ready, Move, SetOpq;
      ghost var at := if level >= 3 then Dst() else Src();
      if level >= 4 && diropq {
        RevDiropq(fail, bdiropq, e);
      }
      if level >= 3 {
        at := RevRenameSrc(fail, e);
      }
      if level >= 2 && thargs {
        RevWhtmpRen(fail, e, at);
      }
      if level >= 1 && whsrc {
        RevWhSrcUnlink(fail, bwh, e, at, level >= 3);
      }
      SourceKept(e, at);
    }

    /** do_rename. `fail` are the lower operations that fail; the result names the one that stopped it.
        If no reverting operation fails too, a failed rename leaves the branch as it was, except that a
        non-directory overwritten before the removal of its own whiteout failed cannot come back; in a
        well-formed layer there is no such whiteout. Whatever fails, nothing is lost.
        Success moves the source onto the destination, leaves the whiteouts and the opaque mark the flags
        ask for, and changes nothing else but the temporary name of a replaced directory. */
    method DoRename(fail: set<Step>) returns (err: Option<Step>)
      requires Ready(ents)
      modifies this
      ensures Movable(old(ents))
      ensures err == None ==> ents == Cleaned(old(ents), old(srcBdiropq), DelWhtmp !in fail)
      ensures err == None ==>
                && srcBwh == (if whsrc && WhSrc() !in old(ents) then btgt else old(srcBwh))
                && srcBdiropq == (if WantsOpq(old(ents), old(srcBdiropq)) then btgt else old(srcBdiropq))
                && dstBwh == (if whdst && WhDst() in old(ents) then -1 else old(dstBwh))
      ensures err.Some? ==> NothingLost(old(ents), ents)
      ensures err.Some? ==> srcBwh == old(srcBwh) && srcBdiropq == old(srcBdiropq) && dstBwh == old(dstBwh)
      ensures err.Some? && fail !! REVERTS && WhSrc() !in old(ents) ==>
                (ents == old(ents) <==> !(err == Some(UnlinkWhDst) && !isdir && Dst() in old(ents)))
      ensures err.Some? && fail !! REVERTS && Sane(old(ents)) ==> ents == old(ents)
      ensures err.Some? ==> err.value in fail || (err == Some(CreateOpq) && old(ents)[Src()].opq)
      ensures err.Some? <==> Meets(old(ents), old(srcBdiropq), fail)
    {
      ghost var e := ents;
      var thargs := isdir && Dst() in ents;
      var bwh, bdiropq := srcBwh, srcBdiropq;
      var level, diropq;
      err, level, diropq := Forward(fail);
      if err == None {
        if thargs && DelWhtmp !in fail {
          ents := ents - {Tmp()};
        }
      } else {
        Rollback(fail, level, diropq, thargs, bwh, bdiropq, e);
      }
    }

    // ----- what success means

    /** The branch after a successful rename, entry by entry. */
    lemma RenamedMeaning(e: Branch, bdiropq: int, deleted: bool)
      requires Ready(e) && Movable(e)
      ensures var f := Cleaned(e, bdiropq, deleted);
              && Src() !in f
              && Dst() in f && f[Dst()] == e[Src()].(opq := e[Src()].opq || WantsOpq(e, bdiropq))
              && (WhSrc() in f <==> whsrc || WhSrc() in e)
              && (whsrc && WhSrc() !in e ==> f[WhSrc()] == WHITEOUT)
              && (WhDst() in f <==> !whdst && WhDst() in e)
              && (Tmp() in f ==> HasThargs(e) && !deleted && f[Tmp()] == e[Dst()])
              && forall k :: k !in {Src(), Dst(), WhSrc(), WhDst(), Tmp()} ==>
                   (k in f <==> k in e) && (k in e ==> f[k] == e[k])
    {
      KeysApart();
      Stages(e);
    }

    /** Layer `l` is directory `dir` of the branch. */
    ghost predicate Shows(e: Branch, dir: nat, l: Layer) {
      && l.present && l.whable
      && forall n :: (n in l.ents <==> Key(dir, n) in e) && (n in l.ents ==> l.ents[n] == e[Key(dir, n)])
    }

    /** On well-formed layers no name of the branch lies beside its own whiteout, so that every failed rename
        whose reverts work leaves the branch as it was. */
    lemma WellFormedIsSane(e: Branch, l: Layer, m: Layer)
      requires Shows(e, srcDir, l) && Shows(e, dstDir, m) && WellFormedLayer(l) && WellFormedLayer(m)
      requires !Refused(src) && !Refused(dst)
      ensures Sane(e)
    {
      assert Src() in e && WhSrc() in e ==> HasWh(l, src) && src in l.ents && !IsWhName(src);
      assert Dst() in e && WhDst() in e ==> HasWh(m, dst) && dst in m.ents && !IsWhName(dst);
    }

    /** Names other than the two do not change in either directory. */
    lemma OthersUntouched(e: Branch, bdiropq: int, deleted: bool, dir: nat, n: Name)
      requires Ready(e) && Movable(e) && !Refused(n) && Key(dir, n) != Src() && Key(dir, n) != Dst()
      ensures var f := Cleaned(e, bdiropq, deleted);
              && (Key(dir, n) in f <==> Key(dir, n) in e)
              && (Key(dir, n) in e ==> f[Key(dir, n)] == e[Key(dir, n)])
              && (Key(dir, Wh(n)) in f <==> Key(dir, Wh(n)) in e)
    {
      RenamedMeaning(e, bdiropq, deleted);
      WhInjective(n, src);
      WhInjective(n, dst);
      assert Wh(n)[4..] == n && tmp[..4] == WH_PFX && WH_PFX <= tmp[4..];
    }

    /** Layers `s` of a directory `dir` before, `t` after; only layer `b`, the target branch, differs. */
    ghost predicate Layered(e: Branch, f: Branch, dir: nat, s: Stack, t: Stack, b: nat) {
      && b < |s| == |t| && t == s[b := t[b]]
      && Shows(e, dir, s[b]) && Shows(f, dir, t[b])
    }

    lemma OtherNames(e: Branch, bdiropq: int, deleted: bool, dir: nat, s: Stack, t: Stack, b: nat, n: Name)
      requires Ready(e) && Movable(e) && Layered(e, Cleaned(e, bdiropq, deleted), dir, s, t, b)
      requires !Refused(n) && Key(dir, n) != Src() && Key(dir, n) != Dst()
      ensures View(t, n) == View(s, n)
    {
      OthersUntouched(e, bdiropq, deleted, dir, n);
      FindFrame(s, t, n, 0);
    }

    /** In the union: `s` and `d` are the layers of the two parents before, `s'` and `d'` after, `b` the
        target branch. The destination is the source's entry unless its whiteout stays beside it; the source's
        name is gone unless there is no whiteout over a lower copy; every other name of both directories
        resolves as before. */
    lemma RenameInUnion(e: Branch, bdiropq: int, deleted: bool, s: Stack, d: Stack, s': Stack, d': Stack, b: nat)
      requires Ready(e) && Movable(e)
      requires Layered(e, Cleaned(e, bdiropq, deleted), srcDir, s, s', b)
      requires Layered(e, Cleaned(e, bdiropq, deleted), dstDir, d, d', b)
      requires Find(s, src, 0) == b && Clear(d, dst, 0, b) && Lacks(d, dst, 0, b)
      ensures Find(s', src, 0) < 0 <==> whsrc || Find(s, src, b + 1) < 0
      ensures View(d', dst) == if KeepsWh(e) then None else Some(e[Src()].(opq := e[Src()].opq || WantsOpq(e, bdiropq)))
      ensures forall n :: !Refused(n) && Key(srcDir, n) != Src() && Key(srcDir, n) != Dst() ==>
              View(s', n) == View(s, n)
      ensures forall n :: !Refused(n) && Key(dstDir, n) != Src() && Key(dstDir, n) != Dst() ==>
              View(d', n) == View(d, n)
    {
      forall n | !Refused(n) && Key(srcDir, n) != Src() && Key(srcDir, n) != Dst() ensures View(s', n) == View(s, n) {
        OtherNames(e, bdiropq, deleted, srcDir, s, s', b, n);
      }
      forall n | !Refused(n) && Key(dstDir, n) != Src() && Key(dstDir, n) != Dst() ensures View(d', n) == View(d, n) {
        OtherNames(e, bdiropq, deleted, dstDir, d, d', b, n);
      }
      SourceGone(e, bdiropq, deleted, s, s', b);
      DestinationShown(e, bdiropq, deleted, d, d', b);
    }

    /** The destination's whiteout is on the target branch and nobody looks for it. */
    predicate KeepsWh(e: Branch) {
      !whdst && WhDst() in e
    }

    lemma DestinationShown(e: Branch, bdiropq: int, deleted: bool, d: Stack, t: Stack, b: nat)
      requires Ready(e) && Movable(e) && Layered(e, Cleaned(e, bdiropq, deleted), dstDir, d, t, b)
      requires Clear(d, dst, 0, b) && Lacks(d, dst, 0, b)
      ensures View(t, dst) == if KeepsWh(e) then None else Some(e[Src()].(opq := e[Src()].opq || WantsOpq(e, bdiropq)))
      ensures Find(t, dst, 0) == if KeepsWh(e) then -1 else b
    {
      RenamedMeaning(e, bdiropq, deleted);
      hide Cleaned, Movable;
      FindSkip(t, dst, 0, b);
    }

    lemma SourceGone(e: Branch, bdiropq: int, deleted: bool, s: Stack, t: Stack, b: nat)
      requires Ready(e) && Movable(e) && Layered(e, Cleaned(e, bdiropq, deleted), srcDir, s, t, b)
      requires Find(s, src, 0) == b
      ensures Find(t, src, 0) < 0 <==> whsrc || Find(s, src, b + 1) < 0
    {
      RenamedMeaning(e, bdiropq, deleted);
      FindMeaning(s, src, 0);
      FindSkip(t, src, 0, b);
      FindFrame(s, t, src, b + 1);
      assert WhSrc() !in e by { assert !HasWh(s[b], src); }
    }

    // ----- the flags

    /** What aufs_rename finds out before: both names are looked up; WHDST is set if the destination's dentry
        starts at the target branch; WHSRC is set if au_wr_dir_need_wh says so, or after a copy-up. A
        destination that does not exist is moved to the target branch. */
    ghost predicate Looked(s: Stack, d: Stack) {
      var r, q := Lookup.FreshLookup(s, src, |s|), Lookup.FreshLookup(d, dst, |d|);
      && r.Some? && q.Some?
      && var e, f := r.value.1, q.value.1;
      && 0 <= e.bstart < |s| <= |e.hd| && src in s[e.bstart].ents
      && (Lookup.NeedWh(e, s, src, Lookup.Only(s[e.bstart].ents[src].kind)) != Some(0) ==> whsrc)
      && (whdst <==> f.bstart == btgt)
      && dstBdiropq == f.bdiropq && dstBend == if q.value.0 > 0 then f.bend else btgt
    }

    /** The whiteout question can be answered for the source: for a file always, for a directory if there is
        no copy of it between the topmost one and a whiteout below. */
    predicate Answerable(s: Stack) {
      var r := Lookup.FreshLookup(s, src, |s|);
      whsrc || (r.Some? && (r.value.1.bwh < 0 || forall j :: r.value.1.bstart < j < r.value.1.bwh && 0 <= j < |s| ==>
                            src !in s[j].ents))
    }

    /** The destination's whiteout is overlooked exactly when it is on the target branch and the parent is on
        a branch above too: that is where the negative dentry starts. */
    lemma KeepsWhExact(e: Branch, s: Stack, d: Stack, b: nat)
      requires Looked(s, d) && btgt == b < |d| && WellFormed(d) && !Refused(dst) && Shows(e, dstDir, d[b])
      requires Clear(d, dst, 0, b) && Lacks(d, dst, 0, b)
      ensures KeepsWh(e) <==> WhDst() in e && exists j :: 0 <= j < b && d[j].present
    {
      Lookup.WellFormedIsSound(d, dst);
      if WhDst() in e {
        Lookup.HiddenLookup(d, dst, |d|, b);
      }
    }

    /** The source's name stays in view exactly when the question has no right answer. */
    lemma AnswerableExact(s: Stack, d: Stack, b: nat)
      requires Looked(s, d) && WellFormed(s) && !Refused(src) && Find(s, src, 0) == b
      ensures Answerable(s) ==> whsrc || Find(s, src, b + 1) < 0
      ensures !Answerable(s) ==> Find(s, src, b + 1) >= 0
    {
      Lookup.FreshLookupMeaning(s, src, |s|);
      Lookup.NeedWhExact(s, src, |s|, Lookup.Only(s[b].ents[src].kind));
      var e := Lookup.FreshLookup(s, src, |s|).value.1;
      if !whsrc {
        FindMeaning(s, src, b + 1);
        FindMeaning(s, src, 0);
      }
    }

    /** A renamed directory is opaque exactly if it was, if the option asks for it always, or if there is
        something to be covered: a whiteout of the new name on the target branch, an opaque directory that is
        replaced there, or a copy below. */
    lemma RenamedOpaque(e: Branch, bdiropq: int, deleted: bool, s: Stack, d: Stack, b: nat)
      requires Ready(e) && Movable(e) && isdir && btgt == b && Looked(s, d) && !KeepsWh(e)
      requires b < |d| && WellFormed(d) && Shows(e, dstDir, d[b]) && Clear(d, dst, 0, b) && Lacks(d, dst, 0, b)
      requires b < |s| && WellFormed(s) && Find(s, src, 0) == b && Shows(e, srcDir, s[b])
      requires bdiropq == Lookup.FreshLookup(s, src, |s|).value.1.bdiropq
      ensures Dst() in Cleaned(e, bdiropq, deleted)
      ensures Cleaned(e, bdiropq, deleted)[Dst()].opq <==>
              || e[Src()].opq || alwaysDiropq || WhDst() in e
              || Lookup.IsOpqCopy(d, dst, b) || exists i :: b < i && Lookup.IsCopy(d, dst, i)
    {
      RenamedMeaning(e, bdiropq, deleted);
      OpaqueSource(e, bdiropq, s, b);
      var r := Lookup.FreshLookup(d, dst, |d|).value;
      assert dstBdiropq == r.1.bdiropq && dstBend == if r.0 > 0 then r.1.bend else btgt;
      hide Cleaned, Movable, Ready, Looked, Shows, WellFormed, Clear, Lacks;
      CoveredBelow(d, dst, b);
    }

    lemma OpaqueSource(e: Branch, bdiropq: int, s: Stack, b: nat)
      requires Ready(e) && isdir && b < |s| && WellFormed(s) && Find(s, src, 0) == b && Shows(e, srcDir, s[b])
      requires var r := Lookup.FreshLookup(s, src, |s|); r.Some? && bdiropq == r.value.1.bdiropq
      ensures bdiropq == b ==> e[Src()].opq
    {
      hide Lookup.FreshLookup;
      Lookup.FreshLookupMeaning(s, src, |s|);
      assert bdiropq == b ==> Lookup.IsOpqCopy(s, src, b);
    }

    /** The layers a renamed directory is merged from are the target branch alone, if and only if no layer
        below holds an unhidden opaque directory of the destination's name. */
    lemma RenamedDirRange(e: Branch, bdiropq: int, deleted: bool, s: Stack, d: Stack, t: Stack, b: nat)
      requires Ready(e) && Movable(e) && isdir && btgt == b && Looked(s, d) && !KeepsWh(e)
      requires Layered(e, Cleaned(e, bdiropq, deleted), dstDir, d, t, b) && WellFormed(d)
      requires b < |s| && WellFormed(s) && Find(s, src, 0) == b && Shows(e, srcDir, s[b])
      requires bdiropq == Lookup.FreshLookup(s, src, |s|).value.1.bdiropq
      requires Clear(d, dst, 0, b) && Lacks(d, dst, 0, b)
      ensures (forall i :: Lookup.Contributes(t, dst, i) <==> i == b) <==> forall i :: !Lookup.OpqBelow(d, dst, b, i)
      ensures WellFormed(t) ==> forall i :: Lookup.Merges(t, dst, i) <==> Lookup.Contributes(t, dst, i)
    {
      DestinationShown(e, bdiropq, deleted, d, t, b);
      RenamedMeaning(e, bdiropq, deleted);
      forall i | Lookup.DirBelow(d, dst, b, i) ensures t[b].ents[dst].opq {
        OpaqueEnough(e, bdiropq, s, d, b, i);
      }
      Lookup.OnlyLayer(d, t, b, dst);
      hide Lookup.Contributes, Lookup.Merges, Find, Cleaned, Movable, Lookup.DirBelow, Lookup.OpqBelow;
      if WellFormed(t) {
        Lookup.WellFormedIsSound(t, dst);
        forall i ensures Lookup.Merges(t, dst, i) <==> Lookup.Contributes(t, dst, i) {
          Lookup.ContributesIsMerged(t, dst, i);
        }
      }
    }

    /** A directory of the destination's name below makes the renamed one opaque. */
    lemma OpaqueEnough(e: Branch, bdiropq: int, s: Stack, d: Stack, b: nat, i: int)
      requires Ready(e) && isdir && btgt == b && Looked(s, d) && !KeepsWh(e)
      requires b < |d| && WellFormed(d) && Shows(e, dstDir, d[b]) && Clear(d, dst, 0, b) && Lacks(d, dst, 0, b)
      requires b < |s| && WellFormed(s) && Find(s, src, 0) == b && Shows(e, srcDir, s[b])
      requires bdiropq == Lookup.FreshLookup(s, src, |s|).value.1.bdiropq
      requires Lookup.DirBelow(d, dst, b, i)
      ensures e[Src()].opq || WantsOpq(e, bdiropq)
    {
      if bdiropq == btgt {
        Lookup.FreshLookupMeaning(s, src, |s|);
        assert Lookup.IsOpqCopy(s, src, b);
      } else if WhDst() !in e {
        assert !HasWh(d[b], dst) && (dst in d[b].ents ==> d[b].ents[dst].kind == Dir);
        hide Looked, Shows, Clear, Lacks, WellFormed, Lookup.DirBelow;
        LowerCopy(d, dst, b, i);
        assert Looked(s, d);
      }
    }
  }

  /** What the lookup of a destination says about what is to be covered. */
  lemma CoveredBelow(d: Stack, n: Name, b: nat)
    requires b < |d| && WellFormed(d) && !Refused(n) && Clear(d, n, 0, b) && Lacks(d, n, 0, b)
    ensures Lookup.FreshLookup(d, n, |d|).Some?
    ensures var (c, q) := Lookup.FreshLookup(d, n, |d|).value;
            (q.bdiropq == b || (c > 0 && b < q.bend)) <==>
            Lookup.IsOpqCopy(d, n, b) || exists i :: b < i && Lookup.IsCopy(d, n, i)
  {
    if Find(d, n, 0) < 0 {
      Lookup.WellFormedIsSound(d, n);
      Lookup.WalkFinds(Lookup.Fresh(|d|), d, n, 0, true, Lookup.AnyKind);
      Lookup.NothingOpaque(Lookup.Fresh(|d|), d, n, 0, true, Lookup.AnyKind, Lookup.AnyKind);
    } else {
      hide Lookup.FreshLookup;
      Lookup.FreshLookupMeaning(d, n, |d|);
      var q := Lookup.FreshLookup(d, n, |d|).value.1;
      FindMeaning(d, n, 0);
      hide Lookup.IsCopy;
      assert Lookup.IsOpqCopy(d, n, b) && q.bdiropq != b ==> Lookup.IsCopy(d, n, q.bdiropq);
    }
  }

  /** A directory below takes the range of the destination's dentry below the target branch. */
  lemma LowerCopy(d: Stack, n: Name, b: nat, i: int)
    requires b < |d| && WellFormed(d) && !Refused(n) && Clear(d, n, 0, b) && Lacks(d, n, 0, b) && !HasWh(d[b], n)
    requires n in d[b].ents ==> d[b].ents[n].kind == Dir
    requires Lookup.DirBelow(d, n, b, i)
    ensures var r := Lookup.FreshLookup(d, n, |d|); r.Some? && r.value.0 > 0 && b < r.value.1.bend
  {
    hide Lookup.FreshLookup;
    assert Clear(d, n, 0, i + 1);
    FindMeaning(d, n, 0);
    Lookup.FreshLookupMeaning(d, n, |d|);
    var top := Find(d, n, 0);
    assert b <= top;
    assert top == b ==> Lookup.IsCopy(d, n, i);
    assert top > b ==> Lookup.IsCopy(d, n, top);
  }

  /** The example: the parent is on all three branches, `y` was removed and left a whiteout on the second
      branch over the copy on the third, and `x` on the second branch is renamed to it. */
  function Removed(): Stack {
    [Layer(true, true, map[]),
     Layer(true, true, map["x" := Node(Reg, 5, false), Wh("y") := WHITEOUT]),
     Layer(true, true, map["y" := Node(Reg, 6, false)])]
  }

  lemma RemovedLayers()
    ensures var s := Removed();
            && WellFormed(s) && Find(s, "x", 0) == 1 && Find(s, "x", 2) < 0 && Find(s, "y", 0) < 0
            && Clear(s, "y", 0, 1) && Lacks(s, "y", 0, 1) && HasWh(s[1], "y") && s[0].present
            && "x" in s[1].ents && s[1].ents["x"].kind == Reg
    ensures Wh("x") != Wh("y")
  {
    var s := Removed();
    assert |"x"| == 1 && |"y"| == 1;
    forall m: Name ensures |Wh(m)| == |m| + 4 && (Wh(m) == Wh("y") ==> m == "y") {
      WhInjective(m, "y");
    }
    assert forall m: Name :: !HasWh(s[0], m) && !HasWh(s[2], m) && (HasWh(s[1], m) <==> m == "y");
    assert Find(s, "x", 3) < 0 && Find(s, "x", 2) < 0 && Find(s, "x", 1) == 1;
    assert Find(s, "y", 1) < 0;
  }

  lemma RemovedLookups()
    ensures var r := Lookup.FreshLookup(Removed(), "x", 3);
            r.Some? && r.value.1.bstart == 1 && |r.value.1.hd| == 3
                && Lookup.NeedWh(r.value.1, Removed(), "x", Lookup.Only(Reg)) == Some(0)
    ensures var q := Lookup.FreshLookup(Removed(), "y", 3);
            q.Some? && q.value.0 == 0 && q.value.1.bstart == 0 && q.value.1.bdiropq == -1
  {
    var s := Removed();
    RemovedLayers();
    assert |s| == 3 && !Refused("x") && !Refused("y");
    hide Removed, Find, WellFormed, Clear, Lacks, HasWh, Lookup.Sound, Refused;
    Lookup.WellFormedIsSound(s, "y");
    Lookup.HiddenLookup(s, "y", 3, 1);
    Lookup.FreshLookupMeaning(s, "x", 3);
    hide Lookup.FreshLookup;
    Lookup.NeedWhSound(Lookup.FreshLookup(s, "x", 3).value.1, s, "x", Lookup.Only(Reg));
  }

  /** What aufs_rename sets for it. */
  predicate IsExample(a: RenArgs) {
    && a.src == "x" && a.dst == "y" && a.srcDir == a.dstDir == 0 && a.btgt == 1
    && !a.isdir && !a.whsrc && !a.whdst && a.dstBdiropq == -1 && a.dstBend == 1 && a.tmp == ".wh..wh.y.1"
  }

  function ExampleBranch(): Branch {
    map[Key(0, "x") := Node(Reg, 5, false), Key(0, Wh("y")) := WHITEOUT]
  }

  lemma ExampleReady(a: RenArgs)
    requires IsExample(a)
    ensures a.Looked(Removed(), Removed()) && a.Ready(ExampleBranch()) && a.KeepsWh(ExampleBranch())
    ensures a.Shows(ExampleBranch(), 0, Removed()[1])
  {
    RemovedLayers();
    RemovedLookups();
    WhInjective("x", "y");
    hide Find, Lookup.FreshLookup, Lookup.NeedWh, WellFormed, Lacks, Clear, HasWh;
  }

  /** The third layer stack: `x` gone, `y` beside its whiteout. */
  function Lost(): Stack {
    Removed()[1 := Layer(true, true, map["y" := Node(Reg, 5, false), Wh("y") := WHITEOUT])]
  }

  lemma ExampleResult(a: RenArgs, e: Branch)
    requires IsExample(a) && e == ExampleBranch() && a.Ready(e)
    ensures a.Movable(e) && a.Layered(e, a.Cleaned(e, -1, true), 0, Removed(), Lost(), 1)
  {
    a.Stages(e);
    a.RenamedMeaning(e, -1, true);
    ExampleReady(a);
    WhInjective("x", "y");
    hide RenArgs.Ready, RenArgs.Movable, RenArgs.Cleaned, RenArgs.WantsOpq, RenArgs.Looked;
  }

  lemma LostShows(a: RenArgs, e: Branch)
    requires IsExample(a) && e == ExampleBranch()
    ensures View(Lost(), "x") == None && View(Lost(), "y") == None && !WellFormed(Lost())
  {
    RemovedLayers();
    ExampleReady(a);
    ExampleResult(a, e);
    WhInjective("y", "y");
    assert |"y"| == 1;
    hide Find, Lacks, Clear, RenArgs.Cleaned, RenArgs.Ready, RenArgs.Movable, RenArgs.Looked, RenArgs.Layered;
    a.SourceGone(e, -1, true, Removed(), Lost(), 1);
    a.DestinationShown(e, -1, true, Removed(), Lost(), 1);
    assert !WellFormedLayer(Lost()[1]) by { assert HasWh(Lost()[1], "y") && "y" in Lost()[1].ents && !IsWhName("y"); }
  }

  /** Neither the old name nor the new one is left. */
  method LoseBoth() returns (a: RenArgs, err: Option<Step>)
    ensures IsExample(a) && a.Looked(Removed(), Removed())
    ensures err == None && a.Shows(a.ents, 0, Lost()[1])
    ensures View(Removed(), "x").Some? && View(Removed(), "y") == None
    ensures View(Lost(), "x") == None && View(Lost(), "y") == None && !WellFormed(Lost())
  {
    RemovedLayers();
    a := new RenArgs(0, 0, "x", "y", 1, false, false, false, false, -1, 1, ".wh..wh.y.1", ExampleBranch(), -1, -1, 1);
    ExampleReady(a);
    LostShows(a, ExampleBranch());
    ExampleResult(a, ExampleBranch());
    assert !ExampleBranch()[a.Src()].opq;
    hide RenArgs.Ready, RenArgs.Movable, RenArgs.Cleaned, RenArgs.Looked, Removed, Lost, Find, WellFormed;
    err := a.DoRename({});
  }
}
