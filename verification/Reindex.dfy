/** Moving the cached lower entries of a dentry (dentry.c) and of an inode (inode.c, iinfo.c) to the
    present indices of their branches, in place, after branches were added or removed. */
module Reindex {
  import opened Basics

  /** struct au_hdentry, struct au_hinode: a lower object and the id of its branch. */
  datatype Slot = Slot(obj: Option<nat>, id: int)

  /** au_br_index: where the branch with this id is now, or -1. */
  function IndexOf(ids: seq<int>, id: int): (r: int)
    ensures r == -1 || (0 <= r < |ids| && ids[r] == id)
    ensures r == -1 <==> id !in ids
  {
    if ids == [] then -1
    else if ids[0] == id then 0
    else var r := IndexOf(ids[1..], id); if r < 0 then -1 else r + 1
  }

  lemma {:induction false} IndexOfFirst(ids: seq<int>, id: int, k: nat)
    requires k < |ids| && ids[k] == id && forall i :: 0 <= i < k ==> ids[i] != id
    ensures IndexOf(ids, id) == k
  {
    if k == 0 {
    } else {
      IndexOfFirst(ids[1..], id, k - 1);
    }
  }

  method BrIndex(ids: seq<int>, id: int) returns (r: int)
    ensures r == IndexOf(ids, id)
  {
    for bindex := 0 to |ids|
      invariant forall i :: 0 <= i < bindex ==> ids[i] != id
    {
      if ids[bindex] == id {
        IndexOfFirst(ids, id, bindex);
        return bindex;
      }
    }
    return -1;
  }

  predicate Occupied(s: seq<Slot>, i: int) {
    0 <= i < |s| && s[i].obj.Some?
  }

  /** The slot's branch is at the slot's index. */
  predicate Placed(s: seq<Slot>, ids: seq<int>, i: int)
    requires 0 <= i < |s|
  {
    IndexOf(ids, s[i].id) == i
  }

  ghost predicate DistinctIds(s: seq<Slot>) {
    forall i, j :: Occupied(s, i) && Occupied(s, j) && i != j ==> s[i].id != s[j].id
  }

  /** How often the lower object `e` is held. */
  function Count(s: seq<Slot>, e: Slot): nat {
    if s == [] then 0 else Count(s[..|s| - 1], e) + One(s[|s| - 1], e)
  }

  function One(x: Slot, e: Slot): nat {
    if x.obj.Some? && x == e then 1 else 0
  }

  lemma {:induction false} CountIn(s: seq<Slot>, e: Slot)
    ensures Count(s, e) > 0 <==> exists i :: Occupied(s, i) && s[i] == e
  {
    if s == [] {
    } else {
      var k := |s| - 1;
      CountIn(s[..k], e);
      if Count(s[..k], e) > 0 {
        var i :| Occupied(s[..k], i) && s[..k][i] == e;
        assert Occupied(s, i);
      }
      if i :| Occupied(s, i) && s[i] == e {
        assert i < k ==> Occupied(s[..k], i);
      }
      if One(s[k], e) == 1 {
        assert Occupied(s, k);
      }
    }
  }

  lemma {:induction false} CountUpdate(s: seq<Slot>, i: nat, x: Slot, e: Slot)
    requires i < |s|
    ensures Count(s[i := x], e) + One(s[i], e) == Count(s, e) + One(x, e)
  {
    var k := |s| - 1;
    if i < k {
      CountUpdate(s[..k], i, x, e);
      assert s[i := x][..k] == s[..k][i := x];
    } else {
      assert s[i := x][..k] == s[..k];
    }
  }

  function Swap(s: seq<Slot>, p: nat, q: nat): seq<Slot>
    requires p < |s| && q < |s|
  {
    s[p := s[q]][q := s[p]]
  }

  lemma SwapKeeps(s: seq<Slot>, p: nat, q: nat)
    requires p < |s| && q < |s| && DistinctIds(s)
    ensures DistinctIds(Swap(s, p, q))
    ensures forall e :: Count(Swap(s, p, q), e) == Count(s, e)
  {
    forall e ensures Count(Swap(s, p, q), e) == Count(s, e) {
      CountUpdate(s, p, s[q], e);
      CountUpdate(s[p := s[q]], q, s[p], e);
    }
  }

  ghost function Misplaced(s: seq<Slot>, ids: seq<int>): set<int> {
    set i | 0 <= i < |s| && Occupied(s, i) && !Placed(s, ids, i)
  }

  /** Each swap puts one entry where it belongs for good. */
  lemma SwapPlaces(s: seq<Slot>, ids: seq<int>, p: nat, q: nat)
    requires p < |s| && q < |s| && p != q && DistinctIds(s) && Occupied(s, p) && IndexOf(ids, s[p].id) == q
    ensures Misplaced(Swap(s, p, q), ids) < Misplaced(s, ids)
    ensures Placed(Swap(s, p, q), ids, q)
  {
    var t := Swap(s, p, q);
    assert p in Misplaced(s, ids);
    assert q !in Misplaced(t, ids);
    if Occupied(s, q) {
      assert q in Misplaced(s, ids);
    } else {
      assert p !in Misplaced(t, ids);
    }
    assert Misplaced(t, ids) <= Misplaced(s, ids);
  }

  lemma ReleaseOne(s: seq<Slot>, ids: seq<int>, p: nat)
    requires p < |s| && Occupied(s, p) && IndexOf(ids, s[p].id) < 0 && DistinctIds(s)
    ensures var t := s[p := s[p].(obj := None)];
            && Misplaced(t, ids) < Misplaced(s, ids) && DistinctIds(t)
            && forall e :: Count(s, e) == Count(t, e) + One(s[p], e)
  {
    var t := s[p := s[p].(obj := None)];
    forall e ensures Count(s, e) == Count(t, e) + One(s[p], e) {
      CountUpdate(s, p, s[p].(obj := None), e);
    }
    assert p in Misplaced(s, ids) && p !in Misplaced(t, ids);
  }

  /** What `s` held, `t` holds or was released. */
  ghost predicate Kept(s: seq<Slot>, t: seq<Slot>, released: seq<Slot>) {
    forall e :: Count(s, e) == Count(t, e) + multiset(released)[e]
  }

  /** Every surviving entry is at its branch's index, nothing else is held, and the entries of removed
      branches were released, each once. */
  ghost predicate Reindexed(s: seq<Slot>, t: seq<Slot>, ids: seq<int>, released: seq<Slot>) {
    && |t| == |s|
    && (forall i :: Occupied(t, i) ==> Placed(t, ids, i))
    && (forall e :: e in released ==> IndexOf(ids, e.id) < 0)
    && Kept(s, t, released)
  }

  /** Slot by slot. */
  lemma ReindexedMeaning(s: seq<Slot>, t: seq<Slot>, ids: seq<int>, released: seq<Slot>)
    requires Reindexed(s, t, ids, released)
    ensures forall i :: Occupied(s, i) ==>
              var k := IndexOf(ids, s[i].id);
              if 0 <= k then k < |t| && t[k] == s[i] else s[i] in released
    ensures forall k :: Occupied(t, k) ==> exists i :: Occupied(s, i) && s[i] == t[k]
    ensures forall e :: e in released ==> exists i :: Occupied(s, i) && s[i] == e
  {
    forall i | Occupied(s, i)
      ensures var k := IndexOf(ids, s[i].id); if 0 <= k then k < |t| && t[k] == s[i] else s[i] in released
    {
      CountIn(s, s[i]);
      CountIn(t, s[i]);
    }
    forall k | Occupied(t, k) ensures exists i :: Occupied(s, i) && s[i] == t[k] {
      CountIn(s, t[k]);
      CountIn(t, t[k]);
    }
    forall e | e in released ensures exists i :: Occupied(s, i) && s[i] == e {
      assert e in multiset(released);
      CountIn(s, e);
    }
  }

  lemma {:induction false} CountOnce(s: seq<Slot>, e: Slot)
    requires DistinctIds(s)
    ensures Count(s, e) <= 1
  {
    if s == [] {
    } else {
      var k := |s| - 1;
      assert forall i :: Occupied(s[..k], i) ==> Occupied(s, i) && s[i] == s[..k][i];
      CountOnce(s[..k], e);
      if One(s[k], e) == 1 {
        CountIn(s[..k], e);
        assert Occupied(s, k);
      }
    }
  }

  /** With distinct ids no entry is released twice, or released and kept. */
  lemma ReleasedOnce(s: seq<Slot>, t: seq<Slot>, ids: seq<int>, released: seq<Slot>, e: Slot)
    requires Reindexed(s, t, ids, released) && DistinctIds(s) && e in released
    ensures multiset(released)[e] == 1 && Count(t, e) == 0
  {
    CountOnce(s, e);
    assert e in multiset(released);
  }

  /** What the loops keep: `t` are the slots now, `bindex` is the next one to look at. */
  ghost predicate Half(s: seq<Slot>, t: seq<Slot>, ids: seq<int>, released: seq<Slot>, bindex: int, end: int) {
    && |t| == |s| >= |ids| && DistinctIds(t)
    && Kept(s, t, released)
    && (forall e :: e in released ==> IndexOf(ids, e.id) < 0)
    && forall i :: Occupied(t, i) && !(bindex <= i <= end) ==> Placed(t, ids, i)
  }

  lemma HalfPut(s: seq<Slot>, t: seq<Slot>, ids: seq<int>, released: seq<Slot>, bindex: nat, end: int)
    requires Half(s, t, ids, released, bindex, end) && bindex <= end && Occupied(t, bindex)
    requires IndexOf(ids, t[bindex].id) < 0
    ensures var u := t[bindex := t[bindex].(obj := None)];
            && Half(s, u, ids, released + [t[bindex]], bindex + 1, end)
            && Misplaced(u, ids) < Misplaced(t, ids)
  {
    ReleaseOne(t, ids, bindex);
    var u := t[bindex := t[bindex].(obj := None)];
    var r := released + [t[bindex]];
    forall e ensures Count(s, e) == Count(u, e) + multiset(r)[e] {
      assert multiset(r)[e] == multiset(released)[e] + One(t[bindex], e);
    }
    assert forall i :: Occupied(u, i) ==> Occupied(t, i) && i != bindex && u[i] == t[i];
  }

  lemma HalfSwap(s: seq<Slot>, t: seq<Slot>, ids: seq<int>, released: seq<Slot>, bindex: nat, k: nat, end: int)
    requires Half(s, t, ids, released, bindex, end) && bindex <= end && Occupied(t, bindex)
    requires IndexOf(ids, t[bindex].id) == k != bindex
    ensures k < |t|
    ensures var u := Swap(t, bindex, k);
            && Half(s, u, ids, released, if t[k].obj.Some? then bindex else bindex + 1, end)
            && Misplaced(u, ids) < Misplaced(t, ids)
  {
    SwapKeeps(t, bindex, k);
    SwapPlaces(t, ids, bindex, k);
    var u := Swap(t, bindex, k);
    forall e ensures Count(s, e) == Count(u, e) + multiset(released)[e] {
      assert Count(u, e) == Count(t, e);
    }
    assert forall i :: i != bindex && i != k && Occupied(u, i) ==> Occupied(t, i) && u[i] == t[i];
  }

  lemma HalfStart(s: seq<Slot>, ids: seq<int>, lo: int, hi: int)
    requires DistinctIds(s) && |ids| <= |s| && forall i :: Occupied(s, i) ==> lo <= i <= hi
    ensures Half(s, s, ids, [], lo, hi)
  {}

  lemma HalfWider(s: seq<Slot>, t: seq<Slot>, ids: seq<int>, released: seq<Slot>, bindex: int, end: int, k: int)
    requires Half(s, t, ids, released, bindex, end)
    ensures Half(s, t, ids, released, bindex, if end < k then k else end)
    ensures 0 <= bindex < |t| && Placed(t, ids, bindex) ==> Half(s, t, ids, released, bindex + 1, end)
    ensures 0 <= bindex < |t| && t[bindex].obj.None? ==> Half(s, t, ids, released, bindex + 1, end)
  {}

  lemma HalfDone(s: seq<Slot>, t: seq<Slot>, ids: seq<int>, released: seq<Slot>, bindex: int, end: int)
    requires Half(s, t, ids, released, bindex, end) && end < bindex
    ensures Reindexed(s, t, ids, released)
    ensures forall i :: Occupied(t, i) ==> 0 <= i < |ids|
  {}

  /** struct au_dinfo, struct au_iinfo: the slots and their range. */
  class Info {
    const slots: array<Slot>
    var bstart: int
    var bend: int

    constructor (n: nat)
      ensures slots.Length == n && fresh(slots)
    {
      slots := new Slot[n](_ => Slot(None, -1));
      bstart, bend := -1, -1;
    }

    /** Enough room, distinct ids, nothing outside the range. */
    ghost predicate Ready(ids: seq<int>)
      reads this, slots
    {
      && 0 <= bstart <= bend < slots.Length && |ids| <= slots.Length
      && DistinctIds(slots[..])
      && forall i :: Occupied(slots[..], i) ==> bstart <= i <= bend
    }

    /** Release the slot, whose branch is gone. */
    method Put(bindex: nat, released: seq<Slot>, ghost s0: seq<Slot>, ghost ids: seq<int>, ghost end: int)
        returns (r: seq<Slot>)
      requires Half(s0, slots[..], ids, released, bindex, end) && bindex < slots.Length && bindex <= end
      requires slots[bindex].obj.Some? && IndexOf(ids, slots[bindex].id) < 0
      modifies slots
      ensures slots[..] == old(slots[..])[bindex := old(slots[bindex]).(obj := None)]
      ensures r == released + [old(slots[bindex])]
      ensures forall i :: Occupied(slots[..], i) ==> Occupied(old(slots[..]), i)
      ensures Half(s0, slots[..], ids, r, bindex + 1, end)
      ensures Misplaced(slots[..], ids) < old(Misplaced(slots[..], ids))
    {
      HalfPut(s0, slots[..], ids, released, bindex, end);
      hide Half;
      r := released + [slots[bindex]];
      slots[bindex] := slots[bindex].(obj := None);
      assert slots[..] == old(slots[..])[bindex := old(slots[bindex]).(obj := None)];
    }

    /** Exchange the slot with the one where it belongs; `again` when that one was occupied. */
    method Exchange(bindex: nat, k: nat, ghost released: seq<Slot>, ghost s0: seq<Slot>, ghost ids: seq<int>,
                    ghost end: int)
        returns (again: bool)
      requires Half(s0, slots[..], ids, released, bindex, end) && bindex < slots.Length && bindex <= end
      requires slots[bindex].obj.Some? && IndexOf(ids, slots[bindex].id) == k != bindex
      modifies slots
      ensures k < slots.Length && slots[..] == Swap(old(slots[..]), bindex, k)
      ensures again == old(slots[..])[k].obj.Some?
      ensures forall i :: Occupied(slots[..], i) ==> i == k || i == bindex || Occupied(old(slots[..]), i)
      ensures Half(s0, slots[..], ids, released, if again then bindex else bindex + 1, end)
      ensures Misplaced(slots[..], ids) < old(Misplaced(slots[..], ids))
    {
      HalfSwap(s0, slots[..], ids, released, bindex, k, end);
      hide Half;
      var tmp := slots[k];
      slots[k] := slots[bindex];
      slots[bindex] := tmp;
      again := tmp.obj.Some?;
      assert slots[..] == Swap(old(slots[..]), bindex, k);
    }

    /** The loop of au_do_refresh_hdentry. */
    method RefreshSlots(ids: seq<int>) returns (released: seq<Slot>)
      requires Ready(ids)
      modifies slots
      ensures Reindexed(old(slots[..]), slots[..], ids, released)
    {
      var bindex := bstart;
      released := [];
      while bindex <= bend
        invariant bstart <= bindex <= bend + 1 <= slots.Length
        invariant Half(old(slots[..]), slots[..], ids, released, bindex, bend)
        decreases Misplaced(slots[..], ids), bend + 1 - bindex
      {
        if slots[bindex].obj.None? {
          bindex := bindex + 1;
        } else {
          var newBindex := BrIndex(ids, slots[bindex].id);
          if newBindex == bindex {
            bindex := bindex + 1;
          } else if newBindex < 0 {
            released := Put(bindex, released, old(slots[..]), ids, bend);
            bindex := bindex + 1;
          } else {
            var again := Exchange(bindex, newBindex, released, old(slots[..]), ids, bend);
            if !again {
              bindex := bindex + 1;
            }
          }
        }
      }
    }

    /** bstart and bend are the first and last occupied slot up to `lim`; -1 when there is none. */
    ghost predicate Tight(lim: int)
      reads this, slots
    {
      && (bstart == -1 <==> forall i :: i <= lim ==> !Occupied(slots[..], i))
      && (bstart == -1 ==> bend == -1)
      && (bstart != -1 ==>
            && 0 <= bstart <= bend <= lim && Occupied(slots[..], bstart) && Occupied(slots[..], bend)
            && forall i :: Occupied(slots[..], i) && i <= lim ==> bstart <= i <= bend)
    }

    /** The two scans that find the range again (au_update_ibrange, and the end of
        au_do_refresh_hdentry). */
    method UpdateRange(lim: int)
      requires -1 <= lim < slots.Length
      modifies this`bstart, this`bend
      ensures Tight(lim)
    {
      bstart, bend := -1, -1;
      var bindex := 0;
      while bindex <= lim
        invariant 0 <= bindex <= lim + 1 && bstart == -1 == bend
        invariant forall i :: 0 <= i < bindex ==> !Occupied(slots[..], i)
        decreases lim - bindex
      {
        if slots[bindex].obj.Some? {
          bstart := bindex;
          break;
        }
        bindex := bindex + 1;
      }
      if bstart >= 0 {
        assert Occupied(slots[..], bstart);
        bindex := lim;
        while bindex >= bstart
          invariant bstart <= bindex <= lim && 0 <= bstart && bend == -1 && Occupied(slots[..], bstart)
          invariant forall i :: bindex < i <= lim ==> !Occupied(slots[..], i)
          invariant forall i :: 0 <= i < bstart ==> !Occupied(slots[..], i)
          decreases bindex
        {
          if slots[bindex].obj.Some? {
            bend := bindex;
            break;
          }
          bindex := bindex - 1;
        }
      }
    }

    /** au_do_refresh_hdentry; `pbend` is the end of the parent's range. false is EIO. */
    method RefreshHdentry(ids: seq<int>, pbend: int) returns (ok: bool, released: seq<Slot>)
      requires Ready(ids) && 0 <= pbend < slots.Length
      modifies this, slots
      ensures Reindexed(old(slots[..]), slots[..], ids, released)
      ensures Tight(pbend) && (ok <==> exists i :: Occupied(slots[..], i) && i <= pbend)
    {
      released := RefreshSlots(ids);
      UpdateRange(pbend);
      ok := bstart >= 0;
    }

    /** Widen the range to take in the new index, then exchange. */
    method Widen(bindex: nat, k: nat, ghost released: seq<Slot>, ghost s0: seq<Slot>, ghost ids: seq<int>)
        returns (again: bool)
      requires Half(s0, slots[..], ids, released, bindex, bend) && bstart <= bindex < slots.Length && bindex <= bend
      requires slots[bindex].obj.Some? && IndexOf(ids, slots[bindex].id) == k != bindex
      requires forall i :: Occupied(slots[..], i) ==> i <= bend
      modifies this, slots
      ensures k < slots.Length
      ensures bstart == (if k < old(bstart) then k else old(bstart)) && bend == (if old(bend) < k then k else old(bend))
      ensures Half(s0, slots[..], ids, released, if again then bindex else bindex + 1, bend)
      ensures forall i :: Occupied(slots[..], i) ==> i <= bend
      ensures Misplaced(slots[..], ids) < old(Misplaced(slots[..], ids))
    {
      if k < bstart {
        bstart := k;
      }
      HalfWider(s0, slots[..], ids, released, bindex, bend, k);
      if bend < k {
        bend := k;
      }
      again := Exchange(bindex, k, released, s0, ids, bend);
    }

    /** The loop of au_ii_refresh: here the range grows while the entries move. */
    method IiSlots(ids: seq<int>) returns (update: bool, released: seq<Slot>)
      requires Ready(ids)
      modifies this, slots
      ensures Reindexed(old(slots[..]), slots[..], ids, released)
      ensures update <==> released != []
      ensures forall i :: Occupied(slots[..], i) ==> 0 <= i < |ids|
    {
      update := false;
      HalfStart(slots[..], ids, bstart, bend);
      hide Half, Misplaced, Kept, DistinctIds, Occupied, Swap, Reindexed;
      var bindex := bstart;
      released := [];
      while bindex <= bend
        invariant 0 <= bstart <= bindex <= bend + 1 <= slots.Length
        invariant Half(old(slots[..]), slots[..], ids, released, bindex, bend)
        invariant forall i :: Occupied(slots[..], i) ==> i <= bend
        invariant update <==> released != []
        decreases Misplaced(slots[..], ids), slots.Length - bindex
      {
        HalfWider(old(slots[..]), slots[..], ids, released, bindex, bend, bend);
        if slots[bindex].obj.None? {
          bindex := bindex + 1;
        } else {
          var newBindex := BrIndex(ids, slots[bindex].id);
          if newBindex == bindex {
            bindex := bindex + 1;
          } else if newBindex < 0 {
            update := true;
            released := Put(bindex, released, old(slots[..]), ids, bend);
            bindex := bindex + 1;
          } else {
            var again := Widen(bindex, newBindex, released, old(slots[..]), ids);
            if !again {
              bindex := bindex + 1;
            }
          }
        }
      }
      HalfDone(old(slots[..]), slots[..], ids, released, bindex, bend);
    }

    /** au_ii_refresh */
    method IiRefresh(ids: seq<int>) returns (update: bool, released: seq<Slot>)
      requires Ready(ids)
      modifies this, slots
      ensures Reindexed(old(slots[..]), slots[..], ids, released)
      ensures update <==> released != []
      ensures Tight(slots.Length - 1)
    {
      update, released := IiSlots(ids);
      UpdateRange(|ids| - 1);
    }
  }
}
