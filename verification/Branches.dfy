/** Branch ids from a wrapping counter (sbinfo.c), and the three arrays that change together when a
    branch is added or removed (branch.c). */
module Branches {
  import opened Basics

  /** AUFS_BRANCH_MAX and the number of values si_last_br_id can take. */
  datatype Config = Config(max: nat, width: nat) {
    predicate Valid() {
      this in {Config(127, 128), Config(511, 32768), Config(1023, 32768), Config(32767, 32768)}
    }
  }

  /** The counter after `i` increments. */
  function Counter(c: Config, last: nat, i: nat): (v: nat)
    requires last < c.width && i <= c.width
    ensures v < c.width
  {
    if last + i < c.width then last + i else last + i - c.width
  }

  ghost predicate Distinct(ids: seq<int>) {
    forall i, j :: 0 <= i < j < |ids| ==> ids[i] != ids[j]
  }

  /** The values of the first `i` tries. */
  ghost function Tried(c: Config, last: nat, i: nat): set<int>
    requires last < c.width && i <= c.width
  {
    if i == 0 then {} else Tried(c, last, i - 1) + {Counter(c, last, i)}
  }

  lemma {:induction false} TriedDistinct(c: Config, last: nat, i: nat, j: nat)
    requires last < c.width && i < j <= c.width
    ensures Counter(c, last, j) !in Tried(c, last, i)
  {
    if i == 0 {
    } else {
      TriedDistinct(c, last, i - 1, j);
    }
  }

  lemma {:induction false} TriedSize(c: Config, last: nat, i: nat)
    requires last < c.width && i <= c.width
    ensures |Tried(c, last, i)| == i
  {
    if i == 0 {
    } else {
      TriedSize(c, last, i - 1);
      TriedDistinct(c, last, i - 1, i);
    }
  }

  lemma SubsetSize(a: set<int>, b: set<int>)
    requires a <= b
    ensures |a| <= |b|
  {
    assert b == a + (b - a);
  }

  lemma {:induction false} SeqSetSize(ids: seq<int>)
    ensures |set x | x in ids| <= |ids|
  {
    if ids == [] {
    } else {
      var k := |ids| - 1;
      SeqSetSize(ids[..k]);
      assert (set x | x in ids) == (set x | x in ids[..k]) + {ids[k]} by {
        assert ids == ids[..k] + [ids[k]];
      }
    }
  }

  /** Not all of `i` tries can be zero or in use. */
  lemma Pigeonhole(c: Config, last: nat, i: nat, ids: seq<int>)
    requires last < c.width && i <= c.width && |ids| + 1 < i
    ensures !(Tried(c, last, i) <= (set x | x in ids) + {0})
  {
    TriedSize(c, last, i);
    SeqSetSize(ids);
    var bad := (set x | x in ids) + {0};
    assert |bad| <= |ids| + 1;
    if Tried(c, last, i) <= bad {
      SubsetSize(Tried(c, last, i), bad);
    }
  }

  /** memmove of `amount` elements one place up. */
  method ShiftUp<T>(a: array<T>, at: nat, amount: nat)
    requires at + amount < a.Length
    modifies a
    ensures a[..at + 1] == old(a[..at + 1]) && a[at + 1..at + 1 + amount] == old(a[at..at + amount])
    ensures a[at + 1 + amount..] == old(a[at + 1 + amount..])
  {
    var k := amount;
    while k > 0
      invariant 0 <= k <= amount
      invariant forall i :: 0 <= i < a.Length && !(at + k < i <= at + amount) ==> a[i] == old(a[i])
      invariant forall i :: at + k < i <= at + amount ==> a[i] == old(a[i - 1])
    {
      a[at + k] := a[at + k - 1];
      k := k - 1;
    }
  }

  /** memmove of `amount` elements one place down. */
  method ShiftDown<T>(a: array<T>, at: nat, amount: nat)
    requires at + amount < a.Length
    modifies a
    ensures a[..at] == old(a[..at]) && a[at..at + amount] == old(a[at + 1..at + 1 + amount])
    ensures a[at + amount..] == old(a[at + amount..])
  {
    var k := 0;
    while k < amount
      invariant 0 <= k <= amount
      invariant forall i :: 0 <= i < a.Length && !(at <= i < at + k) ==> a[i] == old(a[i])
      invariant forall i :: at <= i < at + k ==> a[i] == old(a[i + 1])
    {
      a[at + k] := a[at + k + 1];
      k := k + 1;
    }
  }

  /** The bodies of au_br_do_add_brp, _hdp and _hip. */
  method Insert<T>(a: array<T>, bindex: nat, n: nat, x: T)
    requires bindex <= n < a.Length
    modifies a
    ensures a[..n + 1] == old(a[..bindex]) + [x] + old(a[bindex..n])
  {
    ShiftUp(a, bindex, n - bindex);
    a[bindex] := x;
    assert a[..n + 1] == a[..bindex] + [x] + a[bindex + 1..n + 1];
  }

  /** The bodies of au_br_do_del_brp, _hdp and _hip; `nil` is written behind the last. */
  method Remove<T>(a: array<T>, bindex: nat, n: nat, nil: T)
    requires bindex < n <= a.Length
    modifies a
    ensures a[..n - 1] == old(a[..bindex]) + old(a[bindex + 1..n])
    ensures a[n - 1] == nil
  {
    if bindex < n - 1 {
      ShiftDown(a, bindex, n - 1 - bindex);
    }
    a[n - 1] := nil;
    assert a[..n - 1] == a[..bindex] + a[bindex..n - 1];
  }

  /** au_kzrealloc, when there is not enough room. */
  method Realloc<T>(a: array<T>, n: nat, nil: T) returns (b: array<T>)
    ensures b == a || fresh(b)
    ensures b.Length >= n && b.Length >= a.Length && b[..a.Length] == a[..]
  {
    if n <= a.Length {
      return a;
    }
    b := new T[n](_ => nil);
    for i := 0 to a.Length
      invariant b[..i] == a[..i]
    {
      b[i] := a[i];
    }
  }

  /** struct au_branch: its id, and the dentry and inode of its root directory. */
  datatype Branch = Branch(id: int, hDentry: nat, hInode: nat)

  datatype Error = EINVAL | ENOSPC | EDOM | ENOENT | EBUSY

  function Ids(brs: seq<Branch>): (ids: seq<int>)
    ensures |ids| == |brs| && forall i :: 0 <= i < |brs| ==> ids[i] == brs[i].id
  {
    seq(|brs|, i requires 0 <= i < |brs| => brs[i].id)
  }

  function Dentries(brs: seq<Branch>): (d: seq<Option<nat>>)
    ensures |d| == |brs| && forall i :: 0 <= i < |brs| ==> d[i] == Some(brs[i].hDentry)
  {
    seq(|brs|, i requires 0 <= i < |brs| => Some(brs[i].hDentry))
  }

  function Inodes(brs: seq<Branch>): (d: seq<Option<nat>>)
    ensures |d| == |brs| && forall i :: 0 <= i < |brs| ==> d[i] == Some(brs[i].hInode)
  {
    seq(|brs|, i requires 0 <= i < |brs| => Some(brs[i].hInode))
  }

  /** The parts of the super block, of the root's dentry and of the root's inode that hold the branches. */
  class Super {
    const c: Config
    var lastBrId: nat
    var bend: int
    var branch: array<Option<Branch>>
    var dbend: int
    var hdentry: array<Option<nat>>
    var ibend: int
    var hinode: array<Option<nat>>
    /** The branches, top first. */
    ghost var brs: seq<Branch>

    ghost predicate Valid()
      reads this, branch, hdentry, hinode
    {
      && c.Valid() && lastBrId < c.width && |brs| <= c.max
      && bend == dbend == ibend == |brs| - 1
      && |brs| <= branch.Length && |brs| <= hdentry.Length && |brs| <= hinode.Length
      && hdentry != hinode && branch[..|brs|] == Filled(brs)
      && hdentry[..|brs|] == Dentries(brs) && hinode[..|brs|] == Inodes(brs)
      && Distinct(Ids(brs)) && forall br :: br in brs ==> 0 < br.id < c.width
    }

    constructor (c: Config)
      requires c.Valid()
      ensures Valid() && brs == [] && this.c == c
      ensures fresh(branch) && fresh(hdentry) && fresh(hinode)
    {
      this.c := c;
      lastBrId, bend, dbend, ibend := 0, -1, -1, -1;
      branch := new Option<Branch>[1](_ => None);
      hdentry := new Option<nat>[1](_ => None);
      hinode := new Option<nat>[1](_ => None);
      brs := [];
    }

    /** au_br_index */
    method BrIndex(id: int) returns (r: int)
      requires Valid()
      ensures r == -1 <==> id !in Ids(brs)
      ensures r != -1 ==> 0 <= r < |brs| && brs[r].id == id
    {
      var bindex := 0;
      while bindex <= bend
        invariant 0 <= bindex <= |brs| && forall i :: 0 <= i < bindex ==> brs[i].id != id
      {
        assert branch[..|brs|][bindex] == Some(brs[bindex]);
        if branch[bindex].value.id == id {
          return bindex;
        }
        bindex := bindex + 1;
      }
      return -1;
    }

    /** au_new_br_id: it always finds an id that is not zero and not in use. */
    method NewBrId() returns (id: int)
      requires Valid() && |brs| + 1 <= c.max
      modifies this`lastBrId
      ensures Valid() && 0 < id < c.width && id !in Ids(brs) && lastBrId == id
    {
      ghost var last, ids := lastBrId, Ids(brs);
      var i := 0;
      while i <= c.max
        invariant 0 <= i <= c.max + 1 && i <= c.width && lastBrId == Counter(c, last, i)
        invariant Tried(c, last, i) <= (set x | x in ids) + {0}
        invariant Valid()
      {
        lastBrId := if lastBrId + 1 == c.width then 0 else lastBrId + 1;
        id := lastBrId;
        if id != 0 {
          var r := BrIndex(id);
          if r < 0 {
            return;
          }
        }
        i := i + 1;
      }
      Pigeonhole(c, last, i, ids);
      assert false;
    }

    /** au_find_dbindex on the root: the branch whose directory this is, or -1. */
    method FindDbindex(h: nat) returns (r: int)
      requires Valid()
      ensures r == -1 <==> forall i :: 0 <= i < |brs| ==> brs[i].hDentry != h
      ensures r != -1 ==> 0 <= r < |brs| && brs[r].hDentry == h
    {
      var bindex := 0;
      while bindex <= dbend
        invariant 0 <= bindex <= |brs| && forall i :: 0 <= i < bindex ==> brs[i].hDentry != h
      {
        assert hdentry[..|brs|][bindex] == Some(brs[bindex].hDentry);
        if hdentry[bindex] == Some(h) {
          return bindex;
        }
        bindex := bindex + 1;
      }
      return -1;
    }

    /** The reallocations of au_br_alloc. */
    method MakeRoom()
      requires Valid()
      modifies this`branch, this`hdentry, this`hinode
      ensures Valid() && bend + 1 < branch.Length && bend + 1 < hdentry.Length && bend + 1 < hinode.Length
      ensures (branch == old(branch) || fresh(branch)) && (hdentry == old(hdentry) || fresh(hdentry))
      ensures hinode == old(hinode) || fresh(hinode)
    {
      ghost var n := |brs|;
      ghost var a, b, d := branch[..], hdentry[..], hinode[..];
      branch := Realloc(branch, bend + 2, None);
      hdentry := Realloc(hdentry, bend + 2, None);
      hinode := Realloc(hinode, bend + 2, None);
      InsertSlices(branch[..], n, |a|);
      InsertSlices(hdentry[..], n, |b|);
      InsertSlices(hinode[..], n, |d|);
      assert branch[..n] == a[..n] && hdentry[..n] == b[..n] && hinode[..n] == d[..n];
    }

    /** au_br_do_add: the same insertion in all three arrays. */
    method DoAdd(br: Branch, bindex: nat)
      requires Valid() && bindex <= |brs| && |brs| + 1 <= c.max
      requires bend + 1 < branch.Length && bend + 1 < hdentry.Length && bend + 1 < hinode.Length
      requires 0 < br.id < c.width && br.id !in Ids(brs)
      modifies this`bend, this`dbend, this`ibend, this`brs, branch, hdentry, hinode
      ensures Valid() && brs == old(brs)[..bindex] + [br] + old(brs)[bindex..]
    {
      InsertMaps(brs, bindex, br);
      InsertIds(brs, bindex, br);
      ghost var now := brs[..bindex] + [br] + brs[bindex..];
      assert |now| == |brs| + 1 && forall x :: x in now ==> x == br || x in brs;
      hide Filled, Dentries, Inodes, Ids, Distinct;
      InsertSlots(br, bindex, bend + 1);
      bend, dbend, ibend := bend + 1, dbend + 1, ibend + 1;
      brs := now;
    }

    method InsertSlots(br: Branch, bindex: nat, n: nat)
      requires bindex <= n < branch.Length && n < hdentry.Length && n < hinode.Length && hdentry != hinode
      modifies branch, hdentry, hinode
      ensures branch[..n + 1] == old(branch[..n])[..bindex] + [Some(br)] + old(branch[..n])[bindex..]
      ensures hdentry[..n + 1] == old(hdentry[..n])[..bindex] + [Some(br.hDentry)] + old(hdentry[..n])[bindex..]
      ensures hinode[..n + 1] == old(hinode[..n])[..bindex] + [Some(br.hInode)] + old(hinode[..n])[bindex..]
    {
      InsertSlices(branch[..], bindex, n);
      InsertSlices(hdentry[..], bindex, n);
      InsertSlices(hinode[..], bindex, n);
      Insert(branch, bindex, n, Some(br));
      Insert(hdentry, bindex, n, Some(br.hDentry));
      Insert(hinode, bindex, n, Some(br.hInode));
    }

    /** au_br_do_del: the same removal from all three arrays. */
    method DoDel(bindex: nat)
      requires Valid() && bindex < |brs|
      modifies this, branch, hdentry, hinode
      ensures Valid() && brs == old(brs)[..bindex] + old(brs)[bindex + 1..] && lastBrId == old(lastBrId)
      ensures branch == old(branch) && hdentry == old(hdentry) && hinode == old(hinode)
    {
      ghost var n := |brs|;
      RemoveMaps(brs, bindex);
      RemoveSlices(branch[..], bindex, n);
      RemoveSlices(hdentry[..], bindex, n);
      RemoveSlices(hinode[..], bindex, n);
      Remove(branch, bindex, bend + 1, None);
      Remove(hdentry, bindex, bend + 1, None);
      Remove(hinode, bindex, bend + 1, None);
      bend, dbend, ibend := bend - 1, dbend - 1, ibend - 1;
      brs := brs[..bindex] + brs[bindex + 1..];
    }

    /** au_br_add, as far as the checks of test_add concern indices and counts. */
    method Add(at: int, hDentry: nat, hInode: nat, remount: bool) returns (r: Outcome)
      requires Valid()
      modifies this, branch, hdentry, hinode
      ensures Valid()
      ensures r.Done? ==> 0 <= at <= |old(brs)| && |brs| == |old(brs)| + 1
                          && brs == old(brs)[..at] + [brs[at]] + old(brs)[at..]
                          && brs[at].hDentry == hDentry && brs[at].hInode == hInode && brs[at].id !in Ids(old(brs))
      ensures !r.Done? ==> brs == old(brs)
      ensures r == if exists i :: 0 <= i < |old(brs)| && old(brs)[i].hDentry == hDentry then
                     if remount then Nothing else Failed(EINVAL)
                   else if at >= c.max || |old(brs)| == c.max then Failed(ENOSPC)
                   else if at < 0 || at > |old(brs)| then Failed(EDOM)
                   else Done
    {
      var found := FindDbindex(hDentry);
      if found >= 0 {
        return if remount then Nothing else Failed(EINVAL);
      }
      if c.max <= at || c.max - 1 <= bend {
        return Failed(ENOSPC);
      }
      if at < 0 || bend + 1 < at {
        return Failed(EDOM);
      }
      var id := NewBrId();
      MakeRoom();
      DoAdd(Branch(id, hDentry, hInode), at);
      return Done;
    }

    /** au_br_del; `busy` tells whether a file on the branch is in use. */
    method Del(hDentry: nat, remount: bool, busy: bool) returns (r: Outcome)
      requires Valid()
      modifies this, branch, hdentry, hinode
      ensures Valid()
      ensures r.Done? ==> exists i :: 0 <= i < |old(brs)| && old(brs)[i].hDentry == hDentry
                                      && brs == old(brs)[..i] + old(brs)[i + 1..]
      ensures !r.Done? ==> brs == old(brs)
      ensures r == if forall i :: 0 <= i < |old(brs)| ==> old(brs)[i].hDentry != hDentry then
                     if remount then Nothing else Failed(ENOENT)
                   else if |old(brs)| == 1 || busy then Failed(EBUSY)
                   else Done
    {
      var bindex := FindDbindex(hDentry);
      if bindex < 0 {
        return if remount then Nothing else Failed(ENOENT);
      }
      if bend == 0 || busy {
        return Failed(EBUSY);
      }
      DoDel(bindex);
      return Done;
    }
  }

  datatype Outcome = Done | Nothing | Failed(error: Error)

  lemma InsertMaps(brs: seq<Branch>, k: nat, br: Branch)
    requires k <= |brs|
    ensures var r := brs[..k] + [br] + brs[k..];
            && Filled(r) == Filled(brs)[..k] + [Some(br)] + Filled(brs)[k..]
            && Dentries(r) == Dentries(brs)[..k] + [Some(br.hDentry)] + Dentries(brs)[k..]
            && Inodes(r) == Inodes(brs)[..k] + [Some(br.hInode)] + Inodes(brs)[k..]
            && (Distinct(Ids(brs)) && br.id !in Ids(brs) ==> Distinct(Ids(r)))
  {
    var r := brs[..k] + [br] + brs[k..];
    forall i | 0 <= i < |r| && i != k ensures r[i] == brs[if i < k then i else i - 1] {}
    if br.id !in Ids(brs) {
      forall i | 0 <= i < |brs| ensures brs[i].id != br.id {
        assert Ids(brs)[i] == brs[i].id;
      }
    }
  }

  lemma InsertIds(brs: seq<Branch>, k: nat, br: Branch)
    requires k <= |brs|
    ensures forall x :: x in brs[..k] + [br] + brs[k..] ==> x == br || x in brs
  {}

  lemma RemoveMaps(brs: seq<Branch>, k: nat)
    requires k < |brs|
    ensures var r := brs[..k] + brs[k + 1..];
            && Filled(r) == Filled(brs)[..k] + Filled(brs)[k + 1..]
            && Dentries(r) == Dentries(brs)[..k] + Dentries(brs)[k + 1..]
            && Inodes(r) == Inodes(brs)[..k] + Inodes(brs)[k + 1..]
            && (Distinct(Ids(brs)) ==> Distinct(Ids(r)))
  {
    var r := brs[..k] + brs[k + 1..];
    forall i | 0 <= i < |r| ensures r[i] == brs[if i < k then i else i + 1] {}
  }

  lemma InsertSlices<T>(a: seq<T>, k: nat, n: nat)
    requires k <= n <= |a|
    ensures a[..k] == a[..n][..k] && a[k..n] == a[..n][k..]
  {}

  lemma RemoveSlices<T>(a: seq<T>, k: nat, n: nat)
    requires k < n <= |a|
    ensures a[..k] == a[..n][..k] && a[k + 1..n] == a[..n][k + 1..]
  {}

  function Filled(brs: seq<Branch>): (d: seq<Option<Branch>>)
    ensures |d| == |brs| && forall i :: 0 <= i < |brs| ==> d[i] == Some(brs[i])
  {
    seq(|brs|, i requires 0 <= i < |brs| => Some(brs[i]))
  }
}
