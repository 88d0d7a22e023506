/** The bitmap of used inode numbers (xino.c): a file of pages seen through one cached page, the search
    for a free number, and the rebuild that "truncation" makes from the branches' tables. Every read and
    write moves a whole page. */
module Xib {

  const PAGE_BITS: nat := 4096 * 8
  const AUFS_FIRST_INO: nat := 11
  const ULONG_MAX: nat := 0xFFFF_FFFF_FFFF_FFFF

  /** xib_calc_ino */
  function CalcIno(pindex: nat, bit: nat): (ino: nat)
    ensures ino >= AUFS_FIRST_INO
  {
    AUFS_FIRST_INO + pindex * PAGE_BITS + bit
  }

  /** xib_calc_bit */
  function CalcBit(ino: nat): (p: (nat, nat))
    requires ino >= AUFS_FIRST_INO
    ensures p.1 < PAGE_BITS
  {
    ((ino - AUFS_FIRST_INO) / PAGE_BITS, (ino - AUFS_FIRST_INO) % PAGE_BITS)
  }

  /** The two are inverse to each other. */
  lemma CalcRoundTrip(ino: nat, pindex: nat, bit: nat)
    requires ino >= AUFS_FIRST_INO && bit < PAGE_BITS
    ensures CalcIno(CalcBit(ino).0, CalcBit(ino).1) == ino
    ensures CalcBit(CalcIno(pindex, bit)) == (pindex, bit)
  {}

  type Page = p: seq<bool> | |p| == PAGE_BITS witness Zero()

  function Zero(): seq<bool> {
    seq(PAGE_BITS, _ => false)
  }

  /** Writing a page behind the end leaves a hole that reads as zeros. */
  function WritePage(file: seq<Page>, at: nat, p: Page): (r: seq<Page>)
    ensures |r| == if at < |file| then |file| else at + 1
    ensures forall i :: 0 <= i < |r| ==> r[i] == if i == at then p else if i < |file| then file[i] else Zero()
  {
    if at < |file| then file[at := p]
    else file + seq(at - |file|, _ => Zero()) + [p]
  }

  datatype Branch = Branch(sb: nat, table: seq<nat>)

  /** The part of au_sbinfo that keeps the bitmap. */
  class Bitmap {
    var file: seq<Page>
    const buf: array<bool>
    var lastPindex: nat
    var nextBit: nat

    ghost predicate Valid()
      reads this, buf
    {
      buf.Length == PAGE_BITS && file != []
    }

    /** The bit of page `pi`, whether the page is cached or in the file; false behind the file's end. */
    ghost predicate Marked(pi: nat, bit: nat)
      requires buf.Length == PAGE_BITS
      reads this, buf
    {
      bit < PAGE_BITS && if pi == lastPindex then buf[bit] else pi < |file| && file[pi][bit]
    }

    ghost predicate IsUsed(ino: nat)
      requires buf.Length == PAGE_BITS
      reads this, buf
    {
      ino >= AUFS_FIRST_INO && Marked(CalcBit(ino).0, CalcBit(ino).1)
    }

    /** xino_init: a file of one empty page. */
    constructor ()
      ensures Valid() && lastPindex == 0 && nextBit == 0 && fresh(buf)
      ensures forall pi, bit :: !Marked(pi, bit)
    {
      file := [Zero()];
      buf := new bool[PAGE_BITS](_ => false);
      lastPindex, nextBit := 0, 0;
    }

    /** xib_pindex: cache page `pindex`. The set of used numbers stays. */
    method XibPindex(pindex: nat)
      requires Valid()
      modifies this`file, this`lastPindex, buf
      ensures Valid() && lastPindex == pindex
      ensures forall pi, bit :: Marked(pi, bit) == old(Marked(pi, bit))
      ensures |file| >= old(|file|) && (pindex != old(lastPindex) ==> |file| > old(lastPindex))
      ensures pindex < old(|file|) && old(lastPindex) < old(|file|) ==> |file| == old(|file|)
      ensures |file| <= old(|file|) || |file| <= old(lastPindex) + 1 || |file| <= pindex + 1
    {
      if pindex == lastPindex {
        return;
      }
      file := WritePage(file, lastPindex, buf[..]);
      if pindex + 1 <= |file| {
        var p := file[pindex];
        forall i | 0 <= i < PAGE_BITS {
          buf[i] := p[i];
        }
      } else {
        forall i | 0 <= i < PAGE_BITS {
          buf[i] := false;
        }
        file := WritePage(file, pindex, buf[..]);
      }
      lastPindex := pindex;
    }

    /** au_xib_clear_bit */
    method ClearBit(ino: nat)
      requires Valid() && ino >= AUFS_FIRST_INO
      modifies this, buf
      ensures Valid()
      ensures forall i: nat :: IsUsed(i) <==> old(IsUsed(i)) && i != ino
    {
      var (pindex, bit) := CalcBit(ino);
      XibPindex(pindex);
      label L:
      buf[bit] := false;
      nextBit := bit;
      forall i: nat | i >= AUFS_FIRST_INO && CalcBit(i) == (pindex, bit) ensures i == ino {
        CalcRoundTrip(i, 0, 0);
        CalcRoundTrip(ino, 0, 0);
      }
    }

    /** find_first_zero_bit */
    method FindFirstZeroBit() returns (bit: nat)
      requires buf.Length == PAGE_BITS
      ensures bit <= PAGE_BITS && (bit < PAGE_BITS ==> !buf[bit])
      ensures forall i :: 0 <= i < bit ==> buf[i]
    {
      bit := 0;
      while bit < PAGE_BITS && buf[bit]
        invariant bit <= PAGE_BITS && forall i :: 0 <= i < bit ==> buf[i]
      {
        bit := bit + 1;
      }
    }

    /** The bits are those of before. */
    twostate predicate SameBits()
      requires buf.Length == PAGE_BITS
      reads this, buf
    {
      forall pi, bit :: Marked(pi, bit) == old(Marked(pi, bit))
    }

    /** No number of the page is free. */
    ghost predicate Full(pi: nat)
      requires buf.Length == PAGE_BITS
      reads this, buf
    {
      forall bit :: 0 <= bit < PAGE_BITS ==> Marked(pi, bit)
    }

    /** Set a free bit of the cached page (the label out of au_xino_new_ino). */
    method TakeBit(freeBit: nat) returns (ino: nat)
      requires Valid() && freeBit < PAGE_BITS && !buf[freeBit]
      modifies this`nextBit, buf
      ensures Valid() && ino >= AUFS_FIRST_INO && !old(IsUsed(ino)) && CalcBit(ino).0 == lastPindex
      ensures forall i: nat :: IsUsed(i) <==> old(IsUsed(i)) || i == ino
    {
      buf[freeBit] := true;
      nextBit := freeBit + 1;
      ino := CalcIno(lastPindex, freeBit);
      CalcRoundTrip(ino, lastPindex, freeBit);
      forall i: nat | i >= AUFS_FIRST_INO && CalcBit(i) == (lastPindex, freeBit) ensures i == ino {
        CalcRoundTrip(i, 0, 0);
      }
    }

    /** The scan of the pages before the cached one; `ul` wraps round below page 0. */
    method ScanDown() returns (freeBit: nat)
      requires Valid() && lastPindex < ULONG_MAX
      modifies this`file, this`lastPindex, buf
      ensures Valid() && SameBits()
      ensures freeBit < PAGE_BITS ==> !buf[freeBit]
      ensures freeBit >= PAGE_BITS ==> old(lastPindex) < |file| && lastPindex < |file|
      ensures freeBit >= PAGE_BITS ==> forall pi: nat :: pi < old(lastPindex) ==> old(Full(pi))
      ensures freeBit < PAGE_BITS ==> lastPindex < old(lastPindex)
    {
      var pindex := lastPindex;
      var ul: nat := if pindex == 0 then ULONG_MAX else pindex - 1;
      while ul < ULONG_MAX
        invariant Valid() && SameBits()
        invariant ul == ULONG_MAX || ul < pindex
        invariant lastPindex == if ul == ULONG_MAX then 0 else ul + 1
        invariant pindex < |file| || (lastPindex == pindex > 0 && ul != ULONG_MAX)
        invariant forall pi: nat :: lastPindex <= pi < pindex ==> old(Full(pi))
        decreases if ul == ULONG_MAX then 0 else ul + 1
      {
        XibPindex(ul);
        freeBit := FindFirstZeroBit();
        if freeBit < PAGE_BITS {
          return;
        }
        assert old(Full(ul)) by {
          forall bit | 0 <= bit < PAGE_BITS ensures old(Marked(ul, bit)) {
            assert Marked(ul, bit);
          }
        }
        ul := if ul == 0 then ULONG_MAX else ul - 1;
      }
      return PAGE_BITS;
    }

    /** The scan of the pages behind `pindex`. The page behind the end of the file is empty, so it finds. */
    method ScanUp(pindex: nat) returns (freeBit: nat)
      requires Valid() && pindex < |file| && lastPindex < |file|
      modifies this`file, this`lastPindex, buf
      ensures Valid() && SameBits()
      ensures freeBit < PAGE_BITS && !buf[freeBit]
      ensures forall pi: nat :: pindex < pi < lastPindex ==> old(Full(pi))
    {
      var pend := |file|;
      var ul := pindex + 1;
      while ul <= pend
        invariant Valid() && SameBits()
        invariant pindex < ul <= pend == |file| && lastPindex < pend
        invariant forall pi: nat :: pindex < pi < ul ==> old(Full(pi))
      {
        assert ul == pend ==> !Marked(ul, 0);
        XibPindex(ul);
        assert ul == pend ==> !buf[0];
        freeBit := FindFirstZeroBit();
        if freeBit < PAGE_BITS {
          return;
        }
        assert old(Full(ul)) by {
          forall bit | 0 <= bit < PAGE_BITS ensures old(Marked(ul, bit)) {
            assert Marked(ul, bit);
          }
        }
        ul := ul + 1;
      }
      assert false; // BUG()
    }

    /** au_xino_new_ino: one number that was free becomes used; one behind the last page only if there is no
        free number before. */
    method NewIno() returns (ino: nat)
      requires Valid() && lastPindex < ULONG_MAX
      modifies this, buf
      ensures Valid() && ino >= AUFS_FIRST_INO && !old(IsUsed(ino))
      ensures forall i: nat :: IsUsed(i) <==> old(IsUsed(i)) || i == ino
      ensures CalcBit(ino).0 >= old(|file|) && CalcBit(ino).0 > old(lastPindex) ==>
                forall pi: nat :: pi < CalcBit(ino).0 ==> old(Full(pi))
    {
      var freeBit := nextBit;
      if !(freeBit < PAGE_BITS && !buf[freeBit]) {
        freeBit := FindFirstZeroBit();
        if freeBit >= PAGE_BITS {
          var pindex := lastPindex;
          assert old(Full(pindex)) by {
            forall bit | 0 <= bit < PAGE_BITS ensures old(Marked(pindex, bit)) {
              assert buf[bit];
            }
          }
          label Here:
          freeBit := ScanDown();
          if freeBit >= PAGE_BITS {
            forall pi: nat | pi < pindex ensures old(Full(pi)) {
              assert old@Here(Full(pi));
            }
            label Down:
            freeBit := ScanUp(pindex);
            forall pi: nat | pindex < pi < lastPindex ensures old(Full(pi)) {
              assert old@Down(Full(pi));
              forall bit | 0 <= bit < PAGE_BITS ensures old(Marked(pi, bit)) {
                assert old@Down(Marked(pi, bit));
              }
            }
            assert forall pi: nat :: pi < lastPindex ==> old(Full(pi));
          }
        }
      }
      ino := TakeBit(freeBit);
    }

    // ----- rebuilding the bitmap

    /** Mark `ino` (the body of the loop of do_xib_restore). */
    method Mark(ino: nat)
      requires Valid() && ino >= AUFS_FIRST_INO
      modifies this, buf
      ensures Valid() && nextBit == old(nextBit) && lastPindex == CalcBit(ino).0
      ensures |file| <= old(|file|) || |file| <= old(lastPindex) + 1 || |file| <= lastPindex + 1
      ensures forall i: nat :: IsUsed(i) <==> old(IsUsed(i)) || i == ino
    {
      var (pindex, bit) := CalcBit(ino);
      XibPindex(pindex);
      buf[bit] := true;
      forall i: nat | i >= AUFS_FIRST_INO && CalcBit(i) == (pindex, bit) ensures i == ino {
        CalcRoundTrip(i, 0, 0);
        CalcRoundTrip(ino, 0, 0);
      }
    }

    /** The file has at most `n` pages, also when the cached one is written back. */
    ghost predicate Short(n: nat)
      reads this
    {
      |file| <= n && lastPindex < n
    }

    /** do_xib_restore: mark every number of a table. */
    method DoXibRestore(table: seq<nat>)
      requires Valid()
      modifies this, buf
      ensures Valid() && nextBit == old(nextBit)
      ensures forall i: nat :: IsUsed(i) <==> old(IsUsed(i)) || (i >= AUFS_FIRST_INO && i in table)
      ensures forall n :: old(Short(n)) && TableShort(table, n) ==> Short(n)
    {
      for k := 0 to |table|
        invariant Valid() && nextBit == old(nextBit)
        invariant forall i: nat :: IsUsed(i) <==> old(IsUsed(i)) || (i >= AUFS_FIRST_INO && i in table[..k])
        invariant forall n :: old(Short(n)) && TableShort(table, n) ==> Short(n)
      {
        if table[k] >= AUFS_FIRST_INO {
          Mark(table[k]);
        }
        assert table[..k + 1] == table[..k] + [table[k]];
      }
      assert table[..|table|] == table;
    }

    /** xib_restore: every table once; branches of one file system share theirs. */
    method XibRestore(brs: seq<Branch>)
      requires Valid() && SharedTables(brs)
      modifies this, buf
      ensures Valid() && nextBit == old(nextBit)
      ensures forall i: nat :: IsUsed(i) <==> old(IsUsed(i)) || (i >= AUFS_FIRST_INO && InTables(brs, |brs|, i))
      ensures forall n :: old(Short(n)) && TablesShort(brs, n) ==> Short(n)
    {
      for bindex := 0 to |brs|
        invariant Valid() && nextBit == old(nextBit)
        invariant forall i: nat :: IsUsed(i) <==> old(IsUsed(i)) || (i >= AUFS_FIRST_INO && InTables(brs, bindex, i))
        invariant forall n :: old(Short(n)) && TablesShort(brs, n) ==> Short(n)
      {
        var shared := IsSbShared(brs, bindex, bindex - 1);
        if bindex == 0 || shared < 0 {
          DoXibRestore(brs[bindex].table);
        }
      }
    }

    /** au_xib_trunc. A bitmap of more than one page is built anew: a number is used exactly when it is in
        some branch's table, and the file is no longer than these numbers and the cached page ask for. The cached
        page index is not reset. */
    method XibTrunc(brs: seq<Branch>)
      requires Valid() && SharedTables(brs)
      modifies this, buf
      ensures Valid()
      ensures old(|file|) <= 1 ==> forall i: nat :: IsUsed(i) == old(IsUsed(i))
      ensures old(|file|) > 1 ==> forall i: nat :: IsUsed(i) <==> i >= AUFS_FIRST_INO && InTables(brs, |brs|, i)
      ensures old(|file|) > 1 ==>
                forall n :: 0 < n && old(lastPindex) < n && TablesShort(brs, n) ==> |file| <= n
    {
      if |file| <= 1 {
        return;
      }
      forall i | 0 <= i < PAGE_BITS {
        buf[i] := false;
      }
      file := [buf[..]];
      assert forall i: nat :: !IsUsed(i);
      XibRestore(brs);
    }
  }

  /** Branches on one file system have one table. */
  ghost predicate SharedTables(brs: seq<Branch>) {
    forall i, j :: 0 <= i < |brs| && 0 <= j < |brs| && brs[i].sb == brs[j].sb ==> brs[i].table == brs[j].table
  }

  /** The numbers of the table lie on the first `n` pages. */
  ghost predicate TableShort(table: seq<nat>, n: nat) {
    forall i :: i in table && i >= AUFS_FIRST_INO ==> CalcBit(i).0 < n
  }

  ghost predicate TablesShort(brs: seq<Branch>, n: nat) {
    forall b :: 0 <= b < |brs| ==> TableShort(brs[b].table, n)
  }

  ghost predicate InTables(brs: seq<Branch>, k: nat, ino: nat)
    requires k <= |brs|
  {
    exists b :: 0 <= b < k && ino in brs[b].table
  }

  /** is_sb_shared: another branch up to `bend` on the file system of `btgt`, or -1. */
  method IsSbShared(brs: seq<Branch>, btgt: nat, bend: int) returns (r: int)
    requires btgt < |brs| && bend < |brs|
    ensures r >= 0 ==> r < |brs| && r != btgt && (r < btgt || r <= bend) && brs[r].sb == brs[btgt].sb
    ensures r < 0 ==>
              && r == -1
              && forall i :: 0 <= i < |brs| && i != btgt && (i < btgt || i <= bend) ==> brs[i].sb != brs[btgt].sb
  {
    var bindex := 0;
    while bindex < btgt
      invariant bindex <= btgt && forall i :: 0 <= i < bindex ==> brs[i].sb != brs[btgt].sb
    {
      if brs[bindex].sb == brs[btgt].sb {
        return bindex;
      }
      bindex := bindex + 1;
    }
    bindex := bindex + 1;
    while bindex <= bend
      invariant btgt < bindex
      invariant forall i :: 0 <= i < bindex && i < |brs| && i != btgt ==> brs[i].sb != brs[btgt].sb
    {
      if brs[bindex].sb == brs[btgt].sb {
        return bindex;
      }
      bindex := bindex + 1;
    }
    return -1;
  }
}
