/** The packed blocks in which readdir keeps a directory's entries (vdir.c): fixed-size buffers with an
    in-band terminator, and the cursor that delivers them. A byte is a `char`. */
module VdirBlocks {
  import opened Basics

  /** sizeof(ino_t) */
  type Word = w: nat | w == 4 || w == 8 witness 8

  /** A directory entry; `ino` is the raw bytes of the inode number. */
  datatype Entry = Entry(ino: seq<char>, dtype: char, name: string)

  const NUL: char := 0 as char

  /** ALIGN: the least multiple of `a` that is at least `x`. */
  function Align(x: nat, a: nat): (r: nat)
    requires a > 0
    ensures x <= r < x + a
  {
    if x == 0 then 0 else if x <= a then a else a + Align(x - a, a)
  }

  /** It is a multiple. */
  lemma {:induction false} AlignRoundsUp(x: nat, w: Word)
    ensures Align(x, w) % w == 0
    decreases x
  {
    if x <= w {
    } else {
      AlignRoundsUp(x - w, w);
      if w == 4 {
        assert (4 + Align(x - 4, 4)) % 4 == 0;
      } else {
        assert (8 + Align(x - 8, 8)) % 8 == 0;
      }
    }
  }

  lemma {:induction false} AlignMonotone(x: nat, y: nat, a: nat)
    requires x <= y && a > 0
    ensures Align(x, a) <= Align(y, a)
    decreases x
  {
    if x <= a {
    } else {
      AlignMonotone(x - a, y - a, a);
    }
  }

  /** calc_size; struct au_vdir_de is packed: the number, one byte of type, one byte of length. */
  function CalcSize(w: Word, nlen: nat): (r: nat)
    ensures w + 2 + nlen <= r
  {
    Align(w + 2 + nlen, w)
  }

  /** An entry takes the least multiple of the word that holds its number, the two bytes and the name. */
  lemma SizeIsLeast(w: Word, nlen: nat)
    ensures CalcSize(w, nlen) % w == 0 && w + 2 + nlen <= CalcSize(w, nlen) < 2 * w + 2 + nlen
  {
    AlignRoundsUp(w + 2 + nlen, w);
  }

  lemma CalcSizeMonotone(w: Word, m: nat, n: nat)
    requires m <= n
    ensures CalcSize(w, m) <= CalcSize(w, n)
  {
    AlignMonotone(w + 2 + m, w + 2 + n, w);
  }

  // ----- one block as a value

  function LenAt(w: Word, b: seq<char>, off: nat): nat
    requires off + w + 2 <= |b|
  {
    b[off + w + 1] as int
  }

  /** is_deblk_end */
  predicate AtEnd(w: Word, b: seq<char>, off: nat)
    requires off <= |b|
  {
    CalcSize(w, 0) <= |b| - off ==> LenAt(w, b, off) == 0
  }

  function EntryAt(w: Word, b: seq<char>, off: nat): Entry
    requires off + w + 2 <= |b| && off + w + 2 + LenAt(w, b, off) <= |b|
  {
    Entry(b[off..off + w], b[off + w], b[off + w + 2..off + w + 2 + LenAt(w, b, off)])
  }

  /** From `off` on, entries follow each other up to a terminator. */
  predicate Chain(w: Word, b: seq<char>, off: nat)
    decreases |b| - off
  {
    && off <= |b|
    && (AtEnd(w, b, off) ||
        var next := off + CalcSize(w, LenAt(w, b, off));
        next <= |b| && Chain(w, b, next))
  }

  function Parse(w: Word, b: seq<char>, off: nat): seq<Entry>
    requires Chain(w, b, off)
    decreases |b| - off
  {
    if AtEnd(w, b, off) then [] else
      var next := off + CalcSize(w, LenAt(w, b, off));
      [EntryAt(w, b, off)] + Parse(w, b, next)
  }

  function EndOf(w: Word, b: seq<char>, off: nat): (r: nat)
    requires Chain(w, b, off)
    ensures off <= r <= |b| && AtEnd(w, b, r)
    decreases |b| - off
  {
    if AtEnd(w, b, off) then off else EndOf(w, b, off + CalcSize(w, LenAt(w, b, off)))
  }

  lemma EntrySame(w: Word, b: seq<char>, c: seq<char>, off: nat, x: nat)
    requires x <= |b| == |c| && c[..x] == b[..x]
    requires off + w + 2 <= x && off + w + 2 + LenAt(w, b, off) <= x
    ensures LenAt(w, c, off) == LenAt(w, b, off) && EntryAt(w, c, off) == EntryAt(w, b, off)
  {
    var l := LenAt(w, b, off);
    assert forall k :: 0 <= k < x ==> c[k] == c[..x][k] == b[..x][k] == b[k];
  }

  /** `c` is block `b` with entry `e` written over the terminator at `x` and a new terminator behind it. */
  ghost predicate Extends(w: Word, b: seq<char>, c: seq<char>, x: nat, e: Entry) {
    var size := CalcSize(w, |e.name|);
    && 0 < |e.name| && |b| == |c| && x + size <= |b|
    && c[..x] == b[..x]
    && LenAt(w, c, x) == |e.name| && EntryAt(w, c, x) == e
    && AtEnd(w, c, x + size)
  }

  lemma ParseOne(w: Word, b: seq<char>, c: seq<char>, x: nat, e: Entry)
    requires Extends(w, b, c, x, e)
    ensures Chain(w, c, x) && Parse(w, c, x) == [e]
    ensures EndOf(w, c, x) == x + CalcSize(w, |e.name|)
  {
    CalcSizeMonotone(w, 0, |e.name|);
    assert !AtEnd(w, c, x);
    assert Chain(w, c, x + CalcSize(w, |e.name|));
  }

  lemma ParseCons(w: Word, b: seq<char>, off: nat, next: nat)
    requires off <= |b| && !AtEnd(w, b, off)
    requires next == off + CalcSize(w, LenAt(w, b, off)) <= |b| && Chain(w, b, next)
    ensures Chain(w, b, off) && Parse(w, b, off) == [EntryAt(w, b, off)] + Parse(w, b, next)
    ensures EndOf(w, b, off) == EndOf(w, b, next)
  {}

  /** Then the block's entries are those of `b` and `e`. */
  lemma {:induction false} ParseAppend(w: Word, b: seq<char>, c: seq<char>, off: nat, x: nat, e: Entry)
    requires Chain(w, b, off) && x == EndOf(w, b, off) && Extends(w, b, c, x, e)
    ensures Chain(w, c, off) && Parse(w, c, off) == Parse(w, b, off) + [e]
    ensures EndOf(w, c, off) == x + CalcSize(w, |e.name|)
    decreases |b| - off
  {
    if AtEnd(w, b, off) {
      ParseOne(w, b, c, off, e);
    } else {
      var next := off + CalcSize(w, LenAt(w, b, off));
      ParseCons(w, b, off, next);
      ParseAppend(w, b, c, next, x, e);
      EntrySame(w, b, c, off, x);
      ParseCons(w, c, off, next);
      AppendAssoc(EntryAt(w, b, off), Parse(w, b, next), e);
    }
  }

  lemma AppendAssoc<T>(x: T, s: seq<T>, y: T)
    ensures [x] + (s + [y]) == [x] + s + [y]
  {}

  /** `off` is the start of an entry, or the end, as seen from `lo`. */
  predicate Reaches(w: Word, b: seq<char>, lo: nat, off: nat)
    requires Chain(w, b, lo)
    decreases |b| - lo
  {
    lo == off || (!AtEnd(w, b, lo) && Reaches(w, b, lo + CalcSize(w, LenAt(w, b, lo)), off))
  }

  /** The entries of the block whose offset is at least `lim`. */
  function TailBlock(w: Word, b: seq<char>, off: nat, lim: nat): seq<Entry>
    requires Chain(w, b, off)
    decreases |b| - off
  {
    if AtEnd(w, b, off) || lim <= off then Parse(w, b, off)
    else TailBlock(w, b, off + CalcSize(w, LenAt(w, b, off)), lim)
  }

  lemma {:induction false} TailAtBoundary(w: Word, b: seq<char>, lo: nat, off: nat)
    requires Chain(w, b, lo) && Reaches(w, b, lo, off)
    ensures lo <= off <= |b| && Chain(w, b, off)
    ensures TailBlock(w, b, lo, off) == Parse(w, b, off)
    ensures EndOf(w, b, lo) == EndOf(w, b, off)
    decreases |b| - lo
  {
    if lo == off {
    } else {
      TailAtBoundary(w, b, lo + CalcSize(w, LenAt(w, b, lo)), off);
    }
  }

  lemma {:induction false} ReachesNext(w: Word, b: seq<char>, lo: nat, off: nat)
    requires Chain(w, b, lo) && Reaches(w, b, lo, off) && off <= |b| && !AtEnd(w, b, off)
    ensures Reaches(w, b, lo, off + CalcSize(w, LenAt(w, b, off)))
    decreases |b| - lo
  {
    if lo == off {
    } else {
      TailAtBoundary(w, b, lo, off);
      ReachesNext(w, b, lo + CalcSize(w, LenAt(w, b, lo)), off);
    }
  }

  // ----- all blocks

  ghost predicate BlockOk(w: Word, sz: nat, b: seq<char>) {
    |b| == sz && Chain(w, b, 0)
  }

  ghost predicate Blocks(w: Word, sz: nat, bs: seq<seq<char>>) {
    bs == [] || (BlockOk(w, sz, bs[|bs| - 1]) && Blocks(w, sz, bs[..|bs| - 1]))
  }

  lemma {:induction false} BlocksAt(w: Word, sz: nat, bs: seq<seq<char>>, i: nat)
    requires Blocks(w, sz, bs) && i < |bs|
    ensures BlockOk(w, sz, bs[i])
  {
    if i == |bs| - 1 {
    } else {
      BlocksAt(w, sz, bs[..|bs| - 1], i);
    }
  }

  lemma {:induction false} BlocksFrom(w: Word, sz: nat, bs: seq<seq<char>>, i: nat)
    requires Blocks(w, sz, bs) && i <= |bs|
    ensures Blocks(w, sz, bs[i..])
  {
    if i == |bs| {
    } else {
      BlocksFrom(w, sz, bs[..|bs| - 1], i);
      assert bs[i..][..|bs| - 1 - i] == bs[..|bs| - 1][i..];
    }
  }

  ghost predicate EmptyBlock(w: Word, sz: nat, bs: seq<seq<char>>, i: nat)
    requires Blocks(w, sz, bs) && i < |bs|
  {
    BlocksAt(w, sz, bs, i);
    AtEnd(w, bs[i], 0)
  }

  /** All entries, block after block. */
  ghost function Flat(w: Word, sz: nat, bs: seq<seq<char>>): seq<Entry>
    requires Blocks(w, sz, bs)
  {
    if bs == [] then [] else Flat(w, sz, bs[..|bs| - 1]) + Parse(w, bs[|bs| - 1], 0)
  }

  lemma {:induction false} FlatHead(w: Word, sz: nat, bs: seq<seq<char>>)
    requires Blocks(w, sz, bs) && bs != []
    ensures Blocks(w, sz, bs[1..]) && BlockOk(w, sz, bs[0])
    ensures Flat(w, sz, bs) == Parse(w, bs[0], 0) + Flat(w, sz, bs[1..])
  {
    BlocksFrom(w, sz, bs, 1);
    if |bs| == 1 {
    } else {
      var front := bs[..|bs| - 1];
      FlatHead(w, sz, front);
      assert bs[1..] == front[1..] + [bs[|bs| - 1]];
      FlatSnoc(w, sz, front[1..], bs[|bs| - 1]);
      ConcatAssoc(Parse(w, bs[0], 0), Flat(w, sz, front[1..]), Parse(w, bs[|bs| - 1], 0));
    }
  }

  lemma FlatSnoc(w: Word, sz: nat, bs: seq<seq<char>>, b: seq<char>)
    requires Blocks(w, sz, bs) && BlockOk(w, sz, b)
    ensures Blocks(w, sz, bs + [b]) && Flat(w, sz, bs + [b]) == Flat(w, sz, bs) + Parse(w, b, 0)
  {
    assert (bs + [b])[..|bs|] == bs;
  }

  /** What remains to be delivered when the cursor is at block `ul`, offset `off`. */
  ghost function From(w: Word, sz: nat, bs: seq<seq<char>>, ul: nat, off: nat): seq<Entry>
    requires Blocks(w, sz, bs) && ul < |bs| && Chain(w, bs[ul], off)
  {
    BlocksFrom(w, sz, bs, ul + 1);
    Parse(w, bs[ul], off) + Flat(w, sz, bs[ul + 1..])
  }

  /** The entries of block `q` from offset `r` on, and of all later blocks. */
  ghost function EntriesAt(w: Word, sz: nat, bs: seq<seq<char>>, q: nat, r: nat): seq<Entry>
    requires Blocks(w, sz, bs)
  {
    if q >= |bs| then [] else
      BlocksFrom(w, sz, bs, q + 1);
      BlocksAt(w, sz, bs, q);
      TailBlock(w, bs[q], 0, r) + Flat(w, sz, bs[q + 1..])
  }

  /** The entries at file position `pos` or later. */
  ghost function EntriesFrom(w: Word, sz: nat, bs: seq<seq<char>>, pos: nat): seq<Entry>
    requires sz > 0 && Blocks(w, sz, bs)
  {
    EntriesAt(w, sz, bs, pos / sz, pos % sz)
  }

  /** The position of an entry. */
  ghost predicate IsEntryPos(w: Word, sz: nat, bs: seq<seq<char>>, pos: nat)
    requires sz > 0 && Blocks(w, sz, bs)
  {
    && pos / sz < |bs|
    && var b := bs[pos / sz];
       BlocksAt(w, sz, bs, pos / sz);
       Reaches(w, b, 0, pos % sz) && !AtEnd(w, b, pos % sz)
  }

  /** Where the cursor rests between calls: at an entry, or behind the last one. */
  ghost predicate IsRestPos(w: Word, sz: nat, bs: seq<seq<char>>, pos: nat)
    requires sz > 0 && bs != [] && Blocks(w, sz, bs)
  {
    IsEntryPos(w, sz, bs, pos) || pos == sz * (|bs| - 1) + EndOf(w, bs[|bs| - 1], 0)
  }

  lemma DivModUnique(d: int, x: int, q: int, r: int)
    requires 0 <= r < d && x == d * q + r
    ensures x / d == q && x % d == r
  {
    var k := x / d - q;
    assert d * k == r - x % d by {
      assert d * (x / d) + x % d == x;
      assert d * k == d * (x / d) - d * q;
    }
    MulBound(d, k);
  }

  lemma MulBound(d: int, k: int)
    requires 0 < d
    ensures 1 <= k ==> d <= d * k
    ensures k <= -1 ==> d * k <= -d
  {}

  lemma AppendBlockEntry(w: Word, sz: nat, bs: seq<seq<char>>, b: seq<char>, c: seq<char>, x: nat, e: Entry)
    requires Blocks(w, sz, bs + [b]) && Chain(w, b, 0) && x == EndOf(w, b, 0) && Extends(w, b, c, x, e)
    ensures Blocks(w, sz, bs + [c]) && Flat(w, sz, bs + [c]) == Flat(w, sz, bs + [b]) + [e]
    ensures Chain(w, c, 0) && EndOf(w, c, 0) == x + CalcSize(w, |e.name|)
    ensures bs != [] ==> EmptyBlock(w, sz, bs + [c], 0) == EmptyBlock(w, sz, bs + [b], 0)
    ensures (bs + [c])[|bs|] == c
  {
    assert (bs + [b])[..|bs|] == bs;
    ParseAppend(w, b, c, 0, x, e);
    FlatSnoc(w, sz, bs, b);
    FlatSnoc(w, sz, bs, c);
  }

  /** The cursor is at the start of an entry or at the end of a block. */
  ghost predicate IsCursor(w: Word, sz: nat, bs: seq<seq<char>>, ul: nat, off: nat)
    requires Blocks(w, sz, bs)
  {
    && ul < |bs|
    && (BlocksAt(w, sz, bs, ul);
        off <= sz && Reaches(w, bs[ul], 0, off) && Chain(w, bs[ul], off))
  }

  lemma CursorBounds(w: Word, sz: nat, bs: seq<seq<char>>, ul: nat, off: nat)
    requires Blocks(w, sz, bs) && IsCursor(w, sz, bs, ul, off)
    ensures ul < |bs| && |bs[ul]| == sz && off <= sz
    ensures BlockOk(w, sz, bs[ul])
  {
    BlocksAt(w, sz, bs, ul);
  }

  ghost function FlatFrom(w: Word, sz: nat, bs: seq<seq<char>>, ul: nat): seq<Entry>
    requires Blocks(w, sz, bs) && ul <= |bs|
  {
    BlocksFrom(w, sz, bs, ul);
    Flat(w, sz, bs[ul..])
  }

  lemma FlatFromHead(w: Word, sz: nat, bs: seq<seq<char>>, ul: nat)
    requires Blocks(w, sz, bs) && ul < |bs|
    ensures BlockOk(w, sz, bs[ul])
    ensures FlatFrom(w, sz, bs, ul) == Parse(w, bs[ul], 0) + FlatFrom(w, sz, bs, ul + 1)
  {
    BlocksFrom(w, sz, bs, ul);
    FlatHead(w, sz, bs[ul..]);
    assert bs[ul..][1..] == bs[ul + 1..];
  }

  /** A cursor and the block and offset it stands for leave the same entries. */
  lemma CursorEntries(w: Word, sz: nat, bs: seq<seq<char>>, ul: nat, off: nat)
    requires Blocks(w, sz, bs) && IsCursor(w, sz, bs, ul, off)
    ensures EntriesAt(w, sz, bs, ul, off) == From(w, sz, bs, ul, off)
    ensures off == sz ==> EntriesAt(w, sz, bs, ul + 1, 0) == From(w, sz, bs, ul, off)
  {
    BlocksAt(w, sz, bs, ul);
    TailAtBoundary(w, bs[ul], 0, off);
    if off == sz {
      assert Parse(w, bs[ul], off) == [];
      if ul + 1 < |bs| {
        FlatFromHead(w, sz, bs, ul + 1);
      }
    }
  }

  lemma PosOf(sz: nat, ul: nat, off: nat)
    requires sz > 0 && off <= sz
    ensures off < sz ==> (sz * ul + off) / sz == ul && (sz * ul + off) % sz == off
    ensures off == sz ==> (sz * ul + off) / sz == ul + 1 && (sz * ul + off) % sz == 0
  {
    if off < sz {
      DivModUnique(sz, sz * ul + off, ul, off);
    } else {
      DivModUnique(sz, sz * ul + off, ul + 1, 0);
    }
  }

  lemma CursorTail(w: Word, sz: nat, bs: seq<seq<char>>, ul: nat, off: nat)
    requires sz > 0 && Blocks(w, sz, bs) && IsCursor(w, sz, bs, ul, off)
    ensures EntriesFrom(w, sz, bs, sz * ul + off) == From(w, sz, bs, ul, off)
  {
    CursorEntries(w, sz, bs, ul, off);
    PosOf(sz, ul, off);
  }

  /** Position 0 is where everything remains to be delivered. */
  lemma StartRests(w: Word, sz: nat, bs: seq<seq<char>>)
    requires sz > 0 && Blocks(w, sz, bs) && bs != []
    ensures IsCursor(w, sz, bs, 0, 0) && EntriesFrom(w, sz, bs, 0) == Flat(w, sz, bs)
    ensures |bs| == 1 || !EmptyBlock(w, sz, bs, 0) ==> IsRestPos(w, sz, bs, 0)
  {
    BlocksAt(w, sz, bs, 0);
    FlatHead(w, sz, bs);
    CursorTail(w, sz, bs, 0, 0);
    DivModUnique(sz, 0, 0, 0);
  }

  /** Where the scan of block `ul` may stop. */
  function Limit(sz: nat, pos: nat, ul: nat): nat
    requires sz > 0
  {
    if ul == pos / sz then pos % sz else 0
  }

  /** seek_vdir compares positions; inside block `ul` that compares offsets. */
  lemma OffsetTest(sz: nat, pos: nat, ul: nat, p: nat)
    requires sz > 0 && pos / sz <= ul
    ensures sz * ul + p < pos <==> p < Limit(sz, pos, ul)
  {
    var q := pos / sz;
    assert pos == sz * q + pos % sz;
    assert sz * ul == sz * q + sz * (ul - q);
    MulBound(sz, ul - q);
  }

  /** The scan of a block for offset `lim` stopped at `p`. */
  ghost predicate Scanned(w: Word, b: seq<char>, lim: nat, p: nat)
    requires Chain(w, b, 0)
  {
    && p <= |b| && Chain(w, b, p) && Reaches(w, b, 0, p)
    && TailBlock(w, b, 0, lim) == Parse(w, b, p)
    && (Reaches(w, b, 0, lim) ==> p == lim)
  }

  /** The entries from block `ul` on are those where its scan stopped. */
  lemma ScannedEntries(w: Word, sz: nat, bs: seq<seq<char>>, ul: nat, lim: nat, p: nat)
    requires Blocks(w, sz, bs) && ul < |bs| && BlockOk(w, sz, bs[ul]) && Scanned(w, bs[ul], lim, p)
    ensures IsCursor(w, sz, bs, ul, p)
    ensures EntriesAt(w, sz, bs, ul, lim) == From(w, sz, bs, ul, p)
    ensures AtEnd(w, bs[ul], p) ==> EntriesAt(w, sz, bs, ul, lim) == EntriesAt(w, sz, bs, ul + 1, 0)
    ensures !AtEnd(w, bs[ul], p) ==> EntriesAt(w, sz, bs, ul, lim) != []
  {
    if ul + 1 < |bs| {
      FlatFromHead(w, sz, bs, ul + 1);
    }
  }

  lemma RestPosMeaning(w: Word, sz: nat, bs: seq<seq<char>>, pos: nat)
    requires sz > 0 && bs != [] && Blocks(w, sz, bs) && EndOf(w, bs[|bs| - 1], 0) < sz
    requires IsRestPos(w, sz, bs, pos)
    ensures !IsEntryPos(w, sz, bs, pos) ==> EntriesFrom(w, sz, bs, pos) == []
  {
    var last := bs[|bs| - 1];
    EndIsReached(w, last, 0);
    if pos == sz * (|bs| - 1) + EndOf(w, last, 0) {
      CursorTail(w, sz, bs, |bs| - 1, EndOf(w, last, 0));
    }
  }

  /** A scan that stops at an entry stopped exactly at a rest position. */
  lemma RestHit(w: Word, sz: nat, bs: seq<seq<char>>, pos: nat, ul: nat, p: nat)
    requires sz > 0 && Blocks(w, sz, bs) && pos / sz <= ul < |bs| && BlockOk(w, sz, bs[ul])
    requires EndOf(w, bs[|bs| - 1], 0) < sz
    requires Scanned(w, bs[ul], Limit(sz, pos, ul), p)
    requires EntriesFrom(w, sz, bs, pos) != []
    requires pos / sz < ul ==> !IsEntryPos(w, sz, bs, pos)
    ensures IsRestPos(w, sz, bs, pos) ==> pos == sz * ul + p
  {
    if IsRestPos(w, sz, bs, pos) {
      RestPosMeaning(w, sz, bs, pos);
      assert ul == pos / sz;
      DivIdentity(pos, sz);
      EntryHit(w, sz, bs, ul, pos % sz, p);
    }
  }

  lemma EntryHit(w: Word, sz: nat, bs: seq<seq<char>>, ul: nat, off: nat, p: nat)
    requires Blocks(w, sz, bs) && ul < |bs| && BlockOk(w, sz, bs[ul])
    requires Scanned(w, bs[ul], off, p) && Reaches(w, bs[ul], 0, off)
    ensures p == off
  {}

  lemma DivIdentity(x: nat, d: nat)
    requires d > 0
    ensures x == d * (x / d) + x % d
  {}

  /** seek_vdir has passed the blocks before `ul` without finding an entry at `pos` or later. */
  ghost predicate Scanning(w: Word, sz: nat, bs: seq<seq<char>>, pos: nat, ul: nat)
    requires sz > 0 && Blocks(w, sz, bs)
  {
    && pos / sz <= ul
    && EntriesFrom(w, sz, bs, pos) == EntriesAt(w, sz, bs, ul, Limit(sz, pos, ul))
    && (pos / sz < ul ==> !IsEntryPos(w, sz, bs, pos))
  }

  lemma ScanBounds(w: Word, sz: nat, bs: seq<seq<char>>, pos: nat, ul: nat)
    requires sz > 0 && Blocks(w, sz, bs)
    ensures ul == pos / sz ==> Scanning(w, sz, bs, pos, ul)
    ensures Scanning(w, sz, bs, pos, ul) ==> pos / sz <= ul
    ensures Scanning(w, sz, bs, pos, ul) && |bs| <= ul ==> EntriesFrom(w, sz, bs, pos) == []
  {}

  lemma ScanStep(w: Word, sz: nat, bs: seq<seq<char>>, pos: nat, ul: nat, p: nat)
    requires sz > 0 && Blocks(w, sz, bs) && Scanning(w, sz, bs, pos, ul)
    requires ul < |bs| && BlockOk(w, sz, bs[ul]) && Scanned(w, bs[ul], Limit(sz, pos, ul), p)
    requires EndOf(w, bs[|bs| - 1], 0) < sz
    ensures IsCursor(w, sz, bs, ul, p) && p <= sz
    ensures if AtEnd(w, bs[ul], p) then Scanning(w, sz, bs, pos, ul + 1)
            else
              && From(w, sz, bs, ul, p) == EntriesFrom(w, sz, bs, pos)
              && (IsRestPos(w, sz, bs, pos) ==> pos == sz * ul + p)
  {
    ScannedEntries(w, sz, bs, ul, Limit(sz, pos, ul), p);
    if !AtEnd(w, bs[ul], p) {
      RestHit(w, sz, bs, pos, ul, p);
    }
  }

  lemma {:induction false} EndIsReached(w: Word, b: seq<char>, off: nat)
    requires Chain(w, b, off)
    ensures Reaches(w, b, off, EndOf(w, b, off)) && Parse(w, b, EndOf(w, b, off)) == []
    decreases |b| - off
  {
    if AtEnd(w, b, off) {
    } else {
      EndIsReached(w, b, off + CalcSize(w, LenAt(w, b, off)));
    }
  }

  lemma FromStep(w: Word, sz: nat, bs: seq<seq<char>>, ul: nat, off: nat)
    requires Blocks(w, sz, bs) && IsCursor(w, sz, bs, ul, off) && off <= |bs[ul]| == sz && !AtEnd(w, bs[ul], off)
    ensures var next := off + CalcSize(w, LenAt(w, bs[ul], off));
            && next <= sz && off + w + 2 + LenAt(w, bs[ul], off) <= sz
            && IsCursor(w, sz, bs, ul, next)
            && From(w, sz, bs, ul, off) == [EntryAt(w, bs[ul], off)] + From(w, sz, bs, ul, next)
  {
    BlocksAt(w, sz, bs, ul);
    ReachesNext(w, bs[ul], 0, off);
    var next := off + CalcSize(w, LenAt(w, bs[ul], off));
    ConcatAssoc([EntryAt(w, bs[ul], off)], Parse(w, bs[ul], next), FlatFrom(w, sz, bs, ul + 1));
  }

  lemma FromNextBlock(w: Word, sz: nat, bs: seq<seq<char>>, ul: nat, off: nat)
    requires Blocks(w, sz, bs) && IsCursor(w, sz, bs, ul, off) && off <= |bs[ul]| && AtEnd(w, bs[ul], off)
    ensures ul + 1 < |bs| ==> IsCursor(w, sz, bs, ul + 1, 0) && From(w, sz, bs, ul, off) == From(w, sz, bs, ul + 1, 0)
    ensures ul + 1 == |bs| ==> From(w, sz, bs, ul, off) == [] && off == EndOf(w, bs[ul], 0)
  {
    BlocksAt(w, sz, bs, ul);
    TailAtBoundary(w, bs[ul], 0, off);
    if ul + 1 < |bs| {
      FlatFromHead(w, sz, bs, ul + 1);
    }
  }

  /** A cursor at an entry stands for a rest position. */
  lemma CursorRests(w: Word, sz: nat, bs: seq<seq<char>>, ul: nat, off: nat)
    requires sz > 0 && Blocks(w, sz, bs) && IsCursor(w, sz, bs, ul, off) && off <= |bs[ul]| == sz
    requires CalcSize(w, 0) > 0
    ensures !AtEnd(w, bs[ul], off) ==> IsEntryPos(w, sz, bs, sz * ul + off)
    ensures EntriesFrom(w, sz, bs, sz * ul + off) == From(w, sz, bs, ul, off)
  {
    CursorTail(w, sz, bs, ul, off);
    PosOf(sz, ul, off);
  }

  /** The cursor is at an entry, or behind the last one. */
  ghost predicate Resting(w: Word, sz: nat, bs: seq<seq<char>>, ul: nat, off: nat)
    requires Blocks(w, sz, bs)
  {
    && IsCursor(w, sz, bs, ul, off)
    && ul < |bs| && off <= |bs[ul]|
    && (AtEnd(w, bs[ul], off) ==> ul == |bs| - 1 && (BlocksAt(w, sz, bs, ul); off == EndOf(w, bs[ul], 0)))
  }

  lemma RestingInside(w: Word, sz: nat, bs: seq<seq<char>>, ul: nat, off: nat)
    requires sz > 0 && Blocks(w, sz, bs) && bs != [] && Resting(w, sz, bs, ul, off)
    requires BlockOk(w, sz, bs[|bs| - 1]) && EndOf(w, bs[|bs| - 1], 0) < sz
    ensures off < sz
  {
    BlocksAt(w, sz, bs, ul);
  }

  lemma RestingPos(w: Word, sz: nat, bs: seq<seq<char>>, ul: nat, off: nat)
    requires sz > 0 && Blocks(w, sz, bs) && Resting(w, sz, bs, ul, off)
    ensures IsRestPos(w, sz, bs, sz * ul + off)
    ensures EntriesFrom(w, sz, bs, sz * ul + off) == From(w, sz, bs, ul, off)
  {
    BlocksAt(w, sz, bs, ul);
    CursorRests(w, sz, bs, ul, off);
  }

  /** filldir was given `out`, which took it from the entries `all` to the entries `rest`. When the file
      position is in step with the cursor, every entry came with a position that leaves exactly it and
      what followed. */
  ghost predicate HandedOver(w: Word, sz: nat, bs: seq<seq<char>>, out: seq<(Entry, nat)>,
                             all: seq<Entry>, rest: seq<Entry>, inStep: bool)
    requires sz > 0 && Blocks(w, sz, bs)
  {
    if out == [] then all == rest else
      var k := |out| - 1;
      var before := [out[k].0] + rest;
      && (inStep ==> IsEntryPos(w, sz, bs, out[k].1) && EntriesFrom(w, sz, bs, out[k].1) == before)
      && HandedOver(w, sz, bs, out[..k], all, before, inStep)
  }

  /** How many entries the consumers take together. */
  function Total(rooms: seq<nat>): nat {
    if rooms == [] then 0 else Total(rooms[..|rooms| - 1]) + rooms[|rooms| - 1]
  }

  /** Every entry exactly once and in order, and resumable at each. */
  lemma {:induction false} HandedOverAt(w: Word, sz: nat, bs: seq<seq<char>>, out: seq<(Entry, nat)>,
                                        all: seq<Entry>, rest: seq<Entry>, inStep: bool)
    requires sz > 0 && Blocks(w, sz, bs) && HandedOver(w, sz, bs, out, all, rest, inStep)
    ensures |all| == |out| + |rest| && rest == all[|out|..]
    ensures forall i :: 0 <= i < |out| ==> out[i].0 == all[i]
    ensures inStep ==> forall i :: 0 <= i < |out| ==>
              IsEntryPos(w, sz, bs, out[i].1) && EntriesFrom(w, sz, bs, out[i].1) == all[i..]
  {
    hide EntriesFrom, IsEntryPos, Blocks;
    if out == [] {
    } else {
      var k := |out| - 1;
      HandedOverAt(w, sz, bs, out[..k], all, [out[k].0] + rest, inStep);
      assert all[k..] == [out[k].0] + rest;
      assert all[k..][1..] == all[k + 1..];
    }
  }

  lemma HandedNone(w: Word, sz: nat, bs: seq<seq<char>>, all: seq<Entry>, inStep: bool)
    requires sz > 0 && Blocks(w, sz, bs)
    ensures HandedOver(w, sz, bs, [], all, all, inStep)
  {
    hide Blocks;
  }

  lemma HandOver(w: Word, sz: nat, bs: seq<seq<char>>, out: seq<(Entry, nat)>,
                 all: seq<Entry>, e: Entry, rest: seq<Entry>, inStep: bool, pos: nat)
    requires sz > 0 && Blocks(w, sz, bs) && HandedOver(w, sz, bs, out, all, [e] + rest, inStep)
    requires inStep ==> IsEntryPos(w, sz, bs, pos) && EntriesFrom(w, sz, bs, pos) == [e] + rest
    ensures HandedOver(w, sz, bs, out + [(e, pos)], all, rest, inStep)
  {
    hide EntriesFrom, IsEntryPos, Blocks;
    assert (out + [(e, pos)])[..|out|] == out;
  }

  /** `pos` is the position of the entry that `before` begins with, less `d` if that is in block `blk`. */
  ghost predicate PosLess(w: Word, sz: nat, bs: seq<seq<char>>, pos: nat, before: seq<Entry>, blk: nat, d: nat)
    requires sz > 0 && Blocks(w, sz, bs)
  {
    exists p: nat :: IsEntryPos(w, sz, bs, p) && EntriesFrom(w, sz, bs, p) == before
        && pos == p - if p / sz == blk then d else 0
  }

  /** Every entry handed over came with its position, less `d` in block `blk`. */
  ghost predicate Positioned(w: Word, sz: nat, bs: seq<seq<char>>, out: seq<(Entry, nat)>, rest: seq<Entry>, blk: nat,
                             d: nat)
    requires sz > 0 && Blocks(w, sz, bs)
  {
    out == [] ||
      var k := |out| - 1;
      PosLess(w, sz, bs, out[k].1, [out[k].0] + rest, blk, d)
          && Positioned(w, sz, bs, out[..k], [out[k].0] + rest, blk, d)
  }

  lemma PositionedNone(w: Word, sz: nat, bs: seq<seq<char>>, rest: seq<Entry>, blk: nat, d: nat)
    requires sz > 0 && Blocks(w, sz, bs)
    ensures Positioned(w, sz, bs, [], rest, blk, d)
  {}

  lemma PositionedMore(w: Word, sz: nat, bs: seq<seq<char>>, out: seq<(Entry, nat)>, e: Entry, rest: seq<Entry>,
                       pos: nat, blk: nat, d: nat)
    requires sz > 0 && Blocks(w, sz, bs) && Positioned(w, sz, bs, out, [e] + rest, blk, d)
    requires PosLess(w, sz, bs, pos, [e] + rest, blk, d)
    ensures Positioned(w, sz, bs, out + [(e, pos)], rest, blk, d)
  {
    hide PosLess, Blocks;
    assert (out + [(e, pos)])[..|out|] == out;
  }

  lemma {:induction false} HandOverMore(w: Word, sz: nat, bs: seq<seq<char>>, one: seq<(Entry, nat)>,
                                        two: seq<(Entry, nat)>,
                                        all: seq<Entry>, mid: seq<Entry>, rest: seq<Entry>)
    requires sz > 0 && Blocks(w, sz, bs)
    requires HandedOver(w, sz, bs, one, all, mid, true) && HandedOver(w, sz, bs, two, mid, rest, true)
    ensures HandedOver(w, sz, bs, one + two, all, rest, true)
    decreases |two|
  {
    hide EntriesFrom, IsEntryPos, Blocks;
    if two == [] {
      assert one + two == one;
    } else {
      var k := |two| - 1;
      HandOverMore(w, sz, bs, one, two[..k], all, mid, [two[k].0] + rest);
      assert (one + two)[..|one| + k] == one + two[..k];
    }
  }

  // ----- the code

  lemma Stored(w: Word, b: seq<char>, c: seq<char>, off: nat, e: Entry)
    requires |e.ino| == w && 0 < |e.name| <= 255 && off + CalcSize(w, |e.name|) <= |b| == |c|
    requires forall k :: 0 <= k < off ==> c[k] == b[k]
    requires forall k :: off <= k < off + w ==> c[k] == e.ino[k - off]
    requires c[off + w] == e.dtype && c[off + w + 1] == |e.name| as char
    requires forall k :: off + w + 2 <= k < off + w + 2 + |e.name| ==> c[k] == e.name[k - (off + w + 2)]
    requires AtEnd(w, c, off + CalcSize(w, |e.name|))
    ensures Extends(w, b, c, off, e)
  {
    assert c[..off] == b[..off];
    assert c[off..off + w] == e.ino;
    assert c[off + w + 2..off + w + 2 + |e.name|] == e.name;
  }

  /** Write entry `e` and, when it fits, the terminator behind it (the stores of append_de). */
  method StoreDe(w: Word, room: array<char>, off: nat, e: Entry)
    requires |e.ino| == w && 0 < |e.name| <= 255 && off + CalcSize(w, |e.name|) <= room.Length
    modifies room
    ensures Extends(w, old(room[..]), room[..], off, e)
  {
    hide Align;
    ghost var b := room[..];
    var size := CalcSize(w, |e.name|);
    forall k | off <= k < off + w {
      room[k] := e.ino[k - off];
    }
    room[off + w] := e.dtype;
    room[off + w + 1] := |e.name| as char;
    forall k | off + w + 2 <= k < off + w + 2 + |e.name| {
      room[k] := e.name[k - (off + w + 2)];
    }
    if CalcSize(w, 0) <= room.Length - (off + size) {
      room[off + size + w + 1] := NUL;
    }
    Stored(w, b, room[..], off, e);
  }

  /** The buffers `a` are distinct and hold the bytes `d`. */
  ghost predicate Holds(a: seq<array<char>>, d: seq<seq<char>>)
    reads a
  {
    && |a| == |d|
    && (a == [] ||
        var k := |a| - 1;
        a[k][..] == d[k] && a[k] !in a[..k] && Holds(a[..k], d[..k]))
  }

  lemma {:induction false} HoldsAt(a: seq<array<char>>, d: seq<seq<char>>, i: nat)
    requires Holds(a, d) && i < |a|
    ensures a[i][..] == d[i]
  {
    if i == |a| - 1 {
    } else {
      HoldsAt(a[..|a| - 1], d[..|a| - 1], i);
    }
  }

  lemma HoldsLast(a: seq<array<char>>, d: seq<seq<char>>)
    requires Holds(a, d)
    ensures |a| == |d|
    ensures d != [] ==> var k := |a| - 1; a[k][..] == d[k] && a[k] !in a[..k] && Holds(a[..k], d[..k])
  {}

  lemma HoldsSnoc(a: seq<array<char>>, d: seq<seq<char>>, b: array<char>)
    requires Holds(a, d) && b !in a
    ensures Holds(a + [b], d + [b[..]])
  {
    assert (a + [b])[..|a|] == a && (d + [b[..]])[..|d|] == d;
  }

  /** struct au_vdir: the blocks, and vd_last as a block index and an offset in that block. While
      entries are appended vd_last is the room for the next one; while they are delivered it is the
      next one to deliver, and `fpos` is the position of the open file. */
  class Vdir {
    const w: Word
    const sz: nat
    var deblk: seq<array<char>>
    var lastUl: nat
    var lastOff: nat
    var fpos: nat
    /** The bytes of the blocks. */
    ghost var data: seq<seq<char>>

    ghost predicate Valid()
      reads this`deblk, this`data, deblk
    {
      && CalcSize(w, 255) <= sz
      && |data| > 0 && Holds(deblk, data)
      && Blocks(w, sz, data)
    }

    ghost function Entries(): seq<Entry>
      requires Blocks(w, sz, data)
      reads this`data
    {
      Flat(w, sz, data)
    }

    /** A second block is only begun behind an entry. */
    ghost predicate Begun()
      requires Blocks(w, sz, data)
      reads this`data
    {
      |data| > 1 ==> !EmptyBlock(w, sz, data, 0)
    }

    /** The last block has room for a terminator, and vd_last is there: where the next entry goes. */
    ghost predicate Filling()
      requires Blocks(w, sz, data)
      reads this`data, this`lastUl, this`lastOff
    {
      && lastUl == |data| - 1 && data != []
      && lastOff == EndOf(w, data[lastUl], 0)
      && CalcSize(w, 0) <= sz - lastOff
      && Begun()
    }

    /** alloc_vdir: one empty block. The caller guarantees that the longest name fits a block. */
    constructor (w: Word, sz: nat)
      requires CalcSize(w, 255) <= sz
      ensures Valid() && Filling() && fresh(set b | b in deblk) && fpos == 0
      ensures Entries() == [] && this.w == w && this.sz == sz
    {
      CalcSizeMonotone(w, 0, 255);
      this.w := w;
      this.sz := sz;
      var b := new char[sz];
      b[w + 1] := NUL;
      deblk := [b];
      data := [b[..]];
      lastUl, lastOff, fpos := 0, 0, 0;
      new;
      assert AtEnd(w, data[0], 0);
      FlatSnoc(w, sz, [], data[0]);
      assert data == [] + [data[0]];
    }

    /** append_deblk */
    method AppendDeblk()
      requires Valid() && Begun() && 0 < lastOff == EndOf(w, data[|data| - 1], 0)
      modifies this`deblk, this`data, this`lastUl, this`lastOff
      ensures Valid() && Filling()
      ensures fresh(set b | b in deblk && b !in old(deblk)) && deblk[lastUl] !in old(deblk)
      ensures lastOff == 0 && Entries() == old(Entries())
    {
      hide Blocks, Flat, Chain, Holds, CalcSize;
      CalcSizeMonotone(w, 0, 255);
      HoldsLast(deblk, data);
      BlocksAt(w, sz, data, 0);
      var b := new char[sz];
      b[w + 1] := NUL;
      assert AtEnd(w, b[..], 0);
      FlatSnoc(w, sz, data, b[..]);
      HoldsSnoc(deblk, data, b);
      deblk := deblk + [b];
      data := data + [b[..]];
      lastUl, lastOff := |deblk| - 1, 0;
    }

    /** The stores of append_de, once the entry is known to fit the last block. */
    method PutDe(e: Entry)
      requires Valid() && Begun() && lastUl == |data| - 1 && lastOff == EndOf(w, data[lastUl], 0)
      requires |e.ino| == w && 0 < |e.name| <= 255 && CalcSize(w, |e.name|) <= sz - lastOff
      modifies this`data, this`lastOff, deblk[lastUl]
      ensures Valid() && Begun() && 0 < lastOff == EndOf(w, data[lastUl], 0)
      ensures Entries() == old(Entries()) + [e]
    {
      hide Blocks, EndOf, Flat, Extends, CalcSize, Chain, Holds, EmptyBlock;
      BlocksAt(w, sz, data, lastUl);
      HoldsLast(deblk, data);
      ghost var a, bs := deblk[..lastUl], data[..lastUl];
      ghost var b := data[lastUl];
      assert data == bs + [b];
      var room := deblk[lastUl];
      assert deblk == a + [room];
      StoreDe(w, room, lastOff, e);
      ghost var c := room[..];
      AppendBlockEntry(w, sz, bs, b, c, lastOff, e);
      HoldsSnoc(a, bs, room);
      data := bs + [c];
      lastOff := lastOff + CalcSize(w, |e.name|);
    }

    /** append_de */
    method AppendDe(e: Entry)
      requires Valid() && Filling()
      requires |e.ino| == w && 0 < |e.name| <= 255
      modifies this`deblk, this`data, this`lastUl, this`lastOff, deblk
      ensures Valid() && Filling()
      ensures Entries() == old(Entries()) + [e]
      ensures fresh(set b | b in deblk && b !in old(deblk))
    {
      hide Blocks, EndOf, Flat;
      CalcSizeMonotone(w, |e.name|, 255);
      if CalcSize(w, |e.name|) > sz - lastOff {
        AppendDeblk();
      }
      PutDe(e);
      if CalcSize(w, 0) > sz - lastOff {
        AppendDeblk();
      }
    }

    // ----- delivery

    /** vd_last is at the start of an entry or at the end of a block. */
    ghost predicate OnBoundary()
      requires Blocks(w, sz, data)
      reads this`data, this`lastUl, this`lastOff
    {
      IsCursor(w, sz, data, lastUl, lastOff)
    }

    /** is_deblk_end on block `ul`. */
    method Ended(ul: nat, off: nat) returns (end: bool)
      requires Valid() && ul < |data| && BlockOk(w, sz, data[ul]) && off <= sz
      ensures end == AtEnd(w, data[ul], off)
    {
      HoldsAt(deblk, data, ul);
      end := AtEnd(w, deblk[ul][..], off);
    }

    /** What read_vdir does after a successful fill: vd_last goes back to the first block. The position of
        the open file stays; a newly opened file is at 0, where everything remains to be delivered. */
    method Rewind()
      requires Valid() && Filling()
      modifies this`lastUl, this`lastOff
      ensures OnBoundary() && EndOf(w, data[|data| - 1], 0) < sz
      ensures IsRestPos(w, sz, data, 0) && EntriesFrom(w, sz, data, 0) == Entries()
    {
      StartRests(w, sz, data);
      lastUl, lastOff := 0, 0;
    }

    /** The inner loop of seek_vdir. */
    method ScanBlock(ul: nat) returns (p: nat)
      requires Valid() && fpos / sz <= ul < |data| && BlockOk(w, sz, data[ul])
      ensures Scanned(w, data[ul], Limit(sz, fpos, ul), p)
      ensures p <= sz && (!AtEnd(w, data[ul], p) ==> fpos <= sz * ul + p && p < sz)
    {
      hide Blocks, AtEnd, CalcSize;
      p := 0;
      ghost var lim := Limit(sz, fpos, ul);
      var b := deblk[ul];
      HoldsAt(deblk, data, ul);
      OffsetTest(sz, fpos, ul, p);
      while !AtEnd(w, b[..], p) && sz * ul + p < fpos
        invariant p <= sz && Chain(w, data[ul], p) && Reaches(w, data[ul], 0, p)
        invariant TailBlock(w, data[ul], 0, lim) == TailBlock(w, data[ul], p, lim)
        invariant Reaches(w, data[ul], 0, lim) ==> Reaches(w, data[ul], p, lim)
        invariant sz * ul + p < fpos <==> p < lim
        decreases sz - p
      {
        ReachesNext(w, data[ul], 0, p);
        p := p + CalcSize(w, LenAt(w, b[..], p));
        OffsetTest(sz, fpos, ul, p);
      }
      if Reaches(w, data[ul], p, lim) {
        TailAtBoundary(w, data[ul], p, lim);
      }
    }

    /** The block loop of seek_vdir. */
    method ScanBlocks() returns (valid: bool)
      requires Valid() && EndOf(w, data[|data| - 1], 0) < sz
      modifies this`lastUl, this`lastOff
      ensures !valid ==> lastUl == old(lastUl) && lastOff == old(lastOff) && EntriesFrom(w, sz, data, fpos) == []
      ensures valid ==> OnBoundary() && From(w, sz, data, lastUl, lastOff) == EntriesFrom(w, sz, data, fpos)
      ensures valid && IsRestPos(w, sz, data, fpos) ==> fpos == sz * lastUl + lastOff
      ensures valid ==> fpos <= sz * lastUl + lastOff && lastOff < sz
    {
      hide Blocks, BlockOk, IsCursor, From, Scanned, Scanning, EntriesFrom, EndOf, IsRestPos, AtEnd, Limit, CalcSize;
      var ul: nat := fpos / sz;
      ScanBounds(w, sz, data, fpos, ul);
      while ul < |deblk|
        invariant lastUl == old(lastUl) && lastOff == old(lastOff)
        invariant Scanning(w, sz, data, fpos, ul)
      {
        ScanBounds(w, sz, data, fpos, ul);
        BlocksAt(w, sz, data, ul);
        var p := ScanBlock(ul);
        ScanStep(w, sz, data, fpos, ul, p);
        var end := Ended(ul, p);
        if !end {
          lastUl, lastOff := ul, p;
          return true;
        }
        ul := ul + 1;
      }
      ScanBounds(w, sz, data, fpos, ul);
      return false;
    }

    /** seek_vdir: put vd_last where the file position says. */
    method SeekVdir() returns (valid: bool)
      requires Valid() && OnBoundary() && EndOf(w, data[|data| - 1], 0) < sz
      modifies this`lastUl, this`lastOff
      ensures OnBoundary()
      ensures valid ==> From(w, sz, data, lastUl, lastOff) == EntriesFrom(w, sz, data, fpos)
      ensures !valid ==> EntriesFrom(w, sz, data, fpos) == []
      ensures valid && IsRestPos(w, sz, data, fpos) ==> fpos == sz * lastUl + lastOff
      ensures valid ==> fpos == sz * lastUl + lastOff || (fpos < sz * lastUl + lastOff && lastOff < sz)
    {
      hide Blocks, From, EndOf, Holds, IsRestPos, EntriesFrom;
      CursorTail(w, sz, data, lastUl, lastOff);
      if fpos == sz * lastUl + lastOff {
        return true;
      }
      lastUl, lastOff := 0, 0;
      BlocksAt(w, sz, data, 0);
      if fpos == 0 {
        CursorTail(w, sz, data, 0, 0);
        return true;
      }
      valid := ScanBlocks();
    }

    ghost predicate Synced()
      reads this`lastUl, this`lastOff, this`fpos
    {
      fpos == sz * lastUl + lastOff
    }

    /** In block `blk` the file position is `d` behind the cursor; in later blocks it is in step with it. */
    ghost predicate Behind(blk: nat, d: nat)
      reads this`lastUl, this`lastOff, this`fpos
    {
      lastUl >= blk && fpos + (if lastUl == blk then d else 0) == sz * lastUl + lastOff
    }

    ghost function Rest(): seq<Entry>
      requires Blocks(w, sz, data) && OnBoundary()
      reads this`data, this`lastUl, this`lastOff
    {
      From(w, sz, data, lastUl, lastOff)
    }

    /** Step over the ends of blocks; false when the last block has ended. */
    method NextEntry(ghost blk: nat, ghost d: nat) returns (more: bool)
      requires Valid() && OnBoundary() && Behind(blk, d)
      modifies this`lastUl, this`lastOff, this`fpos
      ensures OnBoundary() && Rest() == old(Rest())
      ensures Behind(blk, d) && (old(Synced()) ==> Synced())
      ensures Resting(w, sz, data, lastUl, lastOff)
      ensures if more then !AtEnd(w, data[lastUl], lastOff) else Rest() == []
    {
      hide Blocks, BlockOk, IsCursor, From, AtEnd, EndOf;
      while true
        invariant OnBoundary() && Rest() == old(Rest())
        invariant Behind(blk, d) && (old(Synced()) ==> Synced())
        decreases |data| - lastUl
      {
        CursorBounds(w, sz, data, lastUl, lastOff);
        var end := Ended(lastUl, lastOff);
        if !end {
          FromStep(w, sz, data, lastUl, lastOff);
          return true;
        }
        FromNextBlock(w, sz, data, lastUl, lastOff);
        if lastUl == |deblk| - 1 {
          return false;
        }
        lastUl := lastUl + 1;
        lastOff := 0;
        fpos := sz * lastUl;
      }
    }

    /** Hand over the entry at the cursor. */
    method TakeEntry(ghost blk: nat, ghost d: nat) returns (e: Entry, pos: nat)
      requires Valid() && OnBoundary() && !AtEnd(w, data[lastUl], lastOff) && Behind(blk, d)
      modifies this`lastOff, this`fpos
      ensures OnBoundary() && pos == old(fpos)
      ensures old(Rest()) == [e] + Rest()
      ensures Behind(blk, d) && PosLess(w, sz, data, pos, old(Rest()), blk, d)
      ensures old(Synced()) ==> Synced() && IsEntryPos(w, sz, data, pos) && EntriesFrom(w, sz, data, pos) == old(Rest())
    {
      hide Blocks, BlockOk, IsCursor, From, EntriesFrom, IsEntryPos, AtEnd, EndOf, CalcSize;
      CursorBounds(w, sz, data, lastUl, lastOff);
      var b := deblk[lastUl];
      HoldsAt(deblk, data, lastUl);
      CursorRests(w, sz, data, lastUl, lastOff);
      FromStep(w, sz, data, lastUl, lastOff);
      DivModUnique(sz, sz * lastUl + lastOff, lastUl, lastOff);
      e, pos := EntryAt(w, b[..], lastOff), fpos;
      var l := CalcSize(w, LenAt(w, b[..], lastOff));
      lastOff := lastOff + l;
      fpos := fpos + l;
    }

    lemma RestsHere()
      requires CalcSize(w, 255) <= sz && Blocks(w, sz, data) && Resting(w, sz, data, lastUl, lastOff)
      ensures Synced() ==> IsRestPos(w, sz, data, fpos) && EntriesFrom(w, sz, data, fpos) == Rest()
    {
      RestingPos(w, sz, data, lastUl, lastOff);
    }

    /** The loop of au_vdir_fill_de. */
    method Deliver(room: nat, ghost inStep: bool, ghost blk: nat, ghost d: nat) returns (out: seq<(Entry, nat)>)
      requires Valid() && OnBoundary() && (inStep ==> Synced()) && Behind(blk, d)
      modifies this`lastUl, this`lastOff, this`fpos
      ensures Resting(w, sz, data, lastUl, lastOff)
      ensures HandedOver(w, sz, data, out, old(Rest()), Rest(), inStep)
      ensures Positioned(w, sz, data, out, Rest(), blk, d) && Behind(blk, d)
      ensures |out| <= room && (|out| == room || Rest() == [])
      ensures inStep ==> Synced()
    {
      hide Positioned, PosLess, Blocks, IsCursor, From, HandedOver, AtEnd, IsEntryPos, EntriesFrom, EndOf, Holds;
      HandedNone(w, sz, data, Rest(), inStep);
      out := [];
      ghost var all := Rest();
      PositionedNone(w, sz, data, Rest(), blk, d);
      var more := NextEntry(blk, d);
      while more && |out| < room
        invariant Resting(w, sz, data, lastUl, lastOff) && |out| <= room
        invariant HandedOver(w, sz, data, out, all, Rest(), inStep)
        invariant Behind(blk, d) && Positioned(w, sz, data, out, Rest(), blk, d)
        invariant inStep ==> Synced()
        invariant more ==> !AtEnd(w, data[lastUl], lastOff)
        invariant !more ==> Rest() == []
        decreases room - |out|
      {
        var e, pos := TakeEntry(blk, d);
        HandOver(w, sz, data, out, all, e, Rest(), inStep, pos);
        PositionedMore(w, sz, data, out, e, Rest(), pos, blk, d);
        out := out + [(e, pos)];
        more := NextEntry(blk, d);
      }
    }

    /** au_vdir_fill_de for a consumer that takes `room` entries and then refuses. It hands over the
        next entries in order; from a rest position each comes with a position from which a later call
        resumes at exactly that entry, and the file position ends where the entries not taken begin. From any
        other position the first entry comes with the position asked for, and those of its block are as far
        off as that is from `first`, its own; the entries of later blocks come with their own. Likewise for the
        position the call ends at, which belongs to the first entry not taken. */
    method FillDe(room: nat) returns (out: seq<(Entry, nat)>, ghost rest: seq<Entry>)
      requires Valid() && OnBoundary() && EndOf(w, data[|data| - 1], 0) < sz
      modifies this`lastUl, this`lastOff, this`fpos
      ensures OnBoundary()
      ensures HandedOver(w, sz, data, out, EntriesFrom(w, sz, data, old(fpos)), rest, IsRestPos(w, sz, data, old(fpos)))
      ensures IsRestPos(w, sz, data, old(fpos)) ==>
              IsRestPos(w, sz, data, fpos) && EntriesFrom(w, sz, data, fpos) == rest
      ensures |out| <= room && (|out| == room || rest == [])
      ensures exists first: nat, blk: nat ::
                Strays(old(fpos), out, rest, first, blk) && EndsAt(fpos, rest, blk, first - old(fpos))
    {
      hide Blocks, IsCursor, From, EndOf, Holds, EntriesFrom, IsRestPos, Positioned, Behind;
      ghost var inStep, pos := IsRestPos(w, sz, data, fpos), fpos;
      var valid := SeekVdir();
      if !valid {
        PositionedNone(w, sz, data, [], 0, 0);
        assert Strays(pos, [], [], pos, 0) && EndsAt(pos, [], 0, 0);
        return [], [];
      }
      ghost var first, blk := sz * lastUl + lastOff, lastUl;
      CursorTail(w, sz, data, lastUl, lastOff);
      StrayStart(pos);
      out := Deliver(room, inStep, blk, first - pos);
      rest := Rest();
      RestsHere();
      EndsHere(blk, first - pos);
      assert Strays(pos, out, rest, first, blk) && EndsAt(fpos, rest, blk, first - pos);
    }

    /** Position `end` is that of what `rest` begins with, less `d` if that is in block `blk`. */
    ghost predicate EndsAt(end: int, rest: seq<Entry>, blk: nat, d: nat)
      requires sz > 0 && Blocks(w, sz, data)
      reads this`data
    {
      exists p: nat :: EntriesFrom(w, sz, data, p) == rest && end == p - if p / sz == blk then d else 0
    }

    lemma EndsHere(blk: nat, d: nat)
      requires Valid() && EndOf(w, data[|data| - 1], 0) < sz && Resting(w, sz, data, lastUl, lastOff) && Behind(blk, d)
      ensures OnBoundary() && EndsAt(fpos, Rest(), blk, d)
    {
      RestingPos(w, sz, data, lastUl, lastOff);
      BlocksAt(w, sz, data, |data| - 1);
      RestingInside(w, sz, data, lastUl, lastOff);
      hide EntriesFrom, Blocks, From;
      DivModUnique(sz, sz * lastUl + lastOff, lastUl, lastOff);
      assert EntriesFrom(w, sz, data, sz * lastUl + lastOff) == Rest();
    }

    /** How far the positions of one call are off: `first` is that of the entry at or behind `pos`, in block
        `blk`. */
    ghost predicate Strays(pos: nat, out: seq<(Entry, nat)>, rest: seq<Entry>, first: nat, blk: nat)
      requires sz > 0 && Blocks(w, sz, data)
      reads this`data
    {
      && pos <= first && (pos < first ==> blk == first / sz)
      && EntriesFrom(w, sz, data, first) == EntriesFrom(w, sz, data, pos)
      && Positioned(w, sz, data, out, rest, blk, first - pos)
    }

    lemma StrayStart(pos: nat)
      requires sz > 0 && fpos == pos && pos <= sz * lastUl + lastOff
      requires pos == sz * lastUl + lastOff || lastOff < sz
      ensures Behind(lastUl, sz * lastUl + lastOff - pos)
      ensures pos < sz * lastUl + lastOff ==> lastUl == (sz * lastUl + lastOff) / sz
    {
      if lastOff < sz {
        DivModUnique(sz, sz * lastUl + lastOff, lastUl, lastOff);
      }
    }

    /** Any number of calls, the k-th for a consumer that takes `rooms[k]` entries. */
    method FillDes(rooms: seq<nat>) returns (out: seq<(Entry, nat)>, ghost rest: seq<Entry>)
      requires Valid() && OnBoundary() && EndOf(w, data[|data| - 1], 0) < sz && IsRestPos(w, sz, data, fpos)
      modifies this`lastUl, this`lastOff, this`fpos
      ensures HandedOver(w, sz, data, out, EntriesFrom(w, sz, data, old(fpos)), rest, true)
      ensures IsRestPos(w, sz, data, fpos) && EntriesFrom(w, sz, data, fpos) == rest
      ensures OnBoundary() && |out| <= Total(rooms) && (|out| == Total(rooms) || rest == [])
    {
      hide Blocks, HandedOver, EntriesFrom, IsRestPos, IsCursor, EndOf, Holds, Vdir.Strays, Vdir.EndsAt;
      HandedNone(w, sz, data, EntriesFrom(w, sz, data, fpos), true);
      out, rest := [], EntriesFrom(w, sz, data, fpos);
      ghost var all := rest;
      for k := 0 to |rooms|
        invariant OnBoundary() && IsRestPos(w, sz, data, fpos) && EntriesFrom(w, sz, data, fpos) == rest
        invariant HandedOver(w, sz, data, out, all, rest, true)
        invariant |out| <= Total(rooms[..k]) && (|out| == Total(rooms[..k]) || rest == [])
      {
        var more;
        ghost var left;
        more, left := FillDe(rooms[k]);
        HandOverMore(w, sz, data, out, more, all, rest, left);
        HandedOverAt(w, sz, data, more, rest, left, true);
        assert rooms[..k + 1][..k] == rooms[..k];
        out, rest := out + more, left;
      }
      assert rooms[..|rooms|] == rooms;
    }
  }
}
