/** Copying a file's data with short, interrupted and failing I/O, leaving zero blocks as holes
    (au_do_copy_file, cpup.c). A byte is a `char`. */
module CopyFile {
  import opened Basics

  type Bytes = seq<char>

  const NUL: char := 0 as char

  function Zeros(n: nat): Bytes {
    seq(n, _ => NUL)
  }

  /** A file read beyond its end, as if it ended with a hole. */
  function Pad(d: Bytes, n: nat): (r: Bytes)
    ensures |r| == if |d| < n then n else |d|
  {
    if |d| < n then d + Zeros(n - |d|) else d
  }

  /** A write at `pos`: what lies between the end and `pos` reads as zeros. */
  function WriteAt(d: Bytes, pos: nat, p: Bytes): Bytes {
    if p == [] then d else
      var e := Pad(d, pos);
      e[..pos] + p + if pos + |p| < |e| then e[pos + |p|..] else []
  }

  /** Setting the size. */
  function Resize(d: Bytes, n: nat): (r: Bytes)
    ensures |r| == n
  {
    Pad(d, n)[..n]
  }

  /** What the next lower operation does: moves at most `n` bytes, is interrupted (EAGAIN, EINTR), or
      fails. After the script everything succeeds in full. */
  datatype Io = Short(n: nat) | Again | Fail

  datatype Ret = Moved(n: nat) | Retry | Error

  predicate IsZero(p: Bytes) {
    forall i :: 0 <= i < |p| ==> p[i] == NUL
  }

  /** `d`, with a hole to the end, is the first `n` bytes of the source. */
  ghost predicate Copied(d: Bytes, src: Bytes, n: nat) {
    n <= |src| && |d| <= n && Pad(d, n) == src[..n]
  }

  lemma CopiedWrite(d: Bytes, src: Bytes, n: nat, m: nat)
    requires Copied(d, src, n) && n < m <= |src|
    ensures Copied(WriteAt(d, n, src[n..m]), src, m) && |WriteAt(d, n, src[n..m])| == m
  {
    assert src[..m] == src[..n] + src[n..m];
  }

  lemma CopiedHole(d: Bytes, src: Bytes, n: nat, m: nat)
    requires Copied(d, src, n) && n <= m <= |src| && IsZero(src[n..m])
    ensures Copied(d, src, m)
  {
    assert src[..m] == src[..n] + src[n..m];
    assert Pad(d, m) == Pad(d, n) + Zeros(m - n);
    assert src[n..m] == Zeros(m - n);
  }

  lemma CopiedEnd(d: Bytes, src: Bytes, n: nat)
    requires Copied(d, src, n)
    ensures Resize(d, n) == src[..n]
    ensures Resize(WriteAt(d, n, [NUL]), n) == src[..n]
    ensures |d| == n ==> d == src[..n]
  {}

  // ----- the copy as a function of the I/O script

  /** What the script says of the next operation; at its end everything is moved, at most `big` bytes. */
  function Head(script: seq<Io>, big: nat): Io {
    if script == [] then Short(big) else script[0]
  }

  function Rest(script: seq<Io>): seq<Io> {
    if script == [] then [] else script[1..]
  }

  /** How writing a buffer, one block, the loop over the blocks and the whole copy end. */
  datatype Written = Written(ok: bool, d: Bytes, script: seq<Io>)
  datatype BlockEnd = BlockEnd(ok: bool, n: nat, zero: bool, d: Bytes, script: seq<Io>)
  datatype LoopEnd = LoopEnd(ok: bool, zero: bool, d: Bytes, script: seq<Io>)
  /** `lost` tells that the byte that makes a trailing hole was not written. */
  datatype CopyEnd = CopyEnd(ok: bool, d: Bytes, lost: bool, script: seq<Io>)

  function Least(k: nat, n: nat): nat {
    if k < n then k else n
  }

  /** The inner loop that reads at most `sz` bytes: how many, or None for an error. */
  function Reading(sz: nat, script: seq<Io>, big: nat): (Option<nat>, seq<Io>)
    requires 0 < sz <= big
    ensures Reading(sz, script, big).0.Some? ==> 0 < Reading(sz, script, big).0.value <= sz
    ensures |Reading(sz, script, big).1| <= |script|
    decreases |script|
  {
    match Head(script, big)
    case Again => Reading(sz, Rest(script), big)
    case Fail => (None, Rest(script))
    case Short(k) => (Some(if k == 0 then 1 else Least(k, sz)), Rest(script))
  }

  /** The inner loop that writes `p` at `pos`. */
  function Writing(d: Bytes, pos: nat, p: Bytes, script: seq<Io>, big: nat): Written
    requires |p| <= big
    decreases |script|, |p|
  {
    if p == [] then Written(true, d, script)
    else
      match Head(script, big)
      case Again => Writing(d, pos, p, Rest(script), big)
      case Fail => Written(false, d, Rest(script))
      case Short(k) =>
        var n := Least(k, |p|);
        Writing(WriteAt(d, pos, p[..n]), pos + n, p[n..], Rest(script), big)
  }

  /** One block of at most `sz` bytes at `pos`: `n` bytes, left as a hole if `zero`. */
  function Block(src: Bytes, d: Bytes, pos: nat, sz: nat, blksize: nat, script: seq<Io>): BlockEnd
    requires 0 < sz && pos + sz <= |src|
  {
    var (r, s1) := Reading(sz, script, |src|);
    if r.None? then BlockEnd(false, 0, false, d, s1)
    else
      var n := r.value;
      var buf := src[pos..pos + n];
      if n == blksize && IsZero(buf) then BlockEnd(Head(s1, |src|) != Fail, n, true, d, Rest(s1))
      else
        var w := Writing(d, pos, buf, s1, |src|);
        BlockEnd(w.ok, n, false, w.d, w.script)
  }

  /** The outer loop; `zero` tells that the last block was left as a hole. */
  function Blocks(src: Bytes, d: Bytes, pos: nat, left: nat, zero: bool, blksize: nat, script: seq<Io>): LoopEnd
    requires 0 < blksize && pos + left <= |src|
    decreases left
  {
    if left == 0 then LoopEnd(true, zero, d, script)
    else
      var b := Block(src, d, pos, Least(left, blksize), blksize, script);
      if !b.ok then LoopEnd(false, b.zero, b.d, b.script)
      else Blocks(src, b.d, pos + b.n, left - b.n, b.zero, blksize, b.script)
  }

  /** The write of the byte behind a trailing hole: how many bytes it moved, or None. */
  function NulWrite(script: seq<Io>, big: nat): (Option<nat>, seq<Io>)
    decreases |script|
  {
    match Head(script, big)
    case Again => NulWrite(Rest(script), big)
    case Fail => (None, Rest(script))
    case Short(k) => (Some(Least(k, 1)), Rest(script))
  }

  /** The trailing hole. */
  function Trailing(src: Bytes, d: Bytes, len: nat, nfs: bool, script: seq<Io>): CopyEnd {
    if nfs then
      var (r, s1) := NulWrite(script, |src|);
      if r.None? then CopyEnd(false, d, false, s1)
      else if r.value == 0 then CopyEnd(true, d, true, s1)
      else CopyEnd(Head(s1, |src|) != Fail, Resize(WriteAt(d, len, [NUL]), len), false, Rest(s1))
    else CopyEnd(Head(script, |src|) != Fail, Resize(d, len), false, Rest(script))
  }

  /** The whole copy into an empty file. */
  function CopyOf(src: Bytes, len: nat, blksize: nat, nfs: bool, script: seq<Io>): CopyEnd
    requires 0 < blksize && len <= |src|
  {
    var e := Blocks(src, [], 0, len, false, blksize, script);
    if e.ok && e.zero then Trailing(src, e.d, len, nfs, e.script) else CopyEnd(e.ok, e.d, false, e.script)
  }

  // ----- when the copy fails

  /** The operations met from `script` to `rest` all went on, or, if not `ok`, one of them failed. */
  ghost predicate Met(script: seq<Io>, rest: seq<Io>, ok: bool) {
    && |rest| <= |script| && rest == script[|script| - |rest|..]
    && (ok <==> Fail !in script[..|script| - |rest|])
  }

  lemma MetNone(script: seq<Io>)
    ensures Met(script, script, true)
  {}

  lemma MetOne(script: seq<Io>, big: nat)
    ensures Met(script, Rest(script), Head(script, big) != Fail)
  {}

  lemma MetMore(script: seq<Io>, mid: seq<Io>, rest: seq<Io>, ok: bool)
    requires Met(script, mid, true) && Met(mid, rest, ok)
    ensures Met(script, rest, ok)
  {
    var k, m := |script| - |mid|, |script| - |rest|;
    assert script[..m] == script[..k] + mid[..|mid| - |rest|];
    assert rest == script[m..];
  }

  lemma {:induction false} ReadingMet(sz: nat, script: seq<Io>, big: nat)
    requires 0 < sz <= big
    ensures var r := Reading(sz, script, big); Met(script, r.1, r.0.Some?)
    decreases |script|
  {
    hide Met;
    MetOne(script, big);
    if Head(script, big) == Again {
      ReadingMet(sz, Rest(script), big);
      var r := Reading(sz, script, big);
      MetMore(script, Rest(script), r.1, r.0.Some?);
    }
  }

  lemma {:induction false} WritingMet(d: Bytes, pos: nat, p: Bytes, script: seq<Io>, big: nat)
    requires |p| <= big
    ensures var w := Writing(d, pos, p, script, big); Met(script, w.script, w.ok)
    decreases |script|, |p|
  {
    hide Met, WriteAt;
    MetNone(script);
    MetOne(script, big);
    if p != [] {
      var w := Writing(d, pos, p, script, big);
      match Head(script, big)
      case Again =>
        WritingMet(d, pos, p, Rest(script), big);
        MetMore(script, Rest(script), w.script, w.ok);
      case Fail =>
      case Short(k) =>
        var n := Least(k, |p|);
        WritingMet(WriteAt(d, pos, p[..n]), pos + n, p[n..], Rest(script), big);
        MetMore(script, Rest(script), w.script, w.ok);
    }
  }

  lemma BlockMet(src: Bytes, d: Bytes, pos: nat, sz: nat, blksize: nat, script: seq<Io>)
    requires 0 < sz && pos + sz <= |src|
    ensures var b := Block(src, d, pos, sz, blksize, script); Met(script, b.script, b.ok)
  {
    hide Met, IsZero;
    ReadingMet(sz, script, |src|);
    var (r, s1) := Reading(sz, script, |src|);
    if r.Some? {
      WritingMet(d, pos, src[pos..pos + r.value], s1, |src|);
      MetOne(s1, |src|);
      var b := Block(src, d, pos, sz, blksize, script);
      MetMore(script, s1, b.script, b.ok);
    }
  }

  lemma {:induction false} BlocksMet(src: Bytes, d: Bytes, pos: nat, left: nat, zero: bool, blksize: nat,
                                     script: seq<Io>)
    requires 0 < blksize && pos + left <= |src|
    ensures var e := Blocks(src, d, pos, left, zero, blksize, script); Met(script, e.script, e.ok)
    decreases left
  {
    hide *;
    MetNone(script);
    LeastSame(left, blksize);
    if left == 0 {
      BlocksNone(src, d, pos, zero, blksize, script);
    } else {
      var sz := Least(left, blksize);
      BlocksStep(src, d, pos, left, sz, zero, blksize, script);
      BlockMet(src, d, pos, sz, blksize, script);
      BlockSome(src, d, pos, sz, blksize, script);
      var b := Block(src, d, pos, sz, blksize, script);
      if b.ok {
        BlocksMet(src, b.d, pos + b.n, left - b.n, b.zero, blksize, b.script);
        var e := Blocks(src, d, pos, left, zero, blksize, script);
        MetMore(script, b.script, e.script, e.ok);
      }
    }
  }

  lemma BlockSome(src: Bytes, d: Bytes, pos: nat, sz: nat, blksize: nat, script: seq<Io>)
    requires 0 < sz && pos + sz <= |src|
    ensures Block(src, d, pos, sz, blksize, script).ok ==> 0 < Block(src, d, pos, sz, blksize, script).n
  {}

  lemma {:induction false} NulWriteMet(script: seq<Io>, big: nat)
    ensures var r := NulWrite(script, big); Met(script, r.1, r.0.Some?)
    decreases |script|
  {
    hide Met;
    MetOne(script, big);
    if Head(script, big) == Again {
      NulWriteMet(Rest(script), big);
      var r := NulWrite(script, big);
      MetMore(script, Rest(script), r.1, r.0.Some?);
    }
  }

  lemma TrailingMet(src: Bytes, d: Bytes, len: nat, nfs: bool, script: seq<Io>)
    ensures var c := Trailing(src, d, len, nfs, script); Met(script, c.script, c.ok)
  {
    hide Met, WriteAt, Resize;
    MetOne(script, |src|);
    NulWriteMet(script, |src|);
    var s1 := NulWrite(script, |src|).1;
    MetOne(s1, |src|);
    var c := Trailing(src, d, len, nfs, script);
    if nfs && NulWrite(script, |src|).0.Some? && NulWrite(script, |src|).0.value > 0 {
      MetMore(script, s1, c.script, c.ok);
    }
  }

  /** The copy fails exactly if one of the operations it meets fails: no interruption and no short transfer
      makes it fail, and no failure is passed over. */
  lemma FailsOnlyOnFailure(src: Bytes, len: nat, blksize: nat, nfs: bool, script: seq<Io>)
    requires 0 < blksize && len <= |src|
    ensures var c := CopyOf(src, len, blksize, nfs, script);
            Met(script, c.script, c.ok) && (Fail !in script ==> c.ok)
  {
    BlocksMet(src, [], 0, len, false, blksize, script);
    var e := Blocks(src, [], 0, len, false, blksize, script);
    var c := CopyOf(src, len, blksize, nfs, script);
    hide Blocks, Trailing, Met;
    if e.ok && e.zero {
      TrailingMet(src, e.d, len, nfs, e.script);
      MetMore(script, e.script, c.script, c.ok);
    }
    MetClean(script, c.script, c.ok);
  }

  lemma MetClean(script: seq<Io>, rest: seq<Io>, ok: bool)
    requires Met(script, rest, ok)
    ensures Fail !in script ==> ok
  {}

  // ----- what the copy makes

  lemma {:induction false} WritingCopies(src: Bytes, d: Bytes, pos: nat, p: Bytes, script: seq<Io>)
    requires pos + |p| <= |src| && p == src[pos..pos + |p|] && Copied(d, src, pos)
    ensures var w := Writing(d, pos, p, script, |src|);
            w.ok ==> Copied(w.d, src, pos + |p|) && (p != [] ==> |w.d| == pos + |p|)
    decreases |script|, |p|
  {
    if p == [] {
    } else {
      match Head(script, |src|)
      case Again => WritingCopies(src, d, pos, p, Rest(script));
      case Fail =>
      case Short(k) =>
        var n := Least(k, |p|);
        if n > 0 {
          CopiedWrite(d, src, pos, pos + n);
          assert p[..n] == src[pos..pos + n];
        }
        assert p[n..] == src[pos + n..pos + n + |p[n..]|];
        hide Copied, Pad, IsZero;
        WritingCopies(src, WriteAt(d, pos, p[..n]), pos + n, p[n..], Rest(script));
    }
  }

  /** The destination, with a hole to the end, is what was to be copied up to `end`; it ends in a hole only
      behind a last block of zeros. */
  ghost predicate UpTo(d: Bytes, src: Bytes, end: nat, allZero: bool, blksize: nat) {
    && end <= |src| && Copied(d, src, end)
    && if allZero then blksize <= end && |d| <= end - blksize && IsZero(src[end - blksize..end]) else |d| == end
  }

  lemma BlockCopies(src: Bytes, d: Bytes, pos: nat, sz: nat, blksize: nat, script: seq<Io>)
    requires 0 < sz <= blksize && pos + sz <= |src| && Copied(d, src, pos)
    ensures var b := Block(src, d, pos, sz, blksize, script);
            b.ok ==> 0 < b.n <= sz && UpTo(b.d, src, pos + b.n, b.zero, blksize)
  {
    var (r, s1) := Reading(sz, script, |src|);
    if r.Some? {
      WritingCopies(src, d, pos, src[pos..pos + r.value], s1);
      if IsZero(src[pos..pos + r.value]) {
        CopiedHole(d, src, pos, pos + r.value);
      }
    }
  }

  lemma UpToCopied(d: Bytes, src: Bytes, end: nat, zero: bool, blksize: nat)
    requires UpTo(d, src, end, zero, blksize)
    ensures Copied(d, src, end)
  {}

  lemma BlocksNone(src: Bytes, d: Bytes, pos: nat, zero: bool, blksize: nat, script: seq<Io>)
    requires 0 < blksize && pos <= |src|
    ensures Blocks(src, d, pos, 0, zero, blksize, script) == LoopEnd(true, zero, d, script)
  {}

  /** One round of the outer loop. */
  lemma BlocksStep(src: Bytes, d: Bytes, pos: nat, left: nat, sz: nat, zero: bool, blksize: nat, script: seq<Io>)
    requires 0 < blksize && 0 < left && pos + left <= |src| && sz == Least(left, blksize)
    ensures var b := Block(src, d, pos, sz, blksize, script);
            && (b.ok ==> b.n <= left)
            && Blocks(src, d, pos, left, zero, blksize, script) ==
               if b.ok then Blocks(src, b.d, pos + b.n, left - b.n, b.zero, blksize, b.script)
               else LoopEnd(false, b.zero, b.d, b.script)
  {}

  lemma {:induction false} BlocksCopy(src: Bytes, d: Bytes, pos: nat, left: nat, end: nat, zero: bool, blksize: nat,
                                      script: seq<Io>)
    requires 0 < blksize && pos + left == end <= |src| && UpTo(d, src, pos, zero, blksize)
    ensures var e := Blocks(src, d, pos, left, zero, blksize, script);
            e.ok ==> UpTo(e.d, src, end, e.zero, blksize)
    decreases left
  {
    hide *;
    var sz := Least(left, blksize);
    LeastSame(left, blksize);
    if left == 0 {
      BlocksNone(src, d, pos, zero, blksize, script);
    } else {
      UpToCopied(d, src, pos, zero, blksize);
      BlockCopies(src, d, pos, sz, blksize, script);
      BlocksStep(src, d, pos, left, sz, zero, blksize, script);
      var b := Block(src, d, pos, sz, blksize, script);
      if b.ok {
        BlocksCopy(src, b.d, pos + b.n, left - b.n, end, b.zero, blksize, b.script);
      }
    }
  }

  /** A copy that succeeds is right unless the byte for its trailing hole was not written; that can only be on
      NFS, behind a last block of zeros. */
  lemma CopyRight(src: Bytes, len: nat, blksize: nat, nfs: bool, script: seq<Io>)
    requires 0 < blksize && len <= |src|
    ensures var c := CopyOf(src, len, blksize, nfs, script);
            && (c.ok ==> (c.d == src[..len] <==> !c.lost) && Copied(c.d, src, len))
            && (c.lost ==> nfs && len >= blksize && IsZero(src[len - blksize..len]))
  {
    BlocksCopy(src, [], 0, len, len, false, blksize, script);
    var e := Blocks(src, [], 0, len, false, blksize, script);
    hide Blocks;
    if e.ok {
      CopiedEnd(e.d, src, len);
      CopiedSelf(src, len);
    }
  }

  lemma CopiedSelf(src: Bytes, n: nat)
    requires n <= |src|
    ensures Copied(src[..n], src, n)
  {}

  // ----- the script that makes it fail

  predicate Multiple(left: nat, blksize: nat)
    decreases left
  {
    left == 0 || (0 < blksize <= left && Multiple(left - blksize, blksize))
  }

  /** `len` modulo the block size. */
  function Odd(len: nat, blksize: nat): (r: nat)
    requires 0 < blksize
    ensures r < blksize && r <= len && Multiple(len - r, blksize)
    decreases len
  {
    if len < blksize then len else Odd(len - blksize, blksize)
  }

  /** Two operations that move everything for each block, then `tail`. */
  function Whole(left: nat, blksize: nat, big: nat, tail: seq<Io>): seq<Io>
    decreases left
  {
    if 0 < blksize <= left then [Short(big), Short(big)] + Whole(left - blksize, blksize, big, tail) else tail
  }

  lemma WholeNone(blksize: nat, big: nat, tail: seq<Io>)
    ensures Whole(0, blksize, big, tail) == tail
  {}

  lemma WholeSome(left: nat, blksize: nat, big: nat, tail: seq<Io>)
    requires 0 < left && Multiple(left, blksize)
    ensures 0 < blksize <= left && Multiple(left - blksize, blksize) && Least(left, blksize) == blksize
    ensures Whole(left, blksize, big, tail) == [Short(big), Short(big)] + Whole(left - blksize, blksize, big, tail)
  {}

  /** One block takes two operations: a read of `n` bytes, and a write or a seek. */
  lemma WholeBlock(src: Bytes, d: Bytes, pos: nat, sz: nat, k: nat, n: nat, blksize: nat, rest: seq<Io>)
    requires 0 < n <= sz <= blksize && pos + sz <= |src| && 0 < k && n == Least(k, sz)
    ensures var b := Block(src, d, pos, sz, blksize, [Short(k), Short(|src|)] + rest);
            b.ok && b.n == n && b.script == rest && (b.zero <==> n == blksize && IsZero(src[pos..pos + n]))
  {
    var script := [Short(k), Short(|src|)] + rest;
    assert Rest(script) == [Short(|src|)] + rest && Rest(Rest(script)) == rest;
    var buf := src[pos..pos + n];
    assert buf[..|buf|] == buf && buf[|buf|..] == [];
    assert Writing(d, pos, buf, Rest(script), |src|) == Writing(WriteAt(d, pos, buf), pos + |buf|, [], rest, |src|);
  }

  lemma {:induction false} WholeBlocks(src: Bytes, d: Bytes, pos: nat, left: nat, end: nat, zero: bool, blksize: nat,
                                       tail: seq<Io>)
    requires 0 < blksize && pos + left == end <= |src| && Multiple(left, blksize)
    ensures var e := Blocks(src, d, pos, left, zero, blksize, Whole(left, blksize, |src|, tail));
            && e.ok && e.script == tail
            && (if left == 0 then e.zero == zero else blksize <= left && (e.zero <==> IsZero(src[end - blksize..end])))
    decreases left
  {
    hide *;
    if left == 0 {
      BlocksNone(src, d, pos, zero, blksize, tail);
      WholeNone(blksize, |src|, tail);
    } else {
      WholeSome(left, blksize, |src|, tail);
      LeastSame(|src|, blksize);
      var rest := Whole(left - blksize, blksize, |src|, tail);
      var script := [Short(|src|), Short(|src|)] + rest;
      WholeBlock(src, d, pos, blksize, |src|, blksize, blksize, rest);
      BlocksStep(src, d, pos, left, blksize, zero, blksize, script);
      WholeBlocks(src, Block(src, d, pos, blksize, blksize, script).d, pos + blksize, left - blksize, end,
                  Block(src, d, pos, blksize, blksize, script).zero, blksize, tail);
    }
  }

  lemma LeastSame(k: nat, n: nat)
    ensures n <= k ==> Least(k, n) == n
    ensures k <= n ==> Least(k, n) == k
  {}

  /** A read of the odd bytes first, so that the last block is a whole one; then everything in full, but for
      the byte behind the trailing hole. */
  function Losing(src: Bytes, len: nat, blksize: nat): seq<Io>
    requires 0 < blksize
  {
    var r := Odd(len, blksize);
    var whole := Whole(len - r, blksize, |src|, [Short(0)]);
    if r == 0 then whole else [Short(r), Short(|src|)] + whole
  }

  lemma LosingLoses(src: Bytes, len: nat, blksize: nat)
    requires 0 < blksize <= len <= |src| && IsZero(src[len - blksize..len])
    ensures var c := CopyOf(src, len, blksize, true, Losing(src, len, blksize)); c.ok && c.lost
  {
    LosingBlocks(src, len, blksize);
    hide Blocks, Losing, IsZero;
  }

  lemma LosingBlocks(src: Bytes, len: nat, blksize: nat)
    requires 0 < blksize <= len <= |src| && IsZero(src[len - blksize..len])
    ensures var e := Blocks(src, [], 0, len, false, blksize, Losing(src, len, blksize));
            e.ok && e.zero && e.script == [Short(0)]
  {
    hide *;
    var r, script := Odd(len, blksize), Losing(src, len, blksize);
    var whole := Whole(len - r, blksize, |src|, [Short(0)]);
    LosingIs(src, len, blksize);
    LeastSame(len, blksize);
    if r == 0 {
      WholeBlocks(src, [], 0, len, len, false, blksize, [Short(0)]);
    } else {
      LeastSame(r, blksize);
      WholeBlock(src, [], 0, blksize, r, r, blksize, whole);
      BlocksStep(src, [], 0, len, blksize, false, blksize, script);
      var b := Block(src, [], 0, blksize, blksize, script);
      WholeBlocks(src, b.d, r, len - r, len, b.zero, blksize, [Short(0)]);
      MultipleLong(len - r, blksize);
    }
  }

  lemma LosingIs(src: Bytes, len: nat, blksize: nat)
    requires 0 < blksize <= len
    ensures var r := Odd(len, blksize);
            var whole := Whole(len - r, blksize, |src|, [Short(0)]);
            && r < blksize && Multiple(len - r, blksize)
            && Losing(src, len, blksize) == if r == 0 then whole else [Short(r), Short(|src|)] + whole
  {}

  lemma MultipleLong(left: nat, blksize: nat)
    requires 0 < left && Multiple(left, blksize)
    ensures blksize <= left
  {}

  /** Whatever the I/O does, a copy that succeeds is right: if and only if it is not to NFS with a last block of
      zeros. */
  lemma AlwaysRight(src: Bytes, len: nat, blksize: nat, nfs: bool)
    requires 0 < blksize && len <= |src|
    ensures (forall script :: CopyOf(src, len, blksize, nfs, script).ok ==>
             CopyOf(src, len, blksize, nfs, script).d == src[..len])
            <==> !(nfs && len >= blksize && IsZero(src[len - blksize..len]))
  {
    if nfs && len >= blksize && IsZero(src[len - blksize..len]) {
      LosingLoses(src, len, blksize);
      CopyRight(src, len, blksize, nfs, Losing(src, len, blksize));
    } else {
      forall script | CopyOf(src, len, blksize, nfs, script).ok
        ensures CopyOf(src, len, blksize, nfs, script).d == src[..len]
      {
        CopyRight(src, len, blksize, nfs, script);
      }
    }
  }

  // ----- the code

  /** The two open files. */
  class Files {
    const src: Bytes
    var srcPos: nat
    var dst: Bytes
    var dstPos: nat
    var script: seq<Io>

    /** au_copy_file: both positions are set to the start; the destination is a new file. */
    constructor (src: Bytes, script: seq<Io>)
      ensures this.src == src && srcPos == 0 && dst == [] && dstPos == 0 && this.script == script
    {
      this.src, srcPos, dst, dstPos, this.script := src, 0, [], 0, script;
    }

    method Next() returns (io: Io)
      modifies this`script
      ensures io == Head(old(script), |src|) && script == Rest(old(script))
    {
      if script == [] {
        return Short(|src|);
      }
      io, script := script[0], script[1..];
    }

    /** vfsub_read_k: at least one byte unless the file has ended. */
    method Read(sz: nat) returns (r: Ret, buf: Bytes)
      requires 0 < sz && srcPos + sz <= |src|
      modifies this`srcPos, this`script
      ensures script == Rest(old(script))
      ensures r == match Head(old(script), |src|)
                   case Again => Retry case Fail => Error case Short(k) => Moved(if k == 0 then 1 else Least(k, sz))
      ensures if r.Moved? then 0 < r.n <= sz && srcPos == old(srcPos) + r.n && buf == src[old(srcPos)..srcPos]
              else srcPos == old(srcPos)
    {
      var io := Next();
      match io
      case Again => return Retry, [];
      case Fail => return Error, [];
      case Short(k) =>
        var n := if k == 0 then 1 else Least(k, sz);
        buf := src[srcPos..srcPos + n];
        srcPos := srcPos + n;
        return Moved(n), buf;
    }

    /** vfsub_write_k */
    method Write(p: Bytes) returns (r: Ret)
      modifies this`dst, this`dstPos, this`script
      ensures script == Rest(old(script))
      ensures r == match Head(old(script), |src|)
                   case Again => Retry case Fail => Error case Short(k) => Moved(Least(k, |p|))
      ensures if r.Moved? then r.n <= |p| && dst == WriteAt(old(dst), old(dstPos), p[..r.n])
              && dstPos == old(dstPos) + r.n
              else dst == old(dst) && dstPos == old(dstPos)
    {
      var io := Next();
      match io
      case Again => return Retry;
      case Fail => return Error;
      case Short(k) =>
        var n := Least(k, |p|);
        dst := WriteAt(dst, dstPos, p[..n]);
        dstPos := dstPos + n;
        return Moved(n);
    }

    /** The inner loop that writes a buffer. */
    method WriteAll(p: Bytes) returns (ok: bool)
      requires |p| <= |src|
      modifies this`dst, this`dstPos, this`script
      ensures Written(ok, dst, script) == Writing(old(dst), old(dstPos), p, old(script), |src|)
      ensures ok ==> dstPos == old(dstPos) + |p|
    {
      var k: nat := 0;
      assert p[0..] == p;
      while k < |p|
        invariant k <= |p| && dstPos == old(dstPos) + k
        invariant Writing(old(dst), old(dstPos), p, old(script), |src|) == Writing(dst, dstPos, p[k..], script, |src|)
        decreases |script|, |p| - k
      {
        ghost var s, d, rest := script, dst, p[k..];
        var b := Write(p[k..]);
        match b
        case Retry =>
        case Error => return false;
        case Moved(n) =>
          assert rest[n..] == p[k + n..];
          k := k + n;
      }
      return true;
    }

    /** The inner loop that reads: until something is read or an error other than an interruption. */
    method ReadSome(sz: nat) returns (r: Ret, buf: Bytes)
      requires 0 < sz && srcPos + sz <= |src|
      modifies this`srcPos, this`script
      ensures Reading(sz, old(script), |src|) == (if r.Moved? then Some(r.n) else None, script)
      ensures !r.Retry?
      ensures r.Moved? ==> 0 < r.n <= sz && srcPos == old(srcPos) + r.n && buf == src[old(srcPos)..srcPos]
    {
      r, buf := Read(sz);
      while r.Retry?
        invariant r.Retry? ==> srcPos == old(srcPos)
        invariant r.Moved? ==> 0 < r.n <= sz && srcPos == old(srcPos) + r.n && buf == src[old(srcPos)..srcPos]
        invariant Reading(sz, old(script), |src|) ==
                  if r.Retry? then Reading(sz, script, |src|) else (if r.Moved? then Some(r.n) else None, script)
        decreases |script|, r.Retry?
      {
        r, buf := Read(sz);
      }
    }

    /** One byte at the end, for a file system that makes no trailing hole otherwise. */
    method WriteNul() returns (r: Ret)
      modifies this`dst, this`dstPos, this`script
      ensures NulWrite(old(script), |src|) == (if r.Moved? then Some(r.n) else None, script)
      ensures !r.Retry?
      ensures r.Moved? ==>
                r.n <= 1 && dst == WriteAt(old(dst), old(dstPos), [NUL][..r.n]) && dstPos == old(dstPos) + r.n
    {
      r := Write([NUL]);
      while r.Retry?
        invariant r.Retry? ==> dst == old(dst) && dstPos == old(dstPos)
        invariant r.Moved? ==>
                    r.n <= 1 && dst == WriteAt(old(dst), old(dstPos), [NUL][..r.n]) && dstPos == old(dstPos) + r.n
        invariant NulWrite(old(script), |src|) ==
                  if r.Retry? then NulWrite(script, |src|) else (if r.Moved? then Some(r.n) else None, script)
        decreases |script|, r.Retry?
      {
        r := Write([NUL]);
      }
    }

    /** One block: read, then write it or leave a hole. */
    method CopyBlock(sz: nat, blksize: nat) returns (ok: bool, rbytes: nat, allZero: bool)
      requires 0 < sz <= blksize && srcPos == dstPos && srcPos + sz <= |src|
      modifies this
      ensures BlockEnd(ok, rbytes, allZero, dst, script) == Block(src, old(dst), old(dstPos), sz, blksize, old(script))
      ensures ok ==> 0 < rbytes <= sz && srcPos == dstPos == old(dstPos) + rbytes
    {
      hide WriteAt, IsZero;
      var r, buf := ReadSome(sz);
      if r.Error? {
        return false, 0, false;
      }
      rbytes := r.n;
      allZero := rbytes == blksize && IsZero(buf);
      if !allZero {
        ok := WriteAll(buf);
      } else {
        var io := Next();
        ok := io != Fail;
        if ok {
          dstPos := dstPos + rbytes;
        }
      }
    }

    /** The last block was a hole: make the file end where it should. */
    method LastHole(nfs: bool) returns (ok: bool)
      modifies this
      ensures var c := Trailing(src, old(dst), old(dstPos), nfs, old(script));
              ok == c.ok && script == c.script && (ok ==> dst == c.d)
    {
      if nfs {
        var r := WriteNul();
        if r.Error? {
          return false;
        }
        if r.n != 1 {
          assert [NUL][..0] == [];
          return true;
        }
        assert [NUL][..1] == [NUL];
        dstPos := dstPos - 1;
      }
      var io := Next();
      if io == Fail {
        return false;
      }
      dst := Resize(dst, dstPos);
      return true;
    }

    /** The loop over the blocks. */
    method CopyBlocks(len: nat, blksize: nat) returns (ok: bool, allZero: bool)
      requires blksize > 0 && srcPos == dstPos && dstPos + len <= |src|
      modifies this
      ensures LoopEnd(ok, allZero, dst, script) == Blocks(src, old(dst), old(dstPos), len, false, blksize, old(script))
      ensures ok ==> dstPos == old(dstPos) + len
    {
      hide *;
      var left: nat := len;
      ghost var e, end := Blocks(src, dst, dstPos, len, false, blksize, script), dstPos + len;
      allZero := false;
      while left > 0
        invariant srcPos == dstPos && dstPos + left == end <= |src|
        invariant e == Blocks(src, dst, dstPos, left, allZero, blksize, script)
      {
        LeastSame(left, blksize);
        BlocksStep(src, dst, dstPos, left, Least(left, blksize), allZero, blksize, script);
        var rbytes: nat;
        ok, rbytes, allZero := CopyBlock(Least(left, blksize), blksize);
        if !ok {
          return;
        }
        left := left - rbytes;
      }
      BlocksNone(src, dst, dstPos, allZero, blksize, script);
      ok := true;
    }

    /** au_do_copy_file. On success the destination is the first `len` bytes of the source, unless the write of
        the byte for a trailing hole moved nothing: then it is too short, although the caller is told that all
        went well. It fails exactly if an operation it met did. */
    method DoCopyFile(len: nat, blksize: nat, nfs: bool) returns (ok: bool)
      requires blksize > 0 && len <= |src| && srcPos == dstPos == 0 && dst == []
      modifies this
      ensures var c := CopyOf(src, len, blksize, nfs, old(script));
              ok == c.ok && (ok ==> dst == c.d && Copied(dst, src, len) && (dst == src[..len] <==> !c.lost))
      ensures ok && !(nfs && len >= blksize && IsZero(src[len - blksize..len])) ==> dst == src[..len]
      ensures Met(old(script), script, ok) && (Fail !in old(script) ==> ok)
    {
      CopyRight(src, len, blksize, nfs, script);
      FailsOnlyOnFailure(src, len, blksize, nfs, script);
      hide Blocks, Trailing, Copied, IsZero, Met;
      var allZero;
      ok, allZero := CopyBlocks(len, blksize);
      if ok && allZero {
        ok := LastHole(nfs);
      }
    }
  }
}
