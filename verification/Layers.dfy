/** The union of several lower directories ("layers"), as it is meant to look.
    A layer holds raw names; the raw name `.wh.x` in a whiteout-able layer hides `x`
    there and in every layer below it. */
module Layers {
  import opened Basics

  type Name = string

  const WH_PFX: Name := ".wh."

  datatype Kind = Reg | Dir | Special

  /** A lower inode. `data` stands for what the entry contains, so a copy of a file is a node
      with the same `data`; `opq` says that a directory holds the mark `.wh..wh..opq`. */
  datatype Node = Node(kind: Kind, data: nat, opq: bool)

  /** A whiteout as the code makes it. */
  const WHITEOUT := Node(Reg, 0, false)

  /** One branch's directory: absent branches have `present == false`; `whable` is
      au_br_whable of the branch permission. */
  datatype Layer = Layer(present: bool, whable: bool, ents: map<Name, Node>)

  type Stack = seq<Layer>

  function Wh(n: Name): Name {
    WH_PFX + n
  }

  /** The whiteout test of readdir: longer than the prefix and starting with it. */
  predicate IsWhName(n: Name) {
    |n| > |WH_PFX| && WH_PFX <= n
  }

  /** The test of au_test_shwh: names lookup refuses. */
  predicate Refused(n: Name) {
    WH_PFX <= n
  }

  predicate IsDots(n: Name) {
    n == "." || n == ".."
  }

  predicate HasWh(l: Layer, n: Name) {
    l.whable && Wh(n) in l.ents
  }

  /** No whiteout-able layer holds both `x` and its whiteout, and whiteouts are regular files. */
  ghost predicate WellFormedLayer(l: Layer) {
    && (!l.present ==> l.ents == map[])
    && "" !in l.ents && "." !in l.ents && ".." !in l.ents
    && forall n: Name :: !IsWhName(n) && HasWh(l, n) ==> n !in l.ents && l.ents[Wh(n)].kind == Reg
  }

  ghost predicate WellFormed(s: Stack) {
    forall i :: 0 <= i < |s| ==> WellFormedLayer(s[i])
  }

  /** Index of the layer that provides `n`, searching from layer `i`; -1 when nothing does.
      A whiteout wins over an entry of its own layer. */
  function Find(s: Stack, n: Name, i: nat): (r: int)
    requires i <= |s|
    ensures r == -1 || (i <= r < |s| && n in s[r].ents)
    decreases |s| - i
  {
    if i == |s| || HasWh(s[i], n) then -1
    else if n in s[i].ents then i
    else Find(s, n, i + 1)
  }

  /** What `n` resolves to in the union. */
  function View(s: Stack, n: Name): Option<Node> {
    var i := Find(s, n, 0);
    if i < 0 then None else Some(s[i].ents[n])
  }

  /** No layer in `lo..hi` hides `n`. */
  ghost predicate Clear(s: Stack, n: Name, lo: nat, hi: nat)
    requires hi <= |s|
  {
    forall j :: lo <= j < hi ==> !HasWh(s[j], n)
  }

  /** No layer in `lo..hi` holds `n`. */
  ghost predicate Lacks(s: Stack, n: Name, lo: nat, hi: nat)
    requires hi <= |s|
  {
    forall j :: lo <= j < hi ==> n !in s[j].ents
  }

  /** Find says exactly: some layer holds the name and no layer down to it hides it. */
  lemma {:induction false} FindMeaning(s: Stack, n: Name, lo: nat)
    requires lo <= |s|
    ensures Find(s, n, lo) >= 0 <==> exists i :: lo <= i < |s| && n in s[i].ents && Clear(s, n, lo, i + 1)
    ensures Find(s, n, lo) >= 0 ==>
              var i := Find(s, n, lo); Clear(s, n, lo, i + 1) && Lacks(s, n, lo, i)
    decreases |s| - lo
  {
    if lo == |s| {
    } else {
      FindMeaning(s, n, lo + 1);
      if !HasWh(s[lo], n) && n !in s[lo].ents {
        forall i | lo + 1 <= i < |s| && n in s[i].ents && Clear(s, n, lo + 1, i + 1)
          ensures Clear(s, n, lo, i + 1)
        {}
      } else if !HasWh(s[lo], n) {
        assert n in s[lo].ents && Clear(s, n, lo, lo + 1);
      }
    }
  }

  /** Find skips layers that neither hold nor hide the name. */
  lemma {:induction false} FindSkip(s: Stack, n: Name, lo: nat, hi: nat)
    requires lo <= hi <= |s|
    requires Clear(s, n, lo, hi) && Lacks(s, n, lo, hi)
    ensures Find(s, n, lo) == Find(s, n, hi)
    decreases hi - lo
  {
    if lo == hi {
    } else {
      FindSkip(s, n, lo + 1, hi);
    }
  }

  /** Find depends only on the two raw names it reads. */
  lemma {:induction false} FindFrame(s: Stack, t: Stack, n: Name, lo: nat)
    requires lo <= |s| == |t|
    requires forall i :: lo <= i < |s| ==>
      && HasWh(s[i], n) == HasWh(t[i], n)
      && (n in s[i].ents <==> n in t[i].ents)
    ensures Find(s, n, lo) == Find(t, n, lo)
    decreases |s| - lo
  {
    if lo == |s| {
    } else {
      FindFrame(s, t, n, lo + 1);
    }
  }

  lemma WhInjective(m: Name, n: Name)
    ensures Wh(m) == Wh(n) ==> m == n
    ensures WH_PFX <= Wh(n) && |Wh(n)| == |n| + 4
    ensures Wh(n) != n
  {
    assert Wh(m)[4..] == m && Wh(n)[4..] == n;
  }
}
