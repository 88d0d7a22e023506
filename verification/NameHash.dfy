/** The hash tables of names that readdir and the emptiness test fill while they read layers
    (vdir.c): an array of chains, a name going to the front of its chain. */
module NameHash {
  import opened Basics
  import opened Layers

  /** The sum of the bytes of a name (au_name_hash; an unsigned int there, which no name of at most
      255 bytes can overflow). */
  function Sum(n: Name): nat {
    if n == [] then 0 else n[0] as int + Sum(n[1..])
  }

  function Bucket(n: Name, num: nat): (b: nat)
    requires num > 0
    ensures b < num
  {
    Sum(n) % num
  }

  /** Every name is in the chain its bytes select. */
  ghost predicate InPlace(heads: seq<seq<Name>>) {
    heads != [] && forall b, k :: 0 <= b < |heads| && 0 <= k < |heads[b]| ==> Bucket(heads[b][k], |heads|) == b
  }

  ghost predicate Holds(heads: seq<seq<Name>>, n: Name) {
    exists b, k :: 0 <= b < |heads| && 0 <= k < |heads[b]| && heads[b][k] == n
  }

  /** A name that is anywhere is in its own chain. */
  lemma HeldInOwnChain(heads: seq<seq<Name>>, n: Name)
    requires InPlace(heads)
    ensures Holds(heads, n) <==> n in heads[Bucket(n, |heads|)]
  {
    var c := heads[Bucket(n, |heads|)];
    if n in c {
      var k :| 0 <= k < |c| && c[k] == n;
    }
  }

  class Table {
    var heads: seq<seq<Name>>
    /** The names the table holds. */
    ghost var names: set<Name>

    ghost predicate Valid()
      reads this
    {
      InPlace(heads) && forall n :: n in names <==> Holds(heads, n)
    }

    /** au_nhash_alloc */
    constructor (num: nat)
      requires num > 0
      ensures Valid() && names == {}
    {
      heads := seq(num, _ => []);
      names := {};
    }

    /** test_known and au_nhash_test_known_wh */
    method TestKnown(n: Name) returns (known: bool)
      requires Valid()
      ensures known <==> n in names
    {
      var b := Hash(n);
      var c := heads[b];
      HeldInOwnChain(heads, n);
      for k := 0 to |c|
        invariant n !in c[..k]
      {
        if |c[k]| == |n| && c[k] == n {
          return true;
        }
      }
      return false;
    }

    /** au_name_hash */
    method Hash(n: Name) returns (b: nat)
      requires Valid()
      ensures b == Bucket(n, |heads|)
    {
      var v := 0;
      for k := 0 to |n|
        invariant v + Sum(n[k..]) == Sum(n)
      {
        v := v + n[k] as int;
      }
      b := v % |heads|;
    }

    /** au_nhash_append_wh, and the table side of append_de */
    method Append(n: Name)
      requires Valid()
      modifies this
      ensures Valid() && names == old(names) + {n}
    {
      var b := Hash(n);
      heads := heads[b := [n] + heads[b]];
      names := names + {n};
      forall m
        ensures m in names <==> Holds(heads, m)
      {
        if m == n {
          assert heads[b][0] == n;
        } else if m in names {
          var c, k :| 0 <= c < |old(heads)| && 0 <= k < |old(heads)[c]| && old(heads)[c][k] == m;
          assert heads[c][if c == b then k + 1 else k] == m;
        }
      }
    }
  }
}
