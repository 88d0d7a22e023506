/** Merging the entries of the layers of one directory (vdir.c) and testing whether the merge is
    empty (dir.c), against what lookup (dentry.c) finds. */
module Readdir {
  import opened Basics
  import opened Layers
  import opened VdirBlocks
  import Lookup
  import NameHash

  // ----- the merge as a function

  /** The names put into the blocks, in order, and the names known to be whiteouted. */
  datatype Acc = Acc(names: seq<Name>, whs: set<Name>)

  /** What one lower entry does (fillvdir). */
  function FillOne(a: Acc, n: Name, whable: bool): Acc {
    if !IsWhName(n) then
      if n in a.names || n in a.whs then a else a.(names := a.names + [n])
    else if whable then a.(whs := a.whs + {n[|WH_PFX|..]})
    else a
  }

  function Fill(a: Acc, order: seq<Name>, whable: bool): Acc {
    if order == [] then a else
      var k := |order| - 1;
      FillOne(Fill(a, order[..k], whable), order[k], whable)
  }

  /** Layers 0..k. A whiteout in the last layer is not collected. */
  function FillLayers(s: Stack, orders: seq<seq<Name>>, k: nat): Acc
    requires k <= |s| == |orders|
  {
    if k == 0 then Acc([], {}) else
      var a := FillLayers(s, orders, k - 1);
      if s[k - 1].present then Fill(a, orders[k - 1], s[k - 1].whable && k != |s|) else a
  }

  /** A lower directory yields its raw names and the two dots, in any order and any number of times. */
  ghost predicate Yields(order: seq<Name>, l: Layer) {
    forall n :: n in order <==> n in l.ents || (l.present && IsDots(n))
  }

  ghost predicate AllYield(s: Stack, orders: seq<seq<Name>>) {
    |s| == |orders| && forall i :: 0 <= i < |s| ==> Yields(orders[i], s[i])
  }

  lemma WhSuffix(n: Name, m: Name)
    requires IsWhName(m)
    ensures m[|WH_PFX|..] == n <==> m == Wh(n)
  {
    assert m == m[..4] + m[4..];
  }

  /** One layer, seen from one name. */
  lemma {:induction false} FillName(a: Acc, order: seq<Name>, whable: bool, n: Name)
    requires !IsWhName(n) && n != "" && !(whable && n in order && Wh(n) in order)
    ensures n in Fill(a, order, whable).names <==> n in a.names || (n in order && n !in a.whs)
    ensures n in Fill(a, order, whable).whs <==> n in a.whs || (whable && Wh(n) in order)
  {
    if order == [] {
    } else {
      var k := |order| - 1;
      assert order == order[..k] + [order[k]];
      FillName(a, order[..k], whable, n);
      if IsWhName(order[k]) {
        WhSuffix(n, order[k]);
      }
    }
  }

  ghost predicate Distinct(names: seq<Name>) {
    forall i, j :: 0 <= i < j < |names| ==> names[i] != names[j]
  }

  lemma {:induction false} FillDistinct(a: Acc, order: seq<Name>, whable: bool)
    requires Distinct(a.names) && forall n :: n in a.names ==> !IsWhName(n)
    ensures Distinct(Fill(a, order, whable).names)
    ensures forall n :: n in Fill(a, order, whable).names ==> !IsWhName(n) && (n in a.names || n in order)
  {
    if order == [] {
    } else {
      FillDistinct(a, order[..|order| - 1], whable);
    }
  }

  /** Some layer before `k` holds `n`, and no layer down to it hides it. */
  ghost predicate Seen(s: Stack, n: Name, k: nat)
    requires k <= |s|
  {
    exists i :: 0 <= i < k && n in s[i].ents && Clear(s, n, 0, i + 1)
  }

  lemma SeenStep(s: Stack, n: Name, k: nat)
    requires 0 < k <= |s| && WellFormed(s) && !IsWhName(n)
    ensures Seen(s, n, k) <==> Seen(s, n, k - 1) || (n in s[k - 1].ents && Clear(s, n, 0, k - 1))
  {
    assert n in s[k - 1].ents ==> !HasWh(s[k - 1], n);
    if n in s[k - 1].ents && Clear(s, n, 0, k - 1) {
      assert Clear(s, n, 0, k - 1 + 1);
    }
  }

  lemma {:induction false} FillLayersName(s: Stack, orders: seq<seq<Name>>, n: Name, k: nat)
    requires WellFormed(s) && AllYield(s, orders) && k <= |s|
    requires !IsWhName(n) && !IsDots(n) && n != ""
    ensures n in FillLayers(s, orders, k).names <==> Seen(s, n, k)
    ensures n in FillLayers(s, orders, k).whs <==> !Clear(s, n, 0, if k == |s| > 0 then k - 1 else k)
  {
    if k == 0 {
    } else {
      var l := s[k - 1];
      FillLayersName(s, orders, n, k - 1);
      SeenStep(s, n, k);
      assert Yields(orders[k - 1], l) && WellFormedLayer(l);
      assert Wh(n) != "." && Wh(n) != ".." by { WhInjective(n, n); }
      if l.present {
        FillName(FillLayers(s, orders, k - 1), orders[k - 1], l.whable && k != |s|, n);
      }
    }
  }

  lemma {:induction false} FillLayersDistinct(s: Stack, orders: seq<seq<Name>>, k: nat)
    requires WellFormed(s) && AllYield(s, orders) && k <= |s|
    ensures Distinct(FillLayers(s, orders, k).names)
    ensures forall n :: n in FillLayers(s, orders, k).names ==> !IsWhName(n) && n != ""
  {
    if k == 0 {
    } else {
      FillLayersDistinct(s, orders, k - 1);
      if s[k - 1].present {
        FillDistinct(FillLayers(s, orders, k - 1), orders[k - 1], s[k - 1].whable && k != |s|);
        assert Yields(orders[k - 1], s[k - 1]) && WellFormedLayer(s[k - 1]);
      }
    }
  }

  /** Whatever order the layers yield their entries in, the merge lists exactly the names the union
      provides, each once. */
  lemma ReaddirMeaning(s: Stack, orders: seq<seq<Name>>)
    requires WellFormed(s) && AllYield(s, orders)
    ensures var names := FillLayers(s, orders, |s|).names;
            && Distinct(names)
            && forall n :: !IsDots(n) ==> (n in names <==> !IsWhName(n) && Find(s, n, 0) >= 0)
  {
    FillLayersDistinct(s, orders, |s|);
    forall n | !IsDots(n) && !IsWhName(n)
      ensures n in FillLayers(s, orders, |s|).names <==> Find(s, n, 0) >= 0
    {
      FindMeaning(s, n, 0);
      if n != "" {
        FillLayersName(s, orders, n, |s|);
      } else {
        assert forall i :: 0 <= i < |s| ==> WellFormedLayer(s[i]);
      }
    }
  }

  /** The two dots are listed, as long as no layer has a whiteout of them. */
  lemma {:induction false} DotsListed(s: Stack, orders: seq<seq<Name>>, n: Name, k: nat)
    requires WellFormed(s) && AllYield(s, orders) && k <= |s| && IsDots(n) && NoDotWh(s)
    ensures n in FillLayers(s, orders, k).names <==> exists i :: 0 <= i < k && s[i].present
    ensures n !in FillLayers(s, orders, k).whs
  {
    if k == 0 {
    } else {
      DotsListed(s, orders, n, k - 1);
      assert Yields(orders[k - 1], s[k - 1]) && WellFormedLayer(s[k - 1]);
      assert |Wh(n)| >= 5;
      if s[k - 1].present {
        FillName(FillLayers(s, orders, k - 1), orders[k - 1], s[k - 1].whable && k != |s|, n);
      }
    }
  }

  ghost predicate NoDotWh(s: Stack) {
    forall i :: 0 <= i < |s| ==> Wh(".") !in s[i].ents && Wh("..") !in s[i].ents
  }

  /** au_lkup_dentry gives a positive count for `n`. */
  ghost predicate LookedUp(s: Stack, n: Name, inode: Lookup.KindOpt) {
    !Refused(n) && Lookup.Positive(Lookup.Walk(Lookup.Fresh(|s|), s, n, 0, true, Lookup.AnyKind, inode))
  }

  /** Readdir and lookup agree on a name exactly when it is not an existing entry called `.wh.`:
      readdir takes that for a plain name, lookup refuses it. */
  lemma ReaddirAgreesWithLookup(s: Stack, orders: seq<seq<Name>>, n: Name, inode: Lookup.KindOpt)
    requires WellFormed(s) && AllYield(s, orders) && !IsDots(n)
    ensures (n in FillLayers(s, orders, |s|).names <==> LookedUp(s, n, inode))
            <==> !(n == WH_PFX && Find(s, n, 0) >= 0)
  {
    ReaddirMeaning(s, orders);
    if !Refused(n) {
      Lookup.WellFormedIsSound(s, n);
      Lookup.WalkFinds(Lookup.Fresh(|s|), s, n, 0, true, inode);
    } else {
      assert n == n[..4] + n[4..];
    }
  }

  /** A layer with such an entry. */
  lemma PrefixIsListed()
    ensures exists s: Stack, orders ::
              && WellFormed(s) && AllYield(s, orders)
              && WH_PFX in FillLayers(s, orders, |s|).names && !LookedUp(s, WH_PFX, Lookup.AnyKind)
  {
    var s: Stack := [Layer(true, true, map[WH_PFX := WHITEOUT])];
    var orders := [[".", "..", WH_PFX]];
    assert |WH_PFX| == 4;
    forall n ensures (Wh(n) == WH_PFX <==> n == "") && (Wh(n) == WH_PFX ==> n !in s[0].ents) {
      WhInjective(n, "");
    }
    assert WellFormedLayer(s[0]) && Yields(orders[0], s[0]);
    assert !HasWh(s[0], WH_PFX) && Find(s, WH_PFX, 0) == 0;
    ReaddirAgreesWithLookup(s, orders, WH_PFX, Lookup.AnyKind);
    ReaddirMeaning(s, orders);
  }

  // ----- the emptiness test as a function

  /** test_empty_cb; None is ENOTEMPTY. */
  function TestOne(whs: set<Name>, n: Name, whonly: bool): Option<set<Name>> {
    if IsDots(n) then Some(whs)
    else if !IsWhName(n) then if whonly && n !in whs then None else Some(whs)
    else Some(whs + {n[|WH_PFX|..]})
  }

  function Test(whs: set<Name>, order: seq<Name>, whonly: bool): Option<set<Name>> {
    if order == [] then Some(whs) else
      var k := |order| - 1;
      match Test(whs, order[..k], whonly)
      case None => None
      case Some(w) => TestOne(w, order[k], whonly)
  }

  /** One layer; an absent one is skipped, and nothing follows an ENOTEMPTY. */
  function TestNext(before: Option<set<Name>>, l: Layer, order: seq<Name>, whonly: bool): Option<set<Name>> {
    if before.Some? && l.present then Test(before.value, order, whonly) else before
  }

  /** Layers 0..k; from layer `strict` on every entry must be hidden. au_test_empty is strict from
      the first layer, au_test_empty_lower from the second. */
  function TestLayers(s: Stack, orders: seq<seq<Name>>, strict: nat, k: nat): Option<set<Name>>
    requires k <= |s| == |orders|
  {
    if k == 0 then Some({})
    else TestNext(TestLayers(s, orders, strict, k - 1), s[k - 1], orders[k - 1], strict <= k - 1)
  }

  /** Read without regard to the branch permission. */
  function AllWhable(s: Stack): (t: Stack)
    ensures |t| == |s| && forall i :: 0 <= i < |s| ==> t[i] == s[i].(whable := true)
  {
    seq(|s|, i requires 0 <= i < |s| => s[i].(whable := true))
  }

  ghost predicate IsPlain(n: Name) {
    !IsDots(n) && !IsWhName(n) && n != ""
  }

  lemma {:induction false} TestMeaning(whs: set<Name>, order: seq<Name>, whonly: bool)
    requires forall n :: n in order && IsPlain(n) ==> Wh(n) !in order
    requires "" !in order
    ensures Test(whs, order, whonly).Some? <==> !whonly || forall n :: n in order && IsPlain(n) ==> n in whs
    ensures Test(whs, order, whonly).Some? ==>
              forall n :: IsPlain(n) ==> (n in Test(whs, order, whonly).value <==> n in whs || Wh(n) in order)
  {
    if order == [] {
    } else {
      var k := |order| - 1;
      var last := order[k];
      assert order == order[..k] + [last];
      TestMeaning(whs, order[..k], whonly);
      if IsWhName(last) {
        forall n ensures last[|WH_PFX|..] == n <==> last == Wh(n) { WhSuffix(n, last); }
      } else {
        forall n | IsPlain(n) ensures Wh(n) != last { WhInjective(n, n); }
      }
    }
  }

  /** Every plain name at or below layer `strict`, above layer `k`, is hidden. */
  ghost predicate AllHidden(s: Stack, strict: nat, k: nat)
    requires k <= |s|
  {
    forall i, n :: strict <= i < k && IsPlain(n) && n in s[i].ents ==> !Clear(s, n, 0, i + 1)
  }

  lemma AllHiddenStep(s: Stack, strict: nat, k: nat)
    requires 0 < k <= |s| && WellFormedLayer(s[k - 1])
    ensures AllHidden(s, strict, k) <==>
            AllHidden(s, strict, k - 1) &&
            (strict <= k - 1 ==> forall n :: n in s[k - 1].ents && IsPlain(n) ==> !Clear(s, n, 0, k - 1))
  {
    forall n | IsPlain(n) && n in s[k - 1].ents
      ensures Clear(s, n, 0, k) <==> Clear(s, n, 0, k - 1)
    {
      assert !HasWh(s[k - 1], n);
    }
  }

  /** A layer's raw names, when every layer's whiteouts count. */
  lemma RawNames(t: Stack, order: seq<Name>, k: nat)
    requires 0 < k <= |t| && t[k - 1].whable && Yields(order, t[k - 1]) && WellFormedLayer(t[k - 1])
    ensures "" !in order
    ensures forall n :: IsPlain(n) ==> (n in order <==> n in t[k - 1].ents)
    ensures forall n :: n in order && IsPlain(n) ==> Wh(n) !in order
    ensures forall n :: IsPlain(n) ==> (Clear(t, n, 0, k) <==> Clear(t, n, 0, k - 1) && Wh(n) !in order)
  {
    forall n
      ensures Wh(n) in order <==> HasWh(t[k - 1], n)
    {
      WhInjective(n, n);
    }
  }

  /** `whs` are the plain names that the layers before `k` hide. */
  ghost predicate Known(t: Stack, whs: set<Name>, k: nat)
    requires k <= |t|
  {
    forall n :: IsPlain(n) ==> (n in whs <==> !Clear(t, n, 0, k))
  }

  lemma TestLayer(t: Stack, order: seq<Name>, whs: set<Name>, k: nat, whonly: bool)
    requires 0 < k <= |t| && t[k - 1].whable && WellFormedLayer(t[k - 1]) && Known(t, whs, k - 1)
    requires Yields(order, t[k - 1])
    ensures Test(whs, order, whonly).Some? <==>
            (whonly ==> forall n :: n in t[k - 1].ents && IsPlain(n) ==> !Clear(t, n, 0, k - 1))
    ensures Test(whs, order, whonly).Some? ==> Known(t, Test(whs, order, whonly).value, k)
  {
    RawNames(t, order, k);
    TestMeaning(whs, order, whonly);
  }

  lemma AbsentLayer(t: Stack, whs: set<Name>, k: nat)
    requires 0 < k <= |t| && !t[k - 1].present && WellFormedLayer(t[k - 1]) && Known(t, whs, k - 1)
    ensures t[k - 1].ents == map[] && Known(t, whs, k)
  {}

  /** What the test knows after the layers before `k`. */
  ghost predicate Tested(t: Stack, r: Option<set<Name>>, strict: nat, k: nat)
    requires k <= |t|
  {
    (r.Some? <==> AllHidden(t, strict, k)) && (r.Some? ==> Known(t, r.value, k))
  }

  lemma TestedStep(t: Stack, order: seq<Name>, before: Option<set<Name>>, strict: nat, k: nat)
    requires 0 < k <= |t| && t[k - 1].whable && WellFormedLayer(t[k - 1]) && Yields(order, t[k - 1])
    requires Tested(t, before, strict, k - 1)
    ensures Tested(t, TestNext(before, t[k - 1], order, strict <= k - 1), strict, k)
  {
    AllHiddenStep(t, strict, k);
    hide AllHidden, Clear, IsPlain, Test, Known, WellFormedLayer;
    if before.Some? {
      if t[k - 1].present {
        TestLayer(t, order, before.value, k, strict <= k - 1);
      } else {
        AbsentLayer(t, before.value, k);
      }
    }
  }

  lemma {:induction false} TestLayersMeaning(s: Stack, orders: seq<seq<Name>>, strict: nat, k: nat)
    requires WellFormed(AllWhable(s)) && AllYield(s, orders) && k <= |s|
    ensures Tested(AllWhable(s), TestLayers(s, orders, strict, k), strict, k)
  {
    var t := AllWhable(s);
    if k == 0 {
    } else {
      TestLayersMeaning(s, orders, strict, k - 1);
      hide Tested, TestNext;
      assert Yields(orders[k - 1], s[k - 1]) && WellFormedLayer(t[k - 1]);
      hide WellFormedLayer;
      TestedStep(t, orders[k - 1], TestLayers(s, orders, strict, k - 1), strict, k);
      TestNextSame(s, orders, strict, k);
    }
  }

  lemma TestNextSame(s: Stack, orders: seq<seq<Name>>, strict: nat, k: nat)
    requires 0 < k <= |s| == |orders|
    ensures TestLayers(s, orders, strict, k) ==
            TestNext(TestLayers(s, orders, strict, k - 1), AllWhable(s)[k - 1], orders[k - 1], strict <= k - 1)
  {}

  /** au_test_empty succeeds exactly when no name would be visible if every layer's whiteouts counted. */
  lemma TestEmptyMeaning(s: Stack, orders: seq<seq<Name>>)
    requires WellFormed(AllWhable(s)) && AllYield(s, orders)
    ensures TestLayers(s, orders, 0, |s|).Some? <==> forall n :: IsPlain(n) ==> Find(AllWhable(s), n, 0) < 0
  {
    var t := AllWhable(s);
    TestLayersMeaning(s, orders, 0, |s|);
    forall n ensures Find(t, n, 0) >= 0 <==> exists i :: 0 <= i < |t| && n in t[i].ents && Clear(t, n, 0, i + 1) {
      FindMeaning(t, n, 0);
    }
  }

  ghost predicate OnlyDots(names: seq<Name>) {
    forall n :: n in names ==> IsDots(n)
  }

  /** Whiteouts only lie in layers whose permission makes them count. */
  ghost predicate WhiteoutsCount(s: Stack) {
    forall i, n: Name :: 0 <= i < |s| && Wh(n) in s[i].ents ==> s[i].whable
  }

  lemma AllWhableWellFormed(s: Stack)
    requires WellFormed(AllWhable(s))
    ensures WellFormed(s)
  {
    var t := AllWhable(s);
    forall i | 0 <= i < |s| ensures WellFormedLayer(s[i]) {
      assert WellFormedLayer(t[i]);
    }
  }

  lemma FindAllWhable(s: Stack, n: Name)
    ensures Find(AllWhable(s), n, 0) >= 0 ==> Find(s, n, 0) >= 0
    ensures WhiteoutsCount(s) ==> Find(AllWhable(s), n, 0) == Find(s, n, 0)
  {
    var t := AllWhable(s);
    FindMeaning(t, n, 0);
    FindMeaning(s, n, 0);
    if Find(t, n, 0) >= 0 {
      assert Clear(s, n, 0, Find(t, n, 0) + 1);
    }
    if WhiteoutsCount(s) {
      FindFrame(s, t, n, 0);
    }
  }

  /** A directory whose listing is empty passes the test; the converse holds when whiteouts lie only in
      layers whose permission makes them count. The two may even see different orders. */
  lemma TestEmptyIsReaddirEmpty(s: Stack, orders: seq<seq<Name>>, orders': seq<seq<Name>>)
    requires WellFormed(AllWhable(s)) && AllYield(s, orders) && AllYield(s, orders')
    ensures OnlyDots(FillLayers(s, orders', |s|).names) ==> TestLayers(s, orders, 0, |s|).Some?
    ensures WhiteoutsCount(s) ==>
              (OnlyDots(FillLayers(s, orders', |s|).names) <==> TestLayers(s, orders, 0, |s|).Some?)
  {
    AllWhableWellFormed(s);
    TestEmptyMeaning(s, orders);
    ReaddirMeaning(s, orders');
    FillLayersDistinct(s, orders', |s|);
    var names := FillLayers(s, orders', |s|).names;
    forall n | IsPlain(n)
      ensures Find(AllWhable(s), n, 0) >= 0 ==> n in names
      ensures WhiteoutsCount(s) ==> (Find(AllWhable(s), n, 0) >= 0 <==> n in names)
    {
      FindAllWhable(s, n);
    }
    assert OnlyDots(names) <==> forall n :: IsPlain(n) ==> n !in names;
  }

  // ----- for which permissions the two agree

  ghost predicate HasPerms(s: Stack, perms: seq<bool>) {
    |s| == |perms| && forall i :: 0 <= i < |s| ==> s[i].whable == perms[i]
  }

  ghost predicate Agree(s: Stack, orders: seq<seq<Name>>, orders': seq<seq<Name>>)
    requires AllYield(s, orders) && AllYield(s, orders')
  {
    OnlyDots(FillLayers(s, orders', |s|).names) <==> TestLayers(s, orders, 0, |s|).Some?
  }

  /** The whiteouts of the last layer hide nothing. */
  lemma {:induction false} FindButLast(s: Stack, n: Name, lo: nat)
    requires WellFormed(AllWhable(s)) && IsPlain(n) && lo <= |s| && forall i :: 0 <= i < |s| - 1 ==> s[i].whable
    ensures Find(AllWhable(s), n, lo) == Find(s, n, lo)
    decreases |s| - lo
  {
    if lo == |s| {
    } else {
      FindButLast(s, n, lo + 1);
      assert WellFormedLayer(AllWhable(s)[lo]);
      assert lo == |s| - 1 ==> Find(s, n, lo + 1) == -1;
    }
  }

  lemma AgreeButLast(s: Stack, orders: seq<seq<Name>>, orders': seq<seq<Name>>)
    requires WellFormed(AllWhable(s)) && AllYield(s, orders) && AllYield(s, orders')
    requires forall i :: 0 <= i < |s| - 1 ==> s[i].whable
    ensures Agree(s, orders, orders')
  {
    AllWhableWellFormed(s);
    TestEmptyMeaning(s, orders);
    ReaddirMeaning(s, orders');
    FillLayersDistinct(s, orders', |s|);
    var names := FillLayers(s, orders', |s|).names;
    forall n | IsPlain(n) ensures Find(AllWhable(s), n, 0) >= 0 <==> n in names {
      FindButLast(s, n, 0);
    }
    assert OnlyDots(names) <==> forall n :: IsPlain(n) ==> n !in names;
  }

  /** Layer `i` has a whiteout of `x`, the next one has `x`, the others are empty. */
  function Uncounted(perms: seq<bool>, i: nat): Stack {
    seq(|perms|, j requires 0 <= j < |perms| =>
      Layer(true, perms[j],
            if j == i then map[Wh("x") := WHITEOUT] else if j == i + 1 then map["x" := WHITEOUT] else map[]))
  }

  function UncountedOrders(n: nat, i: nat): seq<seq<Name>> {
    seq(n, j => [".", ".."] + if j == i then [Wh("x")] else if j == i + 1 then ["x"] else [])
  }

  lemma WhX(n: Name)
    ensures Wh(n) != "x" && (Wh(n) == Wh("x") ==> n == "x") && Wh(n) != "" && Wh(n) != "." && Wh(n) != ".."
    ensures !IsPlain(Wh("x")) && IsPlain("x")
  {
    WhInjective("x", n);
    assert |Wh(n)| >= 4 && |"x"| == 1;
  }

  lemma UncountedLayers(perms: seq<bool>, i: nat)
    requires i + 1 < |perms| && !perms[i]
    ensures WellFormed(AllWhable(Uncounted(perms, i))) && AllYield(Uncounted(perms, i), UncountedOrders(|perms|, i))
  {
    var s, orders := Uncounted(perms, i), UncountedOrders(|perms|, i);
    var t := AllWhable(s);
    forall n ensures Wh(n) != "x" && (Wh(n) == Wh("x") ==> n == "x") && Wh(n) != "" && Wh(n) != "." && Wh(n) != ".." {
      WhX(n);
    }
    hide Wh;
    forall j | 0 <= j < |s| ensures WellFormedLayer(t[j]) && Yields(orders[j], s[j]) {}
  }

  lemma UncountedFinds(perms: seq<bool>, i: nat)
    requires i + 1 < |perms| && !perms[i]
    ensures IsPlain("x") && Find(Uncounted(perms, i), "x", 0) >= 0
    ensures forall m :: IsPlain(m) ==> Find(AllWhable(Uncounted(perms, i)), m, 0) < 0
  {
    var s := Uncounted(perms, i);
    var t := AllWhable(s);
    WhX("x");
    assert HasWh(t[i], "x");
    forall m | IsPlain(m) ensures Find(t, m, 0) < 0 {
      FindMeaning(t, m, 0);
      assert forall k :: 0 <= k < |t| && m in t[k].ents ==> m == "x" && k == i + 1;
    }
    FindMeaning(s, "x", 0);
    forall j | 0 <= j < i + 2 ensures !HasWh(s[j], "x") {}
    assert "x" in s[i + 1].ents && Clear(s, "x", 0, i + 2);
  }

  /** The test and readdir agree for all contents and all orders, if and only if every layer above another one
      is whiteout-able. */
  lemma AgreeIffWhable(perms: seq<bool>)
    ensures (forall s: Stack, orders, orders' ::
               HasPerms(s, perms) && WellFormed(AllWhable(s)) && AllYield(s, orders) && AllYield(s, orders') ==>
                   Agree(s, orders, orders'))
            <==> forall i :: 0 <= i < |perms| - 1 ==> perms[i]
  {
    if i :| 0 <= i < |perms| - 1 && !perms[i] {
      var s, orders := Uncounted(perms, i), UncountedOrders(|perms|, i);
      UncountedLayers(perms, i);
      UncountedFinds(perms, i);
      hide Find, FillLayers, TestLayers, WellFormed;
      PassesThough(s, orders, "x");
      assert HasPerms(s, perms) && !Agree(s, orders, orders);
    } else {
      forall s: Stack, orders, orders' |
        HasPerms(s, perms) && WellFormed(AllWhable(s)) && AllYield(s, orders) && AllYield(s, orders')
        ensures Agree(s, orders, orders')
      {
        AgreeButLast(s, orders, orders');
      }
    }
  }

  /** Otherwise the test can pass for a directory that readdir shows to hold a file. */
  lemma TestEmptyIgnoresPermission()
    ensures exists s: Stack, orders: seq<seq<Name>> ::
              && WellFormed(AllWhable(s)) && AllYield(s, orders)
              && TestLayers(s, orders, 0, |s|).Some?
              && "x" in FillLayers(s, orders, |s|).names
  {
    var wh, x := Node(Reg, 0, false), Node(Reg, 1, false);
    var s := [Layer(true, false, map[Wh("x") := wh]), Layer(true, true, map["x" := x])];
    var orders: seq<seq<Name>> := [[".", "..", Wh("x")], [".", "..", "x"]];
    HiddenExample(s, wh, x);
    HiddenOrders(s, orders, wh, x);
    PassesThough(s, orders, "x");
  }

  lemma PassesThough(s: Stack, orders: seq<seq<Name>>, n: Name)
    requires WellFormed(AllWhable(s)) && AllYield(s, orders)
    requires forall m :: IsPlain(m) ==> Find(AllWhable(s), m, 0) < 0
    requires Find(s, n, 0) >= 0 && IsPlain(n)
    ensures TestLayers(s, orders, 0, |s|).Some? && n in FillLayers(s, orders, |s|).names
  {
    AllWhableWellFormed(s);
    TestEmptyMeaning(s, orders);
    ReaddirMeaning(s, orders);
  }

  lemma HiddenOrders(s: Stack, orders: seq<seq<Name>>, wh: Node, x: Node)
    requires s == [Layer(true, false, map[Wh("x") := wh]), Layer(true, true, map["x" := x])]
    requires orders == [[".", "..", Wh("x")], [".", "..", "x"]]
    ensures AllYield(s, orders) && IsPlain("x")
  {
    assert Yields(orders[0], s[0]) && Yields(orders[1], s[1]);
  }

  lemma HiddenExample(s: Stack, wh: Node, x: Node)
    requires s == [Layer(true, false, map[Wh("x") := wh]), Layer(true, true, map["x" := x])]
    requires wh.kind == Reg
    ensures WellFormed(AllWhable(s))
    ensures forall n :: IsPlain(n) ==> Find(AllWhable(s), n, 0) < 0
    ensures Find(s, "x", 0) >= 0
  {
    var t := AllWhable(s);
    forall n ensures Wh(n) != "x" && (Wh(n) == Wh("x") ==> n == "x") {
      WhInjective("x", n);
    }
    assert WellFormedLayer(t[0]) && WellFormedLayer(t[1]);
    forall n | IsPlain(n) ensures Find(t, n, 0) < 0 {
      assert n != Wh("x");
      assert Find(t, n, 1) >= 0 ==> n == "x";
    }
    assert Find(s, "x", 0) == Find(s, "x", 1);
  }

  // ----- the code

  /** A raw entry as a lower directory delivers it; `ino` is what au_ino answers for it, None an error. */
  datatype Raw = Raw(name: Name, ino: Option<seq<char>>, dtype: char)

  const AUFS_MAX_NAMELEN := 242
  const DT_UNKNOWN: char := 0 as char

  ghost predicate RawOk(w: Word, raw: Raw) {
    0 < |raw.name| <= 255 && (raw.ino.Some? ==> |raw.ino.value| == w)
  }

  /** `e` has the name of `raw`, its inode number and its type; a name that is too long for a file has none. */
  predicate Carries(e: Entry, raw: Raw) {
    && e.name == raw.name && raw.ino == Some(e.ino)
    && (if |e.name| <= 242 then e.dtype == raw.dtype else e.dtype == 0 as char)
  }

  function EntryOf(raw: Raw): (e: Entry)
    requires raw.ino.Some?
    ensures Carries(e, raw)
  {
    Entry(raw.ino.value, if |raw.name| > AUFS_MAX_NAMELEN then DT_UNKNOWN else raw.dtype, raw.name)
  }

  /** Some entry of `raws` was made into `e`. */
  ghost predicate MadeFrom(e: Entry, raws: seq<Raw>) {
    exists raw :: raw in raws && Carries(e, raw)
  }

  /** au_ino has no number for some entry. */
  ghost predicate Numberless(raws: seq<Raw>) {
    exists raw :: raw in raws && raw.ino.None?
  }

  lemma NumberlessMore(one: seq<Raw>, two: seq<Raw>)
    ensures Numberless(one) || Numberless(two) <==> Numberless(one + two)
  {
    forall raw | raw in one || raw in two ensures raw in one + two {}
  }

  lemma NumberlessAt(raws: seq<Raw>, k: nat)
    requires k < |raws| && raws[k].ino.None?
    ensures Numberless(raws)
  {}

  lemma {:induction false} NumberlessChunk(chunks: seq<seq<Raw>>, k: nat)
    requires k < |chunks| && Numberless(chunks[k])
    ensures Numberless(Concat(chunks))
    decreases |chunks|
  {
    var j := |chunks| - 1;
    if k < j {
      NumberlessChunk(chunks[..j], k);
    }
    NumberlessMore(Concat(chunks[..j]), chunks[j]);
  }

  /** `es` was extended to `fs` by entries made from `raws`. */
  ghost predicate Grown(es: seq<Entry>, fs: seq<Entry>, raws: seq<Raw>) {
    es <= fs && forall j :: |es| <= j < |fs| ==> MadeFrom(fs[j], raws)
  }

  lemma GrownOne(es: seq<Entry>, raw: Raw)
    ensures Grown(es, es, [raw])
    ensures raw.ino.Some? ==> Grown(es, es + [EntryOf(raw)], [raw])
  {
    assert raw in [raw];
  }

  function NamesOf(es: seq<Entry>): seq<Name> {
    if es == [] then [] else NamesOf(es[..|es| - 1]) + [es[|es| - 1].name]
  }

  lemma NamesOfSnoc(es: seq<Entry>, e: Entry)
    ensures NamesOf(es + [e]) == NamesOf(es) + [e.name]
  {
    assert (es + [e])[..|es|] == es;
  }

  function RawNamesOf(raws: seq<Raw>): seq<Name> {
    if raws == [] then [] else RawNamesOf(raws[..|raws| - 1]) + [raws[|raws| - 1].name]
  }

  lemma RawNamesOfSnoc(raws: seq<Raw>, raw: Raw)
    ensures RawNamesOf(raws + [raw]) == RawNamesOf(raws) + [raw.name]
  {
    assert (raws + [raw])[..|raws|] == raws;
  }

  lemma FillSnoc(a: Acc, order: seq<Name>, n: Name, whable: bool)
    ensures Fill(a, order + [n], whable) == FillOne(Fill(a, order, whable), n, whable)
  {
    assert (order + [n])[..|order|] == order;
  }

  lemma GrownNone(es: seq<Entry>)
    ensures Grown(es, es, [])
  {}

  lemma MadeFromMore(e: Entry, one: seq<Raw>, two: seq<Raw>)
    requires MadeFrom(e, one) || MadeFrom(e, two)
    ensures MadeFrom(e, one + two)
  {
    var raw :| (raw in one || raw in two) && Carries(e, raw);
    assert raw in one + two;
  }

  lemma GrownMore(es: seq<Entry>, fs: seq<Entry>, gs: seq<Entry>, one: seq<Raw>, two: seq<Raw>)
    requires Grown(es, fs, one) && Grown(fs, gs, two)
    ensures Grown(es, gs, one + two)
  {
    forall j | |es| <= j < |gs|
      ensures MadeFrom(gs[j], one + two)
    {
      if j < |fs| {
        assert gs[j] == fs[j];
      }
      MadeFromMore(gs[j], one, two);
    }
  }

  lemma GrownWithin(es: seq<Entry>, fs: seq<Entry>, raws: seq<Raw>, m: nat)
    requires m <= |raws| && Grown(es, fs, raws[..m])
    ensures Grown(es, fs, raws)
  {
    GrownNone(fs);
    assert raws == raws[..m] + raws[m..];
    forall j | |es| <= j < |fs|
      ensures MadeFrom(fs[j], raws)
    {
      MadeFromMore(fs[j], raws[..m], raws[m..]);
    }
  }

  lemma FillNone(a: Acc, whable: bool)
    ensures Fill(a, [], whable) == a
  {}

  lemma {:induction false} FillConcat(a: Acc, one: seq<Name>, two: seq<Name>, whable: bool)
    ensures Fill(a, one + two, whable) == Fill(Fill(a, one, whable), two, whable)
    decreases |two|
  {
    if two == [] {
      assert one + two == one;
    } else {
      var k := |two| - 1;
      FillConcat(a, one, two[..k], whable);
      assert (one + two)[..|one| + k] == one + two[..k];
    }
  }

  lemma {:induction false} RawNamesConcat(one: seq<Raw>, two: seq<Raw>)
    ensures RawNamesOf(one + two) == RawNamesOf(one) + RawNamesOf(two)
    decreases |two|
  {
    if two == [] {
      assert one + two == one;
    } else {
      var k := |two| - 1;
      RawNamesConcat(one, two[..k]);
      assert (one + two)[..|one| + k] == one + two[..k];
    }
  }

  /** Chunks a lower directory delivers: an empty one would mean its end. */
  ghost predicate ChunkOk(w: Word, chunk: seq<Raw>) {
    forall k :: 0 <= k < |chunk| ==> RawOk(w, chunk[k])
  }

  ghost predicate ChunksOk(w: Word, chunks: seq<seq<Raw>>) {
    forall k :: 0 <= k < |chunks| ==> chunks[k] != [] && ChunkOk(w, chunks[k])
  }

  lemma ConcatSnoc(chunks: seq<seq<Raw>>, k: nat)
    requires k < |chunks|
    ensures Concat(chunks[..k + 1]) == Concat(chunks[..k]) + chunks[k]
    ensures RawNamesOf(Concat(chunks[..k + 1])) == RawNamesOf(Concat(chunks[..k])) + RawNamesOf(chunks[k])
  {
    assert chunks[..k + 1][..k] == chunks[..k];
    RawNamesConcat(Concat(chunks[..k]), chunks[k]);
  }

  /** The chunks took the entries from `es` to `fs` and the state from `a` to `b`. */
  ghost predicate ReadTo(es: seq<Entry>, fs: seq<Entry>, a: Acc, b: Acc, chunks: seq<seq<Raw>>, whable: bool) {
    b == Fill(a, RawNamesOf(Concat(chunks)), whable) && Grown(es, fs, Concat(chunks))
  }

  lemma ReadNone(es: seq<Entry>, a: Acc, whable: bool)
    ensures ReadTo(es, es, a, a, [], whable)
  {}

  lemma ReadMore(es: seq<Entry>, fs: seq<Entry>, gs: seq<Entry>, a: Acc, b: Acc, c: Acc,
                 chunks: seq<seq<Raw>>, k: nat, whable: bool)
    requires k <= |chunks| && ReadTo(es, fs, a, b, chunks[..k], whable)
    requires var chunk := if k < |chunks| then chunks[k] else [];
             Grown(fs, gs, chunk) && c == Fill(b, RawNamesOf(chunk), whable)
    ensures ReadTo(es, gs, a, c, chunks[..if k < |chunks| then k + 1 else k], whable)
  {
    hide Grown, Fill, RawNamesOf, Concat;
    if k < |chunks| {
      ConcatSnoc(chunks, k);
      FillConcat(a, RawNamesOf(Concat(chunks[..k])), RawNamesOf(chunks[k]), whable);
      GrownMore(es, fs, gs, Concat(chunks[..k]), chunks[k]);
    } else {
      RawNamesNone();
      FillNone(b, whable);
      GrownMore(es, fs, gs, Concat(chunks[..k]), []);
      assert Concat(chunks[..k]) + [] == Concat(chunks[..k]);
    }
  }

  lemma RawNamesNone()
    ensures RawNamesOf([]) == []
  {}

  /** struct fillvdir_arg: the blocks under construction and the two hash tables. */
  class FillArg {
    const vdir: Vdir
    const delist: NameHash.Table
    const whlist: NameHash.Table
    var whable: bool
    var called: bool

    ghost predicate Valid()
      reads vdir, vdir.deblk, delist, whlist
    {
      && vdir.Valid() && vdir.Filling() && delist.Valid() && whlist.Valid() && delist != whlist
      && forall n :: n in delist.names <==> n in NamesOf(vdir.Entries())
    }

    ghost function Value(): Acc
      requires Valid()
      reads vdir, vdir.deblk, delist, whlist
    {
      Acc(NamesOf(vdir.Entries()), whlist.names)
    }

    ghost function Entries(): seq<Entry>
      requires Valid()
      reads vdir, vdir.deblk, delist, whlist
    {
      vdir.Entries()
    }

    lemma Opened()
      requires Valid()
      ensures vdir.Valid() && vdir.Filling() && Entries() == vdir.Entries() && Value().names == NamesOf(Entries())
    {}

    constructor (vdir: Vdir, num: nat)
      requires num > 0 && vdir.Valid() && vdir.Filling() && vdir.Entries() == []
      ensures Valid() && Value() == Acc([], {}) && Entries() == [] && this.vdir == vdir
      ensures fresh(delist) && fresh(whlist)
    {
      this.vdir := vdir;
      delist := new NameHash.Table(num);
      whlist := new NameHash.Table(num);
    }

    /** fillvdir; true is an error. */
    method Fillvdir(raw: Raw) returns (err: bool)
      requires Valid() && RawOk(vdir.w, raw)
      modifies this, vdir, vdir.deblk, delist, whlist
      ensures Valid() && called && whable == old(whable)
      ensures !err ==> Value() == FillOne(old(Value()), raw.name, whable)
      ensures err <==> && raw.ino.None? && !IsWhName(raw.name)
                       && raw.name !in old(Value()).names && raw.name !in old(Value()).whs
      ensures Grown(old(Entries()), Entries(), [raw])
      ensures fresh(set b | b in vdir.deblk && b !in old(vdir.deblk))
    {
      hide NamesOf, Grown, Vdir.Valid, Vdir.Filling, Vdir.Entries, NameHash.Table.Valid, CalcSize;
      called := true;
      GrownOne(Entries(), raw);
      var n := raw.name;
      if |n| <= |WH_PFX| || n[..|WH_PFX|] != WH_PFX {
        var known := delist.TestKnown(n);
        if !known {
          known := whlist.TestKnown(n);
        }
        if !known {
          if raw.ino.None? {
            return true;
          }
          var e := EntryOf(raw);
          NamesOfSnoc(Entries(), e);
          vdir.AppendDe(e);
          delist.Append(n);
        }
      } else if whable {
        n := n[|WH_PFX|..];
        var known := whlist.TestKnown(n);
        if !known {
          whlist.Append(n);
        }
      }
      return false;
    }

    /** One vfsub_readdir: the lower directory calls back for each entry of the chunk it has ready. */
    method ReadChunk(chunk: seq<Raw>) returns (err: bool)
      requires Valid() && ChunkOk(vdir.w, chunk)
      modifies this, vdir, vdir.deblk, delist, whlist
      ensures Valid() && whable == old(whable) && called == (old(called) || chunk != [])
      ensures !err ==> Value() == Fill(old(Value()), RawNamesOf(chunk), whable)
      ensures err ==> Numberless(chunk)
      ensures Grown(old(Entries()), Entries(), chunk)
      ensures fresh(set b | b in vdir.deblk && b !in old(vdir.deblk))
    {
      hide Grown, FillOne, Fill, FillArg.Valid, FillArg.Value, FillArg.Entries, Numberless, IsWhName, RawNamesOf;
      RawNamesNone();
      ghost var es, a := Entries(), Value();
      FillNone(a, whable);
      GrownNone(es);
      for k := 0 to |chunk|
        invariant Valid() && whable == old(whable) && called == (old(called) || k > 0)
        invariant Value() == Fill(a, RawNamesOf(chunk[..k]), whable)
        invariant Grown(es, Entries(), chunk[..k])
        invariant fresh(set b | b in vdir.deblk && b !in old(vdir.deblk))
      {
        ghost var mid := Entries();
        assert chunk[..k + 1] == chunk[..k] + [chunk[k]];
        RawNamesOfSnoc(chunk[..k], chunk[k]);
        FillSnoc(a, RawNamesOf(chunk[..k]), chunk[k].name, whable);
        err := Fillvdir(chunk[k]);
        GrownMore(es, mid, Entries(), chunk[..k], [chunk[k]]);
        if err {
          NumberlessAt(chunk, k);
          GrownWithin(es, Entries(), chunk, k + 1);
          return;
        }
      }
      assert chunk[..|chunk|] == chunk;
      return false;
    }

    /** The readdir loop of au_do_read_vdir on one lower directory: call until a call delivers nothing. */
    method ReadLayer(chunks: seq<seq<Raw>>) returns (err: bool)
      requires Valid() && ChunksOk(vdir.w, chunks)
      modifies this, vdir, vdir.deblk, delist, whlist
      ensures Valid() && whable == old(whable)
      ensures !err ==> Read(old(Entries()), old(Value()), chunks, whable)
      ensures err ==> Numberless(Concat(chunks))
      ensures fresh(set b | b in vdir.deblk && b !in old(vdir.deblk))
    {
      hide Grown, FillOne, Fill, RawNamesOf, ReadTo, FillArg.Valid, FillArg.Value, FillArg.Entries;
      ghost var es, a := Entries(), Value();
      ReadNone(es, a, whable);
      var k := 0;
      called := true;
      while called
        invariant Valid() && whable == old(whable)
        invariant 0 <= k <= |chunks| + 1 && (called <==> k <= |chunks|)
        invariant ReadTo(es, Entries(), a, Value(), chunks[..if called then k else |chunks|], whable)
        invariant fresh(set b | b in vdir.deblk && b !in old(vdir.deblk))
        decreases |chunks| + 1 - k
      {
        called := false;
        var chunk := if k < |chunks| then chunks[k] else [];
        ghost var mid, b := Entries(), Value();
        err := ReadChunk(chunk);
        if err {
          NumberlessChunk(chunks, k);
          return;
        }
        ReadMore(es, mid, Entries(), a, b, Value(), chunks, k, whable);
        k := k + 1;
      }
      assert chunks[..|chunks|] == chunks;
      return false;
    }

    ghost predicate Read(es: seq<Entry>, a: Acc, chunks: seq<seq<Raw>>, whable: bool)
      requires Valid()
      reads vdir, vdir.deblk, delist, whlist
    {
      ReadTo(es, Entries(), a, Value(), chunks, whable)
    }
  }

  /** The names of each layer in the order its chunks deliver them. */
  function Orders(lower: seq<seq<seq<Raw>>>): (orders: seq<seq<Name>>)
    ensures |orders| == |lower| && forall i :: 0 <= i < |lower| ==> orders[i] == RawNamesOf(Concat(lower[i]))
  {
    seq(|lower|, i requires 0 <= i < |lower| => RawNamesOf(Concat(lower[i])))
  }

  function ListLen(s: Stack, lower: seq<seq<seq<Raw>>>, k: nat): nat
    requires k <= |s| == |lower|
  {
    |FillLayers(s, Orders(lower), k).names|
  }

  /** The entries the merge added for layer `i` were made from that layer's. */
  ghost predicate Origins(es: seq<Entry>, s: Stack, lower: seq<seq<seq<Raw>>>, k: nat)
    requires k <= |s| == |lower|
    decreases k
  {
    && |es| == ListLen(s, lower, k)
    && (k > 0 ==>
          var m := ListLen(s, lower, k - 1);
          && m <= |es|
          && (s[k - 1].present ==> Grown(es[..m], es, Concat(lower[k - 1])))
          && Origins(es[..m], s, lower, k - 1))
  }

  lemma {:induction false} FillPrefix(a: Acc, order: seq<Name>, whable: bool)
    ensures a.names <= Fill(a, order, whable).names
  {
    if order == [] {
    } else {
      FillPrefix(a, order[..|order| - 1], whable);
    }
  }

  lemma {:induction false} NamesAt(es: seq<Entry>)
    ensures |NamesOf(es)| == |es| && forall j :: 0 <= j < |es| ==> NamesOf(es)[j] == es[j].name
  {
    if es == [] {
    } else {
      NamesAt(es[..|es| - 1]);
    }
  }

  lemma {:induction false} NamesPrefix(es: seq<Entry>, m: nat)
    requires m <= |es|
    ensures m <= |NamesOf(es)| && NamesOf(es[..m]) == NamesOf(es)[..m]
  {
    NamesAt(es);
    NamesAt(es[..m]);
  }

  /** A name first seen at layer `k - 1` is provided by it. */
  lemma FirstSeen(s: Stack, n: Name, k: nat)
    requires 0 < k <= |s| && Seen(s, n, k) && !Seen(s, n, k - 1)
    ensures Find(s, n, 0) == k - 1
  {
    FindMeaning(s, n, 0);
    var i :| 0 <= i < k && n in s[i].ents && Clear(s, n, 0, i + 1);
    var f := Find(s, n, 0);
    assert Clear(s, n, 0, f + 1) && n in s[f].ents;
    assert f <= i by {
      assert Lacks(s, n, 0, f);
    }
  }

  /** Every listed name carries the inode number and type of the layer that provides the name. */
  lemma {:induction false} ListedFromTop(es: seq<Entry>, s: Stack, lower: seq<seq<seq<Raw>>>, k: nat, j: nat)
    requires WellFormed(s) && |s| == |lower| && AllYield(s, Orders(lower)) && k <= |s|
    requires Origins(es, s, lower, k) && NamesOf(es) == FillLayers(s, Orders(lower), k).names
    requires j < |es| && !IsDots(es[j].name)
    ensures var i := Find(s, es[j].name, 0); 0 <= i < k && MadeFrom(es[j], Concat(lower[i]))
    decreases k
  {
    hide WellFormedLayer, Yields, Find, Fill, Seen, Concat, RawNamesOf, MadeFrom;
    var orders := Orders(lower);
    var n := es[j].name;
    NamesAt(es);
    FillLayersDistinct(s, orders, k);
    assert NamesOf(es)[j] == n;
    var a := FillLayers(s, orders, k - 1);
    var m := ListLen(s, lower, k - 1);
    if s[k - 1].present {
      FillPrefix(a, orders[k - 1], s[k - 1].whable && k != |s|);
    }
    NamesPrefix(es, m);
    if j < m {
      ListedFromTop(es[..m], s, lower, k - 1, j);
    } else {
      assert n !in a.names;
      FillLayersName(s, orders, n, k);
      FillLayersName(s, orders, n, k - 1);
      FirstSeen(s, n, k);
    }
  }

  lemma OriginsStep(es: seq<Entry>, fs: seq<Entry>, s: Stack, lower: seq<seq<seq<Raw>>>, k: nat)
    requires 0 < k <= |s| == |lower| && Origins(es, s, lower, k - 1)
    requires |NamesOf(fs)| == ListLen(s, lower, k)
    requires if s[k - 1].present then Grown(es, fs, Concat(lower[k - 1])) else fs == es
    ensures Origins(fs, s, lower, k)
  {
    NamesAt(fs);
    assert es == fs[..|es|];
  }

  lemma MergeStart(s: Stack, lower: seq<seq<seq<Raw>>>)
    requires |s| == |lower|
    ensures FillLayers(s, Orders(lower), 0) == Acc([], {}) && Origins([], s, lower, 0)
  {}

  lemma MergeStep(es: seq<Entry>, fs: seq<Entry>, a: Acc, b: Acc, s: Stack, lower: seq<seq<seq<Raw>>>, k: nat)
    requires 0 < k <= |s| == |lower| && Origins(es, s, lower, k - 1) && b.names == NamesOf(fs)
    requires a == FillLayers(s, Orders(lower), k - 1)
    requires if s[k - 1].present then ReadTo(es, fs, a, b, lower[k - 1], s[k - 1].whable && k != |s|)
             else fs == es && b == a
    ensures b == FillLayers(s, Orders(lower), k) && Origins(fs, s, lower, k)
  {
    OriginsStep(es, fs, s, lower, k);
  }

  /** au_do_read_vdir into a fresh set of blocks. `lower[i]` is what layer `i`'s directory delivers,
      call by call. */
  method DoReadVdir(vdir: Vdir, s: Stack, lower: seq<seq<seq<Raw>>>, rdhash: nat) returns (err: bool)
    requires vdir.Valid() && vdir.Filling() && vdir.Entries() == [] && rdhash > 0
    requires |s| == |lower| && forall i :: 0 <= i < |s| ==> ChunksOk(vdir.w, lower[i])
    modifies vdir, vdir.deblk
    ensures vdir.Valid() && vdir.Filling()
    ensures !err ==> NamesOf(vdir.Entries()) == FillLayers(s, Orders(lower), |s|).names
    ensures !err ==> Origins(vdir.Entries(), s, lower, |s|)
    ensures err ==> exists i :: 0 <= i < |s| && s[i].present && Numberless(Concat(lower[i]))
  {
    hide FillArg.Valid, FillArg.Value, FillArg.Entries, Origins, FillLayers, ReadTo, NamesOf, Vdir.Entries, Orders,
         ChunksOk;
    hide Vdir.Valid, Vdir.Filling;
    var arg := new FillArg(vdir, rdhash);
    arg.Opened();
    MergeStart(s, lower);
    for bindex := 0 to |s|
      invariant arg.Valid() && fresh(arg) && fresh(arg.delist) && fresh(arg.whlist) && arg.vdir == vdir
      invariant fresh(set b | b in vdir.deblk && b !in old(vdir.deblk))
      invariant arg.Value() == FillLayers(s, Orders(lower), bindex)
      invariant Origins(arg.Entries(), s, lower, bindex)
    {
      ghost var es, a := arg.Entries(), arg.Value();
      if s[bindex].present {
        arg.whable := bindex != |s| - 1 && s[bindex].whable;
        err := arg.ReadLayer(lower[bindex]);
        if err {
          arg.Opened();
          return;
        }
      }
      arg.Opened();
      MergeStep(es, arg.Entries(), a, arg.Value(), s, lower, bindex + 1);
    }
    arg.Opened();
    return false;
  }

  // ----- the whole of readdir

  /** The names handed to filldir. */
  function NamesGiven(out: seq<(Entry, nat)>): (names: seq<Name>)
    ensures |names| == |out| && forall i :: 0 <= i < |out| ==> names[i] == out[i].0.name
  {
    seq(|out|, i requires 0 <= i < |out| => out[i].0.name)
  }

  /** What was handed over is the beginning of what the merge listed. */
  lemma NamesHandedOver(w: Word, sz: nat, bs: seq<seq<char>>, out: seq<(Entry, nat)>, es: seq<Entry>, rest: seq<Entry>)
    requires sz > 0 && Blocks(w, sz, bs) && HandedOver(w, sz, bs, out, es, rest, true)
    ensures |NamesOf(es)| == |es| == |out| + |rest| && NamesGiven(out) == NamesOf(es)[..|out|]
  {
    HandedOverAt(w, sz, bs, out, es, rest, true);
    NamesAt(es);
  }

  lemma Beginning(names: seq<Name>, k: nat)
    requires Distinct(names) && k <= |names|
    ensures Distinct(names[..k])
    ensures forall n :: n in names[..k] ==> n in names
    ensures k == |names| ==> names[..k] == names
  {}

  /** Every entry handed over was made from one of the layer that provides its name. */
  ghost predicate Provided(out: seq<(Entry, nat)>, s: Stack, lower: seq<seq<seq<Raw>>>)
    requires |s| == |lower|
  {
    forall j :: 0 <= j < |out| && !IsDots(out[j].0.name) ==>
      var i := Find(s, out[j].0.name, 0); 0 <= i && MadeFrom(out[j].0, Concat(lower[i]))
  }

  lemma HandedOverFrom(w: Word, sz: nat, bs: seq<seq<char>>, out: seq<(Entry, nat)>, es: seq<Entry>,
                       rest: seq<Entry>, s: Stack, lower: seq<seq<seq<Raw>>>)
    requires sz > 0 && Blocks(w, sz, bs) && HandedOver(w, sz, bs, out, es, rest, true)
    requires WellFormed(s) && |s| == |lower| && AllYield(s, Orders(lower))
    requires Origins(es, s, lower, |s|) && NamesOf(es) == FillLayers(s, Orders(lower), |s|).names
    ensures Provided(out, s, lower)
  {
    HandedOverAt(w, sz, bs, out, es, rest, true);
    hide Origins, NamesOf, FillLayers, AllYield, WellFormed, Find, Orders, MadeFrom, Blocks, HandedOver;
    forall j | 0 <= j < |out| && !IsDots(out[j].0.name)
      ensures var i := Find(s, out[j].0.name, 0); 0 <= i && MadeFrom(out[j].0, Concat(lower[i]))
    {
      ListedFromTop(es, s, lower, |s|, j);
    }
  }

  /** A directory is opened, its layers are merged, and any number of readdir calls deliver the result, the
      k-th taking `rooms[k]` entries. No name is delivered twice, and only names the union provides are,
      besides the dots, with the inode number and type of the layer that provides it; once a call has delivered
      less than it had room for, all of them have been. It only fails for an entry without an inode number. */
  method ReadDirectory(w: Word, sz: nat, s: Stack, lower: seq<seq<seq<Raw>>>, rdhash: nat, rooms: seq<nat>)
      returns (err: bool, out: seq<(Entry, nat)>)
    requires CalcSize(w, 255) <= sz && rdhash > 0
    requires |s| == |lower| && forall i :: 0 <= i < |s| ==> ChunksOk(w, lower[i])
    ensures err ==> exists i :: 0 <= i < |s| && s[i].present && Numberless(Concat(lower[i]))
    ensures !err && WellFormed(s) && AllYield(s, Orders(lower)) ==>
              && Distinct(NamesGiven(out)) && Provided(out, s, lower)
              && (forall n :: n in NamesGiven(out) && !IsDots(n) ==> !IsWhName(n) && Find(s, n, 0) >= 0)
              && (|out| < Total(rooms) ==>
                    forall n :: !IsDots(n) && !IsWhName(n) && Find(s, n, 0) >= 0 ==> n in NamesGiven(out))
              && (|out| < Total(rooms) && NoDotWh(s) ==>
                    forall n :: IsDots(n) ==> (n in NamesGiven(out) <==> exists i :: 0 <= i < |s| && s[i].present))
  {
    hide Yields, ChunksOk, NamesOf, HandedOver, Origins, FillLayers, WellFormed, AllYield, Find, NamesGiven, Orders,
         Total, NoDotWh;
    hide Blocks, EndOf, IsRestPos, IsCursor, Flat, EntriesFrom, VdirBlocks.Holds;
    out := [];
    var vdir := new Vdir(w, sz);
    err := DoReadVdir(vdir, s, lower, rdhash);
    if err {
      return;
    }
    vdir.Rewind();
    vdir.fpos := 0;
    ghost var es, rest := vdir.Entries(), [];
    out, rest := vdir.FillDes(rooms);
    NamesHandedOver(w, sz, vdir.data, out, es, rest);
    if WellFormed(s) && AllYield(s, Orders(lower)) {
      ReaddirMeaning(s, Orders(lower));
      Beginning(NamesOf(es), |out|);
      HandedOverFrom(w, sz, vdir.data, out, es, rest, s, lower);
      if NoDotWh(s) {
        DotsListed(s, Orders(lower), ".", |s|);
        DotsListed(s, Orders(lower), "..", |s|);
      }
    }
  }

  // ----- the code of the emptiness test

  /** test_empty_cb; true is ENOTEMPTY. */
  method TestEmptyCb(whlist: NameHash.Table, n: Name, whonly: bool) returns (err: bool)
    requires whlist.Valid() && n != ""
    modifies whlist
    ensures whlist.Valid()
    ensures TestOne(old(whlist.names), n, whonly) == if err then None else Some(whlist.names)
  {
    if n[0] == '.' && (|n| == 1 || (n[1] == '.' && |n| == 2)) {
      return false;
    }
    if |n| <= |WH_PFX| || n[..|WH_PFX|] != WH_PFX {
      var known := whlist.TestKnown(n);
      return whonly && !known;
    }
    var known := whlist.TestKnown(n[|WH_PFX|..]);
    if !known {
      whlist.Append(n[|WH_PFX|..]);
    }
    assert whlist.names == old(whlist.names) + {n[|WH_PFX|..]};
    return false;
  }

  lemma TestSnoc(whs: set<Name>, order: seq<Name>, n: Name, whonly: bool)
    ensures Test(whs, order + [n], whonly) ==
            var r := Test(whs, order, whonly); if r.None? then None else TestOne(r.value, n, whonly)
  {
    assert (order + [n])[..|order|] == order;
  }

  lemma {:induction false} TestConcat(whs: set<Name>, one: seq<Name>, two: seq<Name>, whonly: bool)
    ensures Test(whs, one + two, whonly) ==
            var r := Test(whs, one, whonly); if r.None? then None else Test(r.value, two, whonly)
    decreases |two|
  {
    if two == [] {
      assert one + two == one;
    } else {
      var k := |two| - 1;
      TestConcat(whs, one, two[..k], whonly);
      assert (one + two)[..|one| + k] == one + two[..k];
    }
  }

  /** One vfsub_readdir; an error from the callback ends it. */
  method TestChunk(whlist: NameHash.Table, chunk: seq<Raw>, whonly: bool) returns (err: bool)
    requires whlist.Valid() && forall k :: 0 <= k < |chunk| ==> chunk[k].name != ""
    modifies whlist
    ensures whlist.Valid()
    ensures Test(old(whlist.names), RawNamesOf(chunk), whonly) == if err then None else Some(whlist.names)
  {
    for k := 0 to |chunk|
      invariant whlist.Valid()
      invariant Test(old(whlist.names), RawNamesOf(chunk[..k]), whonly) == Some(whlist.names)
    {
      assert chunk[..k + 1] == chunk[..k] + [chunk[k]];
      assert chunk[..k + 1] + chunk[k + 1..] == chunk;
      RawNamesOfSnoc(chunk[..k], chunk[k]);
      TestSnoc(old(whlist.names), RawNamesOf(chunk[..k]), chunk[k].name, whonly);
      RawNamesConcat(chunk[..k + 1], chunk[k + 1..]);
      TestConcat(old(whlist.names), RawNamesOf(chunk[..k + 1]), RawNamesOf(chunk[k + 1..]), whonly);
      err := TestEmptyCb(whlist, chunk[k].name, whonly);
      if err {
        return;
      }
    }
    assert chunk[..|chunk|] == chunk;
    return false;
  }

  ghost predicate Named(chunks: seq<seq<Raw>>) {
    forall k :: 0 <= k < |chunks| ==> chunks[k] != [] && forall j :: 0 <= j < |chunks[k]| ==> chunks[k][j].name != ""
  }

  lemma TestChunks(whs: set<Name>, chunks: seq<seq<Raw>>, k: nat, whonly: bool)
    requires k < |chunks|
    ensures var order := RawNamesOf(Concat(chunks[..k]));
            && Test(whs, RawNamesOf(Concat(chunks[..k + 1])), whonly)
               == (var r := Test(whs, order, whonly);
                   if r.None? then None else Test(r.value, RawNamesOf(chunks[k]), whonly))
            && (Test(whs, RawNamesOf(Concat(chunks[..k + 1])), whonly).None? ==>
                  Test(whs, RawNamesOf(Concat(chunks)), whonly).None?)
    decreases |chunks| - k
  {
    ConcatSnoc(chunks, k);
    TestConcat(whs, RawNamesOf(Concat(chunks[..k])), RawNamesOf(chunks[k]), whonly);
    if k + 1 < |chunks| {
      TestChunks(whs, chunks, k + 1, whonly);
    } else {
      assert chunks[..k + 1] == chunks;
    }
  }

  /** do_test_empty: call until a call delivers nothing. */
  method DoTestEmpty(whlist: NameHash.Table, chunks: seq<seq<Raw>>, whonly: bool) returns (err: bool)
    requires whlist.Valid() && Named(chunks)
    modifies whlist
    ensures whlist.Valid()
    ensures Test(old(whlist.names), RawNamesOf(Concat(chunks)), whonly) == if err then None else Some(whlist.names)
  {
    hide Test, Concat, RawNamesOf;
    ghost var whs := whlist.names;
    var k := 0;
    var called := true;
    TestNone(whs, chunks, whonly);
    while called
      invariant whlist.Valid() && 0 <= k <= |chunks| + 1 && (called <==> k <= |chunks|)
      invariant Test(whs, RawNamesOf(Concat(chunks[..if called then k else |chunks|])), whonly) == Some(whlist.names)
      decreases |chunks| + 1 - k
    {
      var chunk := if k < |chunks| then chunks[k] else [];
      called := chunk != [];
      if k < |chunks| {
        TestChunks(whs, chunks, k, whonly);
      } else {
        TestNone(whlist.names, chunks, whonly);
      }
      err := TestChunk(whlist, chunk, whonly);
      if err {
        return;
      }
      k := k + 1;
    }
    assert chunks[..|chunks|] == chunks;
    return false;
  }

  lemma TestNone(whs: set<Name>, chunks: seq<seq<Raw>>, whonly: bool)
    ensures Test(whs, RawNamesOf([]), whonly) == Some(whs)
    ensures Test(whs, RawNamesOf(Concat(chunks[..0])), whonly) == Some(whs)
  {}

  lemma {:induction false} TestLayersStop(s: Stack, orders: seq<seq<Name>>, strict: nat, k: nat, m: nat)
    requires k <= m <= |s| == |orders| && TestLayers(s, orders, strict, k).None?
    ensures TestLayers(s, orders, strict, m).None?
    decreases m - k
  {
    if k == m {
    } else {
      TestLayersStop(s, orders, strict, k + 1, m);
    }
  }

  /** au_test_empty; true is ENOTEMPTY. */
  method AuTestEmpty(whlist: NameHash.Table, s: Stack, lower: seq<seq<seq<Raw>>>) returns (err: bool)
    requires whlist.Valid() && whlist.names == {}
    requires |s| == |lower| && forall i :: 0 <= i < |s| ==> Named(lower[i])
    modifies whlist
    ensures whlist.Valid()
    ensures err <==> TestLayers(s, Orders(lower), 0, |s|).None?
  {
    err := TestFrom(whlist, s, lower, 0, 0);
  }

  /** au_test_empty_lower: the first layer is read for its whiteouts only. */
  method AuTestEmptyLower(s: Stack, lower: seq<seq<seq<Raw>>>, rdhash: nat) returns (err: bool)
    requires rdhash > 0 && s != [] && s[0].present
    requires |s| == |lower| && forall i :: 0 <= i < |s| ==> Named(lower[i])
    ensures err <==> TestLayers(s, Orders(lower), 1, |s|).None?
  {
    var whlist := new NameHash.Table(rdhash);
    err := DoTestEmpty(whlist, lower[0], false);
    if err {
      TestLayersStop(s, Orders(lower), 1, 1, |s|);
      return;
    }
    err := TestFrom(whlist, s, lower, 1, 1);
  }

  lemma TestLayersNext(s: Stack, orders: seq<seq<Name>>, strict: nat, k: nat)
    requires k < |s| == |orders|
    ensures TestLayers(s, orders, strict, k + 1) ==
            TestNext(TestLayers(s, orders, strict, k), s[k], orders[k], strict <= k)
  {}

  /** The layer loop of both. */
  method TestFrom(whlist: NameHash.Table, s: Stack, lower: seq<seq<seq<Raw>>>, strict: nat, from: nat)
      returns (err: bool)
    requires whlist.Valid() && strict <= from <= |s| == |lower|
    requires TestLayers(s, Orders(lower), strict, from) == Some(whlist.names)
    requires forall i :: 0 <= i < |s| ==> Named(lower[i])
    modifies whlist
    ensures whlist.Valid()
    ensures err <==> TestLayers(s, Orders(lower), strict, |s|).None?
  {
    hide Test, TestLayers;
    for bindex := from to |s|
      invariant whlist.Valid() && TestLayers(s, Orders(lower), strict, bindex) == Some(whlist.names)
    {
      TestLayersNext(s, Orders(lower), strict, bindex);
      if s[bindex].present {
        err := DoTestEmpty(whlist, lower[bindex], true);
        if err {
          TestLayersStop(s, Orders(lower), strict, bindex + 1, |s|);
          return;
        }
      }
    }
    return false;
  }
}
