/** Branch permissions and attributes as text (opts.c, aufs_type.h): parsing, printing into a buffer of
    fixed size, and the round trip. Text in a buffer ends with a NUL. FHSM and XATTR are configured. */
module BranchPerm {
  import opened Basics

  datatype Bit = RW | RO | RR | COO_REG | COO_ALL | FHSM | UNPIN
               | ICEX_SEC | ICEX_SYS | ICEX_TR | ICEX_USR | ICEX_OTH | WH | NLWH | MOO

  /** A permission word: the bits that are set. */
  type Perm = set<Bit>

  const BASE: Perm := {RW, RO, RR}
  const COO: Perm := {COO_REG, COO_ALL}
  const CMOO: Perm := {COO_REG, COO_ALL, MOO}
  const ICEX: Perm := {ICEX_SEC, ICEX_SYS, ICEX_TR, ICEX_USR, ICEX_OTH}
  const RATTR: Perm := {WH}
  const WATTR: Perm := {NLWH, MOO}

  /** A row of a match_table_t. */
  datatype Row = Row(token: Perm, pattern: string)

  const BRPERM: seq<Row> := [Row({RO}, "ro"), Row({RR}, "rr"), Row({RW}, "rw")]

  const BRATTR: seq<Row> := [
    Row({COO_REG}, "coo_reg"), Row({COO_ALL}, "coo_all"), Row({UNPIN}, "unpin"), Row({FHSM}, "fhsm"),
    Row(ICEX, "icex"), Row({ICEX_SEC}, "icexsec"), Row({ICEX_SYS}, "icexsys"), Row({ICEX_TR}, "icextr"),
    Row({ICEX_USR}, "icexusr"), Row({ICEX_OTH}, "icexoth"),
    Row({WH}, "wh"), Row({MOO}, "moo"), Row({NLWH}, "nolwh")]

  /** sizeof of the longest combination, with its NUL. */
  const PERM_STR_SZ: nat := 60

  // ----- parsing

  /** match_token: the token of the row with this pattern, from row `i` on. */
  function Match(t: seq<Row>, i: nat, s: string): (r: Option<Perm>)
    requires i <= |t|
    decreases |t| - i
  {
    if i == |t| then None else if t[i].pattern == s then Some(t[i].token) else Match(t, i + 1, s)
  }

  /** Up to the first '+', if any. */
  function Plus(s: string): (p: nat)
    ensures p <= |s| && '+' !in s[..p] && (p < |s| ==> s[p] == '+')
  {
    if s == "" || s[0] == '+' then 0 else 1 + Plus(s[1..])
  }

  function Add(attr: Perm, v: Perm): Perm {
    (if v * CMOO != {} then attr - CMOO else attr) + v
  }

  /** br_attr_val: an unknown attribute ends the list. */
  function ParseAttrs(s: string, attr: Perm): Perm
    decreases |s|
  {
    var p := Plus(s);
    var v := Match(BRATTR, 0, s[..p]);
    if v.None? then attr
    else if p == |s| then Add(attr, v.value)
    else ParseAttrs(s[p + 1..], Add(attr, v.value))
  }

  function Legalise(val: Perm): Perm {
    if RW in val then val - RATTR else val - WATTR
  }

  /** br_perm_val: an unknown permission is taken for "ro". */
  function Parse(s: string): Perm {
    var p := Plus(s);
    var v := Match(BRPERM, 0, s[..p]);
    if v.None? then {RO}
    else if p == |s| then v.value
    else Legalise(v.value + ParseAttrs(s[p + 1..], {}))
  }

  /** One base mode, at most one of coo_reg, coo_all and moo, and no attribute of the other mode. */
  predicate Legal(val: Perm) {
    && (val * BASE == {RO} || val * BASE == {RR} || val * BASE == {RW})
    && AtMostOneCmoo(val)
    && (if RW in val then val !! RATTR else val !! WATTR)
  }

  predicate AtMostOneCmoo(val: Perm) {
    !(COO_REG in val && COO_ALL in val) && !(COO_REG in val && MOO in val) && !(COO_ALL in val && MOO in val)
  }

  lemma {:induction false} MatchRow(t: seq<Row>, i: nat, s: string) returns (k: nat)
    requires i <= |t| && Match(t, i, s).Some?
    ensures i <= k < |t| && Match(t, i, s) == Some(t[k].token) && t[k].pattern == s
    decreases |t| - i
  {
    if t[i].pattern == s {
      k := i;
    } else {
      k := MatchRow(t, i + 1, s);
    }
  }

  /** No attribute is a base mode, and none sets two of the copy-up modes. */
  lemma RowsSound(k: nat)
    requires k < |BRATTR|
    ensures BRATTR[k].token !! BASE && AtMostOneCmoo(BRATTR[k].token)
    ensures BRATTR[k].token != {} && '+' !in BRATTR[k].pattern
  {}

  lemma {:induction false} ParseAttrsSound(s: string, attr: Perm)
    requires attr !! BASE && AtMostOneCmoo(attr)
    ensures ParseAttrs(s, attr) !! BASE && AtMostOneCmoo(ParseAttrs(s, attr))
    decreases |s|
  {
    var p := Plus(s);
    var v := Match(BRATTR, 0, s[..p]);
    if v.Some? {
      var k := MatchRow(BRATTR, 0, s[..p]);
      RowsSound(k);
      if p < |s| {
        ParseAttrsSound(s[p + 1..], Add(attr, v.value));
      }
    }
  }

  /** Whatever the text says, the permission is legal. */
  lemma ParseLegal(s: string)
    ensures Legal(Parse(s))
  {
    var p := Plus(s);
    var v := Match(BRPERM, 0, s[..p]);
    if v.Some? {
      var k := MatchRow(BRPERM, 0, s[..p]);
      assert v.value == {RO} || v.value == {RR} || v.value == {RW};
      if p < |s| {
        ParseAttrsSound(s[p + 1..], {});
      }
    }
  }

  // ----- what the words mean

  /** The bits an attribute word stands for. */
  function Bits(word: string): Option<Perm> {
    if word == "coo_reg" then Some({COO_REG})
    else if word == "coo_all" then Some({COO_ALL})
    else if word == "moo" then Some({MOO})
    else if word == "fhsm" then Some({FHSM})
    else if word == "unpin" then Some({UNPIN})
    else if word == "wh" then Some({WH})
    else if word == "nolwh" then Some({NLWH})
    else if word == "icex" then Some({ICEX_SEC, ICEX_SYS, ICEX_TR, ICEX_USR, ICEX_OTH})
    else if word == "icexsec" then Some({ICEX_SEC})
    else if word == "icexsys" then Some({ICEX_SYS})
    else if word == "icextr" then Some({ICEX_TR})
    else if word == "icexusr" then Some({ICEX_USR})
    else if word == "icexoth" then Some({ICEX_OTH})
    else None
  }

  /** The mode a word stands for; a word that is none is taken for "ro". */
  function ModeOf(word: string): Bit {
    if word == "rw" then RW else if word == "rr" then RR else RO
  }

  predicate IsMode(word: string) {
    word == "rw" || word == "rr" || word == "ro"
  }

  /** "wh" is for branches that are not written to, "nolwh" and "moo" for those that are. */
  predicate Admits(mode: Bit, b: Bit) {
    match b
    case WH => mode != RW
    case NLWH => mode == RW
    case MOO => mode == RW
    case _ => true
  }

  function JoinWords(words: seq<string>): string {
    if words == [] then "" else if |words| == 1 then words[0] else words[0] + "+" + JoinWords(words[1..])
  }

  /** A mode and the attributes behind it. */
  function TextOf(mode: string, words: seq<string>): string {
    if words == [] then mode else mode + "+" + JoinWords(words)
  }

  ghost predicate Single(words: seq<string>) {
    forall i :: 0 <= i < |words| ==> '+' !in words[i]
  }

  /** The first `k` words are attributes, and the next one, if any, is not. */
  ghost predicate Known(words: seq<string>, k: nat) {
    && k <= |words| && (forall i :: 0 <= i < k ==> Bits(words[i]).Some?)
    && (k < |words| ==> Bits(words[k]).None?)
  }

  ghost predicate Sets(word: string, b: Bit) {
    Bits(word).Some? && b in Bits(word).value
  }

  /** One of coo_reg, coo_all and moo, of which there can only be one. */
  predicate IsCopyUp(word: string) {
    word == "coo_reg" || word == "coo_all" || word == "moo"
  }

  /** Some of the first `k` words sets `b`; of the words for copying up the last one counts. */
  ghost predicate Given(words: seq<string>, k: nat, b: Bit)
    requires k <= |words|
  {
    exists i :: 0 <= i < k && Sets(words[i], b)
                && (b in CMOO ==> forall j :: i < j < k ==> !IsCopyUp(words[j]))
  }

  /** Bit `b` of the permission that a mode and attributes stand for, of which the first `k` are known. */
  ghost predicate Means(mode: string, words: seq<string>, k: nat, b: Bit)
    requires k <= |words|
  {
    b == ModeOf(mode) || (IsMode(mode) && Given(words, k, b) && Admits(ModeOf(mode), b))
  }

  lemma RowBits(k: nat)
    requires k < |BRATTR|
    ensures Bits(BRATTR[k].pattern) == Some(BRATTR[k].token)
  {}

  lemma BitsSound(word: string)
    requires Bits(word).Some?
    ensures Bits(word).value !! BASE && (Bits(word).value * CMOO != {} <==> IsCopyUp(word))
  {
    if IsCopyUp(word) {
      assert MOO in Bits("moo").value && COO_REG in Bits("coo_reg").value && COO_ALL in Bits("coo_all").value;
      assert Bits(word).value * CMOO != {} by {
        if word == "moo" { assert MOO in Bits(word).value * CMOO; }
        else if word == "coo_reg" { assert COO_REG in Bits(word).value * CMOO; }
        else { assert COO_ALL in Bits(word).value * CMOO; }
      }
    }
  }

  function WordRow(word: string): (k: nat)
    requires Bits(word).Some?
    ensures k < |BRATTR| && BRATTR[k].pattern == word
  {
    if word == "coo_reg" then 0 else if word == "coo_all" then 1 else if word == "unpin" then 2
    else if word == "fhsm" then 3 else if word == "icex" then 4 else if word == "icexsec" then 5
    else if word == "icexsys" then 6 else if word == "icextr" then 7 else if word == "icexusr" then 8
    else if word == "icexoth" then 9 else if word == "wh" then 10 else if word == "moo" then 11 else 12
  }

  lemma {:induction false} MatchNone(t: seq<Row>, i: nat, s: string)
    requires i <= |t| && forall k :: i <= k < |t| ==> t[k].pattern != s
    ensures Match(t, i, s) == None
    decreases |t| - i
  {
    if i == |t| {
    } else {
      MatchNone(t, i + 1, s);
    }
  }

  lemma MatchMeans(word: string)
    ensures Match(BRATTR, 0, word) == Bits(word)
  {
    hide Bits, Match;
    if Bits(word).Some? {
      RowMatch(WordRow(word));
      RowBits(WordRow(word));
    } else {
      forall k | 0 <= k < |BRATTR| ensures BRATTR[k].pattern != word {
        RowBits(k);
      }
      MatchNone(BRATTR, 0, word);
    }
  }

  lemma MatchMode(word: string)
    ensures Match(BRPERM, 0, word) == if IsMode(word) then Some({ModeOf(word)}) else None
  {
    assert BRPERM[0].pattern == "ro" && BRPERM[1].pattern == "rr" && BRPERM[2].pattern == "rw";
    if !IsMode(word) {
      MatchNone(BRPERM, 0, word);
    } else {
      assert Match(BRPERM, 2, "rw") == Some({RW});
      assert Match(BRPERM, 1, "rw") == Some({RW}) && Match(BRPERM, 1, "rr") == Some({RR});
    }
  }

  /** The text from an unknown word on adds nothing. */
  lemma ParseStops(a: string, b: string, attr: Perm)
    requires '+' !in a && Bits(a).None?
    ensures ParseAttrs(a, attr) == attr && ParseAttrs(a + "+" + b, attr) == attr
  {
    MatchMeans(a);
    PlusSplit(a, b);
    hide Match, Bits, Plus;
  }

  lemma AddHas(attr: Perm, v: Perm, b: Bit)
    ensures b in Add(attr, v) <==> b in v || (b in attr && !(b in CMOO && v * CMOO != {}))
  {}

  lemma GivenShift(words: seq<string>, k: nat, b: Bit)
    requires 0 < k <= |words|
    ensures Given(words, k, b) <==>
            || Given(words[1..], k - 1, b)
            || (Sets(words[0], b) && (b in CMOO ==> NoCopyUp(words, 1, k)))
  {
    hide Sets, IsCopyUp;
    var rest := words[1..];
    assert forall j :: 0 < j < k ==> words[j] == rest[j - 1];
    if Given(rest, k - 1, b) {
      var i :| 0 <= i < k - 1 && Sets(rest[i], b) && (b in CMOO ==> forall j :: i < j < k - 1 ==> !IsCopyUp(rest[j]));
      assert Sets(words[i + 1], b);
    }
    if Given(words, k, b) {
      var i :| 0 <= i < k && Sets(words[i], b) && (b in CMOO ==> forall j :: i < j < k ==> !IsCopyUp(words[j]));
      if i > 0 {
        assert Sets(rest[i - 1], b);
        forall j | i - 1 < j < k - 1 && b in CMOO ensures !IsCopyUp(rest[j]) {
          assert rest[j] == words[j + 1];
        }
      }
    }
  }

  lemma FirstWord(words: seq<string>, attr: Perm)
    requires words != [] && Single(words)
    ensures ParseAttrs(JoinWords(words), attr) ==
            if Bits(words[0]).None? then attr
            else if |words| == 1 then Add(attr, Bits(words[0]).value)
            else ParseAttrs(JoinWords(words[1..]), Add(attr, Bits(words[0]).value))
  {
    var a, b := words[0], JoinWords(words[1..]);
    assert JoinWords(words) == if |words| == 1 then a else a + "+" + b;
    hide *;
    MatchMeans(a);
    if Bits(a).Some? {
      ParseNext(a, b, Bits(a).value, attr);
    } else {
      ParseStops(a, b, attr);
    }
  }

  /** None of the first `k` words is for copying up. */
  ghost predicate NoCopyUp(words: seq<string>, lo: nat, k: nat)
    requires k <= |words|
  {
    forall j :: lo <= j < k ==> !IsCopyUp(words[j])
  }

  lemma NoCopyUpShift(words: seq<string>, k: nat)
    requires 0 < k <= |words|
    ensures NoCopyUp(words, 1, k) <==> NoCopyUp(words[1..], 0, k - 1)
    ensures NoCopyUp(words, 0, k) <==> !IsCopyUp(words[0]) && NoCopyUp(words, 1, k)
  {
    hide IsCopyUp;
    assert forall j :: 1 <= j < k ==> words[j] == words[1..][j - 1];
    assert forall j :: 0 <= j < k - 1 ==> words[1..][j] == words[j + 1];
  }

  /** What a list of attributes adds up to. */
  lemma {:induction false} AttrsMeaning(words: seq<string>, k: nat, attr: Perm, b: Bit)
    requires words != [] && Single(words) && Known(words, k)
    ensures b in ParseAttrs(JoinWords(words), attr) <==>
            Given(words, k, b) || (b in attr && (b in CMOO ==> NoCopyUp(words, 0, k)))
    decreases |words|
  {
    hide Bits, ParseAttrs, Match, Add, Given, IsCopyUp, JoinWords;
    FirstWord(words, attr);
    if k == 0 {
      NoneGiven(words, b);
    } else {
      var v := Bits(words[0]).value;
      var rest := words[1..];
      assert Single(rest) && Known(rest, k - 1);
      BitsSound(words[0]);
      AddHas(attr, v, b);
      GivenShift(words, k, b);
      NoCopyUpShift(words, k);
      assert Sets(words[0], b) <==> b in v;
      hide Single, Known, NoCopyUp, Sets;
      if |words| > 1 {
        AttrsMeaning(rest, k - 1, Add(attr, v), b);
      } else {
        NoneGiven(rest, b);
        NoneCopyUp(rest);
      }
    }
  }

  lemma NoneCopyUp(words: seq<string>)
    ensures NoCopyUp(words, 0, 0)
  {}

  lemma NoneGiven(words: seq<string>, b: Bit)
    ensures !Given(words, 0, b)
  {}

  lemma GivenIsAttr(words: seq<string>, k: nat, b: Bit)
    requires k <= |words| && Given(words, k, b)
    ensures b !in BASE
  {
    var i :| 0 <= i < k && Sets(words[i], b);
    BitsSound(words[i]);
  }

  /** Bit by bit, what the text of a permission means. */
  lemma ParseMeaning(mode: string, words: seq<string>, k: nat, b: Bit)
    requires '+' !in mode && Single(words) && Known(words, k)
    ensures b in Parse(TextOf(mode, words)) <==> Means(mode, words, k, b)
  {
    MatchMode(mode);
    PlusSplit(mode, JoinWords(words));
    ParseParts(TextOf(mode, words));
    hide Match, Plus, Parse, ParseAttrs, Given, Bits, Legalise, JoinWords, Single, Known, Admits;
    if words == [] {
      NoneGiven(words, b);
    } else if IsMode(mode) {
      AttrsMeaning(words, k, {}, b);
      NoBase(words, k);
      LegaliseHas(ModeOf(mode), ParseAttrs(JoinWords(words), {}), b);
    }
  }

  /** A mode by itself. */
  lemma ModeWords(s: string)
    requires '+' !in s
    ensures Parse(s) == {ModeOf(s)}
  {
    hide Parse, ModeOf, IsMode;
    forall b ensures b in Parse(s) <==> b == ModeOf(s) {
      ParseMeaning(s, [], 0, b);
      NoneGiven([], b);
    }
  }

  /** No attribute is a mode. */
  lemma NoBase(words: seq<string>, k: nat)
    requires words != [] && Single(words) && Known(words, k)
    ensures ParseAttrs(JoinWords(words), {}) !! BASE
  {
    hide ParseAttrs, Given, Bits;
    forall b | b in BASE ensures b !in ParseAttrs(JoinWords(words), {}) {
      AttrsMeaning(words, k, {}, b);
      if Given(words, k, b) {
        GivenIsAttr(words, k, b);
      }
    }
  }

  lemma LegaliseHas(mode: Bit, attrs: Perm, b: Bit)
    requires mode in BASE && attrs !! BASE
    ensures b in Legalise({mode} + attrs) <==> b == mode || (b in attrs && Admits(mode, b))
  {}

  /** Every text is a mode and attributes. */
  lemma EveryText(s: string) returns (mode: string, words: seq<string>, k: nat)
    ensures '+' !in mode && Single(words) && Known(words, k) && s == TextOf(mode, words)
  {
    var p := Plus(s);
    mode := s[..p];
    if p == |s| {
      words := [];
    } else {
      words := Split(s[p + 1..]);
      assert s == mode + "+" + s[p + 1..];
    }
    k := KnownOf(words);
  }

  lemma {:induction false} Split(s: string) returns (words: seq<string>)
    ensures words != [] && Single(words) && s == JoinWords(words)
    decreases |s|
  {
    var p := Plus(s);
    if p == |s| {
      words := [s];
      assert s[..p] == s;
    } else {
      var rest := Split(s[p + 1..]);
      words := [s[..p]] + rest;
      assert words[1..] == rest;
      assert s == s[..p] + "+" + s[p + 1..];
    }
  }

  lemma {:induction false} KnownOf(words: seq<string>) returns (k: nat)
    ensures Known(words, k)
    decreases |words|
  {
    hide Bits;
    if words == [] || Bits(words[0]).None? {
      k := 0;
    } else {
      var m := KnownOf(words[1..]);
      k := m + 1;
      assert forall i :: 0 < i < |words| ==> words[i] == words[1..][i - 1];
    }
  }

  // ----- printing

  /** au_optstr: the first row all of whose bits are set. */
  function FirstRow(t: seq<Row>, i: nat, val: Perm): (r: Option<nat>)
    requires i <= |t|
    ensures r.Some? ==> i <= r.value < |t| && t[r.value].token <= val
    ensures r.Some? ==> forall j :: i <= j < r.value ==> !(t[j].token <= val)
    ensures r.None? ==> forall j :: i <= j < |t| ==> !(t[j].token <= val)
    decreases |t| - i
  {
    if i == |t| then None else if t[i].token <= val then Some(i) else FirstRow(t, i + 1, val)
  }

  /** The rows au_do_optstr_br_attr prints, in order: each takes its bits away. */
  function Rows(val: Perm): (ks: seq<nat>)
    ensures forall i :: 0 <= i < |ks| ==> ks[i] < |BRATTR|
    decreases |val|
  {
    var k := FirstRow(BRATTR, 0, val);
    if k.None? then [] else
      RowsSmaller(k.value, val);
      [k.value] + Rows(val - BRATTR[k.value].token)
  }

  lemma RowsSmaller(k: nat, val: Perm)
    requires k < |BRATTR| && BRATTR[k].token <= val
    ensures |val - BRATTR[k].token| < |val|
  {
    RowsSound(k);
    var t := BRATTR[k].token;
    assert val == (val - t) + t;
    assert |t| > 0;
  }

  function Join(ks: seq<nat>): string
    requires forall i :: 0 <= i < |ks| ==> ks[i] < |BRATTR|
  {
    if ks == [] then ""
    else if |ks| == 1 then BRATTR[ks[0]].pattern
    else BRATTR[ks[0]].pattern + "+" + Join(ks[1..])
  }

  /** au_optstr_br_perm */
  function Print(val: Perm): string
    requires FirstRow(BRPERM, 0, val).Some?
  {
    var k := FirstRow(BRPERM, 0, val).value;
    var ks := Rows(val - BRPERM[k].token);
    BRPERM[k].pattern + if ks == [] then "" else "+" + Join(ks)
  }

  // ----- the round trip

  lemma {:induction false} PlusAfter(a: string, rest: string)
    requires '+' !in a && (rest == "" || rest[0] == '+')
    ensures Plus(a + rest) == |a|
  {
    if a == "" {
      assert a + rest == rest;
    } else {
      assert (a + rest)[1..] == a[1..] + rest;
      PlusAfter(a[1..], rest);
    }
  }

  /** The patterns are different. */
  lemma RowMatch(k: nat)
    requires k < |BRATTR|
    ensures Match(BRATTR, 0, BRATTR[k].pattern) == Some(BRATTR[k].token)
  {
    var j := MatchAt(BRATTR, 0, k);
  }

  lemma {:induction false} MatchAt(t: seq<Row>, i: nat, k: nat) returns (j: nat)
    requires i <= k < |t|
    ensures i <= j <= k && t[j].pattern == t[k].pattern && Match(t, i, t[k].pattern) == Some(t[j].token)
    decreases k - i
  {
    if t[i].pattern == t[k].pattern {
      j := i;
    } else {
      j := MatchAt(t, i + 1, k);
    }
  }

  function Fold(ks: seq<nat>, attr: Perm): Perm
    requires forall i :: 0 <= i < |ks| ==> ks[i] < |BRATTR|
  {
    if ks == [] then attr else Fold(ks[1..], Add(attr, BRATTR[ks[0]].token))
  }

  lemma PlusSplit(a: string, b: string)
    requires '+' !in a
    ensures Plus(a) == |a| && a[..Plus(a)] == a
    ensures var s := a + "+" + b;
            Plus(s) == |a| < |s| && s[..|a|] == a && s[|a| + 1..] == b
  {
    hide Plus;
    PlusAfter(a, "");
    assert a + "" == a;
    Around(a, b);
    PlusAfter(a, "+" + b);
  }

  lemma Around(a: string, b: string)
    ensures var s := a + "+" + b;
            s == a + ("+" + b) && |s| == |a| + 1 + |b| && s[..|a|] == a && s[|a| + 1..] == b
  {}

  lemma ParseNext(a: string, b: string, v: Perm, attr: Perm)
    requires '+' !in a && Match(BRATTR, 0, a) == Some(v)
    ensures ParseAttrs(a, attr) == Add(attr, v)
    ensures ParseAttrs(a + "+" + b, attr) == ParseAttrs(b, Add(attr, v))
  {
    PlusSplit(a, b);
    hide Match, Add, Plus;
  }

  lemma {:induction false} JoinParse(ks: seq<nat>, attr: Perm)
    requires ks != [] && forall i :: 0 <= i < |ks| ==> ks[i] < |BRATTR|
    ensures ParseAttrs(Join(ks), attr) == Fold(ks, attr)
  {
    var k := ks[0];
    var a, v := BRATTR[k].pattern, BRATTR[k].token;
    RowsSound(k);
    RowMatch(k);
    assert Fold(ks, attr) == Fold(ks[1..], Add(attr, v));
    hide Match, Add, Plus;
    if |ks| == 1 {
      ParseNext(a, "", v, attr);
    } else {
      ParseNext(a, Join(ks[1..]), v, attr);
      JoinParse(ks[1..], Add(attr, v));
    }
  }

  /** Every attribute bit has a row of its own. */
  lemma SomeRow(val: Perm)
    requires val != {} && val !! BASE
    ensures FirstRow(BRATTR, 0, val).Some?
  {
    var b :| b in val;
    var k := RowOf(b);
    assert BRATTR[k].token <= val;
  }

  function RowOf(b: Bit): (k: nat)
    requires b !in BASE
    ensures k < |BRATTR| && BRATTR[k].token == {b}
  {
    match b
    case COO_REG => 0 case COO_ALL => 1 case UNPIN => 2 case FHSM => 3
    case ICEX_SEC => 5 case ICEX_SYS => 6 case ICEX_TR => 7 case ICEX_USR => 8 case ICEX_OTH => 9
    case WH => 10 case MOO => 11 case NLWH => 12
  }

  lemma {:induction false} RowsFold(val: Perm, attr: Perm)
    requires val !! BASE && val !! attr && AtMostOneCmoo(val + attr)
    ensures Fold(Rows(val), attr) == val + attr
    decreases |val|
  {
    if val != {} {
      SomeRow(val);
      var k := FirstRow(BRATTR, 0, val).value;
      var t := BRATTR[k].token;
      RowsSmaller(k, val);
      AddDisjoint(attr, t);
      RowsFold(val - t, attr + t);
      assert Rows(val)[1..] == Rows(val - t);
      assert (val - t) + (attr + t) == val + attr;
    } else {
      NoRow();
    }
  }

  lemma NoRow()
    ensures Rows({}) == []
  {
    var k := FirstRow(BRATTR, 0, {});
    if k.Some? {
      RowsSound(k.value);
    }
  }

  lemma AddDisjoint(attr: Perm, t: Perm)
    requires attr !! t && AtMostOneCmoo(attr + t)
    ensures Add(attr, t) == attr + t
  {
    if t * CMOO != {} {
      forall b | b in CMOO ensures b !in attr {
        var x :| x in t * CMOO;
      }
    }
  }

  lemma BaseRow(val: Perm)
    requires Legal(val)
    ensures var k := FirstRow(BRPERM, 0, val);
            && k.Some? && BRPERM[k.value].token == val * BASE && '+' !in BRPERM[k.value].pattern
            && Match(BRPERM, 0, BRPERM[k.value].pattern) == Some(val * BASE)
            && |BRPERM[k.value].pattern| == 2
    ensures val - val * BASE !! BASE && val * BASE + (val - val * BASE) == val
    ensures AtMostOneCmoo(val - val * BASE) && Legalise(val) == val
  {
    var base := val * BASE;
    assert RW in base <==> RW in val;
    assert RO in base <==> RO in val;
    assert RR in base <==> RR in val;
    assert BRPERM[0].token == {RO} && BRPERM[1].token == {RR} && BRPERM[2].token == {RW};
    assert base == {RO} ==> FirstRow(BRPERM, 0, val) == Some(0);
    assert base == {RR} ==> FirstRow(BRPERM, 1, val) == Some(1) && FirstRow(BRPERM, 0, val) == Some(1);
    assert base == {RW} ==> FirstRow(BRPERM, 2, val) == Some(2) && FirstRow(BRPERM, 1, val) == Some(2);
  }

  /** The attributes parse to themselves. */
  lemma AttrsRoundTrip(attrs: Perm)
    requires attrs !! BASE && AtMostOneCmoo(attrs)
    ensures Rows(attrs) == [] ==> attrs == {}
    ensures Rows(attrs) != [] ==> ParseAttrs(Join(Rows(attrs)), {}) == attrs
  {
    var ks := Rows(attrs);
    if ks == [] {
      if attrs != {} {
        SomeRow(attrs);
      }
    } else {
      JoinParse(ks, {});
      assert attrs + {} == attrs;
      RowsFold(attrs, {});
    }
  }

  /** What is printed for a legal permission parses to it again. */
  lemma RoundTrip(val: Perm)
    requires Legal(val)
    ensures FirstRow(BRPERM, 0, val).Some? && Parse(Print(val)) == val
  {
    BaseRow(val);
    AttrsRoundTrip(val - val * BASE);
    hide Rows, FirstRow, Match, Legal, Legalise, ParseAttrs, Join;
    var a := BRPERM[FirstRow(BRPERM, 0, val).value].pattern;
    var ks := Rows(val - val * BASE);
    PlusSplit(a, if ks == [] then "" else Join(ks));
    if ks == [] {
      assert Print(val) == a + "" == a;
    } else {
      assert Print(val) == a + "+" + Join(ks);
    }
  }

  // ----- the size of the text

  function If(c: bool, n: nat): nat { if c then n else 0 }

  /** What the attributes cost, each with the '+' in front of it. */
  function Cost(val: Perm): nat {
    PlainCost(val) + IcexCost(val)
  }

  function PlainCost(val: Perm): nat {
    If(COO_REG in val, 8) + If(COO_ALL in val, 8) + If(UNPIN in val, 6) + If(FHSM in val, 5)
    + If(WH in val, 3) + If(MOO in val, 4) + If(NLWH in val, 6)
  }

  function IcexCost(val: Perm): nat {
    if ICEX <= val then 5 else
      If(ICEX_SEC in val, 8) + If(ICEX_SYS in val, 8) + If(ICEX_TR in val, 7)
      + If(ICEX_USR in val, 8) + If(ICEX_OTH in val, 8)
  }

  lemma IcexAll(val: Perm)
    ensures ICEX <= val <==>
            ICEX_SEC in val && ICEX_SYS in val && ICEX_TR in val && ICEX_USR in val && ICEX_OTH in val
  {}

  function BitOf(k: nat): (b: Bit)
    requires k < |BRATTR| && k != 4
    ensures BRATTR[k].token == {b} && |BRATTR[k].pattern| + 1 == BitCost(b)
    ensures b in ICEX <==> 5 <= k <= 9
  {
    if k == 0 then COO_REG else if k == 1 then COO_ALL else if k == 2 then UNPIN else if k == 3 then FHSM
    else if k == 5 then ICEX_SEC else if k == 6 then ICEX_SYS else if k == 7 then ICEX_TR
    else if k == 8 then ICEX_USR else if k == 9 then ICEX_OTH
    else if k == 10 then WH else if k == 11 then MOO else NLWH
  }

  function BitCost(b: Bit): nat {
    match b
    case RW => 0 case RO => 0 case RR => 0
    case COO_REG => 8 case COO_ALL => 8 case UNPIN => 6 case FHSM => 5
    case ICEX_SEC => 8 case ICEX_SYS => 8 case ICEX_TR => 7 case ICEX_USR => 8 case ICEX_OTH => 8
    case WH => 3 case MOO => 4 case NLWH => 6
  }

  lemma OnePlainCost(b: Bit, val: Perm)
    requires b in val
    ensures PlainCost(val) == (if b in ICEX then 0 else BitCost(b)) + PlainCost(val - {b})
  {
    match b
    case RW => case RO => case RR =>
    case COO_REG => case COO_ALL => case UNPIN => case FHSM =>
    case ICEX_SEC => case ICEX_SYS => case ICEX_TR => case ICEX_USR => case ICEX_OTH =>
    case WH => case MOO => case NLWH =>
  }

  lemma OneIcexCost(b: Bit, val: Perm)
    requires b in val && (b in ICEX ==> !(ICEX <= val))
    ensures IcexCost(val) == (if b in ICEX then BitCost(b) else 0) + IcexCost(val - {b})
  {
    IcexAll(val);
    IcexAll(val - {b});
    match b
    case RW => case RO => case RR =>
    case COO_REG => case COO_ALL => case UNPIN => case FHSM =>
    case ICEX_SEC => case ICEX_SYS => case ICEX_TR => case ICEX_USR => case ICEX_OTH =>
    case WH => case MOO => case NLWH =>
  }

  lemma OneBitCost(b: Bit, val: Perm)
    requires b in val && (b in ICEX ==> !(ICEX <= val))
    ensures Cost(val) == BitCost(b) + Cost(val - {b})
  {
    OnePlainCost(b, val);
    OneIcexCost(b, val);
    hide PlainCost, IcexCost;
  }

  lemma RowCost(val: Perm)
    requires val !! BASE && FirstRow(BRATTR, 0, val).Some?
    ensures var k := FirstRow(BRATTR, 0, val).value;
            Cost(val) == |BRATTR[k].pattern| + 1 + Cost(val - BRATTR[k].token)
  {
    var k := FirstRow(BRATTR, 0, val).value;
    assert BRATTR[4] == Row(ICEX, "icex");
    if k == 4 {
      IcexAll(val);
      IcexAll(val - ICEX);
    } else {
      var b := BitOf(k);
      assert k >= 5 ==> !(BRATTR[4].token <= val);
      hide FirstRow, Cost;
      OneBitCost(b, val);
    }
  }

  lemma {:induction false} JoinLength(val: Perm)
    requires val !! BASE
    ensures Rows(val) != [] ==> |Join(Rows(val))| + 1 == Cost(val)
    ensures Rows(val) == [] ==> Cost(val) == 0
    decreases |val|
  {
    var r := FirstRow(BRATTR, 0, val);
    if r.Some? {
      RowCost(val);
      RowsSmaller(r.value, val);
      JoinLength(val - BRATTR[r.value].token);
      assert Rows(val)[1..] == Rows(val - BRATTR[r.value].token);
    } else if val != {} {
      SomeRow(val);
    } else {
      IcexAll(val);
    }
  }

  /** The text of a legal permission fits au_br_perm_str_t with its NUL, and nothing smaller would do. */
  lemma PrintFits(val: Perm)
    requires Legal(val)
    ensures FirstRow(BRPERM, 0, val).Some? && |Print(val)| < PERM_STR_SZ
    ensures val == {RW, COO_REG, UNPIN, FHSM, ICEX_SEC, ICEX_SYS, ICEX_USR, ICEX_OTH, NLWH} ==>
              |Print(val)| == PERM_STR_SZ - 1
  {
    BaseRow(val);
    var attrs := val - val * BASE;
    JoinLength(attrs);
    IcexAll(attrs);
    assert Cost(attrs) <= 57;
  }

  // ----- the code

  const NUL: char := 0 as char

  ghost predicate Terminated(s: seq<char>, i: nat) {
    i <= |s| && NUL in s[i..]
  }

  /** The text that begins at `i`. */
  ghost function Text(s: seq<char>, i: nat): (t: string)
    requires Terminated(s, i)
    ensures i + |t| < |s| && s[i + |t|] == NUL && t == s[i..i + |t|] && NUL !in t
    decreases |s| - i
  {
    if s[i] == NUL then "" else
      assert s[i..] == [s[i]] + s[i + 1..];
      [s[i]] + Text(s, i + 1)
  }

  /** Text depends only on itself and its terminator. */
  lemma {:induction false} TextIs(s: seq<char>, i: nat, t: string)
    requires i + |t| < |s| && s[i + |t|] == NUL && t == s[i..i + |t|] && NUL !in t
    ensures Terminated(s, i) && Text(s, i) == t
    decreases |t|
  {
    assert s[i..][|t|] == NUL;
    if t == "" {
    } else {
      assert s[i] == t[0];
      assert t[1..] == s[i + 1..i + 1 + |t[1..]|];
      TextIs(s, i + 1, t[1..]);
    }
  }

  lemma TextChars(s: seq<char>, i: nat)
    requires Terminated(s, i)
    ensures var t := Text(s, i); forall k :: 0 <= k < |t| ==> s[i + k] == t[k] && t[k] != NUL
    ensures var t := Text(s, i); forall k :: i <= k < i + |t| ==> s[k] == t[k - i] && s[k] != NUL
  {
    var t := Text(s, i);
    forall k | 0 <= k < |t| ensures s[i + k] == t[k] && t[k] != NUL {
      assert t[k] in t;
    }
  }

  /** strchr(a + i, '+') */
  method Strchr(a: array<char>, i: nat) returns (p: int)
    requires Terminated(a[..], i)
    ensures var t := Text(a[..], i); p == if Plus(t) < |t| then i + Plus(t) else -1
  {
    hide Plus, Text, Terminated;
    ghost var t := Text(a[..], i);
    TextChars(a[..], i);
    var k := i;
    PlusBound(t, 0);
    while a[k] != NUL
      invariant i <= k <= i + |t| && k - i <= Plus(t)
      decreases i + |t| - k
    {
      assert a[k] == t[k - i];
      if a[k] == '+' {
        return k;
      }
      PlusBound(t, k - i);
      k := k + 1;
    }
    return -1;
  }

  lemma PlusBound(t: string, k: nat)
    requires k <= |t|
    ensures k < |t| && k <= Plus(t) && t[k] != '+' ==> k + 1 <= Plus(t)
    ensures k < |t| && k <= Plus(t) && t[k] == '+' ==> k == Plus(t)
  {
    assert k < Plus(t) ==> t[k] in t[..Plus(t)];
  }

  /** strcmp(a + i, pat) == 0 */
  method StrEq(a: array<char>, i: nat, pat: string) returns (eq: bool)
    requires Terminated(a[..], i) && NUL !in pat
    ensures eq <==> Text(a[..], i) == pat
  {
    ghost var t := Text(a[..], i);
    TextChars(a[..], i);
    assert forall j :: 0 <= j < |pat| ==> pat[j] != NUL by {
      assert forall j :: 0 <= j < |pat| ==> pat[j] in pat;
    }
    var k := 0;
    while k < |pat| && a[i + k] == pat[k]
      invariant 0 <= k <= |pat| && k <= |t| && t[..k] == pat[..k]
    {
      k := k + 1;
    }
    eq := k == |pat| && a[i + k] == NUL;
  }

  /** match_token; the empty permission is the zero that stands for no match. */
  method MatchToken(a: array<char>, i: nat, t: seq<Row>) returns (v: Option<Perm>)
    requires Terminated(a[..], i) && forall j :: 0 <= j < |t| ==> NUL !in t[j].pattern
    ensures v == Match(t, 0, Text(a[..], i))
  {
    for p := 0 to |t|
      invariant Match(t, 0, Text(a[..], i)) == Match(t, p, Text(a[..], i))
    {
      var eq := StrEq(a, i, t[p].pattern);
      if eq {
        return Some(t[p].token);
      }
    }
    return None;
  }

  lemma CutBefore(s: seq<char>, u: seq<char>, i: nat, t: string, n: nat)
    requires i + |t| < |s| && s[i..i + |t|] == t && NUL !in t && n < |t| && u == s[i + n := NUL]
    ensures Terminated(u, i) && Text(u, i) == t[..n]
  {
    hide Text, Terminated;
    var head := t[..n];
    assert u[i..i + n] == s[i..i + |t|][..n] == head;
    TextIs(u, i, head);
  }

  lemma CutBehind(s: seq<char>, u: seq<char>, i: nat, t: string, n: nat)
    requires i + |t| < |s| && s[i..i + |t|] == t && s[i + |t|] == NUL && NUL !in t && n < |t| && u == s[i + n := NUL]
    ensures Terminated(u, i + n + 1) && Text(u, i + n + 1) == t[n + 1..]
  {
    hide Text, Terminated;
    var rest := t[n + 1..];
    assert u[i + n + 1..i + n + 1 + |rest|] == s[i..i + |t|][n + 1..] == rest;
    TextIs(u, i + n + 1, rest);
  }

  /** `u` is `s` with its text cut at the first '+', `p`. */
  ghost predicate Cut(s: seq<char>, u: seq<char>, i: nat, p: int) {
    && Terminated(s, i) && Terminated(u, i)
    && var t := Text(s, i);
    && Text(u, i) == t[..Plus(t)]
    && (if Plus(t) == |t| then p == -1
        else i <= p < |u| && Terminated(u, p + 1) && Text(u, p + 1) == t[Plus(t) + 1..])
  }

  lemma CutThere(s: seq<char>, u: seq<char>, i: nat, p: nat)
    requires Terminated(s, i) && p == i + Plus(Text(s, i)) && Plus(Text(s, i)) < |Text(s, i)| && u == s[p := NUL]
    ensures Cut(s, u, i, p)
  {
    hide Text, Plus, Terminated;
    var t := Text(s, i);
    var n := Plus(t);
    assert p == i + n;
    CutBefore(s, u, i, t, n);
    CutBehind(s, u, i, t, n);
    assert Text(u, p + 1) == t[n + 1..];
  }

  lemma CutNowhere(s: seq<char>, i: nat)
    requires Terminated(s, i) && Plus(Text(s, i)) == |Text(s, i)|
    ensures Cut(s, s, i, -1)
  {
    var t := Text(s, i);
    assert t[..|t|] == t;
  }

  /** Cut the text at its first '+', if any. */
  method CutAtPlus(a: array<char>, i: nat) returns (p: int)
    requires Terminated(a[..], i)
    modifies a
    ensures p < a.Length && Cut(old(a[..]), a[..], i, p)
  {
    hide Cut, Text, Plus, Terminated;
    ghost var s := a[..];
    p := Strchr(a, i);
    if p < 0 {
      CutNowhere(s, i);
    } else {
      CutThere(s, s[p := NUL], i, p);
      Store(a, p, NUL);
    }
  }

  method Store(a: array<char>, p: nat, c: char)
    requires p < a.Length
    modifies a
    ensures a[..] == old(a[..])[p := c]
  {
    a[p] := c;
  }

  lemma ParseStep(t: string, attr: Perm)
    ensures var v := Match(BRATTR, 0, t[..Plus(t)]);
            ParseAttrs(t, attr) ==
              if v.None? then attr
              else if Plus(t) == |t| then Add(attr, v.value)
              else ParseAttrs(t[Plus(t) + 1..], Add(attr, v.value))
    ensures t[..|t|] == t
  {}

  /** br_attr_val: the text is cut up at the '+' signs; where an unknown attribute is met, the '+' behind
      it is put back. */
  method BrAttrVal(a: array<char>, start: nat) returns (attr: Perm)
    requires Terminated(a[..], start)
    modifies a
    ensures attr == ParseAttrs(Text(old(a[..]), start), {})
  {
    PatternsPlain();
    hide Text, ParseAttrs, Match, Plus, Terminated, Add;
    attr := {};
    var str: nat := start;
    ghost var t := Text(a[..], start);
    ghost var want := ParseAttrs(t, {});
    while true
      invariant Terminated(a[..], str) && t == Text(a[..], str) && ParseAttrs(t, attr) == want
      decreases |t|
    {
      ParseStep(t, attr);
      var p := CutAtPlus(a, str);
      var v := MatchToken(a, str, BRATTR);
      if v.None? {
        if p >= 0 {
          a[p] := '+';
        }
        return;
      }
      attr := Add(attr, v.value);
      if p < 0 {
        return;
      }
      str := p + 1;
      t := t[Plus(t) + 1..];
    }
  }

  lemma PatternsPlain()
    ensures forall j :: 0 <= j < |BRATTR| ==> NUL !in BRATTR[j].pattern
    ensures forall j :: 0 <= j < |BRPERM| ==> NUL !in BRPERM[j].pattern
  {}

  lemma ParseParts(t: string)
    ensures var v := Match(BRPERM, 0, t[..Plus(t)]);
            Parse(t) ==
              if v.None? then {RO}
              else if Plus(t) == |t| then v.value
              else Legalise(v.value + ParseAttrs(t[Plus(t) + 1..], {}))
  {
    hide Plus, Match, Legalise, ParseAttrs;
  }

  lemma TextMeans(t: string)
    ensures forall mode, words, k: nat, b ::
              '+' !in mode && Single(words) && Known(words, k) && t == TextOf(mode, words) ==>
                (b in Parse(t) <==> Means(mode, words, k, b))
  {
    forall mode, words, k: nat, b | '+' !in mode && Single(words) && Known(words, k) && t == TextOf(mode, words)
      ensures b in Parse(t) <==> Means(mode, words, k, b)
    {
      ParseMeaning(mode, words, k, b);
    }
  }

  /** br_perm_val */
  method BrPermVal(a: array<char>) returns (val: Perm)
    requires Terminated(a[..], 0)
    modifies a
    ensures val == Parse(Text(old(a[..]), 0)) && Legal(val)
    ensures forall mode, words, k: nat, b ::
              '+' !in mode && Single(words) && Known(words, k) && Text(old(a[..]), 0) == TextOf(mode, words) ==>
                (b in val <==> Means(mode, words, k, b))
  {
    PatternsPlain();
    ghost var t := Text(a[..], 0);
    TextMeans(t);
    ParseLegal(t);
    ParseParts(t);
    hide Text, Match, Plus, Legal, Terminated, ParseAttrs, Parse, Single, Known, Means, TextOf;
    var p := CutAtPlus(a, 0);
    var v := MatchToken(a, 0, BRPERM);
    if v.None? {
      if p >= 0 {
        a[p] := '+';
      }
      return {RO};
    }
    val := v.value;
    if p < 0 {
      return;
    }
    var attr := BrAttrVal(a, p + 1);
    val := val + attr;
    if RW in val {
      val := val - RATTR;
    } else {
      val := val - WATTR;
    }
  }

  /** au_optstr: the pattern of the first row whose bits are all set, and the word without them. */
  method AuOptstr(val: Perm, t: seq<Row>) returns (r: Option<string>, rest: Perm)
    ensures var k := FirstRow(t, 0, val);
            if k.None? then r == None && rest == val
            else r == Some(t[k.value].pattern) && rest == val - t[k.value].token
  {
    for p := 0 to |t|
      invariant FirstRow(t, 0, val) == FirstRow(t, p, val)
    {
      if t[p].token <= val {
        return Some(t[p].pattern), val - t[p].token;
      }
    }
    return None, val;
  }

  /** memcpy of a pattern with its NUL. */
  method PutStr(a: array<char>, q: nat, s: string)
    requires q + |s| < a.Length
    modifies a
    ensures a[..q] == old(a[..q]) && a[q..q + |s|] == s && a[q + |s|] == NUL
  {
    forall i | q <= i < q + |s| {
      a[i] := s[i - q];
    }
    a[q + |s|] := NUL;
  }

  function Sep(ks: seq<nat>): string
    requires forall i :: 0 <= i < |ks| ==> ks[i] < |BRATTR|
  {
    if ks == [] then "" else "+" + Join(ks)
  }

  lemma RowsStep(val: Perm)
    ensures var k := FirstRow(BRATTR, 0, val);
            if k.None? then Rows(val) == []
            else Rows(val) != [] && Join(Rows(val)) == BRATTR[k.value].pattern + Sep(Rows(val - BRATTR[k.value].token))
                 && BRATTR[k.value].token <= val && |val - BRATTR[k.value].token| < |val|
  {
    var k := FirstRow(BRATTR, 0, val);
    if k.Some? {
      RowsSmaller(k.value, val);
      var rest := Rows(val - BRATTR[k.value].token);
      assert Rows(val) == [k.value] + rest;
      if rest == [] {
        assert BRATTR[k.value].pattern + "" == BRATTR[k.value].pattern;
      } else {
        Around(BRATTR[k.value].pattern, Join(rest));
      }
    }
  }

  lemma JoinNone()
    ensures Join([]) == "" && Sep([]) == ""
  {}

  lemma PatternsLong()
    ensures forall j :: 0 <= j < |BRATTR| ==> |BRATTR[j].pattern| > 0
  {}

  /** The next row behind what is already written. */
  lemma SepStep(out: string, val: Perm)
    requires FirstRow(BRATTR, 0, val).Some?
    ensures var k := FirstRow(BRATTR, 0, val).value;
            var more := out + ("+" + BRATTR[k].pattern);
            more + Sep(Rows(val - BRATTR[k].token)) == out + Sep(Rows(val)) && |more| == |out| + 1 + |BRATTR[k].pattern|
  {
    RowsStep(val);
    hide Rows, Join, FirstRow;
    var k := FirstRow(BRATTR, 0, val).value;
    CatPlus(out, BRATTR[k].pattern, Sep(Rows(val - BRATTR[k].token)));
  }

  lemma CatPlus(a: string, b: string, c: string)
    ensures a + ("+" + (b + c)) == (a + ("+" + b)) + c && |a + ("+" + b)| == |a| + 1 + |b|
  {}

  /** au_do_optstr_br_attr; the buffer never overflows when the text and its NUL fit. */
  method AuDoOptstrBrAttr(a: array<char>, perm: Perm) returns (sz: nat)
    requires |Join(Rows(perm))| < a.Length
    modifies a
    ensures sz == |Join(Rows(perm))| && a[..sz] == Join(Rows(perm)) && a[sz] == NUL
    ensures sz > 0 || Rows(perm) == []
  {
    a[0] := NUL;
    RowsStep(perm);
    JoinNone();
    hide Rows, Join, FirstRow, Sep;
    ghost var text := Join(Rows(perm));
    var p, rest := AuOptstr(perm, BRATTR);
    if p.None? {
      return 0;
    }
    PatternsLong();
    PutStr(a, 0, p.value);
    var q := |p.value|;
    ghost var out := p.value;
    while p.Some?
      invariant 0 < q == |out| < a.Length && a[..q] == out && a[q] == NUL
      invariant out + Sep(Rows(rest)) == text
      invariant p.None? ==> Rows(rest) == []
      decreases p.Some?, |rest|
    {
      p, q, rest, out := AppendAttr(a, q, rest, out);
    }
    assert out + "" == out;
    return q;
  }

  /** The body of the loop of au_do_optstr_br_attr; `out` is the text so far. */
  method AppendAttr(a: array<char>, q: nat, val: Perm, ghost out: string)
      returns (p: Option<string>, q': nat, rest: Perm, ghost out': string)
    requires 0 < q == |out| && q + |Sep(Rows(val))| < a.Length && a[..q] == out && a[q] == NUL
    modifies a
    ensures 0 < q' == |out'| < a.Length && a[..q'] == out' && a[q'] == NUL
    ensures out' + Sep(Rows(rest)) == out + Sep(Rows(val))
    ensures if p.None? then Rows(rest) == [] else |rest| < |val|
  {
    RowsStep(val);
    hide Rows, Join, FirstRow, Sep;
    q', out' := q, out;
    p, rest := AuOptstr(val, BRATTR);
    if p.Some? {
      SepStep(out, val);
      out' := out + ("+" + p.value);
      PutPlus(a, q, p.value);
      q' := q + 1 + |p.value|;
    }
  }

  method PutPlus(a: array<char>, q: nat, s: string)
    requires q + 1 + |s| < a.Length
    modifies a
    ensures a[..q + 1 + |s|] == old(a[..q]) + ("+" + s) && a[q + 1 + |s|] == NUL
  {
    a[q] := '+';
    PutStr(a, q + 1, s);
    assert a[..q + 1] == old(a[..q]) + "+";
    assert a[..q + 1 + |s|] == a[..q + 1] + s;
  }

  /** au_optstr_br_perm into an au_br_perm_str_t: for a legal permission the text fits, and is the one that
      parses to the permission again. */
  method AuOptstrBrPerm(a: array<char>, perm: Perm) returns (ghost text: string)
    requires a.Length == PERM_STR_SZ && Legal(perm)
    modifies a
    ensures |text| < a.Length && a[..|text|] == text && a[|text|] == NUL
    ensures FirstRow(BRPERM, 0, perm).Some? && text == Print(perm) && Parse(text) == perm
  {
    hide Rows, Join, FirstRow, Parse, Match, Plus, ParseAttrs, Print;
    RoundTrip(perm);
    PrintFits(perm);
    ghost var k := FirstRow(BRPERM, 0, perm).value;
    BaseRow(perm);
    hide Legal;
    var attr := new char[PERM_STR_SZ];
    var p, rest := AuOptstr(perm, BRPERM);
    text := Print(perm);
    PrintParts(perm);
    PutStr(a, 0, p.value);
    var q := |p.value|;
    assert a[..q] == p.value;
    var sz := AuDoOptstrBrAttr(attr, rest);
    if sz > 0 {
      PutPlus(a, q, attr[..sz]);
    } else {
      assert p.value + "" == p.value;
    }
  }

  lemma PrintParts(perm: Perm)
    requires FirstRow(BRPERM, 0, perm).Some?
    ensures var k := FirstRow(BRPERM, 0, perm).value;
            var ks := Rows(perm - BRPERM[k].token);
            && Print(perm) == BRPERM[k].pattern + (if ks == [] then "" else "+" + Join(ks))
            && (ks == [] ==> Join(ks) == "")
            && |Join(ks)| <= |Print(perm)|
  {}
}
