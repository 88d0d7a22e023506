/** Giving aufs inode numbers to lower inodes (au_ino, inode.c) by any number of threads at once. A
    branch's mutex makes the look-up, the allocation and the write of one call a unit; the table belongs
    to the file system the branch is on. */
module InodeNumbers {
  import Xib

  /** A lower inode: the table (one for each lower file system) and the lower inode number. */
  type Key = (nat, nat)

  type Thread = nat

  /** Where a call of au_ino is. `b` is the branch, `h` the lower inode number. */
  datatype Call =
    | Locked(b: nat, h: nat)                 // about to read the table
    | Missing(b: nat, h: nat)                // read no number
    | Fresh(b: nat, h: nat, ino: nat)        // has a new number, about to write it

  /** `tab[b]` is the table of branch `b`. */
  datatype Config = Config(tab: seq<nat>)

  datatype State = State(
    table: map<Key, nat>,
    used: set<nat>,
    calls: map<Thread, Call>,
    mutex: map<nat, Thread>,
    /** What successful calls have answered. */
    answers: set<(Key, nat)>)

  datatype Step =
    | Enter(t: Thread, b: nat, h: nat)
    | Read(t: Thread)
    | New(t: Thread, ino: nat)
    | Write(t: Thread, ok: bool)

  function KeyOf(c: Config, b: nat, h: nat): Key
    requires b < |c.tab|
  {
    (c.tab[b], h)
  }

  /** The step can be taken: a thread is in one call at a time, the branch's mutex is free, and
      au_xino_new_ino answers a number that was free. */
  ghost predicate Enabled(c: Config, s: State, step: Step) {
    match step
    case Enter(t, b, h) => t !in s.calls && b < |c.tab| && b !in s.mutex
    case Read(t) => t in s.calls && s.calls[t].Locked? && s.calls[t].b < |c.tab|
    case New(t, ino) => t in s.calls && s.calls[t].Missing? && ino >= Xib.AUFS_FIRST_INO && ino !in s.used
    case Write(t, ok) => t in s.calls && s.calls[t].Fresh? && s.calls[t].b < |c.tab|
  }

  function Leave(s: State, t: Thread): State
    requires t in s.calls
  {
    s.(calls := s.calls - {t}, mutex := s.mutex - {s.calls[t].b})
  }

  function Apply(c: Config, s: State, step: Step): State
    requires Enabled(c, s, step)
  {
    match step
    case Enter(t, b, h) => s.(calls := s.calls[t := Locked(b, h)], mutex := s.mutex[b := t])
    case Read(t) =>
      var call := s.calls[t];
      var k := KeyOf(c, call.b, call.h);
      if k in s.table then Leave(s, t).(answers := s.answers + {(k, s.table[k])})
      else s.(calls := s.calls[t := Missing(call.b, call.h)])
    case New(t, ino) =>
      var call := s.calls[t];
      s.(calls := s.calls[t := Fresh(call.b, call.h, ino)], used := s.used + {ino})
    case Write(t, ok) =>
      var call := s.calls[t];
      var k := KeyOf(c, call.b, call.h);
      if ok then Leave(s, t).(table := s.table[k := call.ino], answers := s.answers + {(k, call.ino)})
      else Leave(s, t)
  }

  ghost predicate IsRun(c: Config, s: State, steps: seq<Step>)
    decreases |steps|
  {
    steps == [] || (Enabled(c, s, steps[0]) && IsRun(c, Apply(c, s, steps[0]), steps[1..]))
  }

  ghost function After(c: Config, s: State, steps: seq<Step>): State
    requires IsRun(c, s, steps)
    decreases |steps|
  {
    if steps == [] then s else After(c, Apply(c, s, steps[0]), steps[1..])
  }

  /** No call is under way; the tables hold different, used numbers. */
  ghost predicate Quiet(s: State) {
    && s.calls == map[] && s.mutex == map[] && s.answers == {}
    && (forall k :: k in s.table ==> s.table[k] in s.used)
    && forall k, l :: k in s.table && l in s.table && s.table[k] == s.table[l] ==> k == l
  }

  /** The branches are on different file systems. */
  ghost predicate Apart(c: Config) {
    forall i, j :: 0 <= i < j < |c.tab| ==> c.tab[i] != c.tab[j]
  }

  /** What is wanted of a state: one lower inode got one number, different ones different numbers, and
      every stored number is used. */
  ghost predicate Good(s: State) {
    && (forall a, b :: a in s.answers && b in s.answers ==> (a.0 == b.0 <==> a.1 == b.1))
    && forall k :: k in s.table ==> s.table[k] in s.used
  }

  /** Every call holds its branch's mutex, and nobody else holds one. */
  ghost predicate Held(c: Config, s: State) {
    && (forall t :: t in s.calls ==> s.calls[t].b < |c.tab| && s.calls[t].b in s.mutex && s.mutex[s.calls[t].b] == t)
    && forall b :: b in s.mutex ==> s.mutex[b] in s.calls && s.calls[s.mutex[b]].b == b
  }

  /** Stored numbers are used and different, and they are what was answered. */
  ghost predicate Stored(s: State) {
    && (forall k :: k in s.table ==> s.table[k] in s.used)
    && (forall k, l :: k in s.table && l in s.table && s.table[k] == s.table[l] ==> k == l)
    && (forall a :: a in s.answers ==> a.0 in s.table && s.table[a.0] == a.1)
  }

  /** What a call has read still holds. */
  ghost predicate Missed(c: Config, s: State)
    requires Held(c, s)
  {
    forall t :: t in s.calls && !s.calls[t].Locked? ==> KeyOf(c, s.calls[t].b, s.calls[t].h) !in s.table
  }

  /** The number a call is about to write is nobody else's. */
  ghost predicate Pending(s: State) {
    && (forall t :: t in s.calls && s.calls[t].Fresh? ==>
          s.calls[t].ino in s.used && forall k :: k in s.table ==> s.table[k] != s.calls[t].ino)
    && (forall t, u :: t in s.calls && u in s.calls && s.calls[t].Fresh? && s.calls[u].Fresh? && t != u ==>
          s.calls[t].ino != s.calls[u].ino)
  }

  ghost predicate Inv(c: Config, s: State) {
    Held(c, s) && Stored(s) && Missed(c, s) && Pending(s)
  }

  lemma HeldKept(c: Config, s: State, step: Step)
    requires Held(c, s) && Enabled(c, s, step)
    ensures Held(c, Apply(c, s, step))
  {}

  /** In every run, on whatever file systems, a branch is locked exactly while a call is under way on it: in
      the end every mutex is free again. */
  lemma {:induction false} LocksReleased(c: Config, s: State, steps: seq<Step>, b: nat)
    requires Held(c, s) && IsRun(c, s, steps)
    ensures Held(c, After(c, s, steps))
    ensures var r := After(c, s, steps); b in r.mutex <==> exists t :: t in r.calls && r.calls[t].b == b
    decreases |steps|
  {
    if steps == [] {
    } else {
      HeldKept(c, s, steps[0]);
      LocksReleased(c, Apply(c, s, steps[0]), steps[1..], b);
    }
  }

  lemma StoredKept(c: Config, s: State, step: Step)
    requires Inv(c, s) && Enabled(c, s, step)
    ensures Stored(Apply(c, s, step))
  {
    hide KeyOf;
  }

  /** Calls on branches of different file systems are for different lower inodes. */
  lemma KeysApart(c: Config, s: State, t: Thread, u: Thread)
    requires Apart(c) && Held(c, s) && t in s.calls && u in s.calls && t != u
    ensures KeyOf(c, s.calls[t].b, s.calls[t].h) != KeyOf(c, s.calls[u].b, s.calls[u].h)
  {
    assert s.calls[t].b != s.calls[u].b;
  }

  lemma MissedKept(c: Config, s: State, step: Step)
    requires Apart(c) && Held(c, s) && Missed(c, s) && Enabled(c, s, step)
    ensures Held(c, Apply(c, s, step)) && Missed(c, Apply(c, s, step))
  {
    HeldKept(c, s, step);
    if step.Write? {
      forall t | t in s.calls && t != step.t
        ensures KeyOf(c, s.calls[t].b, s.calls[t].h) != KeyOf(c, s.calls[step.t].b, s.calls[step.t].h)
      {
        KeysApart(c, s, t, step.t);
      }
    }
    hide Apart;
  }

  lemma PendingKept(c: Config, s: State, step: Step)
    requires Stored(s) && Pending(s) && Enabled(c, s, step)
    ensures Pending(Apply(c, s, step))
  {
    hide KeyOf;
  }

  lemma InvKept(c: Config, s: State, step: Step)
    requires Apart(c) && Inv(c, s) && Enabled(c, s, step)
    ensures Inv(c, Apply(c, s, step))
  {
    StoredKept(c, s, step);
    MissedKept(c, s, step);
    PendingKept(c, s, step);
    hide *;
  }

  /** In every interleaving, as long as the branches are on different file systems. */
  lemma {:induction false} Safe(c: Config, s: State, steps: seq<Step>)
    requires Apart(c) && Inv(c, s) && IsRun(c, s, steps)
    ensures Inv(c, After(c, s, steps)) && Good(After(c, s, steps))
    decreases |steps|
  {
    if steps == [] {
    } else {
      InvKept(c, s, steps[0]);
      Safe(c, Apply(c, s, steps[0]), steps[1..]);
    }
  }

  /** Every finite set of numbers leaves one out above any bound. */
  lemma {:induction false} NotIn(xs: set<nat>, lo: nat) returns (n: nat)
    ensures n >= lo && n !in xs && forall x :: x in xs ==> x < n
    decreases |xs|
  {
    if xs == {} {
      n := lo;
    } else {
      var x :| x in xs;
      var m := NotIn(xs - {x}, lo);
      n := if m <= x then x + 1 else m;
      forall z | z in xs ensures z < n {
        assert z == x || z in xs - {x};
      }
    }
  }

  lemma RunStep(c: Config, s: State, step: Step, rest: seq<Step>)
    requires Enabled(c, s, step) && IsRun(c, Apply(c, s, step), rest)
    ensures IsRun(c, s, [step] + rest)
    ensures After(c, s, [step] + rest) == After(c, Apply(c, s, step), rest)
  {
    assert ([step] + rest)[1..] == rest;
  }

  /** Two calls for one lower inode that both found no number give it two. */
  lemma BothWrite(c: Config, s: State, i: nat, j: nat, h: nat, x: nat, y: nat) returns (steps: seq<Step>)
    requires i < j < |c.tab| && c.tab[i] == c.tab[j] && s.calls == map[0 := Missing(i, h), 1 := Missing(j, h)]
    requires x != y && x >= Xib.AUFS_FIRST_INO && y >= Xib.AUFS_FIRST_INO && x !in s.used && y !in s.used
    ensures IsRun(c, s, steps) && !Good(After(c, s, steps))
  {
    var s1 := Apply(c, s, New(0, x));
    var s2 := Apply(c, s1, New(1, y));
    var s3 := Apply(c, s2, Write(0, true));
    var s4 := Apply(c, s3, Write(1, true));
    assert ((c.tab[i], h), x) in s4.answers && ((c.tab[i], h), y) in s4.answers;
    assert !Good(s4);
    hide Apply, Good, Enabled;
    assert IsRun(c, s4, []) && After(c, s4, []) == s4;
    RunStep(c, s3, Write(1, true), []);
    steps := [Write(1, true)] + [];
    RunStep(c, s2, Write(0, true), steps);
    steps := [Write(0, true)] + steps;
    RunStep(c, s1, New(1, y), steps);
    steps := [New(1, y)] + steps;
    RunStep(c, s, New(0, x), steps);
    steps := [New(0, x)] + steps;
  }

  /** Two branches `i` and `j` on one file system: each call reads before the other writes. */
  lemma Race(c: Config, s: State, i: nat, j: nat) returns (steps: seq<Step>)
    requires Quiet(s) && i < j < |c.tab| && c.tab[i] == c.tab[j]
    ensures IsRun(c, s, steps) && !Good(After(c, s, steps))
  {
    var h := NotIn(set k | k in s.table :: k.1, 0);
    assert (c.tab[i], h) !in s.table;
    var x := NotIn(s.used, Xib.AUFS_FIRST_INO);
    var y := NotIn(s.used + {x}, Xib.AUFS_FIRST_INO);
    var s1 := Apply(c, s, Enter(0, i, h));
    var s2 := Apply(c, s1, Enter(1, j, h));
    var s3 := Apply(c, s2, Read(0));
    var s4 := Apply(c, s3, Read(1));
    assert s4.calls == map[0 := Missing(i, h), 1 := Missing(j, h)] && s4.used == s.used;
    hide Apply, Good, Enabled;
    steps := BothWrite(c, s4, i, j, h, x, y);
    RunStep(c, s3, Read(1), steps);
    steps := [Read(1)] + steps;
    RunStep(c, s2, Read(0), steps);
    steps := [Read(0)] + steps;
    RunStep(c, s1, Enter(1, j, h), steps);
    steps := [Enter(1, j, h)] + steps;
    RunStep(c, s, Enter(0, i, h), steps);
    steps := [Enter(0, i, h)] + steps;
  }

  /** Exactly then: two branches on one file system have two mutexes for one table. */
  lemma SafeIffApart(c: Config, s: State)
    requires Quiet(s)
    ensures Apart(c) <==> forall steps :: IsRun(c, s, steps) ==> Good(After(c, s, steps))
  {
    if Apart(c) {
      forall steps | IsRun(c, s, steps) ensures Good(After(c, s, steps)) {
        Safe(c, s, steps);
      }
    } else {
      var i, j :| 0 <= i < j < |c.tab| && c.tab[i] == c.tab[j];
      var steps := Race(c, s, i, j);
    }
  }

  // ----- one call by itself

  class Numbers {
    const xib: Xib.Bitmap
    /** The numbers stored in the tables; a zero in a table counts as absent. */
    var table: map<Key, nat>

    constructor (xib: Xib.Bitmap)
      ensures this.xib == xib && table == map[]
    {
      this.xib := xib;
      table := map[];
    }

    /** Stored numbers are marked in the bitmap, and no two lower inodes share one. */
    ghost predicate Valid()
      reads this, xib, xib.buf
    {
      && xib.Valid()
      && (forall k :: k in table ==> xib.IsUsed(table[k]))
      && forall k, l :: k in table && l in table && table[k] == table[l] ==> k == l
    }

    /** au_ino; `writeOk` tells whether the write to the table succeeds. A lower inode that has a number
        keeps it; one that has none gets a number nobody had. */
    method AuIno(k: Key, writeOk: bool) returns (ok: bool, ino: nat)
      requires Valid() && xib.lastPindex < Xib.ULONG_MAX
      modifies this, xib, xib.buf
      ensures Valid()
      ensures k in old(table) ==> ok && ino == old(table[k]) && table == old(table)
      ensures k !in old(table) ==> !old(xib.IsUsed(ino)) && xib.IsUsed(ino) && ok == writeOk
      ensures k !in old(table) ==> table == if writeOk then old(table)[k := ino] else old(table)
    {
      if k in table {
        return true, table[k];
      }
      ino := xib.NewIno();
      if writeOk {
        table := table[k := ino];
      }
      ok := writeOk;
    }
  }
}
