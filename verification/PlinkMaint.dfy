/** The pseudo-link maintenance mode (plink.c, sbinfo.c) as interleaved steps of any number of tasks
    over the super block's read-write lock and the owner's pid. */
module PlinkMaint {

  type Pid = nat

  /** A pid of zero means that nobody owns the maintenance. */
  const NOBODY: Pid := 0

  datatype Flags = NoPlm | NoPlmW | Neither

  /** Where a task is. Checking, Rechecking and Inside hold the read lock, Writing the write lock. A task that
      is Woken has left wait_event and does not hold the lock again yet. */
  datatype Pc = Out | Checking(flags: Flags) | Waiting | Woken | Rechecking | Inside(flags: Flags) | Writing | Refused

  /** `parent` is the pid of each task's real parent; `plink` the mount option. */
  datatype Config = Config(plink: bool, parent: map<Pid, Pid>)

  datatype State = State(pc: map<Pid, Pc>, maintPid: Pid,
                         /** Who entered maintenance successfully and has not left. */
                         owners: set<Pid>)

  datatype Step =
    | ReadLock(t: Pid, flags: Flags)
    | Check(t: Pid)
    | WakeUp(t: Pid)
    | Relock(t: Pid)
    | Recheck(t: Pid)
    | ReadUnlock(t: Pid)
    | WriteLock(t: Pid)
    | MaintEnter(t: Pid)
    | WriteUnlock(t: Pid)
    | MaintLeave(t: Pid)

  predicate HoldsRead(p: Pc) {
    p.Checking? || p.Rechecking? || p.Inside?
  }

  ghost predicate NoWriter(s: State) {
    forall t :: t in s.pc ==> s.pc[t] != Writing
  }

  ghost predicate NoReader(s: State) {
    forall t :: t in s.pc ==> !HoldsRead(s.pc[t])
  }

  /** The owner and its children are let through. */
  predicate LetThrough(c: Config, maintPid: Pid, t: Pid)
    requires t in c.parent
  {
    !c.plink || maintPid == NOBODY || maintPid == t || maintPid == c.parent[t]
  }

  ghost predicate WellFormed(c: Config, s: State) {
    s.pc.Keys == c.parent.Keys && NOBODY !in c.parent
  }

  ghost predicate Enabled(c: Config, s: State, step: Step) {
    step.t in s.pc && step.t in c.parent &&
    var p := s.pc[step.t];
    match step
    case ReadLock(t, flags) => (p == Out || p == Refused) && NoWriter(s)
    case Check(t) => p.Checking?
    case WakeUp(t) => p == Waiting && s.maintPid == NOBODY
    case Relock(t) => p == Woken && NoWriter(s)
    case Recheck(t) => p == Rechecking
    case ReadUnlock(t) => p.Inside?
    case WriteLock(t) => (p == Out || p == Refused) && NoWriter(s) && NoReader(s)
    case MaintEnter(t) => p == Writing
    case WriteUnlock(t) => p == Writing
    case MaintLeave(t) => t in s.owners
  }

  function Goto(s: State, t: Pid, p: Pc): State {
    s.(pc := s.pc[t := p])
  }

  /** au_plink_maint is Check and the loop of WakeUp, Relock and Recheck, au_plink_maint_enter is MaintEnter
      between the write lock and its release, au_plink_maint_leave is MaintLeave: it comes when the file is
      released by which the owner entered, whatever the owner is doing. */
  function Apply(c: Config, s: State, step: Step): State
    requires Enabled(c, s, step)
  {
    match step
    case ReadLock(t, flags) => Goto(s, t, Checking(flags))
    case Check(t) =>
      var flags := s.pc[t].flags;
      if LetThrough(c, s.maintPid, t) || flags == Neither then Goto(s, t, Inside(flags))
      else if flags == NoPlmW then Goto(s, t, Waiting)
      else Goto(s, t, Refused)
    case WakeUp(t) => Goto(s, t, Woken)
    case Relock(t) => Goto(s, t, Rechecking)
    case Recheck(t) => Goto(s, t, if s.maintPid == NOBODY then Inside(NoPlmW) else Waiting)
    case ReadUnlock(t) => Goto(s, t, Out)
    case WriteLock(t) => Goto(s, t, Writing)
    case MaintEnter(t) =>
      if c.plink && s.maintPid == NOBODY then s.(maintPid := t, owners := s.owners + {t}) else s
    case WriteUnlock(t) => Goto(s, t, Out)
    case MaintLeave(t) => s.(maintPid := NOBODY, owners := s.owners - {t})
  }

  ghost predicate IsRun(c: Config, s: State, steps: seq<Step>)
    decreases |steps|
  {
    steps == [] || (Enabled(c, s, steps[0]) && IsRun(c, Apply(c, s, steps[0]), steps[1..]))
  }

  ghost function After(c: Config, s: State, steps: seq<Step>): State
    requires IsRun(c, s, steps)
    decreases |steps|
  {
    if steps == [] then s else After(c, Apply(c, s, steps[0]), steps[1..])
  }

  /** A mounted file system with nothing under way. */
  ghost predicate Quiet(c: Config, s: State) {
    && WellFormed(c, s) && s.maintPid == NOBODY && s.owners == {}
    && forall t :: t in s.pc ==> s.pc[t] == Out
  }

  /** At most one process owns the maintenance, and while it does, whoever is in a read section entered
      with NOPLM or NOPLMW is the owner or its child. */
  ghost predicate Safe(c: Config, s: State) {
    && (forall t, u :: t in s.owners && u in s.owners ==> t == u)
    && forall o, t :: o in s.owners && t in s.pc && s.pc[t].Inside? && s.pc[t].flags != Neither ==>
         t in c.parent && (t == o || c.parent[t] == o)
  }

  /** The read-write lock: a writer is alone. */
  ghost predicate Locked(s: State) {
    forall t :: t in s.pc && s.pc[t] == Writing ==>
      NoReader(s) && forall u :: u in s.pc && u != t ==> s.pc[u] != Writing
  }

  ghost predicate Inv(c: Config, s: State) {
    && WellFormed(c, s) && Locked(s)
    && s.owners == (if s.maintPid == NOBODY then {} else {s.maintPid})
    && (s.maintPid != NOBODY ==> c.plink)
    && (forall t :: t in s.pc && s.pc[t].Inside? && s.pc[t].flags != Neither ==> LetThrough(c, s.maintPid, t))
  }

  lemma LockKept(c: Config, s: State, step: Step)
    requires Locked(s) && Enabled(c, s, step)
    ensures Locked(Apply(c, s, step))
  {
    hide LetThrough;
  }

  lemma InvKept(c: Config, s: State, step: Step)
    requires Inv(c, s) && Enabled(c, s, step)
    ensures Inv(c, Apply(c, s, step))
  {
    LockKept(c, s, step);
    assert step.MaintEnter? ==> NoReader(s);
    hide Locked, NoReader, NoWriter;
  }

  /** In every run. */
  lemma {:induction false} AlwaysSafe(c: Config, s: State, steps: seq<Step>)
    requires Inv(c, s) && IsRun(c, s, steps)
    ensures Inv(c, After(c, s, steps)) && Safe(c, After(c, s, steps))
    decreases |steps|
  {
    if steps == [] {
    } else {
      InvKept(c, s, steps[0]);
      AlwaysSafe(c, Apply(c, s, steps[0]), steps[1..]);
    }
  }

  lemma RunsAreSafe(c: Config, s: State, steps: seq<Step>)
    requires Quiet(c, s) && IsRun(c, s, steps)
    ensures Safe(c, After(c, s, steps))
  {
    AlwaysSafe(c, s, steps);
  }

  /** A process enters the maintenance while nobody holds the lock. */
  function Enter(o: Pid): seq<Step> {
    [WriteLock(o), MaintEnter(o), WriteUnlock(o)]
  }

  ghost predicate CanEnter(c: Config, s: State, o: Pid) {
    WellFormed(c, s) && c.plink && s.maintPid == NOBODY && o in s.pc && s.pc[o] == Out && NoReader(s) && NoWriter(s)
  }

  lemma EnterRun(c: Config, s: State, o: Pid, rest: seq<Step>)
    requires CanEnter(c, s, o)
    requires var t := s.(maintPid := o, owners := s.owners + {o}); IsRun(c, t, rest)
    ensures IsRun(c, s, Enter(o) + rest)
    ensures After(c, s, Enter(o) + rest) == After(c, s.(maintPid := o, owners := s.owners + {o}), rest)
  {
    var s1 := Apply(c, s, WriteLock(o));
    var s2 := Apply(c, s1, MaintEnter(o));
    assert Apply(c, s2, WriteUnlock(o)) == s.(maintPid := o, owners := s.owners + {o}) by {
      assert s.pc[o := Writing][o := Out] == s.pc;
    }
    assert Enabled(c, s, WriteLock(o)) && Enabled(c, s1, MaintEnter(o)) && Enabled(c, s2, WriteUnlock(o));
    hide Apply, Enabled, NoReader, NoWriter, WellFormed;
    RunStep(c, s2, WriteUnlock(o), rest);
    RunStep(c, s1, MaintEnter(o), [WriteUnlock(o)] + rest);
    RunStep(c, s, WriteLock(o), [MaintEnter(o)] + ([WriteUnlock(o)] + rest));
    assert Enter(o) + rest == [WriteLock(o)] + ([MaintEnter(o)] + ([WriteUnlock(o)] + rest));
  }

  /** The flags matter: a reader that passes neither is let in beside a stranger's maintenance. */
  lemma FlaglessReaderGetsIn(c: Config, s: State, o: Pid, t: Pid) returns (steps: seq<Step>)
    requires Quiet(c, s) && c.plink && o in c.parent && t in c.parent && o != t && c.parent[t] != o
    ensures IsRun(c, s, steps)
    ensures var r := After(c, s, steps); o in r.owners && t in r.pc && r.pc[t] == Inside(Neither)
  {
    var s1 := s.(maintPid := o, owners := s.owners + {o});
    var s2 := Apply(c, s1, ReadLock(t, Neither));
    var s3 := Apply(c, s2, Check(t));
    assert o in s3.owners && s3.pc[t] == Inside(Neither) && CanEnter(c, s, o);
    hide Apply, Enabled;
    assert IsRun(c, s3, []) && After(c, s3, []) == s3;
    RunStep(c, s2, Check(t), []);
    RunStep(c, s1, ReadLock(t, Neither), [Check(t)] + []);
    steps := [ReadLock(t, Neither)] + ([Check(t)] + []);
    EnterRun(c, s, o, steps);
    steps := Enter(o) + steps;
  }

  /** Waking up and locking are apart: a reader with NOPLMW that was woken can find the maintenance taken
      again when it has the lock, and then waits again. */
  lemma WaitsAgain(c: Config, s: State, o: Pid, t: Pid) returns (steps: seq<Step>)
    requires Quiet(c, s) && c.plink && o in c.parent && t in c.parent && o != t && c.parent[t] != o
    ensures IsRun(c, s, steps) && WakeUp(t) in steps
    ensures var r := After(c, s, steps); r.owners == {o} && t in r.pc && r.pc[t] == Waiting
  {
    var s1 := s.(maintPid := o, owners := s.owners + {o});
    var s2 := Apply(c, s1, ReadLock(t, NoPlmW));
    var s3 := Apply(c, s2, Check(t));
    var s4 := Apply(c, s3, MaintLeave(o));
    var s5 := Apply(c, s4, WakeUp(t));
    var s6 := s5.(maintPid := o, owners := s5.owners + {o});
    var s7 := Apply(c, s6, Relock(t));
    var s8 := Apply(c, s7, Recheck(t));
    assert CanEnter(c, s, o) && CanEnter(c, s5, o) && s8.owners == {o} && s8.pc[t] == Waiting;
    hide Apply, Enabled;
    assert IsRun(c, s8, []) && After(c, s8, []) == s8;
    RunStep(c, s7, Recheck(t), []);
    steps := [Recheck(t)] + [];
    RunStep(c, s6, Relock(t), steps);
    steps := [Relock(t)] + steps;
    EnterRun(c, s5, o, steps);
    steps := Enter(o) + steps;
    RunStep(c, s4, WakeUp(t), steps);
    steps := [WakeUp(t)] + steps;
    RunStep(c, s3, MaintLeave(o), steps);
    steps := [MaintLeave(o)] + steps;
    RunStep(c, s2, Check(t), steps);
    steps := [Check(t)] + steps;
    RunStep(c, s1, ReadLock(t, NoPlmW), steps);
    steps := [ReadLock(t, NoPlmW)] + steps;
    EnterRun(c, s, o, steps);
    steps := Enter(o) + steps;
  }

  lemma RunStep(c: Config, s: State, step: Step, rest: seq<Step>)
    requires Enabled(c, s, step) && IsRun(c, Apply(c, s, step), rest)
    ensures IsRun(c, s, [step] + rest)
    ensures After(c, s, [step] + rest) == After(c, Apply(c, s, step), rest)
  {
    assert ([step] + rest)[1..] == rest;
  }

  /** Somebody other than `t` and its parent owns the maintenance. */
  ghost predicate Stranger(c: Config, s: State, t: Pid)
    requires t in c.parent
  {
    exists o :: o in s.owners && o != t && o != c.parent[t]
  }

  /** A reader is held up exactly if it has a flag and a stranger owns the maintenance: NOPLM has it refused,
      NOPLMW lets it wait. */
  lemma HeldUpByStrangers(c: Config, s: State, t: Pid)
    requires Inv(c, s) && Enabled(c, s, Check(t))
    ensures var flags, p := s.pc[t].flags, Apply(c, s, Check(t)).pc[t];
            && (p == Refused <==> flags == NoPlm && Stranger(c, s, t))
            && (p == Waiting <==> flags == NoPlmW && Stranger(c, s, t))
            && (p == Inside(flags) <==> flags == Neither || !Stranger(c, s, t))
  {}

  /** A waiting reader gets in when nobody owns the maintenance and nobody holds the lock for writing, and
      with the lock in hand exactly when nobody owns the maintenance. */
  lemma WaiterGetsIn(c: Config, s: State, t: Pid)
    requires Inv(c, s) && t in s.pc
    ensures s.pc[t] == Waiting && s.owners == {} && NoWriter(s) ==>
              var steps := [WakeUp(t), Relock(t), Recheck(t)];
              IsRun(c, s, steps) && After(c, s, steps) == Goto(s, t, Inside(NoPlmW))
    ensures s.pc[t] == Rechecking ==>
              Apply(c, s, Recheck(t)).pc[t] == if s.owners == {} then Inside(NoPlmW) else Waiting
  {
    if s.pc[t] == Waiting && s.owners == {} && NoWriter(s) {
      var s1 := Apply(c, s, WakeUp(t));
      var s2 := Apply(c, s1, Relock(t));
      var s3 := Apply(c, s2, Recheck(t));
      assert s3 == Goto(s, t, Inside(NoPlmW));
      hide Apply, Enabled, Goto;
      assert IsRun(c, s3, []) && After(c, s3, []) == s3;
      RunStep(c, s2, Recheck(t), []);
      RunStep(c, s1, Relock(t), [Recheck(t)] + []);
      RunStep(c, s, WakeUp(t), [Relock(t)] + ([Recheck(t)] + []));
      assert [WakeUp(t), Relock(t), Recheck(t)] == [WakeUp(t)] + ([Relock(t)] + ([Recheck(t)] + []));
    }
  }
}
