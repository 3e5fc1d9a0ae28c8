// Pause / resume / step / cancel: the flags, the handle that updates them, and the monitor seen
// as a transition system in which operators and waiters interleave at lock granularity.
module RunControl {
  import opened Words

  datatype Flags = Flags(paused: bool, cancelled: bool, finished: bool, stepBudget: nat)

  datatype Op = Pause | Resume | Step | Cancel | Finish

  datatype Verdict = Granted | Refused | Blocked

  const FRESH := Flags(false, false, false, 0)

  function Apply(f: Flags, op: Op): Flags {
    match op
    case Pause => f.(paused := true)
    case Resume => f.(paused := false, stepBudget := 0)
    case Step => f.(paused := true, stepBudget := if f.stepBudget < MAX_U32 then f.stepBudget + 1 else MAX_U32)
    case Cancel => f.(cancelled := true, paused := false)
    case Finish => f.(finished := true, paused := false)
  }

  /** `Pause` is the only operation that does not wake the waiters. */
  predicate Notifies(op: Op) {
    op != Pause
  }

  /** One pass of a waiter through the body of the permission loop. */
  function Check(f: Flags): (Verdict, Flags) {
    if f.cancelled then (Refused, f)
    else if !f.paused then (Granted, f)
    else if f.stepBudget > 0 then (Granted, f.(stepBudget := f.stepBudget - 1))
    else if f.finished then (Granted, f)
    else (Blocked, f)
  }

  ghost function ApplyAll(f: Flags, ops: seq<Op>): Flags
    decreases |ops|
  {
    if ops == [] then f else ApplyAll(Apply(f, ops[0]), ops[1..])
  }

  /** Cancellation and completion are never taken back. */
  lemma {:induction false} FlagsAreSticky(f: Flags, ops: seq<Op>)
    ensures f.cancelled ==> ApplyAll(f, ops).cancelled
    ensures f.finished ==> ApplyAll(f, ops).finished
    ensures Cancel in ops ==> ApplyAll(f, ops).cancelled
    decreases |ops|
  {
    if ops != [] {
      FlagsAreSticky(Apply(f, ops[0]), ops[1..]);
    }
  }

  lemma {:induction false} ApplySnoc(f: Flags, ops: seq<Op>, op: Op)
    ensures ApplyAll(f, ops + [op]) == Apply(ApplyAll(f, ops), op)
    decreases |ops|
  {
    if ops == [] {
      assert ops + [op] == [op] && [op][1..] == [];
    } else {
      assert (ops + [op])[1..] == ops[1..] + [op];
      ApplySnoc(Apply(f, ops[0]), ops[1..], op);
    }
  }

  /** The last word was a pause or a step; all others open the gate. */
  ghost predicate LeftShut(ops: seq<Op>) {
    ops != [] && (ops[|ops| - 1] == Pause || ops[|ops| - 1] == Step)
  }

  /** The steps issued since the last resume. */
  ghost function StepsSinceResume(ops: seq<Op>): nat {
    if ops == [] then 0
    else
      var before, last := StepsSinceResume(ops[..|ops| - 1]), ops[|ops| - 1];
      if last == Resume then 0 else if last == Step then before + 1 else before
  }

  /** The flags a fresh handle has after a history of operations. */
  lemma {:induction false} FlagsTellTheHistory(ops: seq<Op>)
    ensures
      var f := ApplyAll(FRESH, ops);
      && (f.cancelled <==> Cancel in ops) && (f.finished <==> Finish in ops) && (f.paused <==> LeftShut(ops))
      && f.stepBudget == if StepsSinceResume(ops) < MAX_U32 then StepsSinceResume(ops) else MAX_U32
    decreases |ops|
  {
    if ops != [] {
      var init, last := ops[..|ops| - 1], ops[|ops| - 1];
      assert ops == init + [last];
      FlagsTellTheHistory(init);
      ApplySnoc(FRESH, init, last);
    }
  }

  /**
   * What a look at the gate brings after a history of operations: it is refused exactly if the run was
   * cancelled; it blocks exactly if the gate was left shut, no step is left since the last resume, and the
   * run is neither cancelled nor finished; otherwise it is granted, and takes a step if the gate is shut
   * and there is one.
   */
  lemma TheGateFollowsTheHistory(ops: seq<Op>)
    ensures
      var f := ApplyAll(FRESH, ops);
      var steps := StepsSinceResume(ops);
      && (Check(f).0 == Refused <==> Cancel in ops)
      && (Check(f).0 == Blocked <==> LeftShut(ops) && steps == 0 && Cancel !in ops && Finish !in ops)
      && (if Check(f).0 == Granted && LeftShut(ops) && steps > 0
          then Check(f).1.stepBudget + 1 == f.stepBudget && Check(f).1.(stepBudget := f.stepBudget) == f
          else Check(f).1 == f)
  {
    FlagsTellTheHistory(ops);
  }

  // ------------------------------------------------------------- the handle

  class Control {
    var paused: bool
    var cancelled: bool
    var finished: bool
    var stepBudget: nat

    function Snapshot(): Flags
      reads this
    {
      Flags(paused, cancelled, finished, stepBudget)
    }

    constructor ()
      ensures Snapshot() == FRESH
    {
      paused, cancelled, finished, stepBudget := false, false, false, 0;
    }

    method Pause()
      modifies this
      ensures Snapshot() == Apply(old(Snapshot()), Op.Pause)
    {
      paused := true;
    }

    method Resume()
      modifies this
      ensures Snapshot() == Apply(old(Snapshot()), Op.Resume)
    {
      paused := false;
      stepBudget := 0;
    }

    method Step()
      modifies this
      ensures Snapshot() == Apply(old(Snapshot()), Op.Step)
    {
      paused := true;
      stepBudget := if stepBudget < MAX_U32 then stepBudget + 1 else MAX_U32;
    }

    method Cancel()
      modifies this
      ensures Snapshot() == Apply(old(Snapshot()), Op.Cancel)
    {
      cancelled := true;
      paused := false;
    }

    method Finish()
      modifies this
      ensures Snapshot() == Apply(old(Snapshot()), Op.Finish)
    {
      finished := true;
      paused := false;
    }

    /** The permission check made each time a waiter holds the lock. */
    method TryPass() returns (verdict: Verdict)
      modifies this
      ensures (verdict, Snapshot()) == Check(old(Snapshot()))
    {
      if cancelled {
        return Refused;
      }
      if !paused {
        return Granted;
      }
      if stepBudget > 0 {
        stepBudget := stepBudget - 1;
        return Granted;
      }
      if finished {
        return Granted;
      }
      return Blocked;
    }

    /** Whatever other threads do to this handle while the caller does not hold the lock. */
    method OtherThreads(ops: seq<Op>)
      modifies this
      ensures Snapshot() == ApplyAll(old(Snapshot()), ops)
      ensures old(cancelled) ==> cancelled
    {
      FlagsAreSticky(Snapshot(), ops);
      for i := 0 to |ops|
        invariant ApplyAll(Snapshot(), ops[i..]) == ApplyAll(old(Snapshot()), ops)
      {
        assert ops[i..][0] == ops[i] && ops[i..][1..] == ops[i + 1..];
        match ops[i]
        case Pause => this.Pause();
        case Resume => this.Resume();
        case Step => this.Step();
        case Cancel => this.Cancel();
        case Finish => this.Finish();
      }
    }
  }

  // ------------------------------------------------------- all interleavings

  type Tid = nat

  /** A waiter is outside the call, about to take the lock, or asleep on the condition variable. */
  datatype Waiter = Outside(last: Verdict) | Contending | Asleep

  /** `issued` and `consumed` count step grants since the last resume; `saturated` records a clipped grant. */
  datatype System = System(flags: Flags, waiters: map<Tid, Waiter>, issued: nat, consumed: nat, saturated: bool)

  datatype Action = Operate(op: Op) | Enter(t: Tid) | Acquire(t: Tid) | Wake(t: Tid)

  ghost function Start(tids: set<Tid>): System {
    System(FRESH, map t | t in tids :: Outside(Granted), 0, 0, false)
  }

  ghost function Notified(waiters: map<Tid, Waiter>): map<Tid, Waiter> {
    map t | t in waiters :: if waiters[t].Asleep? then Contending else waiters[t]
  }

  /** One atomic action; an action that is not enabled changes nothing. */
  ghost function Next(s: System, a: Action): System {
    match a
    case Operate(op) =>
      s.(flags := Apply(s.flags, op),
         waiters := if Notifies(op) then Notified(s.waiters) else s.waiters,
         issued := if op == Resume then 0 else if op == Step then s.issued + 1 else s.issued,
         consumed := if op == Resume then 0 else s.consumed,
         saturated := op != Resume && (s.saturated || (op == Step && s.flags.stepBudget == MAX_U32)))
    case Enter(t) =>
      if t in s.waiters && s.waiters[t].Outside? then s.(waiters := s.waiters[t := Contending]) else s
    case Acquire(t) =>
      if t in s.waiters && s.waiters[t].Contending? then
        var (verdict, flags) := Check(s.flags);
        s.(flags := flags,
           waiters := s.waiters[t := if verdict == Blocked then Asleep else Outside(verdict)],
           consumed := s.consumed + s.flags.stepBudget - flags.stepBudget)
      else s
    case Wake(t) =>
      if t in s.waiters && s.waiters[t].Asleep? then s.(waiters := s.waiters[t := Contending]) else s
  }

  ghost function Execute(s: System, actions: seq<Action>): System
    decreases |actions|
  {
    if actions == [] then s else Execute(Next(s, actions[0]), actions[1..])
  }

  /** What holds after every action of every interleaving. */
  ghost predicate Consistent(s: System) {
    // No lost wakeup: whoever sleeps unnotified would still be refused passage.
    && (forall t :: t in s.waiters && s.waiters[t].Asleep? ==>
          s.flags.paused && s.flags.stepBudget == 0 && !s.flags.cancelled && !s.flags.finished)
    // Leftover step budget exists only while paused, unless the run is ending.
    && (!s.flags.paused ==> s.flags.stepBudget == 0 || s.flags.cancelled || s.flags.finished)
    // Steps are conserved.
    && s.flags.stepBudget <= MAX_U32
    && s.flags.stepBudget + s.consumed <= s.issued
    && (!s.saturated <==> s.flags.stepBudget + s.consumed == s.issued)
  }

  lemma NextConsistent(s: System, a: Action)
    requires Consistent(s)
    ensures Consistent(Next(s, a))
  {
  }

  /** Every reachable state of every interleaving of operators and waiters is consistent. */
  lemma {:induction false} AlwaysConsistent(s: System, actions: seq<Action>)
    requires Consistent(s)
    ensures Consistent(Execute(s, actions))
    decreases |actions|
  {
    if actions != [] {
      NextConsistent(s, actions[0]);
      AlwaysConsistent(Next(s, actions[0]), actions[1..]);
    }
  }

  /**
   * From the start, whatever operators and waiters do: a sleeping waiter would still be blocked,
   * and step grants are conserved exactly as long as none was clipped by saturation.
   */
  lemma NoLostWakeupAndConservedSteps(tids: set<Tid>, actions: seq<Action>)
    ensures
      var s := Execute(Start(tids), actions);
      && (forall t :: t in s.waiters && s.waiters[t].Asleep? ==> Check(s.flags).0 == Blocked)
      && (!s.flags.paused ==> s.flags.stepBudget == 0 || s.flags.cancelled || s.flags.finished)
      && (!s.saturated <==> s.issued == s.flags.stepBudget + s.consumed)
      && s.consumed <= s.issued
  {
    AlwaysConsistent(Start(tids), actions);
  }

  ghost function Passes(s: System, actions: seq<Action>): nat
    decreases |actions|
  {
    if actions == [] then 0
    else
      (if actions[0].Acquire? && actions[0].t in s.waiters && s.waiters[actions[0].t].Contending? &&
          Check(s.flags).0 == Granted then 1 else 0)
      + Passes(Next(s, actions[0]), actions[1..])
  }

  ghost function StepsIn(actions: seq<Action>): nat {
    if actions == [] then 0 else (if actions[0] == Operate(Step) then 1 else 0) + StepsIn(actions[1..])
  }

  /**
   * While paused and not released, exactly the granted steps let waiters through: starting from a
   * paused run, the number of passes never exceeds the budget plus the steps issued meanwhile.
   */
  lemma {:induction false} PausedPassesAreStepped(s: System, actions: seq<Action>)
    requires s.flags.paused && !s.flags.finished
    requires forall op :: Operate(op) in actions ==> op == Pause || op == Step
    ensures Passes(s, actions) + Execute(s, actions).flags.stepBudget <= s.flags.stepBudget + StepsIn(actions)
    ensures s.flags.stepBudget + StepsIn(actions) <= MAX_U32 ==>
      Passes(s, actions) + Execute(s, actions).flags.stepBudget == s.flags.stepBudget + StepsIn(actions) ||
      s.flags.cancelled
    decreases |actions|
  {
    if actions != [] {
      var a := actions[0];
      assert a in actions;
      forall op | Operate(op) in actions[1..] ensures op == Pause || op == Step {
        assert Operate(op) in actions;
      }
      if a.Operate? {
        assert Operate(a.op) in actions;
      }
      PausedPassesAreStepped(Next(s, a), actions[1..]);
    }
  }

  /** Passage no waiter can be denied any more. */
  ghost predicate Open(f: Flags) {
    f.cancelled || !f.paused || f.finished
  }

  ghost function AcquireAll(tids: seq<Tid>): seq<Action> {
    seq(|tids|, i requires 0 <= i < |tids| => Acquire(tids[i]))
  }

  /**
   * Release reaches everybody: after any interleaving that leaves the gate open, one turn on the
   * lock takes each listed waiter out of the call, with a refusal exactly when the run is cancelled.
   */
  lemma {:induction false} OpenGateDrains(s: System, tids: seq<Tid>)
    requires Consistent(s) && Open(s.flags)
    requires forall t :: t in tids ==> t in s.waiters
    ensures
      var e := Execute(s, AcquireAll(tids));
      && e.waiters.Keys == s.waiters.Keys
      && (forall t :: t in tids ==> e.waiters[t].Outside?)
      && (forall t :: t in s.waiters && s.waiters[t].Outside? ==> e.waiters[t] == s.waiters[t])
      && (forall t :: t in tids && !s.waiters[t].Outside? ==>
            e.waiters[t] == Outside(if s.flags.cancelled then Refused else Granted))
    decreases |tids|
  {
    if tids != [] {
      var n := Next(s, Acquire(tids[0]));
      assert tids[0] in tids;
      assert !s.waiters[tids[0]].Asleep?;
      NextConsistent(s, Acquire(tids[0]));
      assert AcquireAll(tids)[1..] == AcquireAll(tids[1..]);
      assert forall t :: t in tids <==> t == tids[0] || t in tids[1..];
      OpenGateDrains(n, tids[1..]);
    }
  }
}
