// What an agent session may do, as an acceptor over the log of its effects: model calls, guardrail
// verdicts, reviews, published plans, started runs and status writes.
module AgentProtocol {
  import opened Workflow
  import opened Policy

  datatype SessionStatus = Draft | Planning | AwaitingApproval | Ready | Running | Completed | Failed | Cancelled

  /** A run as the runtime reports it; either field may be missing. */
  datatype Snapshot = Snapshot(status: Option<string>, code: Option<string>)

  /** The runtime's answer to a start request, and what watching the run brought; no report: contact lost. */
  datatype RunAnswer = NotStarted | Started(paused: bool, watched: Option<Snapshot>)

  datatype Attempt = Succeeded | Replannable | Terminal(status: Option<string>)

  const REPLANNABLE_CODES := {"E_INVALID_CONFIG", "E_EXECUTION"}

  function Judge(startPaused: bool, answer: RunAnswer): Attempt {
    match answer
    case NotStarted => Terminal(None)
    case Started(paused, watched) =>
      if startPaused && paused then Terminal(Some("paused"))
      else
        match watched
        case None => Terminal(None)
        case Some(s) =>
          if s.status == Some("completed") then Succeeded
          else if s.status == Some("failed") && s.code.Some? && s.code.value in REPLANNABLE_CODES then Replannable
          else Terminal(s.status)
  }

  function StatusAfter(attempt: Attempt): SessionStatus {
    match attempt
    case Succeeded => Completed
    case Replannable => Failed
    case Terminal(status) =>
      if status == Some("cancelled") then Cancelled
      else if status == Some("paused") || status == Some("running") then Running
      else Failed
  }

  datatype Act =
    | ModelCall
    | Judged(doc: Document, permitted: bool)
    | Reviewed
    | Published(doc: Document)
    | StartRun(doc: Document, answer: RunAnswer)
    | CancelRun
    | Write(status: SessionStatus)

  /** What is fixed for one session. */
  datatype Rules = Rules(
    maxRepairs: nat,
    tools: ToolPolicy,
    descriptors: seq<Descriptor>,
    uninformed: Document -> bool,
    wantsRun: bool,
    startPaused: bool,
    resumed: bool)

  const MAX_RUN_ATTEMPTS: nat := 2

  datatype Stage =
    | Opening
    | Drafting(calls: nat)
    | Cleared(doc: Document)
    | Lost(status: SessionStatus)
    | Closing(status: SessionStatus)
    | Closed
    | Astray

  datatype Progress = Progress(stage: Stage, attempts: nat, runs: nat, reviewed: bool)

  function Begin(rules: Rules): Progress {
    Progress(if rules.resumed then Opening else Drafting(0), 1, 0, false)
  }

  function Astrayed(p: Progress): Progress {
    p.(stage := Astray)
  }

  function NextAttempt(p: Progress): Progress {
    p.(stage := Drafting(0), attempts := p.attempts + 1)
  }

  predicate ContactLost(startPaused: bool, answer: RunAnswer) {
    answer.Started? && !(startPaused && answer.paused) && answer.watched.None?
  }

  function OnStart(rules: Rules, p: Progress, doc: Document, answer: RunAnswer): Progress {
    if p.stage == Cleared(doc) && rules.wantsRun && (p.reviewed || !rules.uninformed(doc)) then
      var attempt, q := Judge(rules.startPaused, answer), p.(runs := p.runs + 1);
      if attempt == Replannable && q.runs < MAX_RUN_ATTEMPTS then NextAttempt(q)
      else if ContactLost(rules.startPaused, answer) then q.(stage := Lost(StatusAfter(attempt)))
      else q.(stage := Closing(StatusAfter(attempt)))
    else Astrayed(p)
  }

  function OnWrite(rules: Rules, p: Progress, status: SessionStatus): Progress {
    match p.stage
    case Opening => if status == Planning then p.(stage := Drafting(0)) else Astrayed(p)
    case Drafting(_) => if status == Failed then p.(stage := Closed) else Astrayed(p)
    case Cleared(doc) =>
      if status == Ready && !rules.wantsRun && (p.reviewed || !rules.uninformed(doc)) then p.(stage := Closed)
      else Astrayed(p)
    case Closing(s) => if status == s then p.(stage := Closed) else Astrayed(p)
    case _ => Astrayed(p)
  }

  function Follow(rules: Rules, p: Progress, act: Act): Progress {
    match act
    case ModelCall =>
      if p.stage.Drafting? && p.stage.calls <= rules.maxRepairs then p.(stage := Drafting(p.stage.calls + 1))
      else Astrayed(p)
    case Judged(doc, permitted) =>
      if p.stage.Drafting? && p.stage.calls > 0 && permitted == Permits(rules.tools, rules.descriptors, doc)
      then p.(stage := if permitted then Cleared(doc) else Closing(Failed))
      else Astrayed(p)
    case Reviewed =>
      if p.stage.Cleared? && !p.reviewed && rules.uninformed(p.stage.doc) then NextAttempt(p.(reviewed := true))
      else Astrayed(p)
    case Published(doc) =>
      if p.stage == Cleared(doc) && (p.reviewed || !rules.uninformed(doc)) then p else Astrayed(p)
    case StartRun(doc, answer) => OnStart(rules, p, doc, answer)
    case CancelRun => if p.stage.Lost? then p.(stage := Closing(p.stage.status)) else Astrayed(p)
    case Write(status) => OnWrite(rules, p, status)
  }

  function FollowAll(rules: Rules, log: seq<Act>): Progress {
    if log == [] then Begin(rules) else Follow(rules, FollowAll(rules, log[..|log| - 1]), log[|log| - 1])
  }

  ghost predicate Lawful(rules: Rules, log: seq<Act>) {
    !FollowAll(rules, log).stage.Astray?
  }

  lemma LawfulPrefix(rules: Rules, log: seq<Act>)
    requires Lawful(rules, log) && log != []
    ensures Lawful(rules, log[..|log| - 1])
  {
    hide Permits, Judge;
  }

  lemma {:induction false} LawfulUpTo(rules: Rules, log: seq<Act>, k: nat)
    requires Lawful(rules, log) && k <= |log|
    ensures Lawful(rules, log[..k])
    decreases |log|
  {
    if k < |log| {
      LawfulPrefix(rules, log);
      LawfulUpTo(rules, log[..|log| - 1], k);
      assert log[..|log| - 1][..k] == log[..k];
    } else {
      assert log[..k] == log;
    }
  }

  // ----------------------------------------------------------------- bounds

  function CallsIn(log: seq<Act>): nat {
    if log == [] then 0 else CallsIn(log[..|log| - 1]) + (if log[|log| - 1].ModelCall? then 1 else 0)
  }

  function StartsIn(log: seq<Act>): nat {
    if log == [] then 0 else StartsIn(log[..|log| - 1]) + (if log[|log| - 1].StartRun? then 1 else 0)
  }

  /** How far a session is, in numbers. */
  ghost predicate Measured(rules: Rules, p: Progress, calls: nat, starts: nat) {
    && starts == p.runs <= MAX_RUN_ATTEMPTS
    && 1 <= p.attempts <= 1 + (if p.reviewed then 1 else 0) + p.runs
    && (p.stage.Opening? || p.stage.Drafting? || p.stage.Cleared? ==>
          p.runs < MAX_RUN_ATTEMPTS)
    && (p.runs == MAX_RUN_ATTEMPTS ==> p.attempts <= (if p.reviewed then 1 else 0) + p.runs)
    && (p.stage.Drafting? ==> p.stage.calls <= rules.maxRepairs + 1)
    && (p.stage.Opening? ==> calls == 0)
    && calls <= (p.attempts - 1) * (rules.maxRepairs + 1) +
         (if p.stage.Drafting? then p.stage.calls else rules.maxRepairs + 1)
  }

  lemma StepMeasured(rules: Rules, p: Progress, act: Act, calls: nat, starts: nat)
    requires Measured(rules, p, calls, starts) && !Follow(rules, p, act).stage.Astray?
    ensures Measured(rules, Follow(rules, p, act), calls + (if act.ModelCall? then 1 else 0),
                     starts + (if act.StartRun? then 1 else 0))
  {
    hide Permits, Judge, StatusAfter;
    var q, block := Follow(rules, p, act), rules.maxRepairs + 1;
    assert p.attempts * block == (p.attempts - 1) * block + block;
  }

  lemma {:induction false} LogIsMeasured(rules: Rules, log: seq<Act>)
    requires Lawful(rules, log)
    ensures Measured(rules, FollowAll(rules, log), CallsIn(log), StartsIn(log))
  {
    hide Follow, Measured;
    if log == [] {
      BeginMeasured(rules);
    } else {
      LawfulPrefix(rules, log);
      var init := log[..|log| - 1];
      LogIsMeasured(rules, init);
      StepMeasured(rules, FollowAll(rules, init), log[|log| - 1], CallsIn(init), StartsIn(init));
    }
  }

  lemma BeginMeasured(rules: Rules)
    ensures Measured(rules, Begin(rules), 0, 0)
  {
  }

  /**
   * Whatever the model and the runtime answer: at most three planning attempts, at most two run starts,
   * and at most three rounds of one draft plus its repairs.
   */
  lemma SessionsAreBounded(rules: Rules, log: seq<Act>)
    requires Lawful(rules, log)
    ensures FollowAll(rules, log).attempts <= 3
    ensures StartsIn(log) <= 2
    ensures CallsIn(log) <= 3 * (rules.maxRepairs + 1)
  {
    hide Follow;
    LogIsMeasured(rules, log);
    var p := FollowAll(rules, log);
    var block := rules.maxRepairs + 1;
    assert (p.attempts - 1) * block <= 2 * block;
  }

  // ------------------------------------------------------- what a log tells

  /** The last verdict of the log cleared this document, and nothing but its publication happened since. */
  ghost predicate JustCleared(rules: Rules, log: seq<Act>, doc: Document) {
    Permits(rules.tools, rules.descriptors, doc) && exists j :: ClearedAt(log, doc, j)
  }

  ghost predicate PlanCleared(rules: Rules, log: seq<Act>) {
    exists doc :: JustCleared(rules, log, doc)
  }

  ghost predicate ClearedAt(log: seq<Act>, doc: Document, j: int) {
    0 <= j < |log| && log[j] == Judged(doc, true) && forall k :: j < k < |log| ==> log[k].Published?
  }

  /** The run was watched to its end, which was a failure of the plan or of an execution. */
  predicate WorthAnotherPlan(startPaused: bool, answer: RunAnswer) {
    && answer.Started? && !(startPaused && answer.paused) && answer.watched.Some?
    && answer.watched.value.status == Some("failed")
    && (answer.watched.value.code == Some("E_INVALID_CONFIG") || answer.watched.value.code == Some("E_EXECUTION"))
  }

  lemma ReplannableMeans(startPaused: bool, answer: RunAnswer)
    ensures Judge(startPaused, answer) == Replannable <==> WorthAnotherPlan(startPaused, answer)
  {
    assert "completed"[0] == 'c' && "failed"[0] == 'f';
  }

  /** Every run so far ended in a failure worth planning again. */
  ghost predicate AllReplannable(rules: Rules, log: seq<Act>) {
    forall i :: 0 <= i < |log| && log[i].StartRun? ==> WorthAnotherPlan(rules.startPaused, log[i].answer)
  }

  /** The log ends with a run, possibly cancelled after contact was lost, that calls for this status. */
  ghost predicate EndsInRun(rules: Rules, log: seq<Act>, status: SessionStatus) {
    && log != [] && log[|log| - 1].StartRun?
    && status == StatusAfter(Judge(rules.startPaused, log[|log| - 1].answer))
  }

  /** What the log must look like at each stage. */
  ghost predicate Narrates(rules: Rules, p: Progress, log: seq<Act>) {
    match p.stage
    case Opening => log == []
    case Drafting(_) => AllReplannable(rules, log)
    case Cleared(doc) => AllReplannable(rules, log) && JustCleared(rules, log, doc)
    case Lost(status) => status == Failed && EndsInRun(rules, log, status)
    case Closing(status) =>
      || EndsInRun(rules, log, status)
      || (status == Failed && log != [] && (log[|log| - 1].CancelRun? || log[|log| - 1].Judged?))
    case Closed => log != [] && log[|log| - 1].Write? && log[|log| - 1].status != Planning
    case Astray => true
  }

  lemma StepTold(rules: Rules, p: Progress, act: Act, log: seq<Act>)
    requires Narrates(rules, p, log) && !Follow(rules, p, act).stage.Astray?
    ensures Narrates(rules, Follow(rules, p, act), log + [act])
  {
    hide Permits, WorthAnotherPlan;
    var after := log + [act];
    match act
    case StartRun(_, answer) => ReplannableMeans(rules.startPaused, answer);
    case Judged(doc, permitted) =>
      assert permitted ==> ClearedAt(after, doc, |log|);
    case Published(doc) =>
      var j :| ClearedAt(log, doc, j);
      assert ClearedAt(after, doc, j);
    case _ =>
  }

  lemma {:induction false} LogTells(rules: Rules, log: seq<Act>)
    requires Lawful(rules, log)
    ensures Narrates(rules, FollowAll(rules, log), log)
  {
    hide Follow, Narrates;
    if log == [] {
      BeginTold(rules);
    } else {
      LawfulPrefix(rules, log);
      var init, last := log[..|log| - 1], log[|log| - 1];
      LogTells(rules, init);
      StepTold(rules, FollowAll(rules, init), last, init);
      assert init + [last] == log;
    }
  }

  lemma BeginTold(rules: Rules)
    ensures Narrates(rules, Begin(rules), [])
  {
  }

  lemma StartNeedsClearance(rules: Rules, p: Progress, act: Act)
    requires act.StartRun? && !Follow(rules, p, act).stage.Astray?
    ensures p.stage == Cleared(act.doc) && rules.wantsRun
  {
    hide Permits, Judge;
  }

  /**
   * A run starts only with a document the guardrails permit, cleared by the verdict on the latest draft;
   * and only if a run was asked for and every earlier run ended in a failure worth planning again.
   */
  lemma RunsAreClearedFirst(rules: Rules, log: seq<Act>, i: nat)
    requires Lawful(rules, log) && i < |log| && log[i].StartRun?
    ensures rules.wantsRun && JustCleared(rules, log[..i], log[i].doc) && AllReplannable(rules, log[..i])
  {
    hide Follow;
    LawfulUpTo(rules, log, i + 1);
    LawfulUpTo(rules, log, i);
    assert log[..i + 1][..i] == log[..i];
    LogTells(rules, log[..i]);
    StartNeedsClearance(rules, FollowAll(rules, log[..i]), log[i]);
  }

  /** A plan is published only as cleared by the verdict on the latest draft. */
  lemma PlansAreClearedFirst(rules: Rules, log: seq<Act>, i: nat)
    requires Lawful(rules, log) && i < |log| && log[i].Published?
    ensures JustCleared(rules, log[..i], log[i].doc)
  {
    hide Follow;
    LawfulUpTo(rules, log, i + 1);
    LawfulUpTo(rules, log, i);
    assert log[..i + 1][..i] == log[..i];
    LogTells(rules, log[..i]);
    PublicationNeedsClearance(rules, FollowAll(rules, log[..i]), log[i]);
  }

  lemma PublicationNeedsClearance(rules: Rules, p: Progress, act: Act)
    requires act.Published? && !Follow(rules, p, act).stage.Astray?
    ensures p.stage == Cleared(act.doc)
  {
    hide Permits, Judge;
  }

  // ---------------------------------------------------------- lost contact

  /** The run was started and then lost from sight: it was not left paused, and watching it brought nothing. */
  predicate LostRun(startPaused: bool, act: Act) {
    act.StartRun? && act.answer.Started? && !(startPaused && act.answer.paused) && act.answer.watched.None?
  }

  lemma LosingStep(rules: Rules, p: Progress, act: Act)
    requires !Follow(rules, p, act).stage.Astray?
    ensures Follow(rules, p, act).stage.Lost? <==> LostRun(rules.startPaused, act)
    ensures p.stage.Lost? <==> act.CancelRun?
  {
    hide Permits;
  }

  lemma LostIsLast(rules: Rules, log: seq<Act>)
    requires Lawful(rules, log)
    ensures FollowAll(rules, log).stage.Lost? <==> log != [] && LostRun(rules.startPaused, log[|log| - 1])
  {
    hide Follow;
    if log != [] {
      LawfulPrefix(rules, log);
      LosingStep(rules, FollowAll(rules, log[..|log| - 1]), log[|log| - 1]);
    }
  }

  /** A run that is lost from sight is cancelled at once, and no other run is. */
  lemma LostRunsAreCancelled(rules: Rules, log: seq<Act>, i: nat)
    requires Lawful(rules, log) && i + 1 < |log|
    ensures LostRun(rules.startPaused, log[i]) <==> log[i + 1].CancelRun?
  {
    hide Follow;
    LawfulUpTo(rules, log, i + 1);
    LawfulUpTo(rules, log, i + 2);
    assert log[..i + 2][..i + 1] == log[..i + 1];
    LostIsLast(rules, log[..i + 1]);
    LosingStep(rules, FollowAll(rules, log[..i + 1]), log[i + 1]);
  }

  // ------------------------------------------------------------ the review

  /** A plan that draws on nothing the workflow observes has been reviewed before; there is one review at most. */
  ghost predicate ReviewedOnce(log: seq<Act>) {
    forall i, j :: 0 <= i < j < |log| && log[i].Reviewed? ==> !log[j].Reviewed?
  }

  ghost predicate WasReviewed(log: seq<Act>) {
    exists i :: 0 <= i < |log| && log[i].Reviewed?
  }

  lemma ReviewStep(rules: Rules, p: Progress, act: Act)
    requires !Follow(rules, p, act).stage.Astray?
    ensures Follow(rules, p, act).reviewed <==> p.reviewed || act.Reviewed?
    ensures act.Reviewed? ==> !p.reviewed
    ensures act.Published? || act.StartRun? ==> p.reviewed || !rules.uninformed(act.doc)
  {
    hide Permits, Judge;
  }

  lemma {:induction false} ReviewIsOnRecord(rules: Rules, log: seq<Act>)
    requires Lawful(rules, log)
    ensures FollowAll(rules, log).reviewed <==> WasReviewed(log)
    ensures ReviewedOnce(log)
  {
    hide Follow;
    if log != [] {
      LawfulPrefix(rules, log);
      var init, last := log[..|log| - 1], log[|log| - 1];
      ReviewIsOnRecord(rules, init);
      ReviewStep(rules, FollowAll(rules, init), last);
      if last.Reviewed? {
        assert log[|log| - 1].Reviewed?;
      } else if WasReviewed(init) {
        var i :| 0 <= i < |init| && init[i].Reviewed?;
        assert log[i].Reviewed?;
      }
    }
  }

  /**
   * A session reviews at most one plan, and neither publishes nor runs a plan that draws on nothing the
   * workflow observes without having reviewed one.
   */
  lemma UninformedPlansAreReviewed(rules: Rules, log: seq<Act>, i: nat)
    requires Lawful(rules, log) && i < |log| && (log[i].Published? || log[i].StartRun?)
    ensures ReviewedOnce(log) && (rules.uninformed(log[i].doc) ==> WasReviewed(log[..i]))
  {
    hide Follow;
    LawfulUpTo(rules, log, i + 1);
    LawfulUpTo(rules, log, i);
    assert log[..i + 1][..i] == log[..i];
    ReviewIsOnRecord(rules, log);
    ReviewIsOnRecord(rules, log[..i]);
    ReviewStep(rules, FollowAll(rules, log[..i]), log[i]);
  }

  lemma ClosedIsFinal(rules: Rules, p: Progress, act: Act)
    requires p.stage.Closed?
    ensures Follow(rules, p, act).stage.Astray?
  {
    hide Permits, Judge;
  }

  lemma WriteStages(rules: Rules, p: Progress, act: Act)
    requires act.Write? && !Follow(rules, p, act).stage.Astray?
    ensures (act.status == Planning && p.stage.Opening?) || Follow(rules, p, act).stage.Closed?
  {
    hide Permits, Judge;
  }

  /**
   * A status is written at most twice: `Planning` when a session is resumed, as the very first act, and
   * one final status as the very last.
   */
  lemma StatusWritesFrameTheSession(rules: Rules, log: seq<Act>, i: nat)
    requires Lawful(rules, log) && i < |log| && log[i].Write?
    ensures (i == 0 && rules.resumed && log[i].status == Planning) || (i == |log| - 1 && log[i].status != Planning)
  {
    hide Follow;
    LawfulUpTo(rules, log, i + 1);
    LawfulUpTo(rules, log, i);
    assert log[..i + 1][..i] == log[..i];
    var before := FollowAll(rules, log[..i]);
    WriteStages(rules, before, log[i]);
    LogTells(rules, log[..i]);
    if before.stage.Opening? && log[i].status == Planning {
      assert log[..i] == [];
    } else {
      LogTells(rules, log[..i + 1]);
      if i + 1 < |log| {
        LawfulUpTo(rules, log, i + 2);
        assert log[..i + 2][..i + 1] == log[..i + 1];
        ClosedIsFinal(rules, FollowAll(rules, log[..i + 1]), log[i + 1]);
      }
    }
  }

  lemma CompletionNeedsSuccess(rules: Rules, p: Progress, act: Act)
    requires act.Write? && act.status == Completed && !Follow(rules, p, act).stage.Astray?
    ensures p.stage == Closing(Completed)
  {
    hide Permits, Judge;
  }

  lemma ReadinessNeedsClearance(rules: Rules, p: Progress, act: Act)
    requires act.Write? && act.status == Ready && !Follow(rules, p, act).stage.Astray?
    requires p.stage.Closing? ==> p.stage.status != Ready
    ensures p.stage.Cleared? && !rules.wantsRun
  {
    hide Permits, Judge;
  }

  /**
   * The final status tells the truth: `Completed` is written right after a run the runtime reported as
   * completed, and `Ready` only for a cleared plan of a session that never started a run.
   */
  lemma FinalStatusIsTrue(rules: Rules, log: seq<Act>)
    requires Lawful(rules, log) && log != [] && log[|log| - 1].Write?
    ensures log[|log| - 1].status == Completed ==>
      |log| >= 2 && log[|log| - 2].StartRun? && Reported(rules.startPaused, log[|log| - 2].answer) == Some("completed")
    ensures log[|log| - 1].status == Ready ==>
      !rules.wantsRun && StartsIn(log) == 0 && PlanCleared(rules, log[..|log| - 1])
  {
    hide Follow, Judge;
    var init, last := log[..|log| - 1], log[|log| - 1];
    LawfulPrefix(rules, log);
    LogTells(rules, init);
    var p := FollowAll(rules, init);
    if last.status == Completed {
      CompletionNeedsSuccess(rules, p, last);
      JudgedAsReported(rules.startPaused, init[|init| - 1].answer);
      assert init[|init| - 1] == log[|log| - 2];
    } else if last.status == Ready {
      ReadinessNeedsClearance(rules, p, last);
      NeverStarted(rules, init);
      assert JustCleared(rules, init, p.stage.doc);
    }
  }

  lemma {:induction false} NeverStarted(rules: Rules, log: seq<Act>)
    requires Lawful(rules, log) && !rules.wantsRun
    ensures StartsIn(log) == 0
  {
    hide Follow;
    if log != [] {
      LawfulPrefix(rules, log);
      NeverStarted(rules, log[..|log| - 1]);
      if log[|log| - 1].StartRun? {
        StartNeedsClearance(rules, FollowAll(rules, log[..|log| - 1]), log[|log| - 1]);
      }
    }
  }

  /** What the runtime said of a run last; a run left paused for the operator counts as paused. */
  function Reported(startPaused: bool, answer: RunAnswer): Option<string> {
    match answer
    case NotStarted => None
    case Started(paused, watched) =>
      if startPaused && paused then Some("paused") else if watched.None? then None else watched.value.status
  }

  lemma JudgedAsReported(startPaused: bool, answer: RunAnswer)
    ensures
      var reported, status := Reported(startPaused, answer), StatusAfter(Judge(startPaused, answer));
      && (status == Completed <==> reported == Some("completed"))
      && (status == Cancelled <==> reported == Some("cancelled"))
      && (status == Running <==> reported == Some("paused") || reported == Some("running"))
      && (status == Completed || status == Cancelled || status == Running || status == Failed)
    ensures Judge(startPaused, answer) == Replannable ==> Reported(startPaused, answer) == Some("failed")
  {
    assert |"completed"| == 9 && |"cancelled"| == 9 && |"paused"| == 6 && |"running"| == 7 && |"failed"| == 6;
    assert "completed"[1] == 'o' && "cancelled"[1] == 'a' && "paused"[0] == 'p' && "failed"[0] == 'f';
  }

  /** The runtime's answer to the last run of a log. */
  function LastRun(log: seq<Act>): Option<RunAnswer> {
    if log == [] then None
    else if log[|log| - 1].StartRun? then Some(log[|log| - 1].answer)
    else LastRun(log[..|log| - 1])
  }

  /** What each stage owes to the last run, if there was one. */
  ghost predicate Owed(rules: Rules, p: Progress, last: Option<RunAnswer>) {
    last.Some? ==>
      var attempt := Judge(rules.startPaused, last.value);
      match p.stage
      case Opening => false
      case Drafting(_) => rules.wantsRun && attempt == Replannable
      case Cleared(_) => rules.wantsRun && attempt == Replannable
      case Lost(status) => status == StatusAfter(attempt) && ContactLost(rules.startPaused, last.value)
      case Closing(status) => status == StatusAfter(attempt)
      case Closed => true
      case Astray => true
  }

  lemma StepOwed(rules: Rules, p: Progress, act: Act, last: Option<RunAnswer>)
    requires Owed(rules, p, last) && !Follow(rules, p, act).stage.Astray?
    ensures Owed(rules, Follow(rules, p, act), if act.StartRun? then Some(act.answer) else last)
    ensures act.Write? && last.Some? ==> act.status == StatusAfter(Judge(rules.startPaused, last.value))
  {
    hide Permits, Judge;
  }

  lemma {:induction false} LogOwes(rules: Rules, log: seq<Act>)
    requires Lawful(rules, log)
    ensures Owed(rules, FollowAll(rules, log), LastRun(log))
  {
    hide Follow, Owed;
    if log == [] {
      NothingOwed(rules);
    } else {
      LawfulPrefix(rules, log);
      LogOwes(rules, log[..|log| - 1]);
      StepOwed(rules, FollowAll(rules, log[..|log| - 1]), log[|log| - 1], LastRun(log[..|log| - 1]));
    }
  }

  lemma NothingOwed(rules: Rules)
    ensures Owed(rules, Begin(rules), None)
  {
  }

  /**
   * A session that has run is left with the status the runtime reported for its last run, and with
   * `Failed` for anything else: a refused start, lost contact, or a failure after which no plan came.
   */
  lemma FinalStatusIsTheRuns(rules: Rules, log: seq<Act>)
    requires Lawful(rules, log) && log != [] && log[|log| - 1].Write? && LastRun(log).Some?
    ensures
      var answer, status := LastRun(log).value, log[|log| - 1].status;
      var reported := Reported(rules.startPaused, answer);
      && (status == Completed <==> reported == Some("completed"))
      && (status == Cancelled <==> reported == Some("cancelled"))
      && (status == Running <==> reported == Some("paused") || reported == Some("running"))
      && (status == Completed || status == Cancelled || status == Running || status == Failed)
      && (ContactLost(rules.startPaused, answer) ==> status == Failed)
  {
    hide Follow, Judge, StatusAfter, Reported, ContactLost, Owed;
    var init, last := log[..|log| - 1], log[|log| - 1];
    LawfulPrefix(rules, log);
    LogOwes(rules, init);
    StepOwed(rules, FollowAll(rules, init), last, LastRun(init));
    JudgedAsReported(rules.startPaused, LastRun(log).value);
    LostIsUnreported(rules.startPaused, LastRun(log).value);
  }

  lemma LostIsUnreported(startPaused: bool, answer: RunAnswer)
    ensures ContactLost(startPaused, answer) ==> Reported(startPaused, answer) == None
  {
  }
}
