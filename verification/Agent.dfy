// The agent's session: a bounded loop of planning, guardrails, one review and at most two runs, over a
// model and a runtime that may answer anything.
module Agent {
  import opened Words
  import opened Workflow
  import opened Policy
  import opened AgentProtocol

  /** What the provider returns to one call; no content stands for a provider error. */
  datatype Reply = Reply(content: Option<string>, tokens: Word32)

  datatype Config = Config(
    maxRepairs: Word32,
    budget: Budget,
    tools: ToolPolicy,
    autoRun: bool,
    startPaused: bool,
    publishSession: bool,
    offline: bool,
    sessionId: Option<string>)

  /** The other side: the runtime's answers, the model's replies, and the validators as pure functions. */
  datatype World = World(
    traceOpens: bool,
    sessionLoads: bool,
    created: Option<string>,
    catalogue: Option<seq<Descriptor>>,
    replies: nat -> Reply,
    runs: nat -> RunAnswer,
    extract: string -> Option<Document>,
    validates: Document -> bool,
    uninformed: Document -> bool)

  datatype Failure = OutOfBudget(why: Exhausted) | ProviderFailed | CatalogueUnavailable

  datatype Planned = Broken(failure: Failure) | Plan(doc: Option<Document>, accepted: bool, repairs: nat, tokens: Word64)

  datatype Exit =
    | NoTrace
    | Aborted(failure: Failure)
    | Unplanned
    | Blocked(node: Node, why: Refusal)
    | PlanReady(doc: Document)
    | Ran(doc: Document, attempt: Attempt)

  /** The status the runtime is told at the end. */
  function StatusOf(exit: Exit): SessionStatus {
    match exit
    case PlanReady(_) => Ready
    case Ran(_, attempt) => StatusAfter(attempt)
    case _ => Failed
  }

  function RulesOf(config: Config, world: World, run: bool): Rules {
    Rules(config.maxRepairs, config.tools,
          if config.offline || world.catalogue.None? then [] else world.catalogue.value,
          world.uninformed, run || config.autoRun, config.startPaused, Resumes(config, world))
  }

  /** The node types the guardrails judge by are those the runtime listed; offline there are none. */
  predicate KnowsTheCatalogue(config: Config, world: World, rules: Rules) {
    && (config.offline ==> rules.descriptors == [])
    && (!config.offline && world.catalogue.Some? ==> rules.descriptors == world.catalogue.value)
  }

  predicate Resumes(config: Config, world: World) {
    !config.offline && config.publishSession && config.sessionId.Some? && world.sessionLoads
  }

  /** A draft is accepted when it parses and validates. */
  predicate Acceptable(world: World, raw: string) {
    world.extract(raw).Some? && world.validates(world.extract(raw).value)
  }

  /** The tokens of a stretch of replies, summed in a 64-bit word. */
  function TokensIn(world: World, first: nat, n: nat): Word64 {
    if n == 0 then 0 else WrappingAdd(TokensIn(world, first, n - 1), world.replies(first + n - 1).tokens)
  }

  function TrueTokens(world: World, first: nat, n: nat): nat {
    if n == 0 then 0 else TrueTokens(world, first, n - 1) + world.replies(first + n - 1).tokens
  }

  /** Below the saturation of the step counter, no session can overflow its token counters. */
  lemma {:induction false} TokensFit(world: World, first: nat, n: nat)
    requires n < U32
    ensures TokensIn(world, first, n) == TrueTokens(world, first, n) <= n * (U32 - 1)
  {
    if n > 0 {
      TokensFit(world, first, n - 1);
      assert n * (U32 - 1) == (n - 1) * (U32 - 1) + (U32 - 1);
      assert n * (U32 - 1) <= (U32 - 1) * (U32 - 1);
    }
  }

  lemma {:induction false} TokensConcat(world: World, first: nat, n: nat, k: nat)
    ensures TokensIn(world, first, n + k) == WrappingAdd(TokensIn(world, first, n), TokensIn(world, first + n, k))
  {
    if k > 0 {
      TokensConcat(world, first, n, k - 1);
      var t := world.replies(first + n + k - 1).tokens;
      assert TokensIn(world, first, n + k) == WrappingAdd(TokensIn(world, first, n + (k - 1)), t);
      assert TokensIn(world, first + n, k) == WrappingAdd(TokensIn(world, first + n, k - 1), t);
      WrapsAssociate(TokensIn(world, first, n), TokensIn(world, first + n, k - 1), t);
    }
  }

  lemma WrapsAssociate(a: Word64, b: Word64, t: Word64)
    ensures WrappingAdd(WrappingAdd(a, b), t) == WrappingAdd(a, WrappingAdd(b, t))
  {
  }

  class Session {
    const config: Config
    const world: World
    const rules: Rules
    const tracker: BudgetTracker
    var session: Option<string>
    var log: seq<Act>
    var calls: nat
    var starts: nat
    ghost var charges: nat
    ghost var at: Progress

    ghost predicate Valid()
      reads this, tracker
    {
      && at == FollowAll(rules, log) && !at.stage.Astray?
      && calls == CallsIn(log) && starts == StartsIn(log)
      && rules.maxRepairs == config.maxRepairs && rules.tools == config.tools
      && rules.uninformed == world.uninformed && rules.startPaused == config.startPaused
      && KnowsTheCatalogue(config, world, rules)
      && tracker.budget == config.budget
      && Metered()
    }

    /** Every call was charged before it was made, and the counter is the number of charges. */
    ghost predicate Metered()
      reads this, tracker
    {
      && calls <= charges <= calls + 1
      && tracker.steps == StepsAfter(charges)
      && (config.budget.maxSteps < U32 - 1 ==> calls <= config.budget.maxSteps)
    }

    constructor (config: Config, world: World, run: bool)
      ensures Valid() && fresh(tracker) && session == None && log == [] && charges == calls == 0
      ensures this.config == config && this.world == world && rules == RulesOf(config, world, run)
      ensures at == Begin(rules) && tracker.tokens == 0
    {
      this.config, this.world, this.rules := config, world, RulesOf(config, world, run);
      tracker := new BudgetTracker(config.budget);
      session, log, calls, starts := None, [], 0, 0;
      charges, at := 0, Begin(RulesOf(config, world, run));
    }

    /** Everything but the log, its acceptor and the script positions stays as it was. */
    method Perform(act: Act)
      requires Valid() && !act.ModelCall? && !Follow(rules, at, act).stage.Astray?
      modifies this`log, this`at, this`starts
      ensures Valid()
      ensures log == old(log) + [act] && at == Follow(rules, old(at), act)
      ensures starts == old(starts) + (if act.StartRun? then 1 else 0)
    {
      hide Follow;
      log := log + [act];
      at := Follow(rules, at, act);
      assert log[..|log| - 1] == old(log);
      if act.StartRun? {
        starts := starts + 1;
      }
    }

    method CallModel() returns (reply: Reply)
      requires Valid() && charges == calls + 1
      requires at.stage.Drafting? && at.stage.calls <= rules.maxRepairs
      requires tracker.steps <= config.budget.maxSteps
      modifies this`log, this`at, this`calls
      ensures Valid() && charges == calls && calls == old(calls) + 1
      ensures at == old(at).(stage := Drafting(old(at).stage.calls + 1))
      ensures log == old(log) + [ModelCall] && reply == world.replies(old(calls))
    {
      reply := world.replies(calls);
      log := log + [ModelCall];
      at := Follow(rules, at, ModelCall);
      assert log[..|log| - 1] == old(log);
      calls := calls + 1;
    }

    /** The planner charges before each model call. */
    method Ask() returns (reply: Planned, content: string)
      requires Valid() && charges == calls && at.stage.Drafting? && at.stage.calls <= rules.maxRepairs
      modifies this`log, this`at, this`calls, this`charges, tracker
      ensures Valid() && tracker.tokens == old(tracker.tokens)
      ensures at == old(at).(stage := at.stage) && at.stage.Drafting?
      ensures reply.Plan? ==>
        && charges == calls == old(calls) + 1 && at.stage.calls == old(at).stage.calls + 1
        && log == old(log) + [ModelCall]
        && world.replies(old(calls)).content == Some(content) && reply.tokens == world.replies(old(calls)).tokens
      ensures reply.Broken? ==> calls <= old(calls) + 1
    {
      hide Follow, FollowAll, CallsIn, StartsIn, KnowsTheCatalogue;
      charges := charges + 1;
      var refused := tracker.ChargeStep();
      if refused.Some? {
        return Broken(OutOfBudget(refused.value)), "";
      }
      var answer := CallModel();
      if answer.content.None? {
        return Broken(ProviderFailed), "";
      }
      return Plan(None, false, 0, answer.tokens), answer.content.value;
    }

    /** Draft, then repair until the draft is accepted or the repair budget is used up. */
    method MakePlan() returns (plan: Planned)
      requires Valid() && charges == calls && at.stage == Drafting(0)
      modifies this`log, this`at, this`calls, this`charges, tracker
      ensures Valid() && tracker.tokens == old(tracker.tokens)
      ensures at == old(at).(stage := at.stage) && at.stage.Drafting?
      ensures calls <= old(calls) + config.maxRepairs + 1
      ensures plan.Plan? ==>
        && charges == calls == old(calls) + plan.repairs + 1 && at.stage.calls == plan.repairs + 1
        && plan.tokens == TokensIn(world, old(calls), plan.repairs + 1)
        && DraftedBy(world, old(calls), plan, config.maxRepairs)
    {
      hide Follow, CallsIn, StartsIn, FollowAll, Metered;
      ghost var first := calls;
      var asked, raw := Ask();
      if asked.Broken? {
        return asked;
      }
      var repairs, tokens := 0, asked.tokens;
      while !Acceptable(world, raw) && repairs < config.maxRepairs
        invariant Valid() && charges == calls == first + repairs + 1
        invariant at == old(at).(stage := Drafting(repairs + 1))
        invariant repairs <= config.maxRepairs
        invariant tracker.tokens == old(tracker.tokens)
        invariant world.replies(calls - 1).content == Some(raw)
        invariant RejectedSoFar(world, first, repairs)
        invariant tokens == TokensIn(world, first, repairs + 1)
      {
        repairs := repairs + 1;
        asked, raw := Ask();
        if asked.Broken? {
          return asked;
        }
        tokens := WrappingAdd(tokens, asked.tokens);
      }
      plan := Plan(world.extract(raw), Acceptable(world, raw), repairs, tokens);
    }

    /** A session starts at its own drafting stage; a resumed one says so to the runtime first. */
    method Open()
      requires Valid() && session.None? && log == [] && at == Begin(rules) && charges == calls
      requires rules.resumed == Resumes(config, world)
      modifies this`session, this`log, this`at, this`starts
      ensures Valid() && charges == calls == old(calls)
      ensures at == Progress(Drafting(0), 1, 0, false)
      ensures session == OpenedAs(config, world)
      ensures log == if rules.resumed then [Write(Planning)] else []
    {
      if config.offline || !config.publishSession {
        return;
      }
      if config.sessionId.None? {
        session := world.created;
      } else if world.sessionLoads {
        Perform(Write(Planning));
        session := config.sessionId;
      }
    }

    /** The last word to the runtime, if a session was published. */
    method Finish(exit: Exit)
      requires Valid() && MayEnd(rules, at, StatusOf(exit))
      modifies this`log, this`at, this`starts
      ensures Valid() && starts == old(starts) && at == old(at).(stage := at.stage) && !at.stage.Lost?
      ensures session.Some? ==> at.stage.Closed? && log == old(log) + [Write(StatusOf(exit))]
      ensures session.None? ==> log == old(log)
    {
      if session.Some? {
        Perform(Write(StatusOf(exit)));
      }
    }

    /** Guardrails look at the plan before it is published or run. */
    method Vet(doc: Document) returns (proposal: Proposal)
      requires Valid() && at.stage.Drafting? && at.stage.calls > 0
      modifies this`log, this`at, this`starts
      ensures Valid()
      ensures proposal == Admitted(doc) || (proposal.Stop? && proposal.exit.Blocked? && Told(proposal.exit))
      ensures proposal.Admitted? ==> at == old(at).(stage := Cleared(doc))
      ensures proposal.Admitted? <==> Permits(rules.tools, rules.descriptors, doc)
      ensures !config.offline && world.catalogue.Some? ==>
        (proposal.Admitted? <==> Permits(config.tools, world.catalogue.value, doc))
      ensures proposal.Stop? ==>
        proposal.exit.node in doc.nodes && Objection(rules.tools, rules.descriptors, proposal.exit.node, proposal.exit.why)
    {
      var checked := CheckTools(rules.tools, doc, rules.descriptors);
      hide Objection;
      Perform(Judged(doc, checked.Passed?));
      match checked
      case Refused(node, why) =>
        proposal := Stop(Blocked(node, why));
        Finish(proposal.exit);
      case Passed =>
        proposal := Admitted(doc);
    }

    /** One planning attempt: a plan within budget that the guardrails let through, or the end. */
    method Propose(tokensUsed: Word64) returns (proposal: Proposal, used: Word64)
      requires Valid() && charges == calls && at.stage == Drafting(0) && tracker.tokens == tokensUsed
      requires tokensUsed == TokensIn(world, 0, calls)
      modifies this`log, this`at, this`calls, this`starts, this`charges, tracker
      ensures Valid()
      ensures proposal.Admitted? ==>
        && charges == calls > old(calls)
        && at == old(at).(stage := Cleared(proposal.doc)) && Permits(rules.tools, rules.descriptors, proposal.doc)
        && used == tracker.tokens == TokensIn(world, 0, calls) <= config.budget.maxTokens
      ensures proposal.Stop? ==> Told(proposal.exit) && (proposal.exit.Aborted? || proposal.exit.Unplanned? || proposal.exit.Blocked?)
      ensures proposal.Stop? && !proposal.exit.Aborted? ==> used == TokensIn(world, 0, calls) <= config.budget.maxTokens
    {
      hide Follow, CallsIn, StartsIn, FollowAll, Acceptable, TokensIn;
      var plan := MakePlan();
      used := tokensUsed;
      if plan.Broken? {
        proposal := Stop(Aborted(plan.failure));
        Finish(proposal.exit);
        return;
      }
      TokensConcat(world, 0, old(calls), plan.repairs + 1);
      var refused := tracker.ChargeTokens(plan.tokens);
      if refused.Some? {
        proposal := Stop(Aborted(OutOfBudget(refused.value)));
        Finish(proposal.exit);
        return;
      }
      used := WrappingAdd(tokensUsed, plan.tokens);
      if plan.doc.None? {
        proposal := Stop(Unplanned);
        Finish(proposal.exit);
        return;
      }
      proposal := Vet(plan.doc.value);
    }

    /** What an exit leaves behind, on the side of the runtime. */
    ghost predicate Told(exit: Exit)
      reads this
    {
      !at.stage.Lost? && (session.Some? ==> at.stage.Closed? && log != [] && log[|log| - 1] == Write(StatusOf(exit)))
    }

    /** Start the run and watch it; if contact is lost, cancel it. */
    method RunOnce(doc: Document) returns (attempt: Attempt)
      requires Valid() && at.stage == Cleared(doc) && rules.wantsRun
      requires at.reviewed || !rules.uninformed(doc)
      requires at.runs < MAX_RUN_ATTEMPTS
      modifies this`log, this`at, this`starts
      ensures Valid()
      ensures starts == old(starts) + 1 && attempt == Judge(config.startPaused, world.runs(old(starts)))
      ensures StartRun(doc, world.runs(old(starts))) in log
      ensures
        var runs := old(at).runs + 1;
        at == if attempt == Replannable && runs < MAX_RUN_ATTEMPTS then NextAttempt(old(at).(runs := runs))
              else old(at).(runs := runs, stage := Closing(StatusAfter(attempt)))
    {
      var answer := world.runs(starts);
      attempt := Judge(config.startPaused, answer);
      Perform(StartRun(doc, answer));
      if ContactLost(config.startPaused, answer) {
        Perform(CancelRun);
      }
    }

    /** The one review of a session sends the plan back. */
    method Review(doc: Document)
      requires Valid() && at.stage == Cleared(doc) && !at.reviewed && rules.uninformed(doc)
      modifies this`log, this`at, this`starts
      ensures Valid() && at == NextAttempt(old(at).(reviewed := true)) && starts == old(starts)
    {
      hide FollowAll, Permits, Metered;
      Perform(Reviewed);
    }

    method Publish(doc: Document)
      requires Valid() && at.stage == Cleared(doc) && (at.reviewed || !rules.uninformed(doc))
      modifies this`log, this`at, this`starts
      ensures Valid() && at == old(at)
    {
      if session.Some? {
        Perform(Published(doc));
      }
    }

    /** The last run was of this document, and this is what the runtime made of it. */
    ghost predicate RanWith(exit: Exit)
      requires exit.Ran?
      reads this
    {
      && starts > 0 && StartRun(exit.doc, world.runs(starts - 1)) in log
      && exit.attempt == Judge(config.startPaused, world.runs(starts - 1))
    }

    method Work() returns (exit: Exit, used: Word64)
      requires Valid() && charges == calls == 0 && at == Progress(Drafting(0), 1, 0, false) && tracker.tokens == 0
      modifies this`log, this`at, this`calls, this`starts, this`charges, tracker
      ensures Valid() && Told(exit) && !exit.NoTrace?
      ensures !config.offline && world.catalogue.None? ==>
        exit == Aborted(CatalogueUnavailable) && forall a :: a in log ==> a in old(log) || a.Write?
      ensures exit.Ran? && exit.attempt == Replannable ==> at.runs == 2
      ensures exit.PlanReady? ==> !rules.wantsRun && Permits(rules.tools, rules.descriptors, exit.doc)
      ensures exit.Ran? ==> rules.wantsRun && Permits(rules.tools, rules.descriptors, exit.doc) && RanWith(exit)
      ensures !exit.Aborted? ==> used == TokensIn(world, 0, calls) <= config.budget.maxTokens
    {
      hide Permits, Judge, Follow, FollowAll, CallsIn, StartsIn, Metered;
      used := 0;
      if !config.offline && world.catalogue.None? {
        exit := Aborted(CatalogueUnavailable);
        Finish(exit);
        return;
      }
      var attempts, runAttempts, reviewed := 0, 0, false;
      while true
        invariant Valid() && charges == calls
        invariant at == Progress(Drafting(0), attempts + 1, runAttempts, reviewed) && runAttempts < MAX_RUN_ATTEMPTS
        invariant used == tracker.tokens == TokensIn(world, 0, calls)
        decreases MAX_RUN_ATTEMPTS - runAttempts + if reviewed then 0 else 1
      {
        attempts := attempts + 1;
        var proposal: Proposal;
        proposal, used := Propose(used);
        if proposal.Stop? {
          return proposal.exit, used;
        }
        var doc := proposal.doc;
        if !reviewed && world.uninformed(doc) {
          reviewed := true;
          Review(doc);
          continue;
        }
        Publish(doc);
        if !rules.wantsRun {
          exit := PlanReady(doc);
          Finish(exit);
          return;
        }
        runAttempts := runAttempts + 1;
        var attempt := RunOnce(doc);
        if attempt != Replannable || runAttempts >= MAX_RUN_ATTEMPTS {
          exit := Ran(doc, attempt);
          Finish(exit);
          return;
        }
      }
    }
  }

  datatype Proposal = Stop(exit: Exit) | Admitted(doc: Document)

  /** The stages at which a session may end with this status. */
  predicate MayEnd(rules: Rules, p: Progress, status: SessionStatus) {
    match p.stage
    case Drafting(_) => status == Failed
    case Closing(s) => status == s
    case Cleared(doc) => status == Ready && !rules.wantsRun && (p.reviewed || !rules.uninformed(doc))
    case _ => false
  }

  /** The session the runtime knows about: none offline or unpublished, or when it cannot be had. */
  function OpenedAs(config: Config, world: World): Option<string> {
    if config.offline || !config.publishSession then None
    else if config.sessionId.None? then world.created
    else if world.sessionLoads then config.sessionId
    else None
  }

  /** The first `n` replies from `first` on were drafts that did not pass. */
  ghost predicate RejectedSoFar(world: World, first: nat, n: nat) {
    forall i :: first <= i < first + n ==>
      var draft := world.replies(i).content;
      draft.Some? && (world.extract(draft.value).Some? ==> !world.validates(world.extract(draft.value).value))
  }

  /** The plan is the last draft: the first acceptable one, or the one after the last repair allowed. */
  ghost predicate DraftedBy(world: World, first: nat, plan: Planned, maxRepairs: nat)
    requires plan.Plan?
  {
    var last := world.replies(first + plan.repairs).content;
    && plan.repairs <= maxRepairs
    && RejectedSoFar(world, first, plan.repairs)
    && last.Some? && plan.doc == world.extract(last.value)
    && (plan.accepted <==> plan.doc.Some? && world.validates(plan.doc.value))
    && (!plan.accepted ==> plan.repairs == maxRepairs)
  }

  /** What the runtime is told last, by how the session ended. */
  ghost predicate SaysHowItEnded(exit: Exit, status: SessionStatus) {
    match exit
    case PlanReady(_) => status == Ready
    case Ran(_, Succeeded) => status == Completed
    case Ran(_, Replannable) => status == SessionStatus.Failed
    case Ran(_, Terminal(reported)) =>
      && (reported == Some("cancelled") ==> status == Cancelled)
      && (reported == Some("paused") || reported == Some("running") ==> status == Running)
      && (reported !in {Some("cancelled"), Some("paused"), Some("running")} ==> status == SessionStatus.Failed)
    case _ => status == SessionStatus.Failed
  }

  lemma StatusSaysHowItEnded(exit: Exit)
    ensures SaysHowItEnded(exit, StatusOf(exit)) && StatusOf(exit) != Planning
  {
    assert "cancelled"[0] == 'c' && "paused"[0] == 'p' && "running"[0] == 'r';
  }

  /** Whatever a session publishes or runs, the guardrails permit by this catalogue. */
  ghost predicate Guarded(tools: ToolPolicy, catalogue: seq<Descriptor>, log: seq<Act>) {
    forall i :: 0 <= i < |log| ==>
      && (log[i].StartRun? ==> Permits(tools, catalogue, log[i].doc))
      && (log[i].Published? ==> Permits(tools, catalogue, log[i].doc))
  }

  lemma LawfulIsGuarded(rules: Rules, log: seq<Act>)
    requires Lawful(rules, log)
    ensures Guarded(rules.tools, rules.descriptors, log)
  {
    hide Lawful, Permits;
    forall i | 0 <= i < |log|
      ensures log[i].StartRun? ==> Permits(rules.tools, rules.descriptors, log[i].doc)
      ensures log[i].Published? ==> Permits(rules.tools, rules.descriptors, log[i].doc)
    {
      if log[i].StartRun? {
        RunsAreClearedFirst(rules, log, i);
      } else if log[i].Published? {
        PlansAreClearedFirst(rules, log, i);
      }
    }
  }

  lemma OnlyWritesAreGuarded(tools: ToolPolicy, catalogue: seq<Descriptor>, log: seq<Act>)
    requires forall a :: a in log ==> a.Write?
    ensures Guarded(tools, catalogue, log) && StartsIn(log) == CallsIn(log) == 0
  {
    forall i | 0 <= i < |log| ensures log[i].Write? {
      assert log[i] in log;
    }
    WritesStartNothing(log);
  }

  lemma {:induction false} WritesStartNothing(log: seq<Act>)
    requires forall i :: 0 <= i < |log| ==> log[i].Write?
    ensures StartsIn(log) == CallsIn(log) == 0
  {
    if log != [] {
      WritesStartNothing(log[..|log| - 1]);
    }
  }

  /**
   * A whole session, for every provider and runtime. It ends; it stays within its budgets; its log is
   * lawful; what it publishes or runs is permitted by the catalogue the runtime listed; it runs something
   * only if a run was asked for, and leaves a plan only if none was; and if the runtime knows about the
   * session, the last thing it hears is how it ended.
   */
  method Converse(config: Config, world: World, run: bool) returns (s: Session, exit: Exit, used: Word64)
    ensures fresh(s) && Lawful(s.rules, s.log)
    ensures s.rules.maxRepairs == config.maxRepairs && s.rules.tools == config.tools
    ensures s.rules.uninformed == world.uninformed && s.rules.startPaused == config.startPaused
    ensures s.rules.wantsRun <==> run || config.autoRun
    ensures s.rules.resumed <==> !config.offline && config.publishSession && config.sessionId.Some? && world.sessionLoads
    ensures !config.offline && world.catalogue.Some? ==> s.rules.descriptors == world.catalogue.value
    ensures !config.offline && world.catalogue.Some? ==> Guarded(config.tools, world.catalogue.value, s.log)
    ensures !config.offline && world.catalogue.None? ==>
      StartsIn(s.log) == CallsIn(s.log) == 0 && (world.traceOpens ==> exit == Aborted(CatalogueUnavailable))
    ensures config.offline ==> Guarded(config.tools, [], s.log)
    ensures run || config.autoRun ==> !exit.PlanReady?
    ensures !run && !config.autoRun ==> StartsIn(s.log) == 0 && !exit.Ran?
    ensures CallsIn(s.log) <= 3 * (config.maxRepairs + 1) && StartsIn(s.log) <= 2
    ensures config.budget.maxSteps < U32 - 1 ==> CallsIn(s.log) <= config.budget.maxSteps
    ensures 3 * (config.maxRepairs + 1) < U32 ==> CallsIn(s.log) <= config.budget.maxSteps
    ensures !exit.NoTrace? && !exit.Aborted? ==> used == TokensIn(world, 0, CallsIn(s.log)) <= config.budget.maxTokens
    ensures exit.NoTrace? <==> !world.traceOpens
    ensures config.offline || !config.publishSession || !world.traceOpens ==> s.session == None
    ensures world.traceOpens && !config.offline && config.publishSession ==>
      s.session == if config.sessionId.None? then world.created else if world.sessionLoads then config.sessionId else None
    ensures exit.Ran? ==> s.starts == StartsIn(s.log) > 0 && s.RanWith(exit)
    ensures exit.Ran? && exit.attempt == Replannable ==> StartsIn(s.log) == 2
    ensures s.log != [] ==> !LostRun(config.startPaused, s.log[|s.log| - 1])
    ensures s.session.Some? ==>
      s.log != [] && s.log[|s.log| - 1].Write? && SaysHowItEnded(exit, s.log[|s.log| - 1].status)
  {
    hide Permits, SaysHowItEnded;
    s := new Session(config, world, run);
    if !world.traceOpens {
      return s, NoTrace, 0;
    }
    s.Open();
    exit, used := s.Work();
    SessionsAreBounded(s.rules, s.log);
    LawfulIsGuarded(s.rules, s.log);
    LogIsMeasured(s.rules, s.log);
    LostIsLast(s.rules, s.log);
    StatusSaysHowItEnded(exit);
    if !s.rules.wantsRun {
      NeverStarted(s.rules, s.log);
    }
    if !config.offline && world.catalogue.None? {
      OnlyWritesAreGuarded(config.tools, [], s.log);
    }
  }
}
