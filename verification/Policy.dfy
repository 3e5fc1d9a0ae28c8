// The agent's own limits: the budget tracker, whose counters are machine words, and the tool policy.
module Policy {
  import opened Words
  import opened Workflow

  type Word32 = n: nat | n < U32
  type Word64 = n: nat | n < U64

  /** Addition of 64-bit words, dropping the carry. */
  function WrappingAdd(a: Word64, b: Word64): Word64 {
    if a + b < U64 then a + b else a + b - U64
  }

  datatype Exhausted = Steps | Tokens | Time

  /** `late` answers, reading by reading, whether the wall-clock budget is gone. */
  datatype Budget = Budget(maxSteps: Word32, maxTokens: Word64, late: nat -> bool)

  /** Charges are added first and compared afterwards, so a refused charge still counts. */
  class BudgetTracker {
    const budget: Budget
    var steps: Word32
    var tokens: Word64
    var looks: nat

    constructor (budget: Budget)
      ensures this.budget == budget && steps == 0 && tokens == 0 && looks == 0
    {
      this.budget, steps, tokens, looks := budget, 0, 0, 0;
    }

    method ChargeStep() returns (refused: Option<Exhausted>)
      modifies this
      ensures steps == (old(steps) + 1) % U32 && tokens == old(tokens)
      ensures refused == Some(Steps) <==> steps > budget.maxSteps
      ensures refused == Some(Time) <==> steps <= budget.maxSteps && budget.late(old(looks))
      ensures refused != Some(Tokens)
    {
      steps := (steps + 1) % U32;
      if steps > budget.maxSteps {
        return Some(Steps);
      }
      refused := CheckTime();
    }

    method ChargeTokens(amount: Word64) returns (refused: Option<Exhausted>)
      modifies this
      ensures tokens == WrappingAdd(old(tokens), amount) && steps == old(steps)
      ensures refused == Some(Tokens) <==> tokens > budget.maxTokens
      ensures refused == Some(Time) <==> tokens <= budget.maxTokens && budget.late(old(looks))
      ensures refused != Some(Steps)
    {
      tokens := WrappingAdd(tokens, amount);
      if tokens > budget.maxTokens {
        return Some(Tokens);
      }
      refused := CheckTime();
    }

    method CheckTime() returns (refused: Option<Exhausted>)
      modifies this`looks
      ensures refused == if budget.late(old(looks)) then Some(Time) else None
    {
      refused := if budget.late(looks) then Some(Time) else None;
      looks := looks + 1;
    }
  }

  /** The counter after `k` charges from zero. */
  function StepsAfter(k: nat): Word32 {
    k % U32
  }

  /**
   * The step limit is a real limit exactly when it is not the largest 32-bit number: then the first
   * charge past it is refused, and otherwise the counter wraps round and no charge ever is.
   */
  lemma StepLimitBinds(maxSteps: Word32)
    ensures maxSteps < U32 - 1 <==> exists k: nat :: StepsAfter(k) > maxSteps
    ensures maxSteps < U32 - 1 ==> StepsAfter(maxSteps + 1) > maxSteps
    ensures forall k: nat :: k <= maxSteps ==> StepsAfter(k) <= maxSteps
  {
    if maxSteps < U32 - 1 {
      assert StepsAfter(maxSteps + 1) == maxSteps + 1;
    }
  }

  // ------------------------------------------------------------ the tool policy

  datatype Descriptor = Descriptor(nodeType: string, dangerous: bool, permissions: seq<string>)

  datatype ToolPolicy = ToolPolicy(allowed: Option<seq<string>>, denyDangerous: bool, denyPrivileged: bool)

  datatype Refusal = OffAllowlist | Dangerous | Privileged

  function FindDescriptor(descriptors: seq<Descriptor>, nodeType: string): (r: Option<Descriptor>)
    ensures r.Some? ==> r.value in descriptors && r.value.nodeType == nodeType
    ensures r.None? ==> forall d :: d in descriptors ==> d.nodeType != nodeType
  {
    if descriptors == [] then None
    else if descriptors[0].nodeType == nodeType then Some(descriptors[0])
    else FindDescriptor(descriptors[1..], nodeType)
  }

  /** The descriptor that counts for a node type: the first with that type. */
  ghost predicate DescribedAt(descriptors: seq<Descriptor>, nodeType: string, i: nat) {
    i < |descriptors| && descriptors[i].nodeType == nodeType && forall j :: 0 <= j < i ==> descriptors[j].nodeType != nodeType
  }

  lemma {:induction false} FoundIsFirst(descriptors: seq<Descriptor>, nodeType: string, i: nat)
    requires DescribedAt(descriptors, nodeType, i)
    ensures FindDescriptor(descriptors, nodeType) == Some(descriptors[i])
  {
    if i > 0 {
      FoundIsFirst(descriptors[1..], nodeType, i - 1);
    }
  }

  lemma {:induction false} FoundSomewhere(descriptors: seq<Descriptor>, nodeType: string) returns (i: nat)
    requires FindDescriptor(descriptors, nodeType).Some?
    ensures DescribedAt(descriptors, nodeType, i)
  {
    if descriptors[0].nodeType == nodeType {
      i := 0;
    } else {
      i := FoundSomewhere(descriptors[1..], nodeType);
      i := i + 1;
    }
  }

  /** What a policy means for one node: node types the runtime does not know are left to the runtime. */
  predicate Permitted(policy: ToolPolicy, descriptors: seq<Descriptor>, node: Node) {
    && (policy.allowed.Some? ==> node.nodeType in policy.allowed.value)
    && match FindDescriptor(descriptors, node.nodeType)
       case None => true
       case Some(d) => (d.dangerous ==> !policy.denyDangerous) && (d.permissions != [] ==> !policy.denyPrivileged)
  }

  predicate Permits(policy: ToolPolicy, descriptors: seq<Descriptor>, doc: Document) {
    forall n :: n in doc.nodes ==> Permitted(policy, descriptors, n)
  }

  datatype Checked = Passed | Refused(node: Node, why: Refusal)

  ghost predicate FirstOffender(policy: ToolPolicy, descriptors: seq<Descriptor>, doc: Document, i: int, node: Node) {
    && 0 <= i < |doc.nodes| && doc.nodes[i] == node && !Permitted(policy, descriptors, node)
    && forall j :: 0 <= j < i ==> Permitted(policy, descriptors, doc.nodes[j])
  }

  /** Off the allowlist; else known to the runtime as dangerous; else known to need permissions, where that is denied. */
  predicate Explains(policy: ToolPolicy, descriptors: seq<Descriptor>, node: Node, why: Refusal) {
    var listed := policy.allowed.Some? ==> node.nodeType in policy.allowed.value;
    var known := FindDescriptor(descriptors, node.nodeType);
    var dangerous := policy.denyDangerous && known.Some? && known.value.dangerous;
    match why
    case OffAllowlist => !listed
    case Dangerous => listed && dangerous
    case Privileged => listed && !dangerous && policy.denyPrivileged && known.Some? && known.value.permissions != []
  }

  /** The policy holds something against the node. */
  ghost predicate Objection(policy: ToolPolicy, descriptors: seq<Descriptor>, node: Node, why: Refusal) {
    match why
    case OffAllowlist => policy.allowed.Some? && node.nodeType !in policy.allowed.value
    case Dangerous => policy.denyDangerous && exists i: nat :: DescribedAt(descriptors, node.nodeType, i) && descriptors[i].dangerous
    case Privileged =>
      policy.denyPrivileged && exists i: nat :: DescribedAt(descriptors, node.nodeType, i) && descriptors[i].permissions != []
  }

  lemma PermittedMeans(policy: ToolPolicy, descriptors: seq<Descriptor>, node: Node)
    ensures Permitted(policy, descriptors, node) <==> forall why :: !Objection(policy, descriptors, node, why)
    ensures forall why :: Explains(policy, descriptors, node, why) ==> Objection(policy, descriptors, node, why)
    ensures forall why :: Objection(policy, descriptors, node, why) ==>
      Explains(policy, descriptors, node, why) || (why != OffAllowlist && Objection(policy, descriptors, node, OffAllowlist)) ||
      (why == Privileged && Objection(policy, descriptors, node, Dangerous))
  {
    var kind, found := node.nodeType, FindDescriptor(descriptors, node.nodeType);
    forall i: nat | DescribedAt(descriptors, kind, i) ensures found == Some(descriptors[i]) {
      FoundIsFirst(descriptors, kind, i);
    }
    if found.Some? {
      var i := FoundSomewhere(descriptors, kind);
      assert DescribedAt(descriptors, kind, i);
    }
    assert Objection(policy, descriptors, node, Dangerous) <==>
      policy.denyDangerous && found.Some? && found.value.dangerous;
    assert Objection(policy, descriptors, node, Privileged) <==>
      policy.denyPrivileged && found.Some? && found.value.permissions != [];
    assert Objection(policy, descriptors, node, OffAllowlist) <==> policy.allowed.Some? && kind !in policy.allowed.value;
    hide Objection, FindDescriptor;
    forall why ensures Objection(policy, descriptors, node, why) ==> !Permitted(policy, descriptors, node) {
      match why
      case OffAllowlist =>
      case Dangerous =>
      case Privileged =>
    }
  }

  /**
   * A document is permitted if nothing is held against any of its nodes: it is on the allowlist if there is
   * one, and the first descriptor of its type, if there is one, is neither dangerous nor asks for
   * permissions where that is denied.
   */
  lemma PermitsMeans(policy: ToolPolicy, descriptors: seq<Descriptor>, doc: Document)
    ensures Permits(policy, descriptors, doc) <==>
      forall n, why :: n in doc.nodes ==> !Objection(policy, descriptors, n, why)
  {
    hide Permitted, Objection, Explains;
    forall n | n in doc.nodes
      ensures Permitted(policy, descriptors, n) <==> forall why :: !Objection(policy, descriptors, n, why)
    {
      PermittedMeans(policy, descriptors, n);
    }
  }

  /** Passes exactly the permitted documents, and otherwise names the first offending node and the reason. */
  method CheckTools(policy: ToolPolicy, doc: Document, descriptors: seq<Descriptor>) returns (r: Checked)
    ensures r.Passed? <==> Permits(policy, descriptors, doc)
    ensures r.Refused? ==> exists i :: FirstOffender(policy, descriptors, doc, i, r.node)
    ensures r.Refused? ==> forall why :: Explains(policy, descriptors, r.node, why) <==> why == r.why
    ensures r.Passed? <==> forall n, why :: n in doc.nodes ==> !Objection(policy, descriptors, n, why)
    ensures r.Refused? ==> Objection(policy, descriptors, r.node, r.why)
    ensures r.Refused? && r.why != OffAllowlist ==> !Objection(policy, descriptors, r.node, OffAllowlist)
    ensures r.Refused? && r.why == Privileged ==> !Objection(policy, descriptors, r.node, Dangerous)
  {
    hide Objection;
    PermitsMeans(policy, descriptors, doc);
    for i := 0 to |doc.nodes|
      invariant forall j :: 0 <= j < i ==> Permitted(policy, descriptors, doc.nodes[j])
    {
      var node := doc.nodes[i];
      assert !Permitted(policy, descriptors, node) ==> FirstOffender(policy, descriptors, doc, i, node);
      PermittedMeans(policy, descriptors, node);
      if policy.allowed.Some? && node.nodeType !in policy.allowed.value {
        return Refused(node, OffAllowlist);
      }
      var descriptor := FindDescriptor(descriptors, node.nodeType);
      if descriptor.Some? {
        if policy.denyDangerous && descriptor.value.dangerous {
          return Refused(node, Dangerous);
        }
        if policy.denyPrivileged && descriptor.value.permissions != [] {
          return Refused(node, Privileged);
        }
      }
    }
    return Passed;
  }
}
