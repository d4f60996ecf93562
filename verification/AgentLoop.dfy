// The agent loop: decide, run a tool, verify a proposal, reflect on the evidence. The nodes
// share one state; the walker follows the graph until no edge is left. Model replies, tool
// outcomes, clocks and the workspace are an arbitrary environment, one tick per node.

module AgentLoop {
  import opened Common
  import opened Verify
  import opened AgentGraph

  datatype StopReason =
    | MaxSteps | Cancelled | Timeout | InvalidModelOutput | Done
    | CompletedVerified | VerificationFailed | BlockedEnvironment | InternalError

  datatype DecisionKind = Accept | Continue | Repair | Reverify | Blocked

  datatype Decision = Decision(kind: DecisionKind, evidence: set<nat>, failed: seq<ClaimId>, environment: bool)

  /** What the model answers: it raises, it cannot be parsed, it proposes to be done, it calls a tool. */
  datatype Reply = Raises | Unparsable | Proposes(result: string) | Calls(call: Call)

  datatype ReflectReply = ReflectRaises | ReflectUnparsable | Reflects(decision: Decision)

  /** What one node finds in the world. */
  datatype Tick = Tick(
    cancelled: bool, timedOut: bool, reply: Reply, toolOk: bool, files: Workspace, reflection: ReflectReply)

  datatype Signature = Signature(status: Status, failed: set<ClaimId>, uncovered: set<ClaimId>)

  datatype Shared = Shared(
    step: nat, maxSteps: nat, invalid: nat, stop: Option<StopReason>, proposal: Option<string>,
    call: Option<Call>, history: seq<Entry>, result: Option<VerificationResult>, rounds: nat, maxRounds: nat,
    signature: Option<Signature>, signatureCount: nat,
    decideCalls: nat, reflectCalls: nat,            // model calls so far
    verifiedIn: Workspace, verifiedHistory: seq<Entry>)  // what the last verification looked at

  datatype Config = Config(tools: seq<string>, gated: bool, maxInvalid: nat)

  /** How a node leaves: with an action, without one, or by raising. */
  datatype Exit = Action(name: string) | NoAction | Exception

  function InitialState(maxSteps: nat, maxRounds: nat): Shared {
    Shared(0, maxSteps, 0, None, None, None, [], None, 0, maxRounds, None, 0, 0, 0, map[], [])
  }

  function ToolName(c: Call): string {
    match c
    case FileWrite(_, _) => "file_write"
    case FileEdit(_, _) => "file_edit"
    case Bash(_) => "bash"
    case OtherTool(name) => name
  }

  /** parse_action: a call of an unknown tool is invalid output, and "done" is always a proposal. */
  predicate Invalid(tools: seq<string>, r: Reply) {
    r.Unparsable? || (r.Calls? && (ToolName(r.call) !in tools || ToolName(r.call) == "done"))
  }

  function DecideNode(cfg: Config, s: Shared, t: Tick): (Shared, Exit) {
    if s.step >= s.maxSteps then
      (s.(stop := if s.stop.Some? then s.stop else Some(MaxSteps)), Action("halt"))
    else if t.cancelled then (s.(stop := Some(Cancelled)), Action("halt"))
    else if t.timedOut then (s.(stop := Some(Timeout)), Action("halt"))
    else if t.reply.Raises? then (s.(decideCalls := s.decideCalls + 1), Exception)
    else
      var u := s.(step := s.step + 1, decideCalls := s.decideCalls + 1);
      if Invalid(cfg.tools, t.reply) then
        var v := u.(invalid := u.invalid + 1, history := u.history + [Entry(u.step, OtherTool("model_output"), false)]);
        if v.invalid >= cfg.maxInvalid then (v.(stop := Some(InvalidModelOutput)), Action("halt"))
        else (v, Action("retry"))
      else
        match t.reply
        case Proposes(result) => (u.(invalid := 0, proposal := Some(result), stop := Some(Done)), Action("done"))
        case Calls(c) => (u.(invalid := 0, call := Some(c)), Action(ToolName(c)))
  }

  function ToolNode(s: Shared, t: Tick): (Shared, Exit) {
    if s.call.None? then (s, Exception)
    else (s.(history := s.history + [Entry(s.step, s.call.value, t.toolOk)], call := None), Action("default"))
  }

  function VerifyNode(s: Shared, t: Tick): (Shared, Exit) {
    if s.proposal.None? then (s, Exception)
    else
      match Execute(t.files, s.history, PlanOf(s.history))
      case None => (s, Exception)
      case Some(r) => (s.(result := Some(r), verifiedIn := t.files, verifiedHistory := s.history), Action("default"))
  }

  function SignatureOf(r: VerificationResult): Signature {
    Signature(r.status, r.failed, r.uncovered)
  }

  /** register_failure_signature: how often in a row the verification failed in the same way. */
  function Registered(s: Shared, r: VerificationResult): Shared {
    if s.signature == Some(SignatureOf(r)) then s.(signatureCount := s.signatureCount + 1)
    else s.(signature := Some(SignatureOf(r)), signatureCount := 1)
  }

  /** Evidence is numbered from 1. */
  function EvidenceIds(n: nat): set<nat> {
    if n == 0 then {} else EvidenceIds(n - 1) + {n}
  }

  /** validate_reflection_decision: no invented evidence, no accepting what did not pass, no
      failed claim left out. */
  predicate Valid(d: Decision, r: VerificationResult) {
    && d.evidence <= EvidenceIds(|r.evidence|)
    && (d.kind == Accept ==> r.status == Passed)
    && (r.failed != {} && d.kind != Accept ==> multiset(d.failed) == multiset(r.failed))
  }

  function AcceptDecision(r: VerificationResult): Decision {
    Decision(Accept, EvidenceIds(|r.evidence|), [], false)
  }

  function Follow(s: Shared, d: Decision): (Shared, Exit) {
    match d.kind
    case Accept => (s.(stop := Some(CompletedVerified)), Action("done"))
    case Repair => (s.(stop := None), Action("default"))
    case Continue => (s.(stop := None), Action("default"))
    case Reverify => (s, Action("reverify"))
    case Blocked => (s.(stop := Some(if d.environment then BlockedEnvironment else VerificationFailed)), Action("done"))
  }

  function ReflectNode(s: Shared, t: Tick): (Shared, Exit) {
    if s.result.None? then (s.(stop := Some(InternalError)), Action("done"))
    else
      var r := s.result.value;
      if r.status == Passed then Follow(s, AcceptDecision(r))
      else
        var u := s.(rounds := s.rounds + 1);
        if u.rounds > u.maxRounds then Follow(u, Decision(Blocked, {}, [], false))
        else
          var v := Registered(u, r);
          if v.signatureCount >= v.maxRounds then Follow(v, Decision(Blocked, {}, [], false))
          else
            var w := v.(reflectCalls := v.reflectCalls + 1);
            match t.reflection
            case ReflectRaises => (w, Exception)
            case ReflectUnparsable => (w.(stop := Some(InternalError)), Action("done"))
            case Reflects(d) =>
              if Valid(d, r) then Follow(w, d) else (w.(stop := Some(InternalError)), Action("done"))
  }

  function CompletedNode(s: Shared): (Shared, Exit) {
    (s.(stop := if s.stop.Some? then s.stop else Some(Done)), NoAction)
  }

  function RunNode(cfg: Config, n: Node, s: Shared, t: Tick): (Shared, Exit) {
    match n
    case Decide => DecideNode(cfg, s, t)
    case Tool(_) => ToolNode(s, t)
    case VerifyDone => VerifyNode(s, t)
    case Reflect => ReflectNode(s, t)
    case Completed => CompletedNode(s)
  }

  datatype Machine = At(node: Node, s: Shared) | Ended(s: Shared) | Raised(s: Shared)

  function Go(cfg: Config, n: Node, u: Shared, exit: Exit): Machine {
    match exit
    case Exception => Raised(u)
    case NoAction => Ended(u)
    case Action(a) =>
      match Successor(Wired(cfg.tools, cfg.gated), n, a)
      case Some(m) => At(m, u)
      case None => Ended(u)
  }

  /** One turn of the walker: run the node, then follow its action. */
  function Turn(cfg: Config, n: Node, s: Shared, t: Tick): Machine {
    var (u, exit) := RunNode(cfg, n, s, t);
    Go(cfg, n, u, exit)
  }

  // ---- what every turn keeps ----

  ghost predicate VerifiedNow(s: Shared) {
    && s.result.Some? && s.verifiedHistory == s.history
    && Execute(s.verifiedIn, s.history, PlanOf(s.history)) == s.result
  }

  /** The counters, and what each node finds. */
  ghost predicate Inv(cfg: Config, n: Node, s: Shared) {
    && s.decideCalls <= s.step <= s.maxSteps && s.reflectCalls <= s.rounds <= s.maxRounds + 1 && s.reflectCalls <= s.maxRounds
    && (n != Completed ==> s.rounds <= s.maxRounds)
    && (match n
        case Decide => s.stop.None?
        case Tool(name) => s.stop.None? && s.call.Some? && name in cfg.tools
        case VerifyDone => cfg.gated && s.proposal.Some? && s.stop == Some(Done)
        case Reflect => cfg.gated && s.proposal.Some? && s.stop == Some(Done) && VerifiedNow(s)
        case Completed =>
          && (s.stop == Some(CompletedVerified) ==> VerifiedNow(s) && s.result.value.status == Passed)
          && (cfg.gated && "halt" !in cfg.tools ==> s.stop.Some? && s.stop != Some(Done)))
  }

  /** A tool with an empty name leads nowhere, unless another one is called "default". */
  predicate Stray(tools: seq<string>) {
    "" in tools && "default" !in tools
  }

  /** What holds when the walker stops. */
  ghost predicate Final(cfg: Config, s: Shared) {
    && s.decideCalls <= s.maxSteps && s.reflectCalls <= s.maxRounds
    && (s.stop == Some(CompletedVerified) ==> VerifiedNow(s) && s.result.value.status == Passed)
    && (cfg.gated && "halt" !in cfg.tools ==> s.stop != Some(Done))
    && (!Stray(cfg.tools) ==> s.stop.Some?)
  }

  ghost predicate MachineOk(cfg: Config, m: Machine) {
    match m
    case At(n, s) => Inv(cfg, n, s)
    case Ended(s) => Final(cfg, s)
    case Raised(s) => s.decideCalls <= s.maxSteps && s.reflectCalls <= s.maxRounds
  }

  function Rank(n: Node): nat {
    match n case Completed => 0 case Decide => 1 case Tool(_) => 2 case Reflect => 2 case VerifyDone => 3
  }

  /** What is left to do: steps, reflection rounds, and the way to the next decision. */
  function Measure(n: Node, s: Shared): int {
    3 * (s.maxSteps - s.step) + 2 * (s.maxRounds + 1 - s.rounds) + Rank(n)
  }

  // ---- one turn ----

  /** How the reflection node leaves: back to work in a new round, or for good. */
  ghost predicate Reflected(s: Shared, u: Shared, exit: Exit) {
    && u.step == s.step && u.maxSteps == s.maxSteps && u.maxRounds == s.maxRounds && u.decideCalls == s.decideCalls
    && u.proposal == s.proposal && u.result == s.result && s.rounds <= u.rounds
    && u.reflectCalls <= u.rounds <= s.maxRounds + 1 && u.reflectCalls <= s.maxRounds
    && match exit
       case NoAction => false
       case Exception => true
       case Action(a) =>
         || (a == "default" && u.stop.None? && s.rounds < u.rounds <= s.maxRounds)
         || (a == "reverify" && u.stop == Some(Done) && s.rounds < u.rounds <= s.maxRounds)
         || (a == "done" && u.stop.Some? && u.stop != Some(Done)
             && (u.stop == Some(CompletedVerified) ==> s.result.Some? && s.result.value.status == Passed))
  }

  lemma ReflectNodeKeeps(cfg: Config, s: Shared, t: Tick)
    requires Inv(cfg, Reflect, s)
    ensures var (u, exit) := ReflectNode(s, t); Reflected(s, u, exit) && VerifiedNow(u)
  {
    hide EvidenceIds, SignatureOf, Execute, PlanOf;
  }

  /** How the decision node leaves: stopped, or with a step spent. */
  ghost predicate Decided(cfg: Config, s: Shared, u: Shared, exit: Exit) {
    && u.maxSteps == s.maxSteps && u.maxRounds == s.maxRounds && u.rounds == s.rounds && u.reflectCalls == s.reflectCalls
    && u.decideCalls <= s.maxSteps && s.step <= u.step <= s.maxSteps
    && match exit
       case NoAction => false
       case Exception => true
       case Action(a) =>
         && u.decideCalls <= u.step
         && (|| (a == "halt" && u.stop.Some? && u.stop != Some(Done) && u.stop != Some(CompletedVerified))
             || (a == "retry" && u.stop.None? && s.step < u.step)
             || (a == "done" && u.stop == Some(Done) && u.proposal.Some? && s.step < u.step)
             || (a in cfg.tools && a != "done" && u.stop.None? && u.call.Some? && s.step < u.step))
  }

  lemma DecideNodeKeeps(cfg: Config, s: Shared, t: Tick)
    requires Inv(cfg, Decide, s)
    ensures var (u, exit) := DecideNode(cfg, s, t); Decided(cfg, s, u, exit)
  {
    hide ToolName, VerifiedNow;
  }

  lemma DecideGoes(cfg: Config, s: Shared, u: Shared, exit: Exit)
    requires Inv(cfg, Decide, s) && Decided(cfg, s, u, exit)
    ensures MachineOk(cfg, Go(cfg, Decide, u, exit))
    ensures var m := Go(cfg, Decide, u, exit); m.At? ==> Measure(m.node, m.s) < Measure(Decide, s)
  {
    if exit.Action? { Edges(cfg.tools, cfg.gated, Decide, exit.name); }
    hide Wired, Successor, VerifiedNow;
  }

  lemma DecideKeeps(cfg: Config, s: Shared, t: Tick)
    requires Inv(cfg, Decide, s)
    ensures MachineOk(cfg, Turn(cfg, Decide, s, t))
    ensures Turn(cfg, Decide, s, t).At? ==> Measure(Turn(cfg, Decide, s, t).node, Turn(cfg, Decide, s, t).s) < Measure(Decide, s)
  {
    DecideNodeKeeps(cfg, s, t);
    var (u, exit) := DecideNode(cfg, s, t);
    hide DecideNode, Inv, MachineOk, Decided, Measure, VerifiedNow, Go;
    DecideGoes(cfg, s, u, exit);
  }

  lemma ToolKeeps(cfg: Config, name: string, s: Shared, t: Tick)
    requires Inv(cfg, Tool(name), s)
    ensures MachineOk(cfg, Turn(cfg, Tool(name), s, t))
    ensures var m := Turn(cfg, Tool(name), s, t); m.At? ==> Measure(m.node, m.s) < Measure(Tool(name), s)
  {
    Edges(cfg.tools, cfg.gated, Tool(name), "default");
    hide Wired, Successor;
  }

  lemma VerifyKeeps(cfg: Config, s: Shared, t: Tick)
    requires Inv(cfg, VerifyDone, s)
    ensures MachineOk(cfg, Turn(cfg, VerifyDone, s, t))
    ensures var m := Turn(cfg, VerifyDone, s, t); m.At? ==> Measure(m.node, m.s) < Measure(VerifyDone, s)
  {
    Edges(cfg.tools, cfg.gated, VerifyDone, "default");
    hide Wired, Successor, Execute, PlanOf;
  }

  lemma ReflectGoes(cfg: Config, s: Shared, u: Shared, exit: Exit)
    requires Inv(cfg, Reflect, s) && Reflected(s, u, exit) && VerifiedNow(u)
    ensures MachineOk(cfg, Go(cfg, Reflect, u, exit))
    ensures var m := Go(cfg, Reflect, u, exit); m.At? ==> Measure(m.node, m.s) < Measure(Reflect, s)
  {
    if exit.Action? { Edges(cfg.tools, cfg.gated, Reflect, exit.name); }
    hide Wired, Successor, VerifiedNow;
  }

  lemma ReflectKeeps(cfg: Config, s: Shared, t: Tick)
    requires Inv(cfg, Reflect, s)
    ensures MachineOk(cfg, Turn(cfg, Reflect, s, t))
    ensures var m := Turn(cfg, Reflect, s, t); m.At? ==> Measure(m.node, m.s) < Measure(Reflect, s)
  {
    ReflectNodeKeeps(cfg, s, t);
    var (u, exit) := ReflectNode(s, t);
    hide ReflectNode, Inv, MachineOk, Reflected, Measure, VerifiedNow, Go;
    ReflectGoes(cfg, s, u, exit);
  }

  /** Every turn keeps the invariant and leaves less to do; the branch of the reflection node
      for a missing result is never taken. */
  lemma TurnKeeps(cfg: Config, n: Node, s: Shared, t: Tick)
    requires Inv(cfg, n, s)
    ensures MachineOk(cfg, Turn(cfg, n, s, t))
    ensures var m := Turn(cfg, n, s, t); m.At? ==> 0 <= Measure(m.node, m.s) < Measure(n, s)
  {
    match n
    case Decide => DecideKeeps(cfg, s, t);
    case Tool(name) => ToolKeeps(cfg, name, s, t);
    case VerifyDone => VerifyKeeps(cfg, s, t);
    case Reflect => ReflectKeeps(cfg, s, t);
    case Completed =>
  }

  // ---- whole runs ----

  /** The run from a node; the environment gives one tick per node run. */
  ghost function Run(cfg: Config, n: Node, s: Shared, env: nat -> Tick, i: nat): Machine
    requires Inv(cfg, n, s)
    decreases Measure(n, s)
  {
    TurnKeeps(cfg, n, s, env(i));
    match Turn(cfg, n, s, env(i))
    case At(m, u) => Run(cfg, m, u, env, i + 1)
    case Ended(u) => Ended(u)
    case Raised(u) => Raised(u)
  }

  ghost function Turns(cfg: Config, n: Node, s: Shared, env: nat -> Tick, i: nat): nat
    requires Inv(cfg, n, s)
    decreases Measure(n, s)
  {
    TurnKeeps(cfg, n, s, env(i));
    match Turn(cfg, n, s, env(i))
    case At(m, u) => 1 + Turns(cfg, m, u, env, i + 1)
    case _ => 1
  }

  lemma {:induction false} RunKeeps(cfg: Config, n: Node, s: Shared, env: nat -> Tick, i: nat)
    requires Inv(cfg, n, s)
    ensures !Run(cfg, n, s, env, i).At? && MachineOk(cfg, Run(cfg, n, s, env, i))
    ensures Turns(cfg, n, s, env, i) <= Measure(n, s) + 1
    ensures Run(cfg, n, s, env, i).s.maxSteps == s.maxSteps && Run(cfg, n, s, env, i).s.maxRounds == s.maxRounds
    decreases Measure(n, s)
  {
    assert 0 <= Measure(n, s);
    hide Turn, Inv, Final;
    TurnKeeps(cfg, n, s, env(i));
    BoundsStay(cfg, n, s, env(i));
    var m := Turn(cfg, n, s, env(i));
    if m.At? { RunKeeps(cfg, m.node, m.s, env, i + 1); }
  }

  lemma BoundsStay(cfg: Config, n: Node, s: Shared, t: Tick)
    ensures Turn(cfg, n, s, t).s.maxSteps == s.maxSteps && Turn(cfg, n, s, t).s.maxRounds == s.maxRounds
  {
    hide Successor, Wired, Execute, PlanOf, Valid;
  }

  ghost function RunAgent(cfg: Config, maxSteps: nat, maxRounds: nat, env: nat -> Tick): Machine {
    Run(cfg, Decide, InitialState(maxSteps, maxRounds), env, 0)
  }

  /** Whatever the model, the tools and the clock do, a run ends: it asks the model at most
      max_steps times for a decision and at most max_reflection_rounds times for a reflection. */
  lemma RunsAreBounded(cfg: Config, maxSteps: nat, maxRounds: nat, env: nat -> Tick)
    ensures var r := RunAgent(cfg, maxSteps, maxRounds, env);
            !r.At? && r.s.decideCalls <= maxSteps && r.s.reflectCalls <= maxRounds
    ensures Inv(cfg, Decide, InitialState(maxSteps, maxRounds))
    ensures Turns(cfg, Decide, InitialState(maxSteps, maxRounds), env, 0) <= 3 * maxSteps + 2 * maxRounds + 4
  {
    RunKeeps(cfg, Decide, InitialState(maxSteps, maxRounds), env, 0);
    hide Run, Turns;
  }

  // ---- what the last verification saw ----

  /** The machine before turn k. */
  ghost function Before(cfg: Config, n: Node, s: Shared, env: nat -> Tick, i: nat, k: nat): Machine
    requires Inv(cfg, n, s)
    decreases k
  {
    TurnKeeps(cfg, n, s, env(i));
    if k == 0 then At(n, s)
    else
      match Turn(cfg, n, s, env(i))
      case At(m, u) => Before(cfg, m, u, env, i + 1, k - 1)
      case stopped => stopped
  }

  /** Only the verification gate touches the result and what it was computed from. */
  lemma NodeVerifies(cfg: Config, n: Node, s: Shared, t: Tick)
    ensures var (u, exit) := RunNode(cfg, n, s, t);
            && (n != VerifyDone ==> u.result == s.result && u.verifiedIn == s.verifiedIn && u.verifiedHistory == s.verifiedHistory)
            && (n == VerifyDone && exit != Exception ==> u.verifiedIn == t.files && u.verifiedHistory == s.history)
  {
    hide Execute, PlanOf, Valid, Invalid, EvidenceIds, SignatureOf;
    match n case _ =>
  }

  lemma TurnVerifies(cfg: Config, n: Node, s: Shared, t: Tick)
    ensures var m := Turn(cfg, n, s, t);
            && (n != VerifyDone ==>
                  m.s.result == s.result && m.s.verifiedIn == s.verifiedIn && m.s.verifiedHistory == s.verifiedHistory)
            && (n == VerifyDone && !m.Raised? ==> m.s.verifiedIn == t.files && m.s.verifiedHistory == s.history)
  {
    NodeVerifies(cfg, n, s, t);
    hide RunNode, Successor, Wired;
  }

  ghost predicate GateAt(cfg: Config, n: Node, s: Shared, env: nat -> Tick, i: nat, k: nat)
    requires Inv(cfg, n, s)
  {
    Before(cfg, n, s, env, i, k).At? && Before(cfg, n, s, env, i, k).node == VerifyDone
  }

  lemma GateNext(cfg: Config, n: Node, s: Shared, env: nat -> Tick, i: nat, k: nat)
    requires Inv(cfg, n, s) && Turn(cfg, n, s, env(i)).At? && k > 0
    ensures var m := Turn(cfg, n, s, env(i));
            && Inv(cfg, m.node, m.s)
            && Before(cfg, n, s, env, i, k) == Before(cfg, m.node, m.s, env, i + 1, k - 1)
            && (GateAt(cfg, n, s, env, i, k) <==> GateAt(cfg, m.node, m.s, env, i + 1, k - 1))
  {
    TurnKeeps(cfg, n, s, env(i));
    hide Turn, Inv, Final;
  }

  /** What the last verification of a run saw: k is its turn, or -1 when there was none. */
  ghost predicate LastGate(cfg: Config, n: Node, s: Shared, env: nat -> Tick, i: nat, k: int)
    requires Inv(cfg, n, s)
  {
    var r := Run(cfg, n, s, env, i).s;
    && -1 <= k < Turns(cfg, n, s, env, i)
    && (forall l: nat :: k < l < Turns(cfg, n, s, env, i) ==> !GateAt(cfg, n, s, env, i, l))
    && (if k == -1 then r.result == s.result
        else GateAt(cfg, n, s, env, i, k) && r.verifiedIn == env(i + k).files
             && r.verifiedHistory == Before(cfg, n, s, env, i, k).s.history)
  }

  lemma {:induction false} LastVerification(cfg: Config, n: Node, s: Shared, env: nat -> Tick, i: nat) returns (k: int)
    requires Inv(cfg, n, s) && Run(cfg, n, s, env, i).Ended?
    ensures LastGate(cfg, n, s, env, i, k)
    ensures k == -1 ==> var r := Run(cfg, n, s, env, i).s; r.verifiedIn == s.verifiedIn && r.verifiedHistory == s.verifiedHistory
    decreases Measure(n, s)
  {
    hide Turn, Inv, Final;
    TurnKeeps(cfg, n, s, env(i));
    TurnVerifies(cfg, n, s, env(i));
    var m := Turn(cfg, n, s, env(i));
    assert Before(cfg, n, s, env, i, 0) == At(n, s);
    if m.At? {
      var last := LastVerification(cfg, m.node, m.s, env, i + 1);
      forall l: nat | 0 < l < Turns(cfg, n, s, env, i)
        ensures Before(cfg, n, s, env, i, l) == Before(cfg, m.node, m.s, env, i + 1, l - 1)
        ensures GateAt(cfg, n, s, env, i, l) <==> GateAt(cfg, m.node, m.s, env, i + 1, l - 1)
      {
        GateNext(cfg, n, s, env, i, l);
      }
      k := if last >= 0 then last + 1 else if n == VerifyDone then 0 else -1;
    } else {
      k := if n == VerifyDone then 0 else -1;
    }
  }

  /** A run that ends with "completed_verified" was verified at the last turn k at which the gate
      looked, and has recorded nothing since. */
  lemma LastGatePassed(cfg: Config, maxSteps: nat, maxRounds: nat, env: nat -> Tick) returns (k: nat)
    requires RunAgent(cfg, maxSteps, maxRounds, env).Ended?
    requires RunAgent(cfg, maxSteps, maxRounds, env).s.stop == Some(CompletedVerified)
    ensures var (s, r) := (InitialState(maxSteps, maxRounds), RunAgent(cfg, maxSteps, maxRounds, env).s);
            && k < Turns(cfg, Decide, s, env, 0) && GateAt(cfg, Decide, s, env, 0, k)
            && (forall l: nat :: k < l < Turns(cfg, Decide, s, env, 0) ==> !GateAt(cfg, Decide, s, env, 0, l))
            && Before(cfg, Decide, s, env, 0, k).s.history == r.history
            && Execute(env(k).files, r.history, PlanOf(r.history)) == r.result && r.result.Some?
            && r.result.value.status == Passed
  {
    var s := InitialState(maxSteps, maxRounds);
    RunKeeps(cfg, Decide, s, env, 0);
    var r := RunAgent(cfg, maxSteps, maxRounds, env);
    assert s.result.None? && Final(cfg, r.s);
    hide Run, Execute, PlanOf, Turns, Before, GateAt;
    var last := LastVerification(cfg, Decide, s, env, 0);
    assert last != -1;
    k := last;
  }

  /** A gated run can end with "done", unverified, iff a tool is called "halt": the runtime's
      halt edge then swallows the call, and the terminal node fills in the missing reason. */
  lemma GatedDoneIff(cfg: Config, maxSteps: nat, maxRounds: nat)
    requires cfg.gated && 1 <= maxSteps
    ensures (exists env :: RunAgent(cfg, maxSteps, maxRounds, env).Ended?
                           && RunAgent(cfg, maxSteps, maxRounds, env).s.stop == Some(Done))
            <==> "halt" in cfg.tools
  {
    if "halt" in cfg.tools {
      var env := Always(OtherTool("halt"));
      HaltCall(cfg, maxSteps, maxRounds, env);
      assert RunAgent(cfg, maxSteps, maxRounds, env).Ended?;
    } else {
      forall env ensures !(RunAgent(cfg, maxSteps, maxRounds, env).Ended?
                           && RunAgent(cfg, maxSteps, maxRounds, env).s.stop == Some(Done))
      {
        RunKeeps(cfg, Decide, InitialState(maxSteps, maxRounds), env, 0);
      }
    }
  }

  /** A run can end without a stop reason iff a tool has an empty name and none is "default". */
  lemma NoReasonIff(cfg: Config, maxSteps: nat, maxRounds: nat)
    requires 1 <= maxSteps
    ensures (exists env :: RunAgent(cfg, maxSteps, maxRounds, env).Ended?
                           && RunAgent(cfg, maxSteps, maxRounds, env).s.stop.None?)
            <==> Stray(cfg.tools)
  {
    if Stray(cfg.tools) {
      var env := Always(OtherTool(""));
      StrayCall(cfg, maxSteps, maxRounds, env);
      assert RunAgent(cfg, maxSteps, maxRounds, env).Ended?;
    } else {
      forall env ensures !(RunAgent(cfg, maxSteps, maxRounds, env).Ended?
                           && RunAgent(cfg, maxSteps, maxRounds, env).s.stop.None?)
      {
        RunKeeps(cfg, Decide, InitialState(maxSteps, maxRounds), env, 0);
      }
    }
  }

  /** A model that only ever calls one tool. */
  function Always(c: Call): nat -> Tick {
    (i: nat) => Tick(false, false, Calls(c), true, map[], ReflectRaises)
  }

  lemma HaltCall(cfg: Config, maxSteps: nat, maxRounds: nat, env: nat -> Tick)
    requires "halt" in cfg.tools && 1 <= maxSteps && env == Always(OtherTool("halt"))
    ensures RunAgent(cfg, maxSteps, maxRounds, env).Ended?
            && RunAgent(cfg, maxSteps, maxRounds, env).s.stop == Some(Done)
  {
    var s := InitialState(maxSteps, maxRounds);
    Edges(cfg.tools, cfg.gated, Decide, "halt");
    hide Wired, Successor;
    TurnKeeps(cfg, Decide, s, env(0));
    var m := Turn(cfg, Decide, s, env(0));
    assert m.At? && m.node == Completed && m.s.stop.None?;
    assert Turn(cfg, Completed, m.s, env(1)) == Ended(m.s.(stop := Some(Done)));
    assert Run(cfg, Completed, m.s, env, 1) == Ended(m.s.(stop := Some(Done)));
  }

  lemma StrayCall(cfg: Config, maxSteps: nat, maxRounds: nat, env: nat -> Tick)
    requires Stray(cfg.tools) && 1 <= maxSteps && env == Always(OtherTool(""))
    ensures RunAgent(cfg, maxSteps, maxRounds, env).Ended? && RunAgent(cfg, maxSteps, maxRounds, env).s.stop.None?
  {
    var s := InitialState(maxSteps, maxRounds);
    Edges(cfg.tools, cfg.gated, Decide, "");
    hide Wired, Successor;
    var m := Turn(cfg, Decide, s, env(0));
    assert m.Ended? && m.s.stop.None?;
  }
}
