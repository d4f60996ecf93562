// Where each node of the agent leads, by what it finds in the state and in the world, and what
// the counters of a run count.

module AgentRules {
  import opened Common
  import opened Verify
  import opened AgentGraph
  import opened AgentLoop
  import opened AgentHistory

  /** A run that stops at a decision ends in the terminal node, with the reason. */
  predicate Stops(m: Machine, reason: StopReason) {
    m.At? && m.node == Completed && m.s.stop == Some(reason)
  }

  /** A decision: out of steps, cancelled, out of time, in this order and before the model is
      asked; an unusable answer is one more in a row, and the last one allowed stops the run; a
      proposal goes to the gate if there is one; a call goes to its tool, unless its name is one
      of the runtime's own. */
  lemma DecideLeads(cfg: Config, s: Shared, t: Tick)
    requires Inv(cfg, Decide, s)
    ensures var m := Turn(cfg, Decide, s, t);
            if s.step == s.maxSteps then Stops(m, MaxSteps) && m.s.decideCalls == s.decideCalls
            else if t.cancelled then Stops(m, Cancelled) && m.s.decideCalls == s.decideCalls
            else if t.timedOut then Stops(m, Timeout) && m.s.decideCalls == s.decideCalls
            else
              && m.s.decideCalls == s.decideCalls + 1
              && match t.reply
                 case Raises => m.Raised? && m.s.step == s.step
                 case Unparsable => Answered(cfg, s, t, m)
                 case Proposes(result) =>
                   && m.At? && m.s.step == s.step + 1 && m.s.invalid == 0
                   && m.node == (if cfg.gated then VerifyDone else Completed) && m.s.stop == Some(Done) && m.s.proposal == Some(result)
                 case Calls(c) => Answered(cfg, s, t, m)
  {
    var (u, exit) := DecideNode(cfg, s, t);
    if exit.Action? { Edges(cfg.tools, cfg.gated, Decide, exit.name); }
    hide Wired, Successor;
  }

  predicate Answered(cfg: Config, s: Shared, t: Tick, m: Machine) {
    && m.s.step == s.step + 1
    && (Unusable(cfg.tools, t.reply) ==>
          && m.s.invalid == s.invalid + 1
          && if s.invalid + 1 >= cfg.maxInvalid then Stops(m, InvalidModelOutput) else m.At? && m.node == Decide && m.s.stop.None?)
    && (!Unusable(cfg.tools, t.reply) && t.reply.Calls? ==>
          && m.s.invalid == 0 && m.s.call == Some(t.reply.call) && m.s.stop.None?
          && var name := if ToolName(t.reply.call) == "" then "default" else ToolName(t.reply.call);
             if name == "halt" then m.At? && m.node == Completed
             else if name == "retry" then m.At? && m.node == Decide
             else if name in cfg.tools then m.At? && m.node == Tool(name)
             else m.Ended?)
  }

  /** A tool goes back to deciding with nothing pending. */
  lemma ToolLeads(cfg: Config, name: string, s: Shared, t: Tick)
    requires Inv(cfg, Tool(name), s)
    ensures var m := Turn(cfg, Tool(name), s, t);
            m.At? && m.node == Decide && m.s.call.None? && m.s.invalid == s.invalid && m.s.step == s.step
  {
    Edges(cfg.tools, cfg.gated, Tool(name), "default");
    hide Wired, Successor;
  }

  /** The gate goes to reflection with the verdict on the history and the files of now, or raises
      if a check does. */
  lemma GateLeads(cfg: Config, s: Shared, t: Tick)
    requires Inv(cfg, VerifyDone, s)
    ensures var (m, r) := (Turn(cfg, VerifyDone, s, t), Execute(t.files, s.history, PlanOf(s.history)));
            if r.None? then m.Raised? else m.At? && m.node == Reflect && m.s.result == r && m.s.history == s.history
                                           && m.s.invalid == s.invalid && m.s.step == s.step
  {
    Edges(cfg.tools, cfg.gated, VerifyDone, "default");
    hide Wired, Successor, Execute, PlanOf;
  }

  /** A decision of the reflection model that may be followed: it cites evidence there is, accepts
      only what passed, and repeats every failed claim once. */
  ghost predicate Admissible(d: Decision, r: VerificationResult) {
    && (forall e :: e in d.evidence ==> 1 <= e <= |r.evidence|)
    && (d.kind == Accept ==> r.status == Passed)
    && (d.kind != Accept && r.failed != {} ==> forall c :: multiset(d.failed)[c] == if c in r.failed then 1 else 0)
  }

  lemma {:induction false} EvidenceIs(n: nat)
    ensures forall e :: e in EvidenceIds(n) <==> 1 <= e <= n
  {
    if n > 0 { EvidenceIs(n - 1); }
  }

  lemma ValidIff(d: Decision, r: VerificationResult)
    ensures Valid(d, r) <==> Admissible(d, r)
  {
    EvidenceIs(|r.evidence|);
    hide EvidenceIds;
    if forall c :: multiset(d.failed)[c] == multiset(r.failed)[c] { assert multiset(d.failed) == multiset(r.failed); }
    assert forall c :: multiset(r.failed)[c] == if c in r.failed then 1 else 0;
  }

  /** How often in a row the verification has failed with this status and these claims. */
  function Repeats(s: Shared, r: VerificationResult): nat {
    match s.signature
    case None => 1
    case Some(g) =>
      if g.status == r.status && g.failed == r.failed && g.uncovered == r.uncovered then s.signatureCount + 1 else 1
  }

  /** Reflection on a verdict: passed is accepted without asking; out of rounds, or as many equal
      failures in a row as there are rounds, blocks without asking; otherwise the model decides
      within what is admissible. */
  lemma ReflectLeads(cfg: Config, s: Shared, t: Tick)
    requires Inv(cfg, Reflect, s)
    ensures var (m, r) := (Turn(cfg, Reflect, s, t), s.result.value);
            if r.status == Passed then Stops(m, CompletedVerified) && m.s.reflectCalls == s.reflectCalls && m.s.rounds == s.rounds
            else
              && m.s.rounds == s.rounds + 1
              && if s.rounds + 1 > s.maxRounds || Repeats(s, r) >= s.maxRounds
                 then Stops(m, VerificationFailed) && m.s.reflectCalls == s.reflectCalls
                 else
                   && m.s.reflectCalls == s.reflectCalls + 1 && m.s.signatureCount == Repeats(s, r)
                   && m.s.signature == Some(Signature(r.status, r.failed, r.uncovered))
                   && match t.reflection
                      case ReflectRaises => m.Raised?
                      case ReflectUnparsable => Stops(m, InternalError)
                      case Reflects(d) => if Admissible(d, r) then Followed(m, d) else Stops(m, InternalError)
  {
    ReflectExits(s, t);
    ReflectGated(cfg, s);
    var (u, exit) := ReflectNode(s, t);
    hide Inv, ReflectNode, Repeats, Admissible;
    if exit.Action? { Edges(cfg.tools, cfg.gated, Reflect, exit.name); }
    TurnGoes(cfg, Reflect, s, t);
    hide Wired, Successor, Turn;
  }

  lemma TurnGoes(cfg: Config, n: Node, s: Shared, t: Tick)
    ensures var (u, exit) := RunNode(cfg, n, s, t); Turn(cfg, n, s, t) == Go(cfg, n, u, exit)
    ensures RunNode(cfg, Reflect, s, t) == ReflectNode(s, t)
  {
    hide ReflectNode, Go;
  }

  lemma ReflectGated(cfg: Config, s: Shared)
    requires Inv(cfg, Reflect, s)
    ensures cfg.gated
  {
  }

  lemma ReflectExits(s: Shared, t: Tick)
    requires s.result.Some?
    ensures var ((u, exit), r) := (ReflectNode(s, t), s.result.value);
            if r.status == Passed then exit == Action("done") && u.stop == Some(CompletedVerified) && u.reflectCalls == s.reflectCalls && u.rounds == s.rounds
            else
              && u.rounds == s.rounds + 1
              && if s.rounds + 1 > s.maxRounds || Repeats(s, r) >= s.maxRounds
                 then exit == Action("done") && u.stop == Some(VerificationFailed) && u.reflectCalls == s.reflectCalls
                 else
                   && u.reflectCalls == s.reflectCalls + 1 && u.signatureCount == Repeats(s, r)
                   && u.signature == Some(Signature(r.status, r.failed, r.uncovered))
                   && match t.reflection
                      case ReflectRaises => exit == Exception
                      case ReflectUnparsable => exit == Action("done") && u.stop == Some(InternalError)
                      case Reflects(d) =>
                        if Admissible(d, r) then Exits(u, exit, d) else exit == Action("done") && u.stop == Some(InternalError)
  {
    if t.reflection.Reflects? { ValidIff(t.reflection.decision, s.result.value); }
    hide EvidenceIds, Valid, Admissible;
  }

  predicate Exits(u: Shared, exit: Exit, d: Decision) {
    match d.kind
    case Accept => exit == Action("done") && u.stop == Some(CompletedVerified)
    case Continue => exit == Action("default") && u.stop.None?
    case Repair => exit == Action("default") && u.stop.None?
    case Reverify => exit == Action("reverify")
    case Blocked => exit == Action("done") && u.stop == Some(if d.environment then BlockedEnvironment else VerificationFailed)
  }

  /** Continue and repair go back to work, reverify to the gate, blocked to the end. */
  predicate Followed(m: Machine, d: Decision) {
    match d.kind
    case Accept => Stops(m, CompletedVerified)
    case Continue => m.At? && m.node == Decide && m.s.stop.None?
    case Repair => m.At? && m.node == Decide && m.s.stop.None?
    case Reverify => m.At? && m.node == VerifyDone
    case Blocked => Stops(m, if d.environment then BlockedEnvironment else VerificationFailed)
  }

  /** The terminal node ends the run, with "done" if there is no reason yet. */
  lemma CompletedLeads(cfg: Config, s: Shared, t: Tick)
    ensures var m := Turn(cfg, Completed, s, t);
            m.Ended? && m.s.stop == if s.stop.None? then Some(Done) else s.stop
  {
  }

  // ---- what the counters count ----

  ghost predicate DecidesAt(cfg: Config, maxSteps: nat, maxRounds: nat, env: nat -> Tick, k: nat) {
    Moment(cfg, maxSteps, maxRounds, env, k).At? && Moment(cfg, maxSteps, maxRounds, env, k).node == Decide
  }

  ghost predicate UnusableAt(cfg: Config, maxSteps: nat, maxRounds: nat, env: nat -> Tick, k: nat) {
    && DecidesAt(cfg, maxSteps, maxRounds, env, k)
    && Asks(Moment(cfg, maxSteps, maxRounds, env, k).s, env(k)) && Unusable(cfg.tools, env(k).reply)
  }

  ghost function Decisions(cfg: Config, maxSteps: nat, maxRounds: nat, env: nat -> Tick, k: nat): nat {
    if k == 0 then 0
    else Decisions(cfg, maxSteps, maxRounds, env, k - 1) + if DecidesAt(cfg, maxSteps, maxRounds, env, k - 1) then 1 else 0
  }

  lemma TurnCounts(cfg: Config, n: Node, s: Shared, t: Tick)
    requires Inv(cfg, n, s) && n != Completed
    ensures var m := Turn(cfg, n, s, t);
            m.At? && m.node != Completed ==>
              && m.s.step == s.step + (if n == Decide then 1 else 0)
              && m.s.invalid == (if n != Decide then s.invalid else if Unusable(cfg.tools, t.reply) then s.invalid + 1 else 0)
              && (n == Decide ==> Asks(s, t))
              && (n == Decide && Unusable(cfg.tools, t.reply) ==> m.node == Decide)
  {
    hide Turn, Inv, Unusable, Execute, PlanOf;
    match n
    case Decide => DecideCounts(cfg, s, t);
    case Tool(name) => ToolLeads(cfg, name, s, t);
    case VerifyDone => GateLeads(cfg, s, t);
    case Reflect => ReflectCounts(cfg, s, t);
  }

  lemma DecideCounts(cfg: Config, s: Shared, t: Tick)
    requires Inv(cfg, Decide, s)
    ensures var m := Turn(cfg, Decide, s, t);
            m.At? && m.node != Completed ==>
              && m.s.step == s.step + 1 && Asks(s, t)
              && m.s.invalid == (if Unusable(cfg.tools, t.reply) then s.invalid + 1 else 0)
              && (Unusable(cfg.tools, t.reply) ==> m.node == Decide)
  {
    DecideLeads(cfg, s, t);
    StepBound(cfg, s);
    hide Turn, Inv;
  }

  lemma StepBound(cfg: Config, s: Shared)
    requires Inv(cfg, Decide, s)
    ensures s.step <= s.maxSteps
  {
  }

  lemma ReflectCounts(cfg: Config, s: Shared, t: Tick)
    ensures var m := Turn(cfg, Reflect, s, t); m.s.step == s.step && m.s.invalid == s.invalid
  {
    hide Successor, Wired, Valid;
  }

  /** At work, a run has spent one step per decision; and the counter of unusable answers is the
      length of their unbroken row up to now. */
  lemma {:induction false} CountersCount(cfg: Config, maxSteps: nat, maxRounds: nat, env: nat -> Tick, k: nat)
    requires Moment(cfg, maxSteps, maxRounds, env, k).At? && Moment(cfg, maxSteps, maxRounds, env, k).node != Completed
    ensures var s := Moment(cfg, maxSteps, maxRounds, env, k).s;
            && s.step == Decisions(cfg, maxSteps, maxRounds, env, k)
            && s.invalid <= k
            && (forall j: nat :: k - s.invalid <= j < k ==> UnusableAt(cfg, maxSteps, maxRounds, env, j))
            && (s.invalid < k ==> !UnusableAt(cfg, maxSteps, maxRounds, env, k - s.invalid - 1))
            && (Moment(cfg, maxSteps, maxRounds, env, k).node != Decide ==> s.invalid == 0)
  {
    hide Turn, Inv, Unusable, Moment;
    MomentStep(cfg, maxSteps, maxRounds, env, k);
    if k > 0 {
      MomentStep(cfg, maxSteps, maxRounds, env, k - 1);
      var m := Moment(cfg, maxSteps, maxRounds, env, k - 1);
      CompletedEnds(cfg, m, env(k - 1));
      CountersCount(cfg, maxSteps, maxRounds, env, k - 1);
      TurnCounts(cfg, m.node, m.s, env(k - 1));
    }
  }

  lemma CompletedEnds(cfg: Config, m: Machine, t: Tick)
    ensures m.At? && m.node == Completed ==> !Turn(cfg, m.node, m.s, t).At?
  {
    if m.At? && m.node == Completed { CompletedLeads(cfg, m.s, t); }
  }
}
