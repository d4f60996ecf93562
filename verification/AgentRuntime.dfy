// The agent as it is written: nodes that update the shared state in place, and the walker's
// loop over the wired graph. Each is proved to do what the functions of AgentLoop say.

module AgentRuntime {
  import opened Common
  import opened Verify
  import opened AgentGraph
  import opened AgentLoop

  class Runtime {
    const cfg: Config
    const graph: FlowGraph
    var shared: Shared

    ghost predicate Wired()
      reads this, graph
    {
      graph.successors == AgentGraph.Wired(cfg.tools, cfg.gated)
    }

    constructor (cfg: Config)
      ensures this.cfg == cfg && fresh(graph) && Wired()
    {
      this.cfg := cfg;
      var g := new FlowGraph();
      g.BuildReactFlow(cfg.tools, cfg.gated);
      graph := g;
      shared := InitialState(0, 0);
    }

    method DecideAction(t: Tick) returns (exit: Exit)
      modifies this`shared
      ensures (shared, exit) == DecideNode(cfg, old(shared), t)
    {
      if shared.step >= shared.maxSteps {
        if shared.stop.None? { shared := shared.(stop := Some(MaxSteps)); }
        return Action("halt");
      }
      if t.cancelled {
        shared := shared.(stop := Some(Cancelled));
        return Action("halt");
      }
      if t.timedOut {
        shared := shared.(stop := Some(Timeout));
        return Action("halt");
      }
      shared := shared.(decideCalls := shared.decideCalls + 1);
      if t.reply.Raises? { return Exception; }
      shared := shared.(step := shared.step + 1);
      if Invalid(cfg.tools, t.reply) {
        shared := shared.(invalid := shared.invalid + 1);
        shared := shared.(history := shared.history + [Entry(shared.step, OtherTool("model_output"), false)]);
        if shared.invalid >= cfg.maxInvalid {
          shared := shared.(stop := Some(InvalidModelOutput));
          return Action("halt");
        }
        return Action("retry");
      }
      shared := shared.(invalid := 0);
      match t.reply
      case Proposes(result) =>
        shared := shared.(proposal := Some(result), stop := Some(Done));
        return Action("done");
      case Calls(c) =>
        shared := shared.(call := Some(c));
        return Action(ToolName(c));
    }

    method ExecuteTool(t: Tick) returns (exit: Exit)
      modifies this`shared
      ensures (shared, exit) == ToolNode(old(shared), t)
    {
      if shared.call.None? { return Exception; }
      shared := shared.(history := shared.history + [Entry(shared.step, shared.call.value, t.toolOk)]);
      shared := shared.(call := None);
      exit := Action("default");
    }

    method VerifyDoneProposal(t: Tick) returns (exit: Exit)
      modifies this`shared
      ensures (shared, exit) == VerifyNode(old(shared), t)
    {
      if shared.proposal.None? { return Exception; }
      var plan := BuildVerificationPlan(shared.history);
      var r := ExecuteVerificationPlan(t.files, shared.history, plan);
      if r.None? { return Exception; }
      shared := shared.(result := r, verifiedIn := t.files, verifiedHistory := shared.history);
      exit := Action("default");
    }

    method RegisterFailureSignature(r: VerificationResult)
      modifies this`shared
      ensures shared == Registered(old(shared), r)
    {
      var signature := SignatureOf(r);
      if shared.signature == Some(signature) {
        shared := shared.(signatureCount := shared.signatureCount + 1);
      } else {
        shared := shared.(signature := Some(signature), signatureCount := 1);
      }
    }

    /** The decision of the reflection node: without the model when there is nothing to ask. */
    method Reflection(t: Tick) returns (exit: Exit)
      modifies this`shared
      ensures (shared, exit) == ReflectNode(old(shared), t)
    {
      if shared.result.None? {
        shared := shared.(stop := Some(InternalError));
        return Action("done");
      }
      var r := shared.result.value;
      if r.status == Passed {
        exit := FollowDecision(AcceptDecision(r));
        return;
      }
      shared := shared.(rounds := shared.rounds + 1);
      if shared.rounds > shared.maxRounds {
        exit := FollowDecision(Decision(Blocked, {}, [], false));
        return;
      }
      RegisterFailureSignature(r);
      if shared.signatureCount >= shared.maxRounds {
        exit := FollowDecision(Decision(Blocked, {}, [], false));
        return;
      }
      shared := shared.(reflectCalls := shared.reflectCalls + 1);
      if t.reflection.ReflectRaises? { return Exception; }
      if t.reflection.ReflectUnparsable? || !Valid(t.reflection.decision, r) {
        shared := shared.(stop := Some(InternalError));
        return Action("done");
      }
      exit := FollowDecision(t.reflection.decision);
    }

    method FollowDecision(d: Decision) returns (exit: Exit)
      modifies this`shared
      ensures (shared, exit) == Follow(old(shared), d)
    {
      match d.kind {
        case Accept =>
          shared := shared.(stop := Some(CompletedVerified));
          exit := Action("done");
        case Repair =>
          shared := shared.(stop := None);
          exit := Action("default");
        case Continue =>
          shared := shared.(stop := None);
          exit := Action("default");
        case Reverify => exit := Action("reverify");
        case Blocked =>
          shared := shared.(stop := Some(if d.environment then BlockedEnvironment else VerificationFailed));
          exit := Action("done");
      }
    }

    method Complete() returns (exit: Exit)
      modifies this`shared
      ensures (shared, exit) == CompletedNode(old(shared))
    {
      if shared.stop.None? { shared := shared.(stop := Some(Done)); }
      exit := NoAction;
    }

    method RunCurrent(n: Node, t: Tick) returns (exit: Exit)
      modifies this`shared
      ensures (shared, exit) == RunNode(cfg, n, old(shared), t)
    {
      hide DecideNode, ToolNode, VerifyNode, ReflectNode, CompletedNode;
      match n {
        case Decide => exit := DecideAction(t);
        case Tool(_) => exit := ExecuteTool(t);
        case VerifyDone => exit := VerifyDoneProposal(t);
        case Reflect => exit := Reflection(t);
        case Completed => exit := Complete();
      }
    }

    /** The walker: run a node, follow its action, until there is nowhere to go. */
    method Run(maxSteps: nat, maxRounds: nat, env: nat -> Tick) returns (raised: bool)
      requires Wired()
      modifies this`shared
      ensures RunAgent(cfg, maxSteps, maxRounds, env) == if raised then Raised(shared) else Ended(shared)
    {
      shared := InitialState(maxSteps, maxRounds);
      hide Inv, RunNode, Successor, AgentGraph.Wired;
      var curr, i := Decide, 0;
      while true
        invariant 0 <= i && Wired() && Inv(cfg, curr, shared)
        invariant AgentLoop.Run(cfg, curr, shared, env, i) == RunAgent(cfg, maxSteps, maxRounds, env)
        decreases Measure(curr, shared)
      {
        ghost var s := shared;
        TurnKeeps(cfg, curr, s, env(i));
        var exit := RunCurrent(curr, env(i));
        if exit.Exception? { return true; }
        if exit.NoAction? { return false; }
        var next := graph.GetNextNode(curr, exit.name);
        if next.None? { return false; }
        curr, i := next.value, i + 1;
      }
    }
  }
}
