// What a run of the agent leaves behind: where every entry of its history comes from, what its
// counters count, and what "completed_verified" says about the tools that ran.

module AgentHistory {
  import opened Common
  import opened Verify
  import opened VerifyRules
  import opened AgentGraph
  import opened AgentLoop

  /** The machine before turn k of a run. */
  ghost function Moment(cfg: Config, maxSteps: nat, maxRounds: nat, env: nat -> Tick, k: nat): Machine {
    Before(cfg, Decide, InitialState(maxSteps, maxRounds), env, 0, k)
  }

  lemma BeforeNext(cfg: Config, n: Node, s: Shared, env: nat -> Tick, i: nat, k: nat)
    requires Inv(cfg, n, s)
    ensures Before(cfg, n, s, env, i, 0) == At(n, s) && MachineOk(cfg, At(n, s))
    ensures var m := Turn(cfg, n, s, env(i));
            && MachineOk(cfg, m) && (m.At? ==> Inv(cfg, m.node, m.s))
            && Before(cfg, n, s, env, i, k + 1) == if m.At? then Before(cfg, m.node, m.s, env, i + 1, k) else m
  {
    TurnKeeps(cfg, n, s, env(i));
    hide Turn, Inv, Final;
  }

  lemma {:induction false} BeforeStep(cfg: Config, n: Node, s: Shared, env: nat -> Tick, i: nat, k: nat)
    requires Inv(cfg, n, s)
    ensures MachineOk(cfg, Before(cfg, n, s, env, i, k))
    ensures var m := Before(cfg, n, s, env, i, k);
            Before(cfg, n, s, env, i, k + 1) == if m.At? then Turn(cfg, m.node, m.s, env(i + k)) else m
    decreases k
  {
    hide *;
    var m := Turn(cfg, n, s, env(i));
    BeforeNext(cfg, n, s, env, i, k);
    if m.At? { BeforeNext(cfg, m.node, m.s, env, i + 1, 0); }
    if k > 0 {
      BeforeNext(cfg, n, s, env, i, k - 1);
      if m.At? { BeforeStep(cfg, m.node, m.s, env, i + 1, k - 1); }
    }
  }

  /** One moment after the other. */
  lemma MomentStep(cfg: Config, maxSteps: nat, maxRounds: nat, env: nat -> Tick, k: nat)
    ensures MachineOk(cfg, Moment(cfg, maxSteps, maxRounds, env, k))
    ensures Moment(cfg, maxSteps, maxRounds, env, 0) == At(Decide, InitialState(maxSteps, maxRounds))
    ensures var m := Moment(cfg, maxSteps, maxRounds, env, k);
            Moment(cfg, maxSteps, maxRounds, env, k + 1) == if m.At? then Turn(cfg, m.node, m.s, env(k)) else m
  {
    RunsAreBounded(cfg, maxSteps, maxRounds, env);
    hide Turn, Inv, Final, MachineOk;
    BeforeStep(cfg, Decide, InitialState(maxSteps, maxRounds), env, 0, k);
    BeforeStep(cfg, Decide, InitialState(maxSteps, maxRounds), env, 0, 0);
  }

  lemma TurnsNext(cfg: Config, n: Node, s: Shared, env: nat -> Tick, i: nat)
    requires Inv(cfg, n, s)
    ensures var m := Turn(cfg, n, s, env(i));
            && (m.At? ==> Inv(cfg, m.node, m.s) && 0 <= Measure(m.node, m.s) < Measure(n, s))
            && Turns(cfg, n, s, env, i) == (if m.At? then 1 + Turns(cfg, m.node, m.s, env, i + 1) else 1)
            && AgentLoop.Run(cfg, n, s, env, i) == if m.At? then AgentLoop.Run(cfg, m.node, m.s, env, i + 1) else m
  {
    TurnKeeps(cfg, n, s, env(i));
    hide Turn, Inv, Final;
  }

  lemma {:induction false} BeforeEnd(cfg: Config, n: Node, s: Shared, env: nat -> Tick, i: nat)
    requires Inv(cfg, n, s)
    ensures Before(cfg, n, s, env, i, Turns(cfg, n, s, env, i)) == AgentLoop.Run(cfg, n, s, env, i)
    decreases Measure(n, s)
  {
    hide *;
    TurnsNext(cfg, n, s, env, i);
    var m := Turn(cfg, n, s, env(i));
    BeforeNext(cfg, n, s, env, i, Turns(cfg, n, s, env, i) - 1);
    if m.At? { BeforeEnd(cfg, m.node, m.s, env, i + 1); }
  }

  // ---- what one turn records ----

  predicate Asks(s: Shared, t: Tick) {
    s.step < s.maxSteps && !t.cancelled && !t.timedOut
  }

  /** An answer that is no action: not parsed, or a call of a tool that is not registered, or of
      one that is called "done". */
  predicate Unusable(tools: seq<string>, r: Reply) {
    match r
    case Raises => false
    case Unparsable => true
    case Proposes(_) => false
    case Calls(c) =>
      match c
      case FileWrite(_, _) => "file_write" !in tools
      case FileEdit(_, _) => "file_edit" !in tools
      case Bash(_) => "bash" !in tools
      case OtherTool(name) => name !in tools || name == "done"
  }

  /** The entry of a turn: the pending call with the outcome of the tool, or the marker of an
      answer that was no action. */
  predicate Recorded(cfg: Config, n: Node, s: Shared, t: Tick, e: Entry) {
    || (n.Tool? && s.call == Some(e.call) && e.step == s.step && e.ok == t.toolOk)
    || (n == Decide && Asks(s, t) && Unusable(cfg.tools, t.reply) && e == Entry(s.step + 1, OtherTool("model_output"), false))
  }

  predicate Records(cfg: Config, n: Node, s: Shared, t: Tick) {
    n.Tool? || (n == Decide && Asks(s, t) && Unusable(cfg.tools, t.reply))
  }

  lemma TurnRecords(cfg: Config, n: Node, s: Shared, t: Tick)
    requires Inv(cfg, n, s)
    ensures var u := Turn(cfg, n, s, t).s;
            if Records(cfg, n, s, t)
            then |u.history| == |s.history| + 1 && u.history[..|s.history|] == s.history && Recorded(cfg, n, s, t, u.history[|s.history|])
            else u.history == s.history
  {
    hide Successor, Wired, Execute, PlanOf, Valid, EvidenceIds, SignatureOf, VerifiedNow;
    match n case _ =>
  }

  // ---- the history of a run ----

  ghost predicate RecordsAt(cfg: Config, maxSteps: nat, maxRounds: nat, env: nat -> Tick, k: nat) {
    var m := Moment(cfg, maxSteps, maxRounds, env, k);
    m.At? && Records(cfg, m.node, m.s, env(k))
  }

  ghost predicate RecordedAt(cfg: Config, maxSteps: nat, maxRounds: nat, env: nat -> Tick, k: nat, e: Entry) {
    var m := Moment(cfg, maxSteps, maxRounds, env, k);
    m.At? && Recorded(cfg, m.node, m.s, env(k), e)
  }

  /** The turns that made a history, one for each entry and in order, and no others before turn k. */
  ghost predicate MadeBy(cfg: Config, maxSteps: nat, maxRounds: nat, env: nat -> Tick, k: nat, history: seq<Entry>, turns: seq<nat>) {
    && |turns| == |history|
    && (forall p :: 0 <= p < |turns| ==> turns[p] < k && RecordedAt(cfg, maxSteps, maxRounds, env, turns[p], history[p]))
    && (forall p, q :: 0 <= p < q < |turns| ==> turns[p] < turns[q])
    && (forall t: nat :: t < k && RecordsAt(cfg, maxSteps, maxRounds, env, t) ==> t in turns)
  }

  lemma MadeNext(cfg: Config, maxSteps: nat, maxRounds: nat, env: nat -> Tick, k: nat, history: seq<Entry>, turns: seq<nat>)
    requires MadeBy(cfg, maxSteps, maxRounds, env, k, history, turns) && !RecordsAt(cfg, maxSteps, maxRounds, env, k)
    ensures MadeBy(cfg, maxSteps, maxRounds, env, k + 1, history, turns)
  {
    hide RecordsAt, RecordedAt;
  }

  lemma MadeMore(cfg: Config, maxSteps: nat, maxRounds: nat, env: nat -> Tick, k: nat, history: seq<Entry>, turns: seq<nat>, e: Entry)
    requires MadeBy(cfg, maxSteps, maxRounds, env, k, history, turns) && RecordedAt(cfg, maxSteps, maxRounds, env, k, e)
    ensures MadeBy(cfg, maxSteps, maxRounds, env, k + 1, history + [e], turns + [k])
  {
    hide RecordsAt, RecordedAt;
    assert forall t :: t in turns ==> t in turns + [k];
    assert k in turns + [k];
  }

  /** Every entry of a history belongs to exactly one turn, a tool run or an answer that was no
      action, with the call, the step and the outcome of that turn; and every such turn has its
      entry, in order. */
  lemma {:induction false} HistoryIs(cfg: Config, maxSteps: nat, maxRounds: nat, env: nat -> Tick, k: nat) returns (turns: seq<nat>)
    ensures MadeBy(cfg, maxSteps, maxRounds, env, k, Moment(cfg, maxSteps, maxRounds, env, k).s.history, turns)
  {
    hide *;
    if k == 0 {
      turns := [];
      NothingMade(cfg, maxSteps, maxRounds, env);
    } else {
      turns := HistoryIs(cfg, maxSteps, maxRounds, env, k - 1);
      var h, g := Moment(cfg, maxSteps, maxRounds, env, k - 1).s.history, Moment(cfg, maxSteps, maxRounds, env, k).s.history;
      MomentRecords(cfg, maxSteps, maxRounds, env, k - 1);
      if RecordsAt(cfg, maxSteps, maxRounds, env, k - 1) {
        assert g == h + [g[|h|]];
        MadeMore(cfg, maxSteps, maxRounds, env, k - 1, h, turns, g[|h|]);
        turns := turns + [k - 1];
      } else {
        MadeNext(cfg, maxSteps, maxRounds, env, k - 1, h, turns);
      }
    }
  }

  lemma NothingMade(cfg: Config, maxSteps: nat, maxRounds: nat, env: nat -> Tick)
    ensures MadeBy(cfg, maxSteps, maxRounds, env, 0, Moment(cfg, maxSteps, maxRounds, env, 0).s.history, [])
  {
    MomentStep(cfg, maxSteps, maxRounds, env, 0);
    hide Moment;
  }

  lemma MomentRecords(cfg: Config, maxSteps: nat, maxRounds: nat, env: nat -> Tick, k: nat)
    ensures var (h, g) := (Moment(cfg, maxSteps, maxRounds, env, k).s.history, Moment(cfg, maxSteps, maxRounds, env, k + 1).s.history);
            if RecordsAt(cfg, maxSteps, maxRounds, env, k)
            then |g| == |h| + 1 && g[..|h|] == h && RecordedAt(cfg, maxSteps, maxRounds, env, k, g[|h|])
            else g == h
  {
    MomentStep(cfg, maxSteps, maxRounds, env, k);
    var m := Moment(cfg, maxSteps, maxRounds, env, k);
    hide Moment, Turn, Inv, Recorded, Records;
    if m.At? { TurnRecords(cfg, m.node, m.s, env(k)); }
  }

  // ---- where the pending call comes from ----

  lemma OnlyDecideCalls(cfg: Config, n: Node, s: Shared, t: Tick)
    requires Inv(cfg, n, s)
    ensures var m := Turn(cfg, n, s, t);
            m.At? && m.node.Tool? ==>
              && n == Decide && Asks(s, t) && t.reply.Calls? && !Unusable(cfg.tools, t.reply)
              && m.s.call == Some(t.reply.call) && m.s.step == s.step + 1
              && m.node.name == if ToolName(t.reply.call) == "" then "default" else ToolName(t.reply.call)
  {
    var (u, exit) := RunNode(cfg, n, s, t);
    if exit.Action? { Edges(cfg.tools, cfg.gated, n, exit.name); }
    hide Wired, Successor, Execute, PlanOf, Valid, EvidenceIds, SignatureOf, VerifiedNow;
    match n case _ =>
  }

  /** A tool runs the call the model made in the turn before, under its name; a tool with an
      empty name is looked up as "default". */
  lemma ToolRunsTheCall(cfg: Config, maxSteps: nat, maxRounds: nat, env: nat -> Tick, k: nat)
    requires Moment(cfg, maxSteps, maxRounds, env, k).At? && Moment(cfg, maxSteps, maxRounds, env, k).node.Tool?
    ensures k > 0
    ensures var (m, before) := (Moment(cfg, maxSteps, maxRounds, env, k), Moment(cfg, maxSteps, maxRounds, env, k - 1));
            && before.At? && before.node == Decide && env(k - 1).reply.Calls?
            && m.s.call == Some(env(k - 1).reply.call)
            && m.node.name == if ToolName(env(k - 1).reply.call) == "" then "default" else ToolName(env(k - 1).reply.call)
  {
    MomentStep(cfg, maxSteps, maxRounds, env, 0);
    assert k > 0;
    MomentStep(cfg, maxSteps, maxRounds, env, k - 1);
    hide Turn, Inv, Final, Moment, Unusable, Asks;
    var before := Moment(cfg, maxSteps, maxRounds, env, k - 1);
    OnlyDecideCalls(cfg, before.node, before.s, env(k - 1));
  }

  // ---- "completed_verified" ----

  /** Entry p of the history is a run of a tool at turn k: the model asked for that call in the
      turn before, and the outcome is the tool's. */
  ghost predicate Ran(cfg: Config, maxSteps: nat, maxRounds: nat, env: nat -> Tick, k: nat, e: Entry) {
    var m := Moment(cfg, maxSteps, maxRounds, env, k);
    && m.At? && m.node.Tool? && k > 0 && env(k - 1).reply == Calls(e.call) && e.step == m.s.step && e.ok == env(k).toolOk
  }

  lemma SuccessRan(cfg: Config, maxSteps: nat, maxRounds: nat, env: nat -> Tick, k: nat, e: Entry)
    requires RecordedAt(cfg, maxSteps, maxRounds, env, k, e) && (e.ok || e.call != OtherTool("model_output"))
    ensures Ran(cfg, maxSteps, maxRounds, env, k, e)
  {
    hide Moment;
    ToolRunsTheCall(cfg, maxSteps, maxRounds, env, k);
  }

  /** "completed_verified" means it. At the turn k at which the gate last verified, no tool having
      run since, every changed file was as its last change left it; and if anything was changed,
      the last relevant command no earlier than any change is one the model asked for, the shell
      ran before turn k, and reported as successful. */
  lemma CompletedMeansVerified(cfg: Config, maxSteps: nat, maxRounds: nat, env: nat -> Tick) returns (k: nat, turns: seq<nat>)
    requires RunAgent(cfg, maxSteps, maxRounds, env).Ended?
    requires RunAgent(cfg, maxSteps, maxRounds, env).s.stop == Some(CompletedVerified)
    ensures var (r, gate) := (RunAgent(cfg, maxSteps, maxRounds, env).s, Moment(cfg, maxSteps, maxRounds, env, k));
            && gate.At? && gate.node == VerifyDone && gate.s.history == r.history
            && (forall l: nat :: k < l < Turns(cfg, Decide, InitialState(maxSteps, maxRounds), env, 0) ==>
                  !VerifiesAt(cfg, maxSteps, maxRounds, env, l))
            && MadeBy(cfg, maxSteps, maxRounds, env, k, r.history, turns)
            && (forall p: nat :: LastChange(r.history, p) ==> AsLeft(env(k).files, r.history[p]))
            && (AnyChange(r.history) ==> exists p: nat :: p < |turns| && TestedAt(r.history, p)
                                                         && Ran(cfg, maxSteps, maxRounds, env, turns[p], r.history[p])
                                                         && env(turns[p]).toolOk)
  {
    var r := RunAgent(cfg, maxSteps, maxRounds, env).s;
    k := LastGatePassed(cfg, maxSteps, maxRounds, env);
    hide *;
    turns := HistoryIs(cfg, maxSteps, maxRounds, env, k);
    GateMoment(cfg, maxSteps, maxRounds, env, k);
    PassedIff(env(k).files, r.history);
    if AnyChange(r.history) {
      var p := TestRan(cfg, maxSteps, maxRounds, env, k, r.history, turns);
    }
  }

  lemma GateMoment(cfg: Config, maxSteps: nat, maxRounds: nat, env: nat -> Tick, k: nat)
    ensures forall l: nat :: GateAt(cfg, Decide, InitialState(maxSteps, maxRounds), env, 0, l) <==> VerifiesAt(cfg, maxSteps, maxRounds, env, l)
    ensures Before(cfg, Decide, InitialState(maxSteps, maxRounds), env, 0, k) == Moment(cfg, maxSteps, maxRounds, env, k)
    ensures VerifiesAt(cfg, maxSteps, maxRounds, env, k)
            <==> Moment(cfg, maxSteps, maxRounds, env, k).At? && Moment(cfg, maxSteps, maxRounds, env, k).node == VerifyDone
  {
    hide Before, Inv;
  }

  lemma TestRan(cfg: Config, maxSteps: nat, maxRounds: nat, env: nat -> Tick, k: nat, history: seq<Entry>, turns: seq<nat>) returns (p: nat)
    requires MadeBy(cfg, maxSteps, maxRounds, env, k, history, turns) && exists i: nat :: TestedAt(history, i)
    ensures p < |turns| && |turns| == |history| && TestedAt(history, p)
    ensures Ran(cfg, maxSteps, maxRounds, env, turns[p], history[p]) && env(turns[p]).toolOk
  {
    hide TestedAt, Ran, RecordedAt, RecordsAt;
    p :| TestedAt(history, p);
    TestedOk(history, p);
    SuccessRan(cfg, maxSteps, maxRounds, env, turns[p], history[p]);
    RanOk(cfg, maxSteps, maxRounds, env, turns[p], history[p]);
  }

  /** Apart from the markers, a history says what the tools really answered. */
  lemma OutcomesAreTheTools(cfg: Config, maxSteps: nat, maxRounds: nat, env: nat -> Tick, k: nat) returns (turns: seq<nat>)
    ensures var history := Moment(cfg, maxSteps, maxRounds, env, k).s.history;
            && MadeBy(cfg, maxSteps, maxRounds, env, k, history, turns)
            && forall p :: 0 <= p < |history| && history[p].call != OtherTool("model_output") ==>
                 Ran(cfg, maxSteps, maxRounds, env, turns[p], history[p])
  {
    turns := HistoryIs(cfg, maxSteps, maxRounds, env, k);
    var history := Moment(cfg, maxSteps, maxRounds, env, k).s.history;
    hide Ran, RecordedAt, RecordsAt, Moment;
    forall p | 0 <= p < |history| && history[p].call != OtherTool("model_output")
      ensures Ran(cfg, maxSteps, maxRounds, env, turns[p], history[p])
    {
      SuccessRan(cfg, maxSteps, maxRounds, env, turns[p], history[p]);
    }
  }

  ghost predicate VerifiesAt(cfg: Config, maxSteps: nat, maxRounds: nat, env: nat -> Tick, k: nat) {
    Moment(cfg, maxSteps, maxRounds, env, k).At? && Moment(cfg, maxSteps, maxRounds, env, k).node == VerifyDone
  }

  lemma TestedOk(history: seq<Entry>, p: nat)
    requires TestedAt(history, p)
    ensures p < |history| && history[p].ok
  {
  }

  lemma RanOk(cfg: Config, maxSteps: nat, maxRounds: nat, env: nat -> Tick, k: nat, e: Entry)
    requires Ran(cfg, maxSteps, maxRounds, env, k, e)
    ensures e.ok == env(k).toolOk
  {
    hide Moment;
  }

  /** So does the history that a run leaves, however it ends. */
  lemma WholeRun(cfg: Config, maxSteps: nat, maxRounds: nat, env: nat -> Tick) returns (turns: seq<nat>)
    ensures var (r, n) := (RunAgent(cfg, maxSteps, maxRounds, env).s, Turns(cfg, Decide, InitialState(maxSteps, maxRounds), env, 0));
            && MadeBy(cfg, maxSteps, maxRounds, env, n, r.history, turns)
            && forall p :: 0 <= p < |r.history| && r.history[p].call != OtherTool("model_output") ==>
                 Ran(cfg, maxSteps, maxRounds, env, turns[p], r.history[p])
  {
    var s := InitialState(maxSteps, maxRounds);
    BeforeEnd(cfg, Decide, s, env, 0);
    turns := OutcomesAreTheTools(cfg, maxSteps, maxRounds, env, Turns(cfg, Decide, s, env, 0));
    hide Before, Turns, Inv, Ran, RecordedAt, RecordsAt;
  }
}
