// The runtime graph of the agent: wiring that overwrites, and the walker's lookup.

module AgentGraph {
  import opened Common

  datatype Node = Decide | Tool(name: string) | VerifyDone | Reflect | Completed

  type Graph = map<(Node, string), Node>

  /** Where the walker goes: an empty action means the default one. */
  function Successor(g: Graph, n: Node, action: string): Option<Node> {
    var a := if action == "" then "default" else action;
    if (n, a) in g then Some(g[(n, a)]) else None
  }

  function WithTools(g: Graph, tools: seq<string>): Graph {
    if tools == [] then g
    else
      var last := tools[|tools| - 1];
      WithTools(g, tools[..|tools| - 1])[(Decide, last) := Tool(last)][(Tool(last), "default") := Decide]
  }

  function Wired(tools: seq<string>, gated: bool): Graph {
    var g := WithTools(map[], tools)[(Decide, "retry") := Decide][(Decide, "halt") := Completed];
    if gated then
      g[(Decide, "done") := VerifyDone][(VerifyDone, "default") := Reflect][(Reflect, "default") := Decide]
       [(Reflect, "reverify") := VerifyDone][(Reflect, "done") := Completed]
    else g[(Decide, "done") := Completed]
  }

  lemma {:induction false} ToolEdges(tools: seq<string>, n: Node, a: string)
    ensures var g := WithTools(map[], tools);
            && ((n, a) in g <==> (n == Decide && a in tools) || (n.Tool? && n.name in tools && a == "default"))
            && ((n, a) in g ==> g[(n, a)] == if n == Decide then Tool(a) else Decide)
  {
    if tools != [] {
      ToolEdges(tools[..|tools| - 1], n, a);
      assert tools == tools[..|tools| - 1] + [tools[|tools| - 1]];
    }
  }

  /** The graph as a table. Three action names belong to the runtime: a tool called "retry" or
      "halt" is never reached, because the runtime's own edge overwrites the tool's; and a tool
      with an empty name is looked up under "default". */
  lemma Edges(tools: seq<string>, gated: bool, n: Node, action: string)
    ensures Successor(Wired(tools, gated), n, action) == (
              var a := if action == "" then "default" else action;
              match n
              case Decide =>
                if a == "done" then Some(if gated then VerifyDone else Completed)
                else if a == "halt" then Some(Completed)
                else if a == "retry" then Some(Decide)
                else if a in tools then Some(Tool(a)) else None
              case Tool(name) => if name in tools && a == "default" then Some(Decide) else None
              case VerifyDone => if gated && a == "default" then Some(Reflect) else None
              case Reflect =>
                if !gated then None
                else if a == "default" then Some(Decide)
                else if a == "reverify" then Some(VerifyDone)
                else if a == "done" then Some(Completed) else None
              case Completed => None)
  {
    ToolEdges(tools, n, if action == "" then "default" else action);
  }

  /** A flow under construction: next() adds or overwrites one edge. */
  class FlowGraph {
    var successors: Graph

    constructor ()
      ensures successors == map[]
    {
      successors := map[];
    }

    method Next(source: Node, target: Node, action: string)
      modifies this
      ensures successors == old(successors)[(source, action) := target]
    {
      successors := successors[(source, action) := target];
    }

    method BuildReactFlow(tools: seq<string>, gated: bool)
      requires successors == map[]
      modifies this
      ensures successors == Wired(tools, gated)
    {
      for i := 0 to |tools|
        invariant successors == WithTools(map[], tools[..i])
      {
        assert tools[..i + 1][..i] == tools[..i];
        Next(Decide, Tool(tools[i]), tools[i]);
        Next(Tool(tools[i]), Decide, "default");
      }
      assert tools[..|tools|] == tools;
      Next(Decide, Decide, "retry");
      Next(Decide, Completed, "halt");
      if gated {
        Next(Decide, VerifyDone, "done");
        Next(VerifyDone, Reflect, "default");
        Next(Reflect, Decide, "default");
        Next(Reflect, VerifyDone, "reverify");
        Next(Reflect, Completed, "done");
      } else {
        Next(Decide, Completed, "done");
      }
    }

    method GetNextNode(curr: Node, action: string) returns (next: Option<Node>)
      ensures next == Successor(successors, curr, action)
    {
      var a := if action == "" then "default" else action;
      next := if (curr, a) in successors then Some(successors[(curr, a)]) else None;
    }
  }
}
