/** graph.py: the conversion pipeline, five stages run one after another,
    each of which records its own name in `state.current_node` before its
    main work, as its first write to the state. */
module Graph {
  import opened Json
  import opened State

  datatype Stage = Planner | Discovery | Converter | Builder | Integration

  /** Where an edge leads: another stage, or the end of the run. */
  datatype Target = Node(stage: Stage) | End

  /** LangGraph's name for the end of a run. */
  const EndName: string := "__end__"

  /** The position of a stage in the run. */
  function Rank(s: Stage): nat {
    match s
    case Planner => 0
    case Discovery => 1
    case Converter => 2
    case Builder => 3
    case Integration => 4
  }

  /** The name a stage is registered under. */
  function Name(s: Stage): string {
    match s
    case Planner => "planner"
    case Discovery => "discovery"
    case Converter => "converter"
    case Builder => "builder"
    case Integration => "integration"
  }

  function TargetName(t: Target): string {
    match t
    case Node(s) => Name(s)
    case End => EndName
  }

  /** What each stage writes into `state.current_node` as its first write to the state. */
  function Marker(s: Stage): string {
    match s
    case Planner => "planner_node"
    case Discovery => "discovery_node"
    case Converter => "converter_node"
    case Builder => "builder_node"
    case Integration => "integration_node"
  }

  /** The one stage that follows each stage. */
  function Successor(s: Stage): (t: Target)
    ensures t.End? <==> s == Integration
    ensures t.Node? ==> Rank(t.stage) == Rank(s) + 1
  {
    match s
    case Planner => Node(Discovery)
    case Discovery => Node(Converter)
    case Converter => Node(Builder)
    case Builder => Node(Integration)
    case Integration => End
  }

  /** The stages run from `s` on, following `Successor` until the end. */
  function PathFrom(s: Stage): (p: seq<Stage>)
    ensures |p| == 5 - Rank(s)
    ensures forall i :: 0 <= i < |p| ==> Rank(p[i]) == Rank(s) + i
    decreases 5 - Rank(s)
  {
    match Successor(s)
    case End => [s]
    case Node(n) => [s] + PathFrom(n)
  }

  /** Distinct stages have distinct names and distinct markers (they differ in their first letter). */
  lemma NamesDistinct(s: Stage, t: Stage)
    requires s != t
    ensures Name(s) != Name(t) && Marker(s) != Marker(t)
  {
    assert Name(s)[0] != Name(t)[0];
    assert Marker(s)[0] != Marker(t)[0];
  }

  /** A stage is identified by its rank. */
  lemma RankInjective(s: Stage, t: Stage)
    requires Rank(s) == Rank(t)
    ensures s == t
  {
  }

  /** A run from the entry point passes every stage exactly once, in
      pipeline order, and never returns to an earlier one. */
  lemma {:induction false} FullRun()
    ensures PathFrom(Planner) == [Planner, Discovery, Converter, Builder, Integration]
  {
    var p := PathFrom(Planner);
    forall i | 0 <= i < 5
      ensures p[i] == [Planner, Discovery, Converter, Builder, Integration][i]
    {
      var q := [Planner, Discovery, Converter, Builder, Integration];
      assert Rank(p[i]) == i == Rank(q[i]);
      RankInjective(p[i], q[i]);
    }
  }

  /** A stage never follows itself or an earlier stage: the pipeline has no loop. */
  lemma {:induction false} NoLoop(s: Stage, i: nat, j: nat)
    requires i < j < |PathFrom(s)|
    ensures PathFrom(s)[i] != PathFrom(s)[j]
  {
    assert Rank(PathFrom(s)[i]) < Rank(PathFrom(s)[j]);
  }

  /** The stages that run from `s` on when the stages in `raising` raise:
      an exception ends the run at the stage that raised it. */
  function RunFrom(s: Stage, raising: set<Stage>): (p: seq<Stage>)
    ensures p != [] && p <= PathFrom(s)
    ensures forall i :: 0 <= i < |p| - 1 ==> p[i] !in raising
    ensures p[|p| - 1] in raising || p == PathFrom(s)
    decreases 5 - Rank(s)
  {
    if s in raising then [s]
    else
      match Successor(s)
      case End => [s]
      case Node(n) => [s] + RunFrom(n, raising)
  }

  /** No stage after one that raises is run. */
  lemma {:induction false} RaiseStopsRun(raising: set<Stage>, f: Stage)
    requires f in raising
    ensures forall t <- RunFrom(Planner, raising) :: Rank(t) <= Rank(f)
  {
    var p := RunFrom(Planner, raising);
    var full := PathFrom(Planner);
    assert full[Rank(f)] == f by {
      RankInjective(full[Rank(f)], f);
    }
    assert forall i :: 0 <= i < |p| ==> p[i] == full[i];
  }

  /** The names the pipeline registers, and its edges, in the order declared. */
  const Stages: seq<Stage> := [Planner, Discovery, Converter, Builder, Integration]

  function Edges(): (e: seq<(string, string)>)
    ensures |e| == 5
  {
    seq(5, i requires 0 <= i < 5 => (Name(Stages[i]), TargetName(Successor(Stages[i]))))
  }

  /** A graph under construction: registered node names, edges and entry point.
      The node functions themselves are not part of this value. */
  class StateGraph {
    var nodes: seq<string>
    var edges: seq<(string, string)>
    var entry: Option<string>

    constructor()
      ensures nodes == [] && edges == [] && entry == None
    {
      nodes := [];
      edges := [];
      entry := None;
    }

    /** `graph.add_node(name, run)`. */
    method AddNode(name: string)
      modifies this
      ensures nodes == old(nodes) + [name] && edges == old(edges) && entry == old(entry)
    {
      nodes := nodes + [name];
    }

    /** `graph.add_edge(source, target)`. */
    method AddEdge(source: string, target: string)
      modifies this
      ensures edges == old(edges) + [(source, target)] && nodes == old(nodes) && entry == old(entry)
    {
      edges := edges + [(source, target)];
    }

    /** `graph.set_entry_point(name)`. */
    method SetEntryPoint(name: string)
      modifies this
      ensures entry == Some(name) && nodes == old(nodes) && edges == old(edges)
    {
      entry := Some(name);
    }
  }

  function TargetsIn(edges: seq<(string, string)>, source: string): (ts: seq<string>)
    ensures forall t :: t in ts <==> exists i :: 0 <= i < |edges| && edges[i] == (source, t)
    ensures |ts| <= |edges|
    decreases |edges|
  {
    if edges == [] then []
    else
      var rest := TargetsIn(edges[1..], source);
      assert forall i :: 1 <= i < |edges| ==> edges[i] == edges[1..][i - 1];
      if edges[0].0 == source then [edges[0].1] + rest else rest
  }

  /** `build_graph()`: registers the five stages, enters at the planner and
      chains the stages to the end. */
  method BuildGraph() returns (g: StateGraph)
    ensures fresh(g)
    ensures g.nodes == seq(5, i requires 0 <= i < 5 => Name(Stages[i]))
    ensures g.entry == Some(Name(Planner))
    ensures g.edges == Edges()
  {
    g := new StateGraph();
    g.AddNode("planner");
    g.AddNode("discovery");
    g.AddNode("converter");
    g.AddNode("builder");
    g.AddNode("integration");
    g.SetEntryPoint("planner");
    g.AddEdge("planner", "discovery");
    g.AddEdge("discovery", "converter");
    g.AddEdge("converter", "builder");
    g.AddEdge("builder", "integration");
    g.AddEdge("integration", EndName);
  }

  /** Each stage has exactly one outgoing edge, and it leads to its successor. */
  lemma EdgesFollowSuccessor(s: Stage)
    ensures TargetsIn(Edges(), Name(s)) == [TargetName(Successor(s))]
  {
    var e := Edges();
    forall t: Stage | t != s ensures Name(t) != Name(s) {
      NamesDistinct(s, t);
    }
    assert e[1..][1..][1..][1..][1..] == [];
    assert e[0].0 == Name(Planner) && e[1].0 == Name(Discovery) && e[2].0 == Name(Converter);
    assert e[3].0 == Name(Builder) && e[4].0 == Name(Integration);
  }

  /** No edge leaves the end of the run. */
  lemma EndIsFinal()
    ensures TargetsIn(Edges(), EndName) == []
  {
    var e := Edges();
    forall i | 0 <= i < 5 ensures e[i].0 != EndName {
      assert e[i].0[0] != EndName[0];
    }
  }

  /** The first write of every stage to the state: record the stage in `current_node`. */
  method Enter(state: ConversionState, s: Stage)
    requires state.Valid()
    modifies state
    ensures state.Valid()
    ensures state.fields == old(state.fields)["current_node" := JStr(Marker(s))]
  {
    state.Set("current_node", JStr(Marker(s)));
  }

  /** The attributes after the `current_node` writes of a sequence of stages. */
  function Entered(fields: map<string, Json>, stages: seq<Stage>): (m: map<string, Json>)
    ensures stages != [] ==> m == fields["current_node" := JStr(Marker(stages[|stages| - 1]))]
    ensures stages == [] ==> m == fields
    decreases |stages|
  {
    if stages == [] then fields
    else Entered(fields["current_node" := JStr(Marker(stages[0]))], stages[1..])
  }

  /** After a full run the state names the integration stage as the last one entered. */
  lemma FullRunEndsInIntegration(fields: map<string, Json>)
    ensures Entered(fields, PathFrom(Planner))["current_node"] == JStr("integration_node")
  {
    FullRun();
  }
}
