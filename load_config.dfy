/** `load_workflow_config`: the translation of a parsed workflow file (its
    `nodes`, `edges` and optional `conditional_edges` entries) into a
    workflow configuration, with node and condition functions looked up by
    name and the textual "START"/"END" replaced by the graph library's
    reserved names. Functions are kept abstract: `F` stands for a node
    function, `C` for a condition function. */
module LoadConfig {
  import opened Common
  import Workflows

  /** One entry of `conditional_edges`; an absent key is `None`. */
  datatype RawConditional = RawConditional(
    conditionFn: Option<string>,
    source: Option<string>,
    mapping: Option<Dict<string, string>>)

  /** The parsed file; an absent top-level key is `None`. Each edge is the
      list the file gives, which must hold exactly two names. */
  datatype ConfigData = ConfigData(
    nodes: Option<Dict<string, string>>,
    edges: Option<seq<seq<string>>>,
    conditionalEdges: Option<seq<RawConditional>>)

  /** `ConditionalEdgeConfig`. */
  datatype LoadedConditional<C> = LoadedConditional(source: string, condition: C, mapping: Dict<string, string>)

  /** `WorkflowConfig`. */
  datatype LoadedWorkflow<F, C> = LoadedWorkflow(
    nodes: Dict<string, F>,
    edges: seq<(string, string)>,
    conditional: seq<LoadedConditional<C>>)

  // ---------------------------------------------------------------------
  // Name translation
  // ---------------------------------------------------------------------

  function TranslateSource(name: string): string {
    if name == "START" then Workflows.START else name
  }

  function TranslateDest(name: string): string {
    if name == "END" then Workflows.END else name
  }

  /** Only a source written "START" becomes the entry and only a
      destination written "END" becomes the exit; every other name is kept,
      so in particular "END" as a source and "START" as a destination are
      kept as they are. */
  lemma TranslateSpec(name: string)
    ensures name == "START" ==> TranslateSource(name) == Workflows.START
    ensures name != "START" ==> TranslateSource(name) == name
    ensures name == "END" ==> TranslateDest(name) == Workflows.END
    ensures name != "END" ==> TranslateDest(name) == name
    ensures TranslateSource("END") == "END" && TranslateDest("START") == "START"
  {
  }

  /** How a loaded name is written back in a workflow file. */
  function ExportSource(name: string): string {
    if name == Workflows.START then "START" else name
  }

  function ExportDest(name: string): string {
    if name == Workflows.END then "END" else name
  }

  /** Writing a name back and reading it again gives the name, unless it is
      literally "START" (as a source) or "END" (as a destination), which
      reading turns into the reserved names. */
  lemma TranslateRoundTrip(name: string)
    ensures name != "START" ==> TranslateSource(ExportSource(name)) == name
    ensures name != "END" ==> TranslateDest(ExportDest(name)) == name
  {
  }

  // ---------------------------------------------------------------------
  // Nodes
  // ---------------------------------------------------------------------

  /** `{key: node_functions[value] for key, value in nodes.items()}`. */
  function LoadNodes<F>(raw: Dict<string, string>, fns: map<string, F>): Result<Dict<string, F>>
  {
    if raw == [] then Ok([])
    else if raw[0].1 !in fns then Err("KeyError")
    else match LoadNodes(raw[1..], fns)
      case Err(e) => Err(e)
      case Ok(rest) => Ok([(raw[0].0, fns[raw[0].1])] + rest)
  }

  /** Loading the nodes succeeds exactly when every function name is known;
      then the keys are kept in order and each value is the named function. */
  lemma {:induction false} LoadNodesSpec<F>(raw: Dict<string, string>, fns: map<string, F>)
    ensures LoadNodes(raw, fns).Ok? <==> forall i :: 0 <= i < |raw| ==> raw[i].1 in fns
    ensures LoadNodes(raw, fns).Err? ==> LoadNodes(raw, fns).error == "KeyError"
    ensures LoadNodes(raw, fns).Ok? ==>
              |LoadNodes(raw, fns).value| == |raw|
              && forall i :: 0 <= i < |raw| ==> LoadNodes(raw, fns).value[i] == (raw[i].0, fns[raw[i].1])
  {
    if raw != [] {
      LoadNodesSpec(raw[1..], fns);
      if raw[0].1 in fns && LoadNodes(raw[1..], fns).Ok? {
        forall i | 0 <= i < |raw|
          ensures LoadNodes(raw, fns).value[i] == (raw[i].0, fns[raw[i].1])
        {
          if i > 0 {
            assert raw[i] == raw[1..][i - 1];
          }
        }
      }
      if LoadNodes(raw, fns).Ok? {
        forall i | 0 <= i < |raw|
          ensures raw[i].1 in fns
        {
          if i > 0 {
            assert raw[i] == raw[1..][i - 1];
          }
        }
      }
      if forall i :: 0 <= i < |raw| ==> raw[i].1 in fns {
        forall i | 0 <= i < |raw[1..]|
          ensures raw[1..][i].1 in fns
        {
          assert raw[1..][i] == raw[i + 1];
        }
      }
    }
  }

  // ---------------------------------------------------------------------
  // Edges
  // ---------------------------------------------------------------------

  /** The translated edge list, or ValueError when an entry does not hold
      exactly two names. */
  function EdgesOf(raw: seq<seq<string>>): Result<seq<(string, string)>>
  {
    if raw == [] then Ok([])
    else match EdgesOf(raw[..|raw| - 1])
      case Err(e) => Err(e)
      case Ok(init) =>
        var edge := raw[|raw| - 1];
        if |edge| != 2 then Err("ValueError")
        else Ok(init + [(TranslateSource(edge[0]), TranslateDest(edge[1]))])
  }

  /** The edge loop. */
  method LoadEdges(raw: seq<seq<string>>) returns (r: Result<seq<(string, string)>>)
    ensures r == EdgesOf(raw)
  {
    var edges: seq<(string, string)> := [];
    var i := 0;
    while i < |raw|
      invariant 0 <= i <= |raw|
      invariant EdgesOf(raw[..i]) == Ok(edges)
    {
      assert raw[..i + 1][..i] == raw[..i];
      var edge := raw[i];
      if |edge| != 2 {
        EdgesFailFrom(raw, i + 1);
        return Err("ValueError");
      }
      var src, dst := edge[0], edge[1];
      src := if src == "START" then Workflows.START else src;
      dst := if dst == "END" then Workflows.END else dst;
      edges := edges + [(src, dst)];
      i := i + 1;
    }
    assert raw[..i] == raw;
    return Ok(edges);
  }

  /** Once a prefix fails, every longer prefix fails the same way. */
  lemma {:induction false} EdgesFailFrom(raw: seq<seq<string>>, k: nat)
    requires k <= |raw| && EdgesOf(raw[..k]).Err?
    ensures EdgesOf(raw) == EdgesOf(raw[..k])
    decreases |raw| - k
  {
    if k < |raw| {
      assert raw[..k + 1][..k] == raw[..k];
      EdgesFailFrom(raw, k + 1);
    } else {
      assert raw[..k] == raw;
    }
  }

  /** Loading the edges succeeds exactly when every entry holds two names;
      then the count and order are kept and each edge is translated. */
  lemma {:induction false} EdgesOfSpec(raw: seq<seq<string>>)
    ensures EdgesOf(raw).Ok? <==> forall i :: 0 <= i < |raw| ==> |raw[i]| == 2
    ensures EdgesOf(raw).Err? ==> EdgesOf(raw).error == "ValueError"
    ensures EdgesOf(raw).Ok? ==>
              |EdgesOf(raw).value| == |raw|
              && forall i :: 0 <= i < |raw| ==>
                   EdgesOf(raw).value[i] == (TranslateSource(raw[i][0]), TranslateDest(raw[i][1]))
  {
    if raw != [] {
      var init := raw[..|raw| - 1];
      EdgesOfSpec(init);
      assert forall i :: 0 <= i < |init| ==> init[i] == raw[i];
    }
  }

  /** The edges written back to a file, reserved names as "START"/"END". */
  function ExportEdges(edges: seq<(string, string)>): (r: seq<seq<string>>)
    ensures |r| == |edges|
    ensures forall i :: 0 <= i < |r| ==> r[i] == [ExportSource(edges[i].0), ExportDest(edges[i].1)]
  {
    if edges == [] then []
    else ExportEdges(edges[..|edges| - 1]) + [[ExportSource(edges[|edges| - 1].0), ExportDest(edges[|edges| - 1].1)]]
  }

  /** Writing a loaded edge list back and loading it again gives the same
      edges, as long as no node is literally called "START" or "END". */
  lemma EdgesRoundTrip(edges: seq<(string, string)>)
    requires forall i :: 0 <= i < |edges| ==> edges[i].0 != "START" && edges[i].1 != "END"
    ensures EdgesOf(ExportEdges(edges)) == Ok(edges)
  {
    var raw := ExportEdges(edges);
    EdgesOfSpec(raw);
    forall i | 0 <= i < |raw|
      ensures |raw[i]| == 2
    {
    }
    var v := EdgesOf(raw).value;
    forall i | 0 <= i < |raw|
      ensures v[i] == edges[i]
    {
      TranslateRoundTrip(edges[i].0);
      TranslateRoundTrip(edges[i].1);
      assert raw[i][0] == ExportSource(edges[i].0) && raw[i][1] == ExportDest(edges[i].1);
    }
    assert v == edges;
  }

  // ---------------------------------------------------------------------
  // Conditional edges
  // ---------------------------------------------------------------------

  /** One conditional entry: the condition function is looked up first, then
      the source (translated when "START") and the mapping (kept as it is)
      are read; any missing key or unknown function is a KeyError. */
  function ConditionalOf<C>(raw: RawConditional, fns: map<string, C>): (r: Result<LoadedConditional<C>>)
    ensures r.Ok? <==> raw.conditionFn.Some? && raw.conditionFn.value in fns && raw.source.Some? && raw.mapping.Some?
    ensures r.Err? ==> r.error == "KeyError"
    ensures r.Ok? ==> r.value.condition == fns[raw.conditionFn.value]
    ensures r.Ok? ==> r.value.source == TranslateSource(raw.source.value) && r.value.mapping == raw.mapping.value
  {
    if raw.conditionFn.None? || raw.conditionFn.value !in fns || raw.source.None? || raw.mapping.None? then
      Err("KeyError")
    else
      Ok(LoadedConditional(TranslateSource(raw.source.value), fns[raw.conditionFn.value], raw.mapping.value))
  }

  function ConditionalsOf<C>(raw: seq<RawConditional>, fns: map<string, C>): Result<seq<LoadedConditional<C>>>
  {
    if raw == [] then Ok([])
    else match ConditionalsOf(raw[..|raw| - 1], fns)
      case Err(e) => Err(e)
      case Ok(init) =>
        match ConditionalOf(raw[|raw| - 1], fns)
        case Err(e) => Err(e)
        case Ok(c) => Ok(init + [c])
  }

  /** Once a prefix fails, every longer prefix fails the same way. */
  lemma {:induction false} ConditionalsFailFrom<C>(raw: seq<RawConditional>, fns: map<string, C>, k: nat)
    requires k <= |raw| && ConditionalsOf(raw[..k], fns).Err?
    ensures ConditionalsOf(raw, fns) == ConditionalsOf(raw[..k], fns)
    decreases |raw| - k
  {
    if k < |raw| {
      assert raw[..k + 1][..k] == raw[..k];
      ConditionalsFailFrom(raw, fns, k + 1);
    } else {
      assert raw[..k] == raw;
    }
  }

  /** The conditional-edge loop. */
  method LoadConditionals<C>(raw: seq<RawConditional>, fns: map<string, C>) returns (r: Result<seq<LoadedConditional<C>>>)
    ensures r == ConditionalsOf(raw, fns)
  {
    var conditional: seq<LoadedConditional<C>> := [];
    var i := 0;
    while i < |raw|
      invariant 0 <= i <= |raw|
      invariant ConditionalsOf(raw[..i], fns) == Ok(conditional)
    {
      assert raw[..i + 1][..i] == raw[..i];
      var edge := raw[i];
      if edge.conditionFn.None? || edge.conditionFn.value !in fns || edge.source.None? || edge.mapping.None? {
        ConditionalsFailFrom(raw, fns, i + 1);
        return Err("KeyError");
      }
      var conditionFn := fns[edge.conditionFn.value];
      var source := if edge.source.value == "START" then Workflows.START else edge.source.value;
      conditional := conditional + [LoadedConditional(source, conditionFn, edge.mapping.value)];
      i := i + 1;
    }
    assert raw[..i] == raw;
    return Ok(conditional);
  }

  /** Loading the conditional edges succeeds exactly when every entry loads;
      then the count and order are kept, entry by entry. */
  lemma {:induction false} ConditionalsOfSpec<C>(raw: seq<RawConditional>, fns: map<string, C>)
    ensures ConditionalsOf(raw, fns).Ok? <==> forall i :: 0 <= i < |raw| ==> ConditionalOf(raw[i], fns).Ok?
    ensures ConditionalsOf(raw, fns).Err? ==> ConditionalsOf(raw, fns).error == "KeyError"
    ensures ConditionalsOf(raw, fns).Ok? ==>
              |ConditionalsOf(raw, fns).value| == |raw|
              && forall i :: 0 <= i < |raw| ==> Ok(ConditionalsOf(raw, fns).value[i]) == ConditionalOf(raw[i], fns)
  {
    if raw != [] {
      var init := raw[..|raw| - 1];
      ConditionalsOfSpec(init, fns);
      assert forall i :: 0 <= i < |init| ==> init[i] == raw[i];
    }
  }

  // ---------------------------------------------------------------------
  // The whole file
  // ---------------------------------------------------------------------

  /** The configuration a parsed file loads to: nodes, then edges, then the
      conditional edges (none when the entry is absent). */
  function WorkflowOf<F, C>(data: ConfigData, nodeFns: map<string, F>, conditionFns: map<string, C>)
    : Result<LoadedWorkflow<F, C>>
  {
    if data.nodes.None? then Err("KeyError")
    else match LoadNodes(data.nodes.value, nodeFns)
      case Err(e) => Err(e)
      case Ok(nodes) =>
        if data.edges.None? then Err("KeyError")
        else match EdgesOf(data.edges.value)
          case Err(e) => Err(e)
          case Ok(edges) =>
            var raw := if data.conditionalEdges.Some? then data.conditionalEdges.value else [];
            match ConditionalsOf(raw, conditionFns)
            case Err(e) => Err(e)
            case Ok(conditional) => Ok(LoadedWorkflow(nodes, edges, conditional))
  }

  /** `load_workflow_config` on the parsed file. */
  method LoadWorkflowConfig<F, C>(data: ConfigData, nodeFns: map<string, F>, conditionFns: map<string, C>)
    returns (r: Result<LoadedWorkflow<F, C>>)
    ensures r == WorkflowOf(data, nodeFns, conditionFns)
  {
    if data.nodes.None? {
      return Err("KeyError");
    }
    var nodes := LoadNodes(data.nodes.value, nodeFns);
    if nodes.Err? {
      return Err(nodes.error);
    }
    if data.edges.None? {
      return Err("KeyError");
    }
    var edges := LoadEdges(data.edges.value);
    if edges.Err? {
      return Err(edges.error);
    }
    var conditionalData := if data.conditionalEdges.Some? then data.conditionalEdges.value else [];
    var conditional := LoadConditionals(conditionalData, conditionFns);
    if conditional.Err? {
      return Err(conditional.error);
    }
    return Ok(LoadedWorkflow(nodes.value, edges.value, conditional.value));
  }

  /** A well-formed file loads to its nodes, its translated edges and its
      conditional edges; an absent `conditional_edges` entry gives none; a
      missing `nodes` or `edges` entry raises KeyError. */
  lemma WorkflowOfSpec<F, C>(data: ConfigData, nodeFns: map<string, F>, conditionFns: map<string, C>)
    ensures data.nodes.None? ==> WorkflowOf(data, nodeFns, conditionFns) == Err("KeyError")
    ensures data.nodes.Some? && LoadNodes(data.nodes.value, nodeFns).Ok? && data.edges.None? ==>
              WorkflowOf(data, nodeFns, conditionFns) == Err("KeyError")
    ensures WorkflowOf(data, nodeFns, conditionFns).Ok? ==>
              data.nodes.Some? && data.edges.Some?
              && Ok(WorkflowOf(data, nodeFns, conditionFns).value.nodes) == LoadNodes(data.nodes.value, nodeFns)
              && Ok(WorkflowOf(data, nodeFns, conditionFns).value.edges) == EdgesOf(data.edges.value)
    ensures WorkflowOf(data, nodeFns, conditionFns).Ok? && data.conditionalEdges.None? ==>
              WorkflowOf(data, nodeFns, conditionFns).value.conditional == []
    ensures WorkflowOf(data, nodeFns, conditionFns).Err? ==>
              WorkflowOf(data, nodeFns, conditionFns).error in {"KeyError", "ValueError"}
  {
    if data.nodes.Some? {
      LoadNodesSpec(data.nodes.value, nodeFns);
      if data.edges.Some? {
        EdgesOfSpec(data.edges.value);
        if data.conditionalEdges.Some? {
          ConditionalsOfSpec(data.conditionalEdges.value, conditionFns);
        }
      }
    }
  }
}
