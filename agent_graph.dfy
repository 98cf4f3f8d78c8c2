/** The two agent graphs as they are built: a graph builder whose nodes and
    edges grow with each `add_node`, `add_edge` and
    `add_conditional_edges` call, the call sequences of the agentic-RAG and
    the smart-SQL graph, and what the resulting graphs promise about the
    routing functions. */
module AgentGraph {
  import opened Common
  import opened GraphState
  import opened Grading
  import Workflows

  /** A `StateGraph` under construction. A conditional edge added without a
      mapping routes to the node whose name the condition returns. */
  class GraphBuilder {
    var nodes: seq<string>
    var edges: seq<(string, string)>
    /** (source, condition function name) per conditional edge. */
    var routers: seq<(string, string)>

    constructor()
      ensures nodes == [] && edges == [] && routers == []
    {
      nodes := [];
      edges := [];
      routers := [];
    }

    /** `add_node(fn)`: the node is registered under the function's name. */
    method AddNode(name: string)
      modifies this
      ensures nodes == old(nodes) + [name]
      ensures edges == old(edges) && routers == old(routers)
    {
      nodes := nodes + [name];
    }

    method AddEdge(source: string, target: string)
      modifies this
      ensures edges == old(edges) + [(source, target)]
      ensures nodes == old(nodes) && routers == old(routers)
    {
      edges := edges + [(source, target)];
    }

    method AddConditionalEdges(source: string, condition: string)
      modifies this
      ensures routers == old(routers) + [(source, condition)]
      ensures nodes == old(nodes) && edges == old(edges)
    {
      routers := routers + [(source, condition)];
    }
  }

  // ---------------------------------------------------------------------
  // The agentic-RAG graph
  // ---------------------------------------------------------------------

  const AgentNodes: seq<string> := [
    "grade_query", "generate_intial_answer", "generate_null_answer", "generate_answer_agentic_rag",
    "generate_answer_smart_sql", "extract_keywords_initial", "retrieve_documents", "grade_documents",
    "return_docs", "show_source"]

  const AgentEdges: seq<(string, string)> := [
    ("generate_intial_answer", Workflows.END),
    ("extract_keywords_initial", "retrieve_documents"),
    ("generate_null_answer", Workflows.END),
    ("return_docs", Workflows.END),
    ("generate_answer_agentic_rag", "show_source"),
    ("show_source", Workflows.END)]

  const AgentRouters: seq<(string, string)> := [
    (Workflows.START, "grade_query"),
    ("retrieve_documents", "grade_documents")]

  /** The node registrations of `build_graph_agentic_rag_local_embedding`. */
  method AddAgentNodes(g: GraphBuilder)
    modifies g
    requires g.nodes == []
    ensures g.nodes == AgentNodes
    ensures g.edges == old(g.edges) && g.routers == old(g.routers)
  {
    g.AddNode("grade_query");
    g.AddNode("generate_intial_answer");
    g.AddNode("generate_null_answer");
    g.AddNode("generate_answer_agentic_rag");
    g.AddNode("generate_answer_smart_sql");
    assert g.nodes == AgentNodes[..5];
    g.AddNode("extract_keywords_initial");
    g.AddNode("retrieve_documents");
    g.AddNode("grade_documents");
    g.AddNode("return_docs");
    g.AddNode("show_source");
  }

  /** The edge additions of `build_graph_agentic_rag_local_embedding`. */
  method AddAgentEdges(g: GraphBuilder)
    modifies g
    requires g.edges == [] && g.routers == []
    ensures g.edges == AgentEdges && g.routers == AgentRouters
    ensures g.nodes == old(g.nodes)
  {
    g.AddConditionalEdges(Workflows.START, "grade_query");
    g.AddEdge("generate_intial_answer", Workflows.END);
    g.AddEdge("extract_keywords_initial", "retrieve_documents");
    g.AddConditionalEdges("retrieve_documents", "grade_documents");
    g.AddEdge("generate_null_answer", Workflows.END);
    g.AddEdge("return_docs", Workflows.END);
    g.AddEdge("generate_answer_agentic_rag", "show_source");
    g.AddEdge("show_source", Workflows.END);
  }

  /** `build_graph_agentic_rag_local_embedding`, up to compilation. */
  method BuildAgenticRag() returns (g: GraphBuilder)
    ensures fresh(g)
    ensures g.nodes == AgentNodes && g.edges == AgentEdges && g.routers == AgentRouters
  {
    g := new GraphBuilder();
    AddAgentNodes(g);
    AddAgentEdges(g);
  }

  /** The entry is routed by `grade_query`, and both labels it can return
      name registered nodes. */
  lemma GradeQueryRoutesToNodes(messages: seq<Message>, reply: string -> string, decode: string -> Option<string>)
    requires GradeQuery(messages, reply, decode).Ok?
    ensures AgentRouters[0] == (Workflows.START, "grade_query")
    ensures GradeQuery(messages, reply, decode).value in AgentNodes
  {
    GradeQuerySpec(messages, reply, decode);
    assert AgentNodes[1] == "generate_intial_answer" && AgentNodes[5] == "extract_keywords_initial";
  }

  /** The retrieval node is routed by `grade_documents`, and neither label
      it can return names a registered node: whatever the state, the graph
      has nowhere to go after retrieval. */
  lemma GradeDocumentsRoutesNowhere(s: State, limit: int, grader: (string, string) -> string)
    requires "rewrite_count" in s.fields && s.fields["rewrite_count"].FInt?
    requires GradeDocuments(s, limit, grader).Ok?
    ensures AgentRouters[1] == ("retrieve_documents", "grade_documents")
    ensures GradeDocuments(s, limit, grader).value !in AgentNodes
  {
    GradeDocumentsSpec(s, limit, grader);
    var v := GradeDocuments(s, limit, grader).value;
    forall i | 0 <= i < |AgentNodes|
      ensures AgentNodes[i] != v
    {
      assert |AgentNodes[i]| != |v| || AgentNodes[i][0] != v[0] || AgentNodes[i][9] != v[9];
    }
  }

  /** Exactly the initial answer, the null answer, the document rendering
      and the source rendering lead to the exit; the keyword extraction
      leads to retrieval and the answer to the source rendering. */
  lemma AgentExits()
    ensures forall i :: 0 <= i < |AgentEdges| && AgentEdges[i].1 == Workflows.END ==>
              AgentEdges[i].0 in {"generate_intial_answer", "generate_null_answer", "return_docs", "show_source"}
    ensures ("generate_intial_answer", Workflows.END) in AgentEdges && ("generate_null_answer", Workflows.END) in AgentEdges
    ensures ("return_docs", Workflows.END) in AgentEdges && ("show_source", Workflows.END) in AgentEdges
    ensures ("extract_keywords_initial", "retrieve_documents") in AgentEdges
    ensures ("generate_answer_agentic_rag", "show_source") in AgentEdges
  {
    assert AgentEdges[1].1 != Workflows.END && AgentEdges[4].1 != Workflows.END;
  }

  // ---------------------------------------------------------------------
  // The smart-SQL graph
  // ---------------------------------------------------------------------

  const SqlNodes: seq<string> := ["execute_sql", "generate_answer_smart_sql"]

  /** `build_graph_smart_sql`, up to compilation. */
  method BuildSmartSql() returns (g: GraphBuilder)
    ensures fresh(g)
    ensures g.nodes == SqlNodes && g.routers == []
    ensures g.edges == [(Workflows.START, "execute_sql"), ("execute_sql", "generate_answer_smart_sql"),
                        ("generate_answer_smart_sql", Workflows.END)]
  {
    g := new GraphBuilder();
    g.AddNode("execute_sql");
    g.AddNode("generate_answer_smart_sql");
    g.AddEdge(Workflows.START, "execute_sql");
    g.AddEdge("execute_sql", "generate_answer_smart_sql");
    g.AddEdge("generate_answer_smart_sql", Workflows.END);
  }

  /** The edges form one chain from the entry to the exit through the
      registered nodes in order: each edge starts where the previous one
      ended. */
  predicate IsChain(nodes: seq<string>, edges: seq<(string, string)>) {
    |edges| == |nodes| + 1
    && edges[0].0 == Workflows.START && edges[|edges| - 1].1 == Workflows.END
    && (forall i :: 0 <= i < |nodes| ==> edges[i].1 == nodes[i] && edges[i + 1].0 == nodes[i])
  }

  /** In a chain every registered node has exactly one way in and one way
      out. */
  lemma {:induction false} ChainLinks(nodes: seq<string>, edges: seq<(string, string)>, k: int)
    requires IsChain(nodes, edges) && 0 <= k < |nodes|
    requires forall i, j :: 0 <= i < j < |nodes| ==> nodes[i] != nodes[j]
    requires forall i :: 0 <= i < |nodes| ==> nodes[i] != Workflows.START && nodes[i] != Workflows.END
    ensures forall i :: 0 <= i < |edges| && edges[i].1 == nodes[k] ==> i == k
    ensures forall i :: 0 <= i < |edges| && edges[i].0 == nodes[k] ==> i == k + 1
  {
    forall i | 0 <= i < |edges| && edges[i].1 == nodes[k]
      ensures i == k
    {
      if i < |nodes| {
        assert edges[i].1 == nodes[i];
      }
    }
    forall i | 0 <= i < |edges| && edges[i].0 == nodes[k]
      ensures i == k + 1
    {
      if i > 0 {
        assert edges[i].0 == nodes[i - 1];
      }
    }
  }

  /** The smart-SQL graph is the chain START, execute_sql,
      generate_answer_smart_sql, END: each of its nodes is entered once and
      left once. */
  lemma SmartSqlLinear(g: GraphBuilder)
    requires g.nodes == SqlNodes && g.routers == []
    requires g.edges == [(Workflows.START, "execute_sql"), ("execute_sql", "generate_answer_smart_sql"),
                         ("generate_answer_smart_sql", Workflows.END)]
    ensures IsChain(g.nodes, g.edges)
    ensures forall k, i :: 0 <= k < |g.nodes| && 0 <= i < |g.edges| && g.edges[i].1 == g.nodes[k] ==> i == k
    ensures forall k, i :: 0 <= k < |g.nodes| && 0 <= i < |g.edges| && g.edges[i].0 == g.nodes[k] ==> i == k + 1
  {
    assert SqlNodes[0] != SqlNodes[1] by { assert |SqlNodes[0]| != |SqlNodes[1]|; }
    assert forall i :: 0 <= i < |SqlNodes| ==> |SqlNodes[i]| != |Workflows.START| && |SqlNodes[i]| != |Workflows.END|;
    forall k | 0 <= k < |g.nodes|
      ensures forall i :: 0 <= i < |g.edges| && g.edges[i].1 == g.nodes[k] ==> i == k
      ensures forall i :: 0 <= i < |g.edges| && g.edges[i].0 == g.nodes[k] ==> i == k + 1
    {
      ChainLinks(g.nodes, g.edges, k);
    }
  }
}
