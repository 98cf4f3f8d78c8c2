/** The static agentic-RAG workflow (its nodes, plain edges and the one
    conditional edge) as a finite directed graph, with its shape proved:
    one entry, two exits, the two fan-out/fan-in diamonds, acyclicity and
    registered endpoints. */
module Workflows {
  import opened Common
  import opened GraphState
  import opened Nodes

  /** The graph library's reserved names for the entry and the exit. */
  const START: string := "__start__"
  const END: string := "__end__"

  /** The nodes of the agentic-RAG workflow, with the entry and the exit. */
  datatype RagNode =
    | Start
    | ExtractKeywordsNode
    | DetectFilenameNode
    | RetrieveByVector
    | RetrieveByFulltext
    | MergeAfterRetrieve
    | ReturnDocsNode
    | GenerateAnswerBranchingNode
    | GenerateForVector
    | GenerateForFulltext
    | ShowSource
    | End
  {
    /** The name the node is registered under. */
    function Name(): string {
      match this
      case Start => START
      case ExtractKeywordsNode => "extract_keywords"
      case DetectFilenameNode => "detect_filename"
      case RetrieveByVector => "retrieve_documents_by_vector_search"
      case RetrieveByFulltext => "retrieve_documents_by_fulltext_search"
      case MergeAfterRetrieve => "merge_after_retrieve"
      case ReturnDocsNode => "return_docs"
      case GenerateAnswerBranchingNode => "generate_answer_branching"
      case GenerateForVector => "generate_answer_agentic_rag_for_vector_search"
      case GenerateForFulltext => "generate_answer_agentic_rag_for_fulltext_search"
      case ShowSource => "show_source"
      case End => END
    }
  }

  /** A conditional edge: after `source`, the condition function's label is
      looked up in `mapping` to choose the next node. */
  datatype Conditional<N> = Conditional(source: N, condition: string, mapping: seq<(string, N)>)

  /** A workflow: registered nodes with the function each runs, plain edges
      and conditional edges. */
  datatype Workflow<N> = Workflow(nodes: seq<(N, string)>, edges: seq<(N, N)>, conditional: seq<Conditional<N>>)

  /** The nodes of `AGENTIC_RAG_WORKFLOW`, each with the function it runs. */
  const RagNodes: seq<(RagNode, string)> :=
    [ (ExtractKeywordsNode, "extract_keywords_initial"),
      (DetectFilenameNode, "detect_filename"),
      (RetrieveByVector, "retrieve_documents_by_vector_search"),
      (RetrieveByFulltext, "retrieve_documents_by_fulltext_search"),
      (MergeAfterRetrieve, "merge_after_retrieve"),
      (ReturnDocsNode, "return_docs"),
      (GenerateAnswerBranchingNode, "generate_answer_branching"),
      (GenerateForVector, "generate_answer_agentic_rag_for_vector_search"),
      (GenerateForFulltext, "generate_answer_agentic_rag_for_fulltext_search"),
      (ShowSource, "show_source") ]

  /** Its plain edges. */
  const RagEdges: seq<(RagNode, RagNode)> :=
    [ (Start, ExtractKeywordsNode),
      (ExtractKeywordsNode, DetectFilenameNode),
      (DetectFilenameNode, RetrieveByVector),
      (DetectFilenameNode, RetrieveByFulltext),
      (RetrieveByVector, MergeAfterRetrieve),
      (RetrieveByFulltext, MergeAfterRetrieve),
      (ReturnDocsNode, End),
      (GenerateAnswerBranchingNode, GenerateForVector),
      (GenerateAnswerBranchingNode, GenerateForFulltext),
      (GenerateForVector, ShowSource),
      (GenerateForFulltext, ShowSource),
      (ShowSource, End) ]

  /** Its conditional edge, after the merge. */
  const RagChoice: Conditional<RagNode> :=
    Conditional(MergeAfterRetrieve, "return_docs_or_generate_answer",
                [("return_docs", ReturnDocsNode), ("generate_answer", GenerateAnswerBranchingNode)])

  /** `AGENTIC_RAG_WORKFLOW`. */
  const AgenticRag: Workflow<RagNode> := Workflow(RagNodes, RagEdges, [RagChoice])

  // ---------------------------------------------------------------------
  // Graph vocabulary
  // ---------------------------------------------------------------------

  /** n has been added as a node. */
  predicate Registered<N(==)>(w: Workflow<N>, n: N) {
    exists i :: 0 <= i < |w.nodes| && w.nodes[i].0 == n
  }

  /** The moves one conditional edge allows, one per entry of its mapping. */
  function ChoiceSteps<N>(source: N, mapping: seq<(string, N)>): (r: seq<(N, N)>)
    ensures |r| == |mapping|
    ensures forall i :: 0 <= i < |r| ==> r[i] == (source, mapping[i].1)
  {
    if mapping == [] then [] else ChoiceSteps(source, mapping[..|mapping| - 1]) + [(source, mapping[|mapping| - 1].1)]
  }

  /** The moves of all conditional edges, in order. */
  function AllChoiceSteps<N>(cs: seq<Conditional<N>>): seq<(N, N)> {
    if cs == [] then []
    else AllChoiceSteps(cs[..|cs| - 1]) + ChoiceSteps(cs[|cs| - 1].source, cs[|cs| - 1].mapping)
  }

  /** Every move the workflow can make: its plain edges, then each target of
      each conditional edge. */
  function Steps<N>(w: Workflow<N>): seq<(N, N)> {
    w.edges + AllChoiceSteps(w.conditional)
  }

  /** The moves a workflow can make from n to m. */
  predicate Step<N(==)>(w: Workflow<N>, n: N, m: N) {
    (n, m) in Steps(w)
  }

  predicate IsPath<N(==)>(w: Workflow<N>, p: seq<N>) {
    forall i :: 0 <= i < |p| - 1 ==> Step(w, p[i], p[i + 1])
  }

  /** A conditional target is a move, and a move from a node without plain
      edges is a conditional target. */
  lemma {:induction false} AllChoiceStepsMember<N>(cs: seq<Conditional<N>>, n: N, m: N)
    ensures (n, m) in AllChoiceSteps(cs) <==>
              exists i, j :: 0 <= i < |cs| && 0 <= j < |cs[i].mapping| && cs[i].source == n && cs[i].mapping[j].1 == m
  {
    if cs != [] {
      var init := cs[..|cs| - 1];
      var last := cs[|cs| - 1];
      AllChoiceStepsMember(init, n, m);
      var tail := ChoiceSteps(last.source, last.mapping);
      if (n, m) in tail {
        var j :| 0 <= j < |tail| && tail[j] == (n, m);
        assert cs[|cs| - 1].source == n && cs[|cs| - 1].mapping[j].1 == m;
      }
      if exists i, j :: 0 <= i < |cs| && 0 <= j < |cs[i].mapping| && cs[i].source == n && cs[i].mapping[j].1 == m {
        var i, j :| 0 <= i < |cs| && 0 <= j < |cs[i].mapping| && cs[i].source == n && cs[i].mapping[j].1 == m;
        if i < |cs| - 1 {
          assert init[i] == cs[i];
        } else {
          assert tail[j] == (n, m);
        }
      }
    }
  }

  /** A position along the workflow that every move takes forward. */
  function Rank(n: RagNode): nat {
    match n
    case Start => 0
    case ExtractKeywordsNode => 1
    case DetectFilenameNode => 2
    case RetrieveByVector => 3
    case RetrieveByFulltext => 3
    case MergeAfterRetrieve => 4
    case ReturnDocsNode => 5
    case GenerateAnswerBranchingNode => 5
    case GenerateForVector => 6
    case GenerateForFulltext => 6
    case ShowSource => 7
    case End => 8
  }

  // ---------------------------------------------------------------------
  // The shape of the agentic-RAG workflow
  // ---------------------------------------------------------------------

  /** The conditional edge contributes two moves, from the merge to the
      rendering and to the answer branching. */
  lemma AgenticRagChoices()
    ensures Steps(AgenticRag) == RagSteps
  {
    var cs := [RagChoice];
    assert cs[..0] == [];
    assert AllChoiceSteps(cs) == ChoiceSteps(RagChoice.source, RagChoice.mapping);
  }

  /** The moves of the agentic-RAG workflow, written node by node. */
  predicate RagMove(n: RagNode, m: RagNode) {
    match n
    case Start => m == ExtractKeywordsNode
    case ExtractKeywordsNode => m == DetectFilenameNode
    case DetectFilenameNode => m == RetrieveByVector || m == RetrieveByFulltext
    case RetrieveByVector => m == MergeAfterRetrieve
    case RetrieveByFulltext => m == MergeAfterRetrieve
    case MergeAfterRetrieve => m == ReturnDocsNode || m == GenerateAnswerBranchingNode
    case ReturnDocsNode => m == End
    case GenerateAnswerBranchingNode => m == GenerateForVector || m == GenerateForFulltext
    case GenerateForVector => m == ShowSource
    case GenerateForFulltext => m == ShowSource
    case ShowSource => m == End
    case End => false
  }

  /** Every listed move is one of the node-by-node moves. */
  lemma ListedMovesAreMoves()
    ensures forall i :: 0 <= i < |Steps(AgenticRag)| ==> RagMove(Steps(AgenticRag)[i].0, Steps(AgenticRag)[i].1)
  {
    AgenticRagChoices();
  }

  /** Every listed move is a node-by-node move. */
  lemma StepIsMove(n: RagNode, m: RagNode)
    requires Step(AgenticRag, n, m)
    ensures RagMove(n, m)
  {
    var l := Steps(AgenticRag);
    ListedMovesAreMoves();
    var i :| 0 <= i < |l| && l[i] == (n, m);
  }

  /** The moves of the agentic-RAG workflow, listed in order. */
  const RagSteps: seq<(RagNode, RagNode)> :=
    RagEdges + [(MergeAfterRetrieve, ReturnDocsNode), (MergeAfterRetrieve, GenerateAnswerBranchingNode)]

  /** Every node-by-node move is listed. */
  lemma MoveIsStep(n: RagNode, m: RagNode)
    requires RagMove(n, m)
    ensures Step(AgenticRag, n, m)
  {
    AgenticRagChoices();
    var k := match n
      case Start => 0
      case ExtractKeywordsNode => 1
      case DetectFilenameNode => if m == RetrieveByVector then 2 else 3
      case RetrieveByVector => 4
      case RetrieveByFulltext => 5
      case ReturnDocsNode => 6
      case GenerateAnswerBranchingNode => if m == GenerateForVector then 7 else 8
      case GenerateForVector => 9
      case GenerateForFulltext => 10
      case ShowSource => 11
      case MergeAfterRetrieve => if m == ReturnDocsNode then 12 else 13
      case End => 0;
    assert RagSteps[k] == (n, m);
  }

  /** The workflow's edges and conditional targets are exactly the
      node-by-node moves. */
  lemma AgenticRagSteps(n: RagNode, m: RagNode)
    ensures Step(AgenticRag, n, m) <==> RagMove(n, m)
  {
    if Step(AgenticRag, n, m) {
      StepIsMove(n, m);
    }
    if RagMove(n, m) {
      MoveIsStep(n, m);
    }
  }

  /** The node-by-node moves into the entry, the merge, the source
      rendering and the exit. */
  lemma IncomingMoves(n: RagNode)
    ensures !RagMove(n, Start)
    ensures RagMove(n, MergeAfterRetrieve) <==> n == RetrieveByVector || n == RetrieveByFulltext
    ensures RagMove(n, ShowSource) <==> n == GenerateForVector || n == GenerateForFulltext
    ensures RagMove(n, End) <==> n == ReturnDocsNode || n == ShowSource
  {
  }

  /** One entry move, START to keyword extraction, and nothing leads back to
      the entry; exactly the return-docs and show-source nodes reach the
      exit, and nothing leaves it. */
  lemma EntryAndExits()
    ensures forall m :: Step(AgenticRag, Start, m) <==> m == ExtractKeywordsNode
    ensures forall n :: Step(AgenticRag, n, End) <==> n == ReturnDocsNode || n == ShowSource
    ensures forall n :: !Step(AgenticRag, n, Start) && !Step(AgenticRag, End, n)
  {
    forall m ensures Step(AgenticRag, Start, m) <==> m == ExtractKeywordsNode {
      AgenticRagSteps(Start, m);
    }
    forall n ensures Step(AgenticRag, n, End) <==> n == ReturnDocsNode || n == ShowSource {
      AgenticRagSteps(n, End);
      IncomingMoves(n);
    }
    forall n ensures !Step(AgenticRag, n, Start) && !Step(AgenticRag, End, n) {
      AgenticRagSteps(n, Start);
      IncomingMoves(n);
      AgenticRagSteps(End, n);
    }
  }

  /** Detection fans out to both retrievals, which join at the merge; the
      merge goes on only through its conditional edge; the branching node
      fans out to both generators, which join at the source rendering. */
  lemma FanOutFanIn()
    ensures forall m :: Step(AgenticRag, DetectFilenameNode, m) <==> m == RetrieveByVector || m == RetrieveByFulltext
    ensures forall n :: Step(AgenticRag, n, MergeAfterRetrieve) <==> n == RetrieveByVector || n == RetrieveByFulltext
    ensures forall m :: Step(AgenticRag, MergeAfterRetrieve, m) <==> m == ReturnDocsNode || m == GenerateAnswerBranchingNode
    ensures forall m :: Step(AgenticRag, GenerateAnswerBranchingNode, m) <==> m == GenerateForVector || m == GenerateForFulltext
    ensures forall n :: Step(AgenticRag, n, ShowSource) <==> n == GenerateForVector || n == GenerateForFulltext
  {
    forall m ensures Step(AgenticRag, DetectFilenameNode, m) <==> m == RetrieveByVector || m == RetrieveByFulltext {
      AgenticRagSteps(DetectFilenameNode, m);
    }
    forall n ensures Step(AgenticRag, n, MergeAfterRetrieve) <==> n == RetrieveByVector || n == RetrieveByFulltext {
      AgenticRagSteps(n, MergeAfterRetrieve);
      IncomingMoves(n);
    }
    forall m ensures Step(AgenticRag, MergeAfterRetrieve, m) <==> m == ReturnDocsNode || m == GenerateAnswerBranchingNode {
      AgenticRagSteps(MergeAfterRetrieve, m);
    }
    forall m ensures Step(AgenticRag, GenerateAnswerBranchingNode, m) <==> m == GenerateForVector || m == GenerateForFulltext {
      AgenticRagSteps(GenerateAnswerBranchingNode, m);
    }
    forall n ensures Step(AgenticRag, n, ShowSource) <==> n == GenerateForVector || n == GenerateForFulltext {
      AgenticRagSteps(n, ShowSource);
      IncomingMoves(n);
    }
  }

  /** The merge has no plain edge of its own: it goes on only through its
      conditional edge. */
  lemma MergeOnlyConditional()
    ensures forall i :: 0 <= i < |AgenticRag.edges| ==> AgenticRag.edges[i].0 != MergeAfterRetrieve
  {
  }

  /** Every move goes forward in rank. */
  lemma RankIncreases(n: RagNode, m: RagNode)
    requires Step(AgenticRag, n, m)
    ensures Rank(n) < Rank(m)
  {
    AgenticRagSteps(n, m);
    MoveRanks(n, m);
  }

  /** Each node-by-node move goes forward in rank. */
  lemma MoveRanks(n: RagNode, m: RagNode)
    requires RagMove(n, m)
    ensures Rank(n) < Rank(m)
  {
  }

  /** Along any path of a workflow whose every move raises a rank, the
      rank only grows. */
  lemma {:induction false} PathsClimb<N>(w: Workflow<N>, rank: N -> nat, p: seq<N>)
    requires forall n, m :: Step(w, n, m) ==> rank(n) < rank(m)
    requires IsPath(w, p)
    ensures forall i, j :: 0 <= i < j < |p| ==> rank(p[i]) < rank(p[j])
  {
    if |p| > 1 {
      var init := p[..|p| - 1];
      assert IsPath(w, init) by {
        forall i | 0 <= i < |init| - 1
          ensures Step(w, init[i], init[i + 1])
        {
          assert init[i] == p[i] && init[i + 1] == p[i + 1];
        }
      }
      PathsClimb(w, rank, init);
      assert Step(w, p[|p| - 2], p[|p| - 1]);
      forall i, j | 0 <= i < j < |p|
        ensures rank(p[i]) < rank(p[j])
      {
        if j < |p| - 1 {
          assert p[i] == init[i] && p[j] == init[j];
        } else if i < |p| - 2 {
          assert p[i] == init[i] && p[|p| - 2] == init[|p| - 2];
        }
      }
    }
  }

  /** Along any path of the agentic-RAG workflow the rank only grows, so no
      node comes back: the workflow has no cycle, and so no retry loop. */
  lemma Acyclic(p: seq<RagNode>)
    requires IsPath(AgenticRag, p)
    ensures forall i, j :: 0 <= i < j < |p| ==> p[i] != p[j]
  {
    forall n, m | Step(AgenticRag, n, m)
      ensures Rank(n) < Rank(m)
    {
      RankIncreases(n, m);
    }
    PathsClimb(AgenticRag, Rank, p);
  }

  /** No registration names the entry or the exit. */
  lemma RegistrationsNamed()
    ensures forall i :: 0 <= i < |RagNodes| ==> RagNodes[i].0 != Start && RagNodes[i].0 != End
  {
  }

  /** Every node but the entry and the exit is registered, and nothing
      else. */
  lemma AgenticRagRegistered(n: RagNode)
    ensures Registered(AgenticRag, n) <==> n != Start && n != End
  {
    if Registered(AgenticRag, n) {
      RegistrationsNamed();
    }
    if n != Start && n != End {
      var i := match n
        case ExtractKeywordsNode => 0
        case DetectFilenameNode => 1
        case RetrieveByVector => 2
        case RetrieveByFulltext => 3
        case MergeAfterRetrieve => 4
        case ReturnDocsNode => 5
        case GenerateAnswerBranchingNode => 6
        case GenerateForVector => 7
        case GenerateForFulltext => 8
        case _ => 9;
      assert RagNodes[i].0 == n;
    }
  }

  /** Every move joins registered nodes, the entry or the exit, and the
      entry and the exit are not registered. */
  lemma EndpointsRegistered(n: RagNode, m: RagNode)
    requires Step(AgenticRag, n, m)
    ensures n == Start || Registered(AgenticRag, n)
    ensures m == End || Registered(AgenticRag, m)
    ensures !Registered(AgenticRag, Start) && !Registered(AgenticRag, End)
  {
    AgenticRagRegistered(n);
    AgenticRagRegistered(m);
    AgenticRagRegistered(Start);
    AgenticRagRegistered(End);
    AgenticRagSteps(n, m);
  }

  /** A path grows by a move in front of it. */
  lemma PathCons<N>(w: Workflow<N>, x: N, p: seq<N>)
    requires IsPath(w, p) && p != [] && Step(w, x, p[0])
    ensures IsPath(w, [x] + p)
  {
    var q := [x] + p;
    forall i | 0 <= i < |q| - 1
      ensures Step(w, q[i], q[i + 1])
    {
      if i > 0 {
        assert q[i] == p[i - 1] && q[i + 1] == p[i];
      }
    }
  }

  /** The tail shared by every run through a generator. */
  lemma RunFromGenerator(g: RagNode)
    requires g == GenerateForVector || g == GenerateForFulltext
    ensures IsPath(AgenticRag, [GenerateAnswerBranchingNode, g, ShowSource, End])
  {
    AgenticRagSteps(ShowSource, End);
    PathCons(AgenticRag, ShowSource, [End]);
    AgenticRagSteps(g, ShowSource);
    PathCons(AgenticRag, g, [ShowSource, End]);
    AgenticRagSteps(GenerateAnswerBranchingNode, g);
    PathCons(AgenticRag, GenerateAnswerBranchingNode, [g, ShowSource, End]);
  }

  /** The front shared by every run, up to the merge, through either
      retrieval. */
  lemma RunToMerge(r: RagNode, rest: seq<RagNode>)
    requires r == RetrieveByVector || r == RetrieveByFulltext
    requires IsPath(AgenticRag, [MergeAfterRetrieve] + rest)
    ensures IsPath(AgenticRag, [Start, ExtractKeywordsNode, DetectFilenameNode, r, MergeAfterRetrieve] + rest)
  {
    var p := [MergeAfterRetrieve] + rest;
    AgenticRagSteps(r, MergeAfterRetrieve);
    PathCons(AgenticRag, r, p);
    RunToRetrieval(r, [r] + p);
    assert [Start, ExtractKeywordsNode, DetectFilenameNode] + ([r] + p)
        == [Start, ExtractKeywordsNode, DetectFilenameNode, r, MergeAfterRetrieve] + rest;
  }

  /** The entry, the keyword extraction and the filename detection lead to
      either retrieval. */
  lemma RunToRetrieval(r: RagNode, p: seq<RagNode>)
    requires r == RetrieveByVector || r == RetrieveByFulltext
    requires IsPath(AgenticRag, p) && p != [] && p[0] == r
    ensures IsPath(AgenticRag, [Start, ExtractKeywordsNode, DetectFilenameNode] + p)
  {
    AgenticRagSteps(DetectFilenameNode, r);
    PathCons(AgenticRag, DetectFilenameNode, p);
    AgenticRagSteps(ExtractKeywordsNode, DetectFilenameNode);
    PathCons(AgenticRag, ExtractKeywordsNode, [DetectFilenameNode] + p);
    AgenticRagSteps(Start, ExtractKeywordsNode);
    PathCons(AgenticRag, Start, [ExtractKeywordsNode] + ([DetectFilenameNode] + p));
    assert [Start] + ([ExtractKeywordsNode] + ([DetectFilenameNode] + p))
        == [Start, ExtractKeywordsNode, DetectFilenameNode] + p;
  }

  /** A run through the document rendering. */
  lemma RunThroughReturnDocs(r: RagNode)
    requires r == RetrieveByVector || r == RetrieveByFulltext
    ensures IsPath(AgenticRag, [Start, ExtractKeywordsNode, DetectFilenameNode, r, MergeAfterRetrieve, ReturnDocsNode, End])
  {
    AgenticRagSteps(ReturnDocsNode, End);
    PathCons(AgenticRag, ReturnDocsNode, [End]);
    AgenticRagSteps(MergeAfterRetrieve, ReturnDocsNode);
    PathCons(AgenticRag, MergeAfterRetrieve, [ReturnDocsNode, End]);
    RunToMerge(r, [ReturnDocsNode, End]);
  }

  /** A run through either retrieval and either generator. */
  lemma RunThroughGenerator(r: RagNode, g: RagNode)
    requires r == RetrieveByVector || r == RetrieveByFulltext
    requires g == GenerateForVector || g == GenerateForFulltext
    ensures IsPath(AgenticRag, [Start, ExtractKeywordsNode, DetectFilenameNode, r, MergeAfterRetrieve,
                                GenerateAnswerBranchingNode, g, ShowSource, End])
  {
    RunFromGenerator(g);
    AgenticRagSteps(MergeAfterRetrieve, GenerateAnswerBranchingNode);
    PathCons(AgenticRag, MergeAfterRetrieve, [GenerateAnswerBranchingNode, g, ShowSource, End]);
    RunToMerge(r, [GenerateAnswerBranchingNode, g, ShowSource, End]);
  }

  /** Every registered node lies on a run from the entry to the exit. */
  lemma EveryNodeOnARun(n: RagNode) returns (p: seq<RagNode>)
    requires Registered(AgenticRag, n)
    ensures IsPath(AgenticRag, p) && |p| >= 2 && p[0] == Start && p[|p| - 1] == End && n in p
  {
    AgenticRagRegistered(n);
    var r := if n == RetrieveByVector then RetrieveByVector else RetrieveByFulltext;
    var g := if n == GenerateForVector then GenerateForVector else GenerateForFulltext;
    if n == ReturnDocsNode {
      p := [Start, ExtractKeywordsNode, DetectFilenameNode, r, MergeAfterRetrieve, ReturnDocsNode, End];
      RunThroughReturnDocs(r);
      assert p[5] == n;
    } else {
      p := [Start, ExtractKeywordsNode, DetectFilenameNode, r, MergeAfterRetrieve,
            GenerateAnswerBranchingNode, g, ShowSource, End];
      RunThroughGenerator(r, g);
      var k := match n
        case ExtractKeywordsNode => 1
        case DetectFilenameNode => 2
        case RetrieveByVector => 3
        case RetrieveByFulltext => 3
        case MergeAfterRetrieve => 4
        case GenerateAnswerBranchingNode => 5
        case GenerateForVector => 6
        case GenerateForFulltext => 6
        case _ => 7;
      assert p[k] == n;
    }
  }

  /** Whatever the state, the branch decision is a label of the merge's
      conditional edge: "return_docs" leads to the rendering, anything
      else to the answer branching. */
  lemma DecisionLabelsMapped(s: State)
    requires ReturnDocsOrGenerate(s).Ok?
    ensures ReturnDocsOrGenerate(s).value in Keys(AgenticRag.conditional[0].mapping)
    ensures ReturnDocsOrGenerate(s).value == "return_docs" ==>
              AgenticRag.conditional[0].mapping[0] == ("return_docs", ReturnDocsNode)
    ensures AgenticRag.conditional[0].source == MergeAfterRetrieve
  {
    assert Keys(AgenticRag.conditional[0].mapping) == ["return_docs", "generate_answer"];
  }
}
