/** The Main.py variant of the teaching assistant: textrank key terms,
    textacy statements, a graphviz concept graph keyed by position, a
    dialogue memory of (text, embedding) records searched by an exact
    squared-L2 index, and DeepFace-based engagement with a safe default. */
module MainVariant {
  import opened Common
  import opened Text
  import opened Agents

  // ----------------------------------------------------------------- input

  /** `input_agent`: the text is passed on as it is. */
  function InputAgent(text: string): (r: string)
    ensures r == text
  {
    text
  }

  // ----------------------------------------------------------- NLP agent

  /** A span of the parsed document; only its text is used. */
  datatype Span = Span(start: nat, end: nat, text: string)

  /** A semi-structured statement (entity, cue, fragment) found by textacy. */
  datatype Statement = Statement(entity: Span, cue: Span, fragment: Span)

  /** `[(s.text, v.text, o.text) for s, v, o in triples]`. */
  function StatementTriples(statements: seq<Statement>): (r: seq<Triple>)
    ensures |r| == |statements|
    ensures forall i | 0 <= i < |r| ::
              r[i] == Triple(statements[i].entity.text, statements[i].cue.text, statements[i].fragment.text)
  {
    if statements == [] then []
    else
      var s := statements[0];
      [Triple(s.entity.text, s.cue.text, s.fragment.text)] + StatementTriples(statements[1..])
  }

  /** `nlp_agent`: `ranked` is textrank's ranking of the terms of `text` and
      `statements` what textacy extracts from it. */
  function NlpAgent(text: string, ranked: seq<string>, statements: seq<Statement>): (parsed: Analysis)
    ensures parsed.keyTerms == TopFive(ranked)
    ensures |parsed.keyTerms| <= MaxKeyTerms && parsed.keyTerms <= ranked
    ensures |ranked| >= MaxKeyTerms ==> |parsed.keyTerms| == MaxKeyTerms
    ensures |ranked| < MaxKeyTerms ==> parsed.keyTerms == ranked
    ensures |parsed.triples| == |statements|
    ensures forall i | 0 <= i < |statements| ::
              parsed.triples[i] == Triple(statements[i].entity.text, statements[i].cue.text, statements[i].fragment.text)
    ensures parsed.topic == Process <==> exists i: nat :: HowAt(text, i)
  {
    Analysis(TopFive(ranked), StatementTriples(statements), TopicType(text))
  }

  // -------------------------------------------------------- concept graph

  /** One line of a graphviz body: a node named by its position and labelled
      with its term, or an edge between two such names. */
  datatype Stmt = NodeStmt(name: nat, text: string) | EdgeStmt(tail: nat, head: nat)

  /** A graphviz `Digraph` restricted to what `generate_diagram` uses: the
      statements of its body, in the order they were issued. */
  class Digraph {
    var body: seq<Stmt>

    constructor ()
      ensures body == []
    {
      body := [];
    }

    /** `dot.node(name, label)`: appends a node statement; an existing node
        of the same text is not looked up. */
    method Node(name: nat, text: string)
      modifies this
      ensures body == old(body) + [NodeStmt(name, text)]
    {
      body := body + [NodeStmt(name, text)];
    }

    /** `dot.edge(tail, head)`. */
    method Edge(tail: nat, head: nat)
      modifies this
      ensures body == old(body) + [EdgeStmt(tail, head)]
    {
      body := body + [EdgeStmt(tail, head)];
    }
  }

  /** The body `generate_diagram` issues for `terms`: for each position a node,
      followed, from the second position on, by an edge from its predecessor. */
  function DotBody(terms: seq<string>): seq<Stmt> {
    if terms == [] then []
    else
      var n := |terms| - 1;
      DotBody(terms[..n]) + [NodeStmt(n, terms[n])] + (if n > 0 then [EdgeStmt(n - 1, n)] else [])
  }

  /** The node statements of a body, as (name, label) pairs. */
  function NodesOf(body: seq<Stmt>): seq<(nat, string)> {
    if body == [] then []
    else (match body[0] case NodeStmt(n, l) => [(n, l)] case EdgeStmt(_, _) => []) + NodesOf(body[1..])
  }

  /** The edge statements of a body, as (tail, head) pairs. */
  function EdgesOf(body: seq<Stmt>): seq<(nat, nat)> {
    if body == [] then []
    else (match body[0] case EdgeStmt(t, h) => [(t, h)] case NodeStmt(_, _) => []) + EdgesOf(body[1..])
  }

  lemma {:induction false} StatementsOfAppend(a: seq<Stmt>, b: seq<Stmt>)
    ensures NodesOf(a + b) == NodesOf(a) + NodesOf(b)
    ensures EdgesOf(a + b) == EdgesOf(a) + EdgesOf(b)
  {
    if a != [] {
      assert (a + b)[1..] == a[1..] + b;
      StatementsOfAppend(a[1..], b);
    } else {
      assert a + b == b;
    }
  }

  /** The node list a diagram of `terms` should have: position `i` named `i`
      and labelled `terms[i]`. */
  function Positions(terms: seq<string>): seq<(nat, string)> {
    seq(|terms|, i requires 0 <= i < |terms| => (i, terms[i]))
  }

  /** The edge list of a path through `n` nodes: `i -> i+1` for each `i`. */
  function PathSteps(n: nat): seq<(nat, nat)> {
    seq(if n == 0 then 0 else n - 1, i requires 0 <= i => (i, i + 1))
  }

  lemma TailStatements(n: nat, term: string)
    ensures NodesOf([NodeStmt(n, term)]) == [(n, term)] && EdgesOf([NodeStmt(n, term)]) == []
    ensures n > 0 ==> NodesOf([NodeStmt(n, term), EdgeStmt(n - 1, n)]) == [(n, term)]
    ensures n > 0 ==> EdgesOf([NodeStmt(n, term), EdgeStmt(n - 1, n)]) == [(n - 1, n)]
  {
    assert [NodeStmt(n, term)][1..] == [];
    if n > 0 {
      var two := [NodeStmt(n, term), EdgeStmt(n - 1, n)];
      assert two[1..] == [EdgeStmt(n - 1, n)];
      assert two[1..][1..] == [];
    }
  }

  /** One node per position, labelled with its term, so repeated terms stay
      separate nodes; and exactly the edges i-1 -> i, so n terms give
      max(0, n-1) edges forming a single path. */
  lemma {:induction false} DiagramShape(terms: seq<string>)
    ensures NodesOf(DotBody(terms)) == Positions(terms)
    ensures EdgesOf(DotBody(terms)) == PathSteps(|terms|)
  {
    if terms != [] {
      var n := |terms| - 1;
      var front := terms[..n];
      var tail := [NodeStmt(n, terms[n])] + (if n > 0 then [EdgeStmt(n - 1, n)] else []);
      var body := DotBody(front);
      DiagramShape(front);
      assert DotBody(terms) == body + tail;
      StatementsOfAppend(body, tail);
      TailStatements(n, terms[n]);
      assert Positions(terms) == Positions(front) + [(n, terms[n])];
      assert PathSteps(n + 1) == PathSteps(n) + (if n > 0 then [(n - 1, n)] else []);
    }
  }

  /** Repeated terms do not merge: the node count is the term count. */
  lemma DiagramKeepsDuplicates(terms: seq<string>)
    ensures |NodesOf(DotBody(terms))| == |terms|
    ensures |EdgesOf(DotBody(terms))| == if terms == [] then 0 else |terms| - 1
  {
    DiagramShape(terms);
  }

  /** `generate_diagram` without the rendering. `topicType` is accepted and,
      as in the source, unused. */
  method GenerateDiagram(terms: seq<string>, topicType: Topic) returns (dot: Digraph)
    ensures fresh(dot)
    ensures dot.body == DotBody(terms)
  {
    dot := new Digraph();
    var i := 0;
    while i < |terms|
      invariant i <= |terms|
      invariant dot.body == DotBody(terms[..i])
    {
      assert terms[..i + 1][..i] == terms[..i];
      dot.Node(i, terms[i]);
      if i > 0 {
        dot.Edge(i - 1, i);
      }
      i := i + 1;
    }
    assert terms[..i] == terms;
  }

  // ------------------------------------------------------- dialogue memory

  /** The length of the placeholder embeddings the pipeline draws. */
  const EmbeddingDim: nat := 300

  /** The strict acceptance bound on the squared L2 distance. */
  const SimilarityThreshold: real := 0.1

  /** The squared Euclidean distance, which is what `IndexFlatL2` reports. */
  function SquaredL2(a: Embedding, b: Embedding): (d: real)
    requires |a| == |b|
    ensures d >= 0.0
  {
    if a == [] then 0.0
    else (a[0] - b[0]) * (a[0] - b[0]) + SquaredL2(a[1..], b[1..])
  }

  /** An embedding is at distance zero from itself. */
  lemma {:induction false} SquaredL2Self(a: Embedding)
    ensures SquaredL2(a, a) == 0.0
  {
    if a != [] {
      SquaredL2Self(a[1..]);
    }
  }

  datatype Record = Record(text: string, embedding: Embedding)

  /** Every record has an embedding of length `dim`. */
  predicate SameDimension(records: seq<Record>, dim: nat) {
    forall k | 0 <= k < |records| :: |records[k].embedding| == dim
  }

  /** The distances from `query` to each stored embedding, in order. */
  function L2Distances(records: seq<Record>, query: Embedding): (ds: seq<real>)
    requires SameDimension(records, |query|)
    ensures |ds| == |records|
    ensures forall k | 0 <= k < |ds| :: ds[k] == SquaredL2(query, records[k].embedding)
  {
    seq(|records|, k requires 0 <= k < |records| => SquaredL2(query, records[k].embedding))
  }

  /** The module-level list `dialogue_memory` of (text, embedding) pairs. */
  class DialogueMemory {
    var records: seq<Record>

    constructor ()
      ensures records == []
    {
      records := [];
    }

    function Texts(): (ts: seq<string>)
      reads this
      ensures |ts| == |records| && forall k | 0 <= k < |ts| :: ts[k] == records[k].text
    {
      seq(|records|, k requires 0 <= k < |records| reads this => records[k].text)
    }

    /** `store_dialogue`: appends one record at the end. */
    method StoreDialogue(text: string, embedding: Embedding)
      modifies this
      ensures records == old(records) + [Record(text, embedding)]
    {
      records := records + [Record(text, embedding)];
    }

    /** `retrieve_similar_query`: builds a flat L2 index of every stored
        embedding, asks it for the nearest one and returns its text when the
        squared distance is strictly below the threshold. The index is built
        for the query's dimension, so the stored embeddings must share it. */
    method RetrieveSimilarQuery(query: Embedding) returns (r: Option<string>)
      requires SameDimension(records, |query|)
      ensures r.None? <==> forall k | 0 <= k < |records| :: SquaredL2(query, records[k].embedding) >= SimilarityThreshold
      ensures r.Some? ==> exists j: nat | IsNearest(L2Distances(records, query), j) :: r.value == records[j].text
      ensures r.Some? ==> r.value in Texts()
      ensures (exists k | 0 <= k < |records| :: records[k].embedding == query) ==> r.Some?
    {
      if records == [] {
        return None;
      }
      var ds := L2Distances(records, query);
      var j := Nearest(ds);
      NearestBelow(ds, j, SimilarityThreshold);
      forall k | 0 <= k < |records| && records[k].embedding == query
        ensures ds[k] < SimilarityThreshold
      {
        SquaredL2Self(query);
      }
      if ds[j] < SimilarityThreshold {
        r := Some(records[j].text);
        assert r.value == Texts()[j];
      } else {
        r := None;
      }
    }
  }

  // ------------------------------------------------------------ engagement

  /** What the emotion analysis of one camera frame produced: a dominant
      emotion, or an exception anywhere in the capture and analysis. */
  datatype EmotionReading = Dominant(emotion: string) | Raised

  /** `monitor_engagement` (the imperative form of `LabelScore`): start from the medium default, overwrite it from
      the dominant emotion, and reset it to the default on any exception. */
  method MonitorEngagement(reading: EmotionReading) returns (score: real)
    ensures score in {0.2, 0.5, 0.8}
    ensures reading.Raised? ==> score == 0.5
    ensures reading.Dominant? ==> score == LabelScore(reading.emotion)
  {
    score := 0.5;
    match reading
    case Dominant(emotion) =>
      if emotion in ["happy", "surprise"] {
        score := 0.8;
      } else if emotion in ["neutral"] {
        score := 0.5;
      } else {
        score := 0.2;
      }
    case Raised =>
      score := 0.5;
  }

  const Deeper := "\n(Going deeper with more detail...)"

  /** `adaptive_teaching`. */
  function AdaptiveTeaching(response: string, score: real): (r: string)
    ensures response <= r
    ensures score < 0.4 ==> r == response + "\n(Simplified with visual aid)"
    ensures score > 0.7 ==> r == response + "\n(Going deeper with more detail...)"
    ensures 0.4 <= score <= 0.7 ==> r == response
  {
    Shape(response, score, Deeper)
  }

  // -------------------------------------------------------------- pipeline

  const BaseResponse := "Here\U{2019}s your explanation based on input."

  /** What one run of the pipeline prints, and the graph it renders. */
  datatype Run = Run(
    parsed: Analysis,
    diagram: seq<Stmt>,
    similar: Option<string>,
    engagement: real,
    response: string)

  /** `teaching_assistant_pipeline`: analyse, draw, store, retrieve, score
      engagement and shape the response, in that order. The collaborators'
      answers are parameters: the textrank ranking, the textacy statements,
      the random placeholder embedding and the emotion reading. The record
      is stored before the lookup with the same embedding, so the lookup
      always finds a record at distance zero and never reports None. */
  method TeachingAssistantPipeline(
    memory: DialogueMemory, text: string, ranked: seq<string>, statements: seq<Statement>,
    embedVector: Embedding, reading: EmotionReading)
    returns (run: Run)
    requires SameDimension(memory.records, EmbeddingDim) && |embedVector| == EmbeddingDim
    modifies memory
    ensures memory.records == old(memory.records) + [Record(text, embedVector)]
    ensures SameDimension(memory.records, EmbeddingDim)
    ensures run.parsed == NlpAgent(text, ranked, statements)
    ensures run.diagram == DotBody(run.parsed.keyTerms)
    ensures run.similar.Some? && run.similar.value in memory.Texts()
    ensures exists j: nat | IsNearest(L2Distances(memory.records, embedVector), j) :: run.similar.value == memory.records[j].text
    ensures reading.Raised? ==> run.engagement == 0.5
    ensures reading.Dominant? ==> run.engagement == LabelScore(reading.emotion)
    ensures run.response == AdaptiveTeaching(BaseResponse, run.engagement)
  {
    var inputText := InputAgent(text);
    var parsed := NlpAgent(inputText, ranked, statements);
    var dot := GenerateDiagram(parsed.keyTerms, parsed.topic);
    var diagram := dot.body;
    memory.StoreDialogue(inputText, embedVector);
    assert memory.records[|memory.records| - 1].embedding == embedVector;
    var similar := memory.RetrieveSimilarQuery(embedVector);
    var engagement := MonitorEngagement(reading);
    var response := AdaptiveTeaching(BaseResponse, engagement);
    run := Run(parsed, diagram, similar, engagement, response);
  }

  /** Three stored questions, one embedding dimension each. */
  method ThreeQuestions() returns (memory: DialogueMemory)
    ensures fresh(memory)
    ensures memory.records == [Record("A", [0.0]), Record("B", [1.0]), Record("C", [2.0])]
  {
    memory := new DialogueMemory();
    memory.StoreDialogue("A", [0.0]);
    memory.StoreDialogue("B", [1.0]);
    memory.StoreDialogue("C", [2.0]);
  }

  /** A query equal to the second embedding recalls the second question. */
  method RecallScenario() {
    var memory := ThreeQuestions();
    var hit := memory.RetrieveSimilarQuery([1.0]);
    assert SquaredL2([1.0], [0.0]) == 1.0 && SquaredL2([1.0], [1.0]) == 0.0 && SquaredL2([1.0], [2.0]) == 1.0;
    var ds := L2Distances(memory.records, [1.0]);
    assert ds == [1.0, 0.0, 1.0];
    assert IsNearest(ds, 1);
    assert memory.records[1].embedding == [1.0];
    var j: nat :| IsNearest(ds, j) && hit.value == memory.records[j].text;
    NearestUnique(ds, j, 1);
    assert hit == Some("B");
  }

  /** A query far from every stored embedding recalls nothing. */
  method MissScenario() {
    var memory := ThreeQuestions();
    var miss := memory.RetrieveSimilarQuery([5.0]);
    assert L2Distances(memory.records, [5.0]) == [25.0, 16.0, 9.0];
    assert miss == None;
  }
}
