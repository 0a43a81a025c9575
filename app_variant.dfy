/** The App.py variant of the teaching assistant: RAKE key phrases,
    dependency-parse triples, a networkx concept map keyed by term text, a
    dialogue memory of two parallel lists searched under cosine distance,
    and FER-based engagement. */
module AppVariant {
  import opened Common
  import opened Text
  import opened Agents

  // ----------------------------------------------------------------- input

  /** `input_agent`: the question with surrounding whitespace removed. */
  function InputAgent(text: string): (r: string)
    ensures Trimmed(r)
    ensures exists i | 0 <= i <= |text| - |r| ::
              text[i..i + |r|] == r && SpacesIn(text, 0, i) && SpacesIn(text, i + |r|, |text|)
    ensures r == [] <==> AllSpace(text)
    ensures Strip(r) == r
  {
    StripIdempotent(text);
    Strip(text)
  }

  // ---------------------------------------------------------- parse model

  /** One token of a parsed sentence: its text, its dependency label and the
      positions, within the sentence, of its left and right children. */
  datatype Token = Token(text: string, dep: string, lefts: seq<nat>, rights: seq<nat>)

  type Sentence = seq<Token>

  /** The sentences of a parsed document, in order. */
  type Doc = seq<Sentence>

  /** What the parser guarantees: left children precede their head, right
      children follow it, and all lie inside the sentence. */
  predicate WellFormedSentence(sent: Sentence) {
    forall k | 0 <= k < |sent| :: AllBelow(sent[k].lefts, k) && AllWithin(sent[k].rights, k, |sent|)
  }

  predicate AllBelow(children: seq<nat>, k: nat) {
    forall m | 0 <= m < |children| :: children[m] < k
  }

  predicate AllWithin(children: seq<nat>, k: nat, n: nat) {
    forall m | 0 <= m < |children| :: k < children[m] < n
  }

  predicate WellFormedDoc(doc: Doc) {
    forall i | 0 <= i < |doc| :: WellFormedSentence(doc[i])
  }

  /** Every child position lies inside the sentence. */
  predicate ChildrenIn(sent: Sentence, children: seq<nat>) {
    forall m | 0 <= m < |children| :: children[m] < |sent|
  }

  const SubjectDeps: set<string> := {"nsubj", "nsubjpass"}
  const ObjectDeps: set<string> := {"dobj", "attr"}

  /** `[w.text for w in children if w.dep_ in deps]`. */
  function ChildTexts(sent: Sentence, children: seq<nat>, deps: set<string>): (r: seq<string>)
    requires ChildrenIn(sent, children)
    ensures |r| <= |children|
  {
    if children == [] then []
    else (if sent[children[0]].dep in deps then [sent[children[0]].text] else [])
         + ChildTexts(sent, children[1..], deps)
  }

  /** Position `i` holds the first child whose label is in `deps`. */
  predicate FirstMatch(sent: Sentence, children: seq<nat>, deps: set<string>, i: nat)
    requires ChildrenIn(sent, children)
  {
    i < |children| && sent[children[i]].dep in deps
    && forall m | 0 <= m < i :: sent[children[m]].dep !in deps
  }

  /** The comprehension is empty exactly when no child carries one of the
      labels, and otherwise starts with the text of the first child that does. */
  lemma {:induction false} ChildTextsFirst(sent: Sentence, children: seq<nat>, deps: set<string>)
    requires ChildrenIn(sent, children)
    ensures ChildTexts(sent, children, deps) == [] <==> forall m | 0 <= m < |children| :: sent[children[m]].dep !in deps
    ensures forall i: nat | FirstMatch(sent, children, deps, i) ::
              ChildTexts(sent, children, deps) != [] && ChildTexts(sent, children, deps)[0] == sent[children[i]].text
  {
    if children != [] {
      var rest := children[1..];
      ChildTextsFirst(sent, rest, deps);
      forall m | 0 <= m < |rest| ensures rest[m] == children[m + 1] { }
      forall i: nat | FirstMatch(sent, children, deps, i) && i > 0
        ensures FirstMatch(sent, rest, deps, i - 1)
      {
        forall m | 0 <= m < i - 1 ensures sent[rest[m]].dep !in deps {
          assert rest[m] == children[m + 1];
        }
      }
      if forall m | 0 <= m < |rest| :: sent[rest[m]].dep !in deps {
        forall m | 0 <= m < |children| ensures sent[children[m]].dep !in deps || m == 0 {
          if m > 0 { assert children[m] == rest[m - 1]; }
        }
      }
    }
  }

  /** The triple one token contributes: a `ROOT` with a subject on its left
      and an object or attribute on its right. */
  function RootTriple(sent: Sentence, k: nat): (r: Option<Triple>)
    requires WellFormedSentence(sent) && k < |sent|
    ensures sent[k].dep != "ROOT" ==> r.None?
    ensures r.Some? ==> r.value.verb == sent[k].text
  {
    var token := sent[k];
    if token.dep != "ROOT" then None
    else
      var subject := ChildTexts(sent, token.lefts, SubjectDeps);
      var obj := ChildTexts(sent, token.rights, ObjectDeps);
      if subject != [] && obj != [] then Some(Triple(subject[0], token.text, obj[0])) else None
  }

  function AsSeq<T>(o: Option<T>): seq<T> {
    match o
    case None => []
    case Some(v) => [v]
  }

  /** The triples of the first `n` tokens of a sentence, in token order. */
  function SentenceTriples(sent: Sentence, n: nat): seq<Triple>
    requires WellFormedSentence(sent) && n <= |sent|
  {
    if n == 0 then [] else SentenceTriples(sent, n - 1) + AsSeq(RootTriple(sent, n - 1))
  }

  /** The triples of the first `n` sentences, in sentence then token order. */
  function DocTriples(doc: Doc, n: nat): seq<Triple>
    requires WellFormedDoc(doc) && n <= |doc|
  {
    if n == 0 then [] else DocTriples(doc, n - 1) + SentenceTriples(doc[n - 1], |doc[n - 1]|)
  }

  /** `extract_triples`: the nested loop over sentences and tokens. */
  method ExtractTriples(doc: Doc) returns (triples: seq<Triple>)
    requires WellFormedDoc(doc)
    ensures triples == DocTriples(doc, |doc|)
  {
    triples := [];
    var i := 0;
    while i < |doc|
      invariant i <= |doc|
      invariant triples == DocTriples(doc, i)
    {
      assert WellFormedSentence(doc[i]);
      triples := ScanSentence(doc[i], triples);
      i := i + 1;
    }
  }

  /** The inner loop of `extract_triples`: the tokens of one sentence, in
      order, each appending its triple to what the earlier ones produced. */
  method ScanSentence(sent: Sentence, done: seq<Triple>) returns (triples: seq<Triple>)
    requires WellFormedSentence(sent)
    ensures triples == done + SentenceTriples(sent, |sent|)
  {
    triples := done;
    var k := 0;
    while k < |sent|
      invariant k <= |sent|
      invariant triples == done + SentenceTriples(sent, k)
    {
      var found := TripleAt(sent, k);
      triples := triples + found;
      assert (done + SentenceTriples(sent, k)) + found == done + (SentenceTriples(sent, k) + found);
      k := k + 1;
    }
  }

  /** The body of the inner loop: the triple token `k` yields, if any; the
      imperative form of `RootTriple`. */
  method TripleAt(sent: Sentence, k: nat) returns (found: seq<Triple>)
    requires WellFormedSentence(sent) && k < |sent|
    ensures found == AsSeq(RootTriple(sent, k))
  {
    found := [];
    var token := sent[k];
    if token.dep == "ROOT" {
      var subject := ChildTexts(sent, token.lefts, SubjectDeps);
      var obj := ChildTexts(sent, token.rights, ObjectDeps);
      if subject != [] && obj != [] {
        found := [Triple(subject[0], token.text, obj[0])];
      }
    }
  }

  lemma {:induction false} SentenceTriplesMembership(sent: Sentence, n: nat, t: Triple)
    requires WellFormedSentence(sent) && n <= |sent|
    ensures t in SentenceTriples(sent, n) <==> exists k | 0 <= k < n :: RootTriple(sent, k) == Some(t)
  {
    if n > 0 {
      SentenceTriplesMembership(sent, n - 1, t);
    }
  }

  /** Every extracted triple comes from one qualifying `ROOT` token, and every
      qualifying `ROOT` token yields its triple; roots that lack a subject or
      an object contribute nothing. */
  lemma {:induction false} TriplesMembership(doc: Doc, n: nat, t: Triple)
    requires WellFormedDoc(doc) && n <= |doc|
    ensures t in DocTriples(doc, n) <==>
            exists i, k | 0 <= i < n && 0 <= k < |doc[i]| :: RootTriple(doc[i], k) == Some(t)
  {
    if n > 0 {
      TriplesMembership(doc, n - 1, t);
      SentenceTriplesMembership(doc[n - 1], |doc[n - 1]|, t);
    }
  }

  /** The fields of a triple: the first subject child's text, the root's
      text and the first object child's text. */
  lemma RootTripleFields(sent: Sentence, k: nat, i: nat, j: nat)
    requires WellFormedSentence(sent) && k < |sent| && sent[k].dep == "ROOT"
    requires FirstMatch(sent, sent[k].lefts, SubjectDeps, i)
    requires FirstMatch(sent, sent[k].rights, ObjectDeps, j)
    ensures RootTriple(sent, k) == Some(Triple(sent[sent[k].lefts[i]].text, sent[k].text, sent[sent[k].rights[j]].text))
  {
    ChildTextsFirst(sent, sent[k].lefts, SubjectDeps);
    ChildTextsFirst(sent, sent[k].rights, ObjectDeps);
  }

  /** A token yields a triple exactly when it is a `ROOT` with at least one
      subject child on its left and at least one object or attribute child on
      its right; a root missing either side contributes nothing. */
  lemma RootTripleExactly(sent: Sentence, k: nat)
    requires WellFormedSentence(sent) && k < |sent|
    ensures RootTriple(sent, k).Some? <==>
              && sent[k].dep == "ROOT"
              && (exists m | 0 <= m < |sent[k].lefts| :: sent[sent[k].lefts[m]].dep in SubjectDeps)
              && (exists m | 0 <= m < |sent[k].rights| :: sent[sent[k].rights[m]].dep in ObjectDeps)
  {
    ChildTextsFirst(sent, sent[k].lefts, SubjectDeps);
    ChildTextsFirst(sent, sent[k].rights, ObjectDeps);
  }

  // ----------------------------------------------------------- NLP agent

  /** `nlp_agent`: the first five ranked phrases, the triples of the parse
      and the topic cue. `ranked` and `doc` are RAKE's ranking and spaCy's
      parse of `text`. */
  method NlpAgent(text: string, ranked: seq<string>, doc: Doc) returns (parsed: Analysis)
    requires WellFormedDoc(doc)
    ensures parsed.keyTerms == TopFive(ranked)
    ensures parsed.triples == DocTriples(doc, |doc|)
    ensures parsed.topic == TopicType(text)
  {
    var keyTerms := TopFive(ranked);
    var triples := ExtractTriples(doc);
    parsed := Analysis(keyTerms, triples, TopicType(text));
  }

  // ----------------------------------------------------------- concept map

  /** `s` with `x` appended unless already present (how a node keyed by its
      text is added). */
  function Insert(s: seq<string>, x: string): seq<string> {
    if x in s then s else s + [x]
  }

  /** The distinct terms of `terms`, in order of first occurrence. */
  function Distinct(terms: seq<string>): (r: seq<string>)
    ensures forall x :: x in r <==> x in terms
    ensures forall i, j | 0 <= i < j < |r| :: r[i] != r[j]
  {
    if terms == [] then []
    else
      var d := Distinct(terms[..|terms| - 1]);
      assert terms == terms[..|terms| - 1] + [terms[|terms| - 1]];
      Insert(d, terms[|terms| - 1])
  }

  /** The node count of the concept map is the number of distinct terms. */
  lemma {:induction false} DistinctCount(terms: seq<string>)
    ensures |Distinct(terms)| == |set x | x in terms|
  {
    if terms != [] {
      var front, last := terms[..|terms| - 1], terms[|terms| - 1];
      DistinctCount(front);
      assert terms == front + [last];
      assert (set x | x in terms) == (set x | x in front) + {last};
    }
  }

  /** The edges between consecutive terms, as a set of (tail, head) texts. */
  function PathEdges(terms: seq<string>): set<(string, string)> {
    if |terms| < 2 then {}
    else PathEdges(terms[..|terms| - 1]) + {(terms[|terms| - 2], terms[|terms| - 1])}
  }

  /** The edges are exactly the pairs `(terms[i-1], terms[i])`. */
  lemma {:induction false} PathEdgesExactly(terms: seq<string>, e: (string, string))
    ensures e in PathEdges(terms) <==> exists i | 1 <= i < |terms| :: e == (terms[i - 1], terms[i])
  {
    if |terms| >= 2 {
      var front := terms[..|terms| - 1];
      PathEdgesExactly(front, e);
      forall i | 0 <= i < |front| ensures front[i] == terms[i] { }
    }
  }

  /** A term followed by itself gives a self-loop. */
  lemma SelfLoop(terms: seq<string>, i: nat)
    requires 1 <= i < |terms| && terms[i - 1] == terms[i]
    ensures (terms[i], terms[i]) in PathEdges(terms)
  {
    PathEdgesExactly(terms, (terms[i], terms[i]));
  }

  /** Every edge joins two terms of the list. */
  lemma EdgesJoinTerms(terms: seq<string>, e: (string, string))
    requires e in PathEdges(terms)
    ensures e.0 in terms && e.1 in terms
  {
    PathEdgesExactly(terms, e);
  }

  /** A networkx `DiGraph` restricted to what `generate_diagram` uses: nodes
      keyed by their text, kept in insertion order, and a set of edges. */
  class DiGraph {
    var nodes: seq<string>
    var edges: set<(string, string)>

    ghost predicate Valid()
      reads this
    {
      && (forall i, j | 0 <= i < j < |nodes| :: nodes[i] != nodes[j])
      && (forall e | e in edges :: e.0 in nodes && e.1 in nodes)
    }

    constructor ()
      ensures Valid() && nodes == [] && edges == {}
    {
      nodes, edges := [], {};
    }

    /** `add_node`: a node that is already present is left alone. */
    method AddNode(n: string)
      requires Valid()
      modifies this
      ensures Valid()
      ensures nodes == Insert(old(nodes), n) && edges == old(edges)
    {
      if n !in nodes {
        nodes := nodes + [n];
      }
    }

    /** `add_edge`: adds either endpoint that is missing, then the edge. */
    method AddEdge(u: string, v: string)
      requires Valid()
      modifies this
      ensures Valid()
      ensures nodes == Insert(Insert(old(nodes), u), v) && edges == old(edges) + {(u, v)}
    {
      AddNode(u);
      AddNode(v);
      edges := edges + {(u, v)};
    }
  }

  /** `generate_diagram` without the drawing: one node per distinct term and
      an edge from each term to the next. */
  method GenerateDiagram(terms: seq<string>) returns (g: DiGraph)
    ensures fresh(g) && g.Valid()
    ensures g.nodes == Distinct(terms) && g.edges == PathEdges(terms)
  {
    g := new DiGraph();
    var i := 0;
    while i < |terms|
      invariant i <= |terms|
      invariant g.Valid()
      invariant g.nodes == Distinct(terms[..i]) && g.edges == PathEdges(terms[..i])
    {
      assert terms[..i + 1][..i] == terms[..i];
      g.AddNode(terms[i]);
      if i > 0 {
        assert terms[i - 1] in terms[..i + 1];
        g.AddEdge(terms[i - 1], terms[i]);
      }
      i := i + 1;
    }
    assert terms[..i] == terms;
  }

  // ------------------------------------------------------- dialogue memory

  /** The strict acceptance bound on the cosine distance. */
  const SimilarityThreshold: real := 0.2

  /** The distances from `query` to each stored embedding, in order. */
  function DistancesTo(embeddings: seq<Embedding>, query: Embedding, distance: (Embedding, Embedding) -> real): (ds: seq<real>)
    ensures |ds| == |embeddings|
    ensures forall k | 0 <= k < |ds| :: ds[k] == distance(query, embeddings[k])
  {
    seq(|embeddings|, k requires 0 <= k < |embeddings| => distance(query, embeddings[k]))
  }

  /** The module-level lists `dialogue_memory` and `memory_embeddings`. */
  class DialogueMemory {
    var dialogue: seq<string>
    var embeddings: seq<Embedding>

    ghost predicate Valid()
      reads this
    {
      |dialogue| == |embeddings|
    }

    constructor ()
      ensures Valid() && dialogue == [] && embeddings == []
    {
      dialogue, embeddings := [], [];
    }

    /** `store_dialogue`: both lists grow by one entry at their end; `vector`
        is the document vector of `text`. */
    method StoreDialogue(text: string, vector: Embedding)
      requires Valid()
      modifies this
      ensures Valid()
      ensures dialogue == old(dialogue) + [text] && embeddings == old(embeddings) + [vector]
    {
      dialogue := dialogue + [text];
      embeddings := embeddings + [vector];
    }

    /** `retrieve_similar_query`: the text of the nearest stored embedding,
        provided its distance is strictly below the threshold. `current` is
        the document vector of the current text and `cosineDistance` the
        metric of the neighbour search. */
    method RetrieveSimilarQuery(current: Embedding, cosineDistance: (Embedding, Embedding) -> real)
      returns (r: Option<string>)
      requires Valid()
      ensures r.None? <==> forall k | 0 <= k < |embeddings| :: cosineDistance(current, embeddings[k]) >= SimilarityThreshold
      ensures r.Some? ==> exists j: nat | IsNearest(DistancesTo(embeddings, current, cosineDistance), j) :: r.value == dialogue[j]
      ensures r.Some? ==> r.value in dialogue
    {
      if embeddings == [] {
        return None;
      }
      var ds := DistancesTo(embeddings, current, cosineDistance);
      var j := Nearest(ds);
      NearestBelow(ds, j, SimilarityThreshold);
      if ds[j] < SimilarityThreshold {
        r := Some(dialogue[j]);
      } else {
        r := None;
      }
    }
  }

  // ------------------------------------------------------------ engagement

  /** The label branch of `monitor_engagement`: `topEmotion` is the top
      emotion FER reports, or None when it detects no face. */
  function MonitorEngagement(topEmotion: Option<string>): (score: real)
    ensures score in {0.2, 0.5, 0.8}
    ensures topEmotion.None? ==> score == 0.5
    ensures topEmotion.Some? ==> score == LabelScore(topEmotion.value)
  {
    match topEmotion
    case None => 0.5
    case Some(emotion) => LabelScore(emotion)
  }

  const Advanced := "\n(Advanced explanation with more depth)"

  /** `adaptive_teaching`. */
  function AdaptiveTeaching(response: string, score: real): (r: string)
    ensures response <= r
    ensures score < 0.4 ==> r == response + "\n(Simplified with visual aid)"
    ensures score > 0.7 ==> r == response + "\n(Advanced explanation with more depth)"
    ensures 0.4 <= score <= 0.7 ==> r == response
  {
    Shape(response, score, Advanced)
  }

  // -------------------------------------------------------------- pipeline

  const BaseResponse := "Here's your explanation based on the input."

  /** The outcome of one run of the pipeline: the trimmed text, the analysis,
      the concept map that is drawn, the similar earlier question, the
      engagement score and the final response. */
  datatype Run = Run(
    inputText: string,
    parsed: Analysis,
    mapNodes: seq<string>,
    mapEdges: set<(string, string)>,
    similar: Option<string>,
    engagement: real,
    response: string)

  /** `teaching_assistant_pipeline`: trim, analyse, draw, store, retrieve,
      score engagement and shape the response, in that order. The external
      collaborators' answers for the trimmed text are parameters: the RAKE
      ranking, the spaCy parse, the document vector, the cosine metric and
      the top emotion. Because the query is stored before the lookup, it can
      find itself. */
  method TeachingAssistantPipeline(
    memory: DialogueMemory, userText: string, ranked: seq<string>, doc: Doc,
    vector: Embedding, cosineDistance: (Embedding, Embedding) -> real, topEmotion: Option<string>)
    returns (run: Run)
    requires memory.Valid() && WellFormedDoc(doc)
    modifies memory
    ensures memory.Valid()
    ensures run.inputText == InputAgent(userText)
    ensures memory.dialogue == old(memory.dialogue) + [run.inputText]
    ensures memory.embeddings == old(memory.embeddings) + [vector]
    ensures run.parsed.keyTerms == TopFive(ranked)
    ensures run.parsed.triples == DocTriples(doc, |doc|)
    ensures run.parsed.topic == TopicType(run.inputText)
    ensures run.mapNodes == Distinct(run.parsed.keyTerms) && run.mapEdges == PathEdges(run.parsed.keyTerms)
    ensures cosineDistance(vector, vector) < SimilarityThreshold ==> run.similar.Some?
    ensures run.similar.None? <==>
              forall k | 0 <= k < |memory.embeddings| :: cosineDistance(vector, memory.embeddings[k]) >= SimilarityThreshold
    ensures run.similar.Some? ==>
              exists j: nat | IsNearest(DistancesTo(memory.embeddings, vector, cosineDistance), j) :: run.similar.value == memory.dialogue[j]
    ensures run.similar.Some? ==> run.similar.value in memory.dialogue
    ensures run.engagement == MonitorEngagement(topEmotion)
    ensures run.response == AdaptiveTeaching(BaseResponse, run.engagement)
  {
    var inputText := InputAgent(userText);
    var parsed := NlpAgent(inputText, ranked, doc);
    var g := GenerateDiagram(parsed.keyTerms);
    var mapNodes, mapEdges := g.nodes, g.edges;
    memory.StoreDialogue(inputText, vector);
    var similar := memory.RetrieveSimilarQuery(vector, cosineDistance);
    assert cosineDistance(vector, vector) < SimilarityThreshold ==> similar.Some? by {
      var last := |memory.embeddings| - 1;
      assert memory.embeddings[last] == vector;
    }
    var engagement := MonitorEngagement(topEmotion);
    var response := AdaptiveTeaching(BaseResponse, engagement);
    run := Run(inputText, parsed, mapNodes, mapEdges, similar, engagement, response);
  }
}
