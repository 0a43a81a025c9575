# Teaching assistant pipeline — a Dafny model

This project models the decision logic of the "virtual AI teaching
assistant". The system exists in two variants, `App.py` and `Main.py`. Each
runs one question through six agents in a fixed order:

1. the input agent normalises the text;
2. the NLP agent picks at most five key terms, extracts
   subject–verb–object triples and classifies the topic as a process
   ("how" questions) or a theory;
3. the visual generator builds a concept graph that forms a path over the
   key terms;
4. the dialogue memory stores the question, then looks up the nearest
   stored question (the one just stored included) under a strict distance
   threshold;
5. the engagement monitor maps a detected emotion to a score;
6. the adaptive teacher appends a simplifying or deepening note to a fixed
   response, depending on that score.

The libraries the system calls are parameters of the model:

- the parser (a spaCy dependency parse as an explicit token structure; the
  textacy statements as spans);
- the keyword rankers (RAKE, textrank), as a ranked list;
- the embedding (spaCy's document vector, a random placeholder vector), as a
  `seq<real>`;
- the distance (cosine distance as a function parameter; squared L2 written
  out);
- the emotion detectors (FER, DeepFace), as an optional label or an
  exception.

Between those inputs and the pipeline's outputs the model covers trimming,
the substring topic rule, the five-term cut, the triple rule, both graph
constructions, both memories with their nearest-neighbour scans, the score
table and the response bands; what it leaves out is listed at the end.

Layout:

- `text.dfy` (`Text`): Python's `str.strip()` over the `str.isspace()`
  characters, ASCII `str.lower()` and the substring test.
- `common.dfy` (`Common`): `Option`, embeddings, and the exact one-nearest-
  neighbour scan that both memories perform.
- `agents.dfy` (`Agents`): the rules both variants share. The topic cue, the
  emotion score table and the engagement bands are the same text in both;
  the five-term cut is `[:5]` in App.py and `topn=5` in Main.py, which keep
  the same prefix of the ranking.
- `app_variant.dfy` (`AppVariant`): `App.py`. It has the parse model and
  `extract_triples`, the networkx concept map as a class, and the dialogue
  memory as two parallel lists.
- `main_variant.dfy` (`MainVariant`): `Main.py`. It has the textacy
  statements, the graphviz digraph as a class issuing statements, the
  dialogue memory as a list of records under squared L2 distance, and the
  exception default of the engagement monitor.

Where the variants differ (trimming, graph keys, metric and threshold,
deepening suffix, engagement fallback), each variant has its own member.

## Model

| member | source | states |
|---|---|---|
| Text.Strip | App.py:13-14 | the result neither starts nor ends with whitespace; it is a contiguous slice of the input with only whitespace before and after it; it is empty exactly when the input is all whitespace |
| Text.StripIdempotent | App.py:13-14 | stripping twice equals stripping once |
| Text.StripUnique | App.py:13-14 | whatever whitespace surrounds a trimmed core, stripping returns exactly that core |
| Text.Occurs | App.py:39 | `pat in s` holds exactly when `pat` matches at some position of `s` |
| Agents.TopicType | App.py:39 | the topic is "process" exactly when "how", in any letter case, occurs somewhere in the text (the same rule is at Main.py:28) |
| Agents.TopicMatchesInsideWords | App.py:39 | the cue fires inside other words ("show"); "How does…" is a process and "What is a cell?" a theory |
| Agents.TopFive | App.py:22 | the key terms are a prefix of the ranked list, of length min(5, length of the list) (`topn=5` at Main.py:26) |
| Agents.TopFiveIdempotent | App.py:22 | cutting twice is cutting once, and every kept term comes from the ranked list |
| Agents.LabelScore | App.py:87-89 | 0.8 exactly for "happy"/"surprise", 0.5 exactly for "neutral", 0.2 exactly for any other label |
| Agents.LabelScoreRange | App.py:87-89 | every label's score is one of 0.2, 0.5, 0.8 and lies in [0, 1] |
| Agents.BandOf | App.py:94-99 | the score is disengaged exactly when below 0.4, engaged exactly when above 0.7, and in the unchanged band exactly when 0.4 <= score <= 0.7 |
| Agents.Shape | App.py:93-99 | the result extends the response; below 0.4 it appends the simplified marker, above 0.7 the deepening suffix, otherwise nothing |
| Agents.ShapeRevealsBand | App.py:93-99 | two scores that give the same shaped response lie in the same band, so the output determines the band |
| Agents.ShapeBoundaries | App.py:94-96 | the boundary scores 0.4 and 0.7 leave the response unchanged; 0.39 simplifies and 0.71 deepens |
| Common.Nearest | App.py:71-73 | the scan returns a position with the smallest distance, the earliest one among ties |
| Common.NearestUnique | App.py:71-73 | at most one position is the nearest one in this sense |
| Common.NearestBelow | App.py:74-76 | the nearest distance is below a threshold exactly when some distance is |
| AppVariant.InputAgent | App.py:13-14 | the result is a contiguous slice of the input with only whitespace before and after it, is itself trimmed and a fixed point of stripping, and is empty exactly when the input is all whitespace |
| AppVariant.ChildTexts | App.py:30-31 | the comprehension keeps at most one text per child; its meaning is stated by `ChildTextsFirst` |
| AppVariant.RootTriple | App.py:29-33 | a token that is not a ROOT yields no triple, and a yielded triple's verb is the root's own text; when it yields one is stated by `RootTripleExactly`, its fields by `RootTripleFields` |
| AppVariant.ChildTextsFirst | App.py:30-31 | the filtered child texts are empty exactly when no child carries one of the labels; otherwise the first entry is the text of the first such child |
| AppVariant.RootTripleExactly | App.py:29-33 | a token yields a triple exactly when it is a ROOT with a left `nsubj`/`nsubjpass` child and a right `dobj`/`attr` child; a root missing either side yields nothing |
| AppVariant.RootTripleFields | App.py:29-33 | a ROOT with a first subject child and a first object child yields (that subject's text, the root's text, that object's text) |
| AppVariant.TripleAt | App.py:29-33 | the loop body contributes exactly the token's `RootTriple`, so (by `RootTripleExactly`) a triple for a qualifying ROOT and nothing otherwise |
| AppVariant.ScanSentence | App.py:28-33 | the token loop appends the triples of one sentence in token order |
| AppVariant.ExtractTriples | App.py:24-34 | the nested loop yields the triples of all sentences in sentence order, then token order |
| AppVariant.SentenceTriplesMembership | App.py:28-33 | a triple is among a sentence's triples exactly when some token of it is a ROOT yielding that triple |
| AppVariant.TriplesMembership | App.py:27-33 | a triple is extracted exactly when some token of some sentence yields it; with `RootTripleExactly`, roots lacking a subject or an object contribute nothing |
| AppVariant.NlpAgent | App.py:36-44 | the key terms are the five-term cut of the ranking, the triples are the extracted triples, and the topic is the "how" rule applied to the text |
| AppVariant.Distinct | App.py:49-50 | the node list holds exactly the terms of the input, each once |
| AppVariant.DistinctCount | App.py:49-50 | the number of nodes is the number of distinct terms |
| AppVariant.PathEdgesExactly | App.py:51-52 | an edge is present exactly when it is (terms[i-1], terms[i]) for some i >= 1 |
| AppVariant.SelfLoop | App.py:51-52 | two equal consecutive terms give a self-loop |
| AppVariant.EdgesJoinTerms | App.py:51-52 | every edge joins two of the terms |
| AppVariant.DiGraph.constructor | App.py:48 | a new graph has no nodes and no edges |
| AppVariant.DiGraph.AddNode | App.py:50 | a node that is already present is left alone; a new one is appended; the edges do not change |
| AppVariant.DiGraph.AddEdge | App.py:52 | missing endpoints are added as nodes, then the edge is added; every edge joins two nodes |
| AppVariant.GenerateDiagram | App.py:47-52 | the graph's nodes are the distinct terms in order of first occurrence, and its edges are exactly the consecutive pairs |
| AppVariant.DialogueMemory.constructor | App.py:59-60 | the memory starts with both lists empty and of equal length |
| AppVariant.DialogueMemory.StoreDialogue | App.py:62-66 | both lists grow by one entry at the end, stay the same length, and keep every earlier entry in place |
| AppVariant.DialogueMemory.RetrieveSimilarQuery | App.py:68-76 | None exactly when memory is empty or every cosine distance is at least 0.2; otherwise the text of a nearest entry, which is in memory |
| AppVariant.MonitorEngagement | App.py:85-90 | no detection gives 0.5; a detected label gives its table score; the score is one of 0.2, 0.5, 0.8 |
| AppVariant.AdaptiveTeaching | App.py:93-99 | below 0.4 the simplified marker is appended, above 0.7 the advanced marker, otherwise the response is unchanged |
| AppVariant.TeachingAssistantPipeline | App.py:102-126 | the steps run in the source's order on the trimmed text; the memory grows by that text and its vector; the similar question is None exactly when every stored vector, the new one included, is at cosine distance at least 0.2, and otherwise the text of a nearest entry of the grown memory; a vector within the threshold of itself guarantees a match, since storing comes before retrieving |
| MainVariant.InputAgent | Main.py:18-19 | the text is returned unchanged |
| MainVariant.StatementTriples | Main.py:31 | each statement becomes the triple of its three span texts, in the same order |
| MainVariant.NlpAgent | Main.py:24-33 | the key terms are the five-term cut of the ranking (all of it when shorter than five); the i-th triple is the entity, cue and fragment texts of the i-th statement; the topic is "process" exactly when "how" occurs |
| MainVariant.Digraph.constructor | Main.py:37 | a new digraph has an empty body |
| MainVariant.Digraph.Node | Main.py:39 | a node statement is appended without looking up existing nodes |
| MainVariant.Digraph.Edge | Main.py:41 | an edge statement is appended |
| MainVariant.StatementsOfAppend | Main.py:38-41 | the nodes and edges of two bodies joined are those of each, in order |
| MainVariant.DiagramShape | Main.py:38-41 | the nodes are exactly (i, terms[i]) for every position, and the edges are exactly i → i+1, one path |
| MainVariant.DiagramKeepsDuplicates | Main.py:38-41 | n terms give n nodes, duplicates included, and max(0, n-1) edges |
| MainVariant.GenerateDiagram | Main.py:36-42 | the loop issues the body of the position-keyed path diagram |
| MainVariant.SquaredL2 | Main.py:54-57 | the index's distance is never negative |
| MainVariant.SquaredL2Self | Main.py:54-57 | an embedding is at distance zero from itself |
| MainVariant.DialogueMemory.constructor | Main.py:45 | the memory starts with no records |
| MainVariant.DialogueMemory.StoreDialogue | Main.py:47-48 | the (text, embedding) record is appended at the end and earlier records keep their order |
| MainVariant.DialogueMemory.RetrieveSimilarQuery | Main.py:50-58 | None exactly when memory is empty or every squared L2 distance is at least 0.1; otherwise the text of a nearest record, which is in memory; a stored embedding equal to the query forces a match |
| MainVariant.ThreeQuestions | Main.py:47-48 | three stores give the three records in the order they were stored |
| MainVariant.MonitorEngagement | Main.py:61-77 | an exception gives the 0.5 default; a dominant emotion gives its table score; the score is one of 0.2, 0.5, 0.8 |
| MainVariant.AdaptiveTeaching | Main.py:80-87 | below 0.4 the simplified marker is appended, above 0.7 the "going deeper" marker, otherwise the response is unchanged |
| MainVariant.TeachingAssistantPipeline | Main.py:90-114 | the steps run in the source's order; the record is stored before the lookup with the same embedding, so the lookup never returns None and returns the text of a nearest record of the grown memory |

## Left out

- Rendering and console I/O are not modelled. That covers networkx and matplotlib drawing, `savefig`/`show`, graphviz `render`, every `print` and `input()`. The model returns the values the pipeline would print.
- The camera and the emotion detectors are not modelled. OpenCV capture, FER and DeepFace become an input: an optional label in App.py, or a dominant emotion or a raised exception in Main.py.
- The NLP libraries' internals are not modelled: spaCy parsing, sentence splitting, RAKE and textrank scoring, and textacy's `semistructured_statements`. Their outputs are inputs. The parse is a list of sentences whose tokens carry text, a dependency label and the positions of their left and right children.
- Embedding computation is not modelled. `doc.vector` and `np.random.rand(300)` are inputs of type `seq<real>`.
- AppVariant.DialogueMemory.RetrieveSimilarQuery: sklearn's cosine distance is a function parameter, not a definition. The model uses it with the same arguments for the stored entries and the query.
- Common.Nearest: the neighbour libraries do not document how they break ties. The model's choice of the earliest record is a modelling decision.
- Floating point is not modelled. Distances and scores are exact reals, so float32 rounding in faiss and numpy is out of scope.
- MainVariant.SquaredL2: the model proves non-negativity and zero self-distance, but not the converse (zero distance only between equal embeddings). The solver does not settle the strict positivity of a real square.
- Text.Lower lower-cases ASCII letters only. No other character lower-cases to 'h', 'o' or 'w', so the topic rule is unaffected.
- AppVariant.MonitorEngagement: the model covers the label branch only. App.py has no exception handler, so a failing camera read or detector call propagates out of the pipeline. The case where FER finds a face but reports no top label (`None`, scored 0.2) corresponds to any label outside the table.
- MainVariant.DialogueMemory.RetrieveSimilarQuery: the model requires every stored embedding to have the query's length. With mismatched lengths the source fails inside numpy or faiss (Main.py:55-56); that failure is not modelled. The pipeline always stores and queries 300-element vectors, so it never reaches that case.
- MainVariant.NlpAgent: textrank returns (term, score) pairs, and these flow into `generate_diagram` as labels. The model keeps only the term text.
- MainVariant.GenerateDiagram: the `topic_type` parameter is accepted and unused, as in the source. Node names are positions, where the source uses their decimal strings.
- A question that is empty after trimming is not rejected. The code passes it through like any other text, and the model follows the code.
- Storing before retrieving: both pipelines store the current question before looking up a similar one, so the question can find itself. The model follows that order, which is the code's order.
- The `if similar:` guard only decides whether to print. The model returns the lookup result itself, and does not track that an empty stored text would print nothing.
- The module-level state is not shared between runs. In the model it is an explicit `DialogueMemory` object passed to the pipeline.
- Frontend.py and Functionality.py (the web front end and server routes) are not part of this model.
