/** Decision rules that App.py and Main.py share: the topic cue, the
    emotion-to-score table and the engagement bands of the adaptive response,
    written the same way in both, and the five-term cut of the ranked key
    terms (`[:5]` in App.py, `topn=5` in Main.py). */
module Agents {
  import opened Text

  datatype Topic = Process | Theory

  /** A subject-verb-object relation, as `(subject, verb, object)` texts. */
  datatype Triple = Triple(subject: string, verb: string, complement: string)

  /** What `nlp_agent` returns: the key terms, the relation triples and the
      topic type. */
  datatype Analysis = Analysis(keyTerms: seq<string>, triples: seq<Triple>, topic: Topic)

  /** "how", in any mix of upper and lower case, starts at position `i`. */
  predicate HowAt(text: string, i: nat) {
    i + 3 <= |text| && text[i] in "hH" && text[i + 1] in "oO" && text[i + 2] in "wW"
  }

  lemma HowAtLower(text: string)
    ensures forall i: nat :: MatchesAt("how", Lower(text), i) <==> HowAt(text, i)
  {
    forall i: nat
      ensures MatchesAt("how", Lower(text), i) <==> HowAt(text, i)
    {
      if i + 3 <= |text| {
        var w := Lower(text)[i..i + 3];
        assert w == [LowerChar(text[i]), LowerChar(text[i + 1]), LowerChar(text[i + 2])];
      }
    }
  }

  /** The `nlp_agent` topic rule: `"process" if "how" in text.lower()`. The
      cue is a bare substring, so "show" and "however" count as well. */
  function TopicType(text: string): (t: Topic)
    ensures t == Process <==> exists i: nat :: HowAt(text, i)
  {
    HowAtLower(text);
    if Occurs("how", Lower(text)) then Process else Theory
  }

  /** The topic rule fires inside longer words too. */
  lemma {:induction false} TopicMatchesInsideWords()
    ensures TopicType("Can you show me?") == Process
    ensures TopicType("How does photosynthesis work?") == Process
    ensures TopicType("What is a cell?") == Theory
  {
    assert HowAt("Can you show me?", 9);
    assert HowAt("How does photosynthesis work?", 0);
    var t := "What is a cell?";
    forall i: nat
      ensures !HowAt(t, i)
    {
      if i + 3 <= |t| {
        assert t[i] !in "hH" || t[i + 1] !in "oO";
      }
    }
  }

  const MaxKeyTerms := 5

  /** Keeps the best five entries of a ranked list (`[:5]` in App.py,
      `topn=5` in Main.py). */
  function TopFive(ranked: seq<string>): (r: seq<string>)
    ensures |r| == if |ranked| < MaxKeyTerms then |ranked| else MaxKeyTerms
    ensures r <= ranked
  {
    if |ranked| <= MaxKeyTerms then ranked else ranked[..MaxKeyTerms]
  }

  /** Cutting twice is cutting once, and nothing is invented. */
  lemma TopFiveIdempotent(ranked: seq<string>)
    ensures TopFive(TopFive(ranked)) == TopFive(ranked)
    ensures forall t | t in TopFive(ranked) :: t in ranked
  {
  }

  /** The engagement score of a detected emotion label. */
  function LabelScore(emotion: string): (s: real)
    ensures s == 0.8 <==> emotion in ["happy", "surprise"]
    ensures s == 0.5 <==> emotion in ["neutral"]
    ensures s == 0.2 <==> emotion !in ["happy", "surprise", "neutral"]
  {
    if emotion in ["happy", "surprise"] then 0.8
    else if emotion in ["neutral"] then 0.5
    else 0.2
  }

  /** Every score the table yields is one of three values in [0, 1]. */
  lemma LabelScoreRange(emotion: string)
    ensures LabelScore(emotion) in {0.2, 0.5, 0.8}
    ensures 0.0 <= LabelScore(emotion) <= 1.0
  {
  }

  const LowEngagement: real := 0.4
  const HighEngagement: real := 0.7
  const Simplified := "\n(Simplified with visual aid)"

  /** The engagement band a score falls into; both bounds are strict. */
  datatype Band = Disengaged | Steady | Engaged

  function BandOf(score: real): (b: Band)
    ensures b == Disengaged <==> score < LowEngagement
    ensures b == Steady <==> LowEngagement <= score <= HighEngagement
    ensures b == Engaged <==> score > HighEngagement
  {
    if score < LowEngagement then Disengaged
    else if score > HighEngagement then Engaged
    else Steady
  }

  /** The `adaptive_teaching` rule: a low score appends the simplified
      marker, a high score appends `deeper`, anything between is unchanged. */
  function Shape(response: string, score: real, deeper: string): (r: string)
    ensures response <= r
    ensures BandOf(score) == Disengaged ==> r == response + Simplified
    ensures BandOf(score) == Engaged ==> r == response + deeper
    ensures BandOf(score) == Steady ==> r == response
  {
    match BandOf(score)
    case Disengaged => response + Simplified
    case Engaged => response + deeper
    case Steady => response
  }

  /** The shaped response tells the bands apart: from the response and the
      output one can read back which band the score was in. */
  lemma {:induction false} ShapeRevealsBand(response: string, s1: real, s2: real, deeper: string)
    requires deeper != [] && deeper != Simplified
    requires Shape(response, s1, deeper) == Shape(response, s2, deeper)
    ensures BandOf(s1) == BandOf(s2)
  {
    var r := Shape(response, s1, deeper);
    assert r[|response|..] == (if BandOf(s1) == Disengaged then Simplified else if BandOf(s1) == Engaged then deeper else []);
    assert r[|response|..] == (if BandOf(s2) == Disengaged then Simplified else if BandOf(s2) == Engaged then deeper else []);
  }

  /** The boundary scores 0.4 and 0.7 leave the response unchanged. */
  lemma ShapeBoundaries(response: string, deeper: string)
    ensures Shape(response, 0.4, deeper) == response
    ensures Shape(response, 0.7, deeper) == response
    ensures Shape(response, 0.39, deeper) == response + Simplified
    ensures Shape(response, 0.71, deeper) == response + deeper
  {
  }
}
