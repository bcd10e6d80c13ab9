/** The policy dimensions the statement scorer reports on: for each, the
    name of its positive and of its negative leaning and the keywords that
    make a sentence relevant to it. The order of the table fixes the order
    of the score columns. */
module NlpConfig {
  import opened Text

  datatype Dimension = Dimension(key: string, positiveName: string, negativeName: string, keywords: seq<string>)

  /** Hawkish (tightening) and dovish (easing) words of the monetary stance. */
  const HawkishWords: seq<string> := [
    "inflation", "tighten", "hike", "restrictive", "robust", "strong",
    "concern", "risk", "vigilant", "monitoring", "higher"]
  const DovishWords: seq<string> := [
    "employment", "growth", "support", "accommodative", "easing", "cut",
    "moderate", "softening", "patient", "gradual", "lower"]

  /** Optimistic and pessimistic words of the economic outlook. */
  const OptimisticWords: seq<string> := [
    "strong", "solid", "rebound", "expansion", "improving", "confident",
    "resilient", "gains", "above", "optimistic"]
  const PessimisticWords: seq<string> := [
    "weak", "slowing", "uncertainty", "risks", "declined", "soft",
    "below", "headwinds", "challenging", "pessimistic"]

  const MonetaryStance: Dimension := Dimension("monetary_stance", "鹰派 (紧缩)", "鸽派 (宽松)", HawkishWords + DovishWords)

  const EconomicOutlook: Dimension := Dimension("economic_outlook", "乐观", "悲观", OptimisticWords + PessimisticWords)

  const PolicyDimensions: seq<Dimension> := [MonetaryStance, EconomicOutlook]

  /** Two dimensions, monetary stance first, with their display names and
      keyword counts. */
  lemma TableShape()
    ensures |PolicyDimensions| == 2
    ensures PolicyDimensions[0].key == "monetary_stance" && PolicyDimensions[1].key == "economic_outlook"
    ensures PolicyDimensions[0].positiveName == "鹰派 (紧缩)" && PolicyDimensions[0].negativeName == "鸽派 (宽松)"
    ensures PolicyDimensions[1].positiveName == "乐观" && PolicyDimensions[1].negativeName == "悲观"
    ensures |PolicyDimensions[0].keywords| == 22 && |PolicyDimensions[1].keywords| == 20
  {
  }

  /** Every keyword is a non-empty word of the letters a to z, so it is left
      unchanged by case folding and can occur in lowered text. */
  lemma KeywordsAreLowerWords()
    ensures forall d, j :: 0 <= d < |PolicyDimensions| && 0 <= j < |PolicyDimensions[d].keywords| ==>
              IsLowerWord(PolicyDimensions[d].keywords[j]) && Lower(PolicyDimensions[d].keywords[j]) == PolicyDimensions[d].keywords[j]
  {
    MonetaryKeywordsAreLowerWords();
    OutlookKeywordsAreLowerWords();
    LowerWordsUnchanged(MonetaryStance.keywords);
    LowerWordsUnchanged(EconomicOutlook.keywords);
  }

  lemma MonetaryKeywordsAreLowerWords()
    ensures LowerWords(MonetaryStance.keywords)
  {
    HawkishLower();
    DovishLower();
    LowerWordsConcat(HawkishWords, DovishWords);
  }

  lemma OutlookKeywordsAreLowerWords()
    ensures LowerWords(EconomicOutlook.keywords)
  {
    OptimisticLower();
    PessimisticLower();
    LowerWordsConcat(OptimisticWords, PessimisticWords);
  }

  /** Every word of ws is a non-empty a-to-z word. */
  predicate LowerWords(ws: seq<string>)
  {
    forall j :: 0 <= j < |ws| ==> IsLowerWord(ws[j])
  }

  lemma LowerWordsConcat(a: seq<string>, b: seq<string>)
    requires LowerWords(a) && LowerWords(b)
    ensures LowerWords(a + b)
  {
    assert forall j :: |a| <= j < |a + b| ==> (a + b)[j] == b[j - |a|];
  }

  lemma HawkishLower()
    ensures LowerWords(HawkishWords)
  {
  }

  lemma DovishLower()
    ensures LowerWords(DovishWords)
  {
  }

  lemma OptimisticLower()
    ensures LowerWords(OptimisticWords)
  {
  }

  lemma PessimisticLower()
    ensures LowerWords(PessimisticWords)
  {
  }

  lemma LowerWordsUnchanged(words: seq<string>)
    requires forall j :: 0 <= j < |words| ==> IsLowerWord(words[j])
    ensures forall j :: 0 <= j < |words| ==> Lower(words[j]) == words[j]
  {
    forall j | 0 <= j < |words|
      ensures Lower(words[j]) == words[j]
    {
      LowerOfLowerWord(words[j]);
    }
  }

  /** "strong" is a keyword of both dimensions. */
  lemma SharedKeyword()
    ensures "strong" in PolicyDimensions[0].keywords && "strong" in PolicyDimensions[1].keywords
  {
  }
}
