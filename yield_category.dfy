/**
 * The classifier and advisor of the prediction page: a predicted yield is
 * cut into Low, Medium or High by two thresholds, the category is shown as a
 * label, and the label picks one of three advisory messages.
 */
module YieldCategory {

  /** The three ordinal yield categories. */
  datatype Category = Low | Medium | High {
    /** Position in the order Low < Medium < High. */
    function Rank(): nat {
      match this
      case Low => 0
      case Medium => 1
      case High => 2
    }
  }

  /** The pair (low_threshold, high_threshold). Nothing forces low < high. */
  datatype Thresholds = Thresholds(low: real, high: real)

  /**
   * classify_yield: below low is Low, otherwise below high is Medium,
   * otherwise High. The thresholds are the module globals, passed in here.
   */
  function ClassifyYield(value: real, t: Thresholds): (c: Category)
    ensures c == Low <==> value < t.low
    ensures c == Medium <==> t.low <= value < t.high
    ensures c == High <==> t.low <= value && t.high <= value
  {
    if value < t.low then Low
    else if value < t.high then Medium
    else High
  }

  /** The label string classify_yield returns for each category. */
  function Label(c: Category): string {
    match c
    case Low => "\U{1F534} Low Yield"
    case Medium => "\U{1F7E1} Medium Yield"
    case High => "\U{1F7E2} High Yield"
  }

  /** The keyword yield_advice looks for in a label. */
  function Keyword(c: Category): string {
    match c
    case Low => "Low"
    case Medium => "Medium"
    case High => "High"
  }

  /** The advisory message meant for each category. */
  function Advice(c: Category): string {
    match c
    case Low => "\U{26A0}\U{FE0F} Yield is low. Improve irrigation, fertilizer usage, or crop selection."
    case Medium => "\U{2705} Yield is moderate. Optimize water, temperature, and soil conditions."
    case High => "\U{1F680} High yield expected! Farming practices are well optimized."
  }

  /** k occurs in s starting at position i. */
  predicate OccursAt(k: string, s: string, i: int) {
    0 <= i <= |s| - |k| && s[i..i + |k|] == k
  }

  /** Python's `k in s` on strings: k occurs as a contiguous piece of s. */
  predicate IsSubstring(k: string, s: string) {
    exists i :: 0 <= i <= |s| - |k| && OccursAt(k, s, i)
  }

  /**
   * yield_advice: dispatch on the keyword found in the label, testing
   * "Low" first, then "Medium"; anything else gets the High message.
   */
  function YieldAdvice(shown: string): (advice: string)
    ensures advice == Advice(Low) || advice == Advice(Medium) || advice == Advice(High)
    ensures advice == Advice(Low) <==> IsSubstring(Keyword(Low), shown)
  {
    if IsSubstring(Keyword(Low), shown) then Advice(Low)
    else if IsSubstring(Keyword(Medium), shown) then Advice(Medium)
    else Advice(High)
  }

  // ---------------------------------------------------------------------
  // Properties of the classifier

  /** A value exactly at the low threshold is not Low; below a higher high threshold it is Medium. */
  lemma LowThresholdIsMedium(t: Thresholds)
    requires t.low < t.high
    ensures ClassifyYield(t.low, t) == Medium
  {
  }

  /** When the thresholds are inverted or equal, no value is classified Medium. */
  lemma MediumUnreachableWhenInverted(value: real, t: Thresholds)
    requires t.high <= t.low
    ensures ClassifyYield(value, t) != Medium
    ensures ClassifyYield(value, t) == if value < t.low then Low else High
  {
  }

  /** A larger yield never gets a lower category. */
  lemma ClassifyMonotone(v1: real, v2: real, t: Thresholds)
    requires v1 <= v2
    ensures ClassifyYield(v1, t).Rank() <= ClassifyYield(v2, t).Rank()
  {
  }

  // ---------------------------------------------------------------------
  // Properties of the advisor

  /** A keyword that holds a character the text lacks cannot occur in the text. */
  lemma MissingCharNotSubstring(k: string, s: string, c: char)
    requires c in k && c !in s
    ensures !IsSubstring(k, s)
  {
  }

  /** Each label holds its own category's keyword and no other category's. */
  lemma {:induction false} LabelHoldsOnlyItsKeyword(c: Category, d: Category)
    ensures IsSubstring(Keyword(d), Label(c)) <==> c == d
  {
    match (c, d)
    case (Low, Low) =>
      assert Label(Low) == "\U{1F534} " + "Low" + " Yield";
      assert OccursAt("Low", Label(Low), 2);
    case (Medium, Medium) =>
      assert Label(Medium) == "\U{1F7E1} " + "Medium" + " Yield";
      assert OccursAt("Medium", Label(Medium), 2);
    case (High, High) =>
      assert Label(High) == "\U{1F7E2} " + "High" + " Yield";
      assert OccursAt("High", Label(High), 2);
    case (_, Low) => MissingCharNotSubstring(Keyword(d), Label(c), 'L');
    case (_, Medium) => MissingCharNotSubstring(Keyword(d), Label(c), 'M');
    case (_, High) => MissingCharNotSubstring(Keyword(d), Label(c), 'H');
  }

  /** The substring dispatch of yield_advice never misroutes a label of classify_yield. */
  lemma AdviceMatchesCategory(c: Category)
    ensures YieldAdvice(Label(c)) == Advice(c)
  {
    LabelHoldsOnlyItsKeyword(c, Low);
    LabelHoldsOnlyItsKeyword(c, Medium);
  }

  /** The three advisory messages are non-empty and pairwise different. */
  lemma AdviceDistinct(c: Category, d: Category)
    ensures |Advice(c)| > 0
    ensures Advice(c) == Advice(d) <==> c == d
  {
    assert Advice(Low) != Advice(Medium);
    assert Advice(Low) != Advice(High);
    assert Advice(Medium) != Advice(High);
  }
}
