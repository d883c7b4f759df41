/**
 * Start-up loading of the yield thresholds. The artifact is modelled by what
 * unpickling produced: None when the file is missing, unreadable or not a
 * pickle, otherwise the sequence of numbers it held. The two-name unpacking
 * succeeds only for exactly two numbers; every failure, the unpacking error
 * included, is swallowed by the bare `except` and the defaults are used.
 */
module Artifacts {
  import opened Wrappers
  import opened YieldCategory

  /** The thresholds used when the artifact cannot be loaded. */
  const DefaultThresholds: Thresholds := Thresholds(2.0, 5.0)

  /** The (low, high) pair the page runs with, given what the artifact yielded. */
  function LoadThresholds(artifact: Option<seq<real>>): (t: Thresholds)
    ensures t == DefaultThresholds || (artifact.Some? && artifact.value == [t.low, t.high])
    ensures artifact.Some? && |artifact.value| == 2 ==> [t.low, t.high] == artifact.value
    ensures artifact.None? || |artifact.value| != 2 ==> t == Thresholds(2.0, 5.0)
  {
    match artifact
    case Some(pair) =>
      if |pair| == 2 then Thresholds(pair[0], pair[1]) else DefaultThresholds
    case None => DefaultThresholds
  }

  /** The loader does not check low < high: an inverted pair is kept and Medium becomes unreachable. */
  lemma InvertedArtifactNeverMedium(low: real, high: real, value: real)
    requires high <= low
    ensures ClassifyYield(value, LoadThresholds(Some([low, high]))) != Medium
  {
    MediumUnreachableWhenInverted(value, LoadThresholds(Some([low, high])));
  }

  /** Sample yields under the default thresholds, including both boundaries. */
  lemma DefaultScenarios()
    ensures ClassifyYield(6.0, LoadThresholds(None)) == High
    ensures ClassifyYield(1.5, LoadThresholds(None)) == Low
    ensures ClassifyYield(3.0, LoadThresholds(None)) == Medium
    ensures ClassifyYield(2.0, LoadThresholds(None)) == Medium
    ensures ClassifyYield(5.0, LoadThresholds(None)) == High
  {
  }
}
