/** tlm/utils/tokenize_utils.py: the word budget for observed-consistency
    explanations. The settings and the reasoning-effort table are
    parameters. */
module Tokenize {

  /** round_max_words: below 10 unchanged, below 100 down to a multiple of
      10, otherwise down to a multiple of 50. */
  function RoundMaxWords(maxWords: int): int
  {
    if maxWords < 10 then maxWords
    else if maxWords < 100 then (maxWords / 10) * 10
    else (maxWords / 50) * 50
  }

  /** Rounding never increases the budget, keeps it at 10 or more once it
      is, and lands on the step of its band no more than one step below. */
  lemma RoundMaxWordsSpec(x: int)
    ensures RoundMaxWords(x) <= x
    ensures x < 10 ==> RoundMaxWords(x) == x
    ensures 10 <= x < 100 ==> RoundMaxWords(x) % 10 == 0 && x - 10 < RoundMaxWords(x)
    ensures 100 <= x ==> RoundMaxWords(x) % 50 == 0 && x - 50 < RoundMaxWords(x)
    ensures 10 <= x ==> 10 <= RoundMaxWords(x)
  {
  }

  /** The unit-test values. */
  lemma RoundMaxWordsExamples()
    ensures RoundMaxWords(9) == 9 && RoundMaxWords(10) == 10 && RoundMaxWords(11) == 10
    ensures RoundMaxWords(70) == 70 && RoundMaxWords(99) == 90
    ensures RoundMaxWords(100) == 100 && RoundMaxWords(150) == 150 && RoundMaxWords(151) == 150
    ensures RoundMaxWords(199) == 150 && RoundMaxWords(200) == 200 && RoundMaxWords(201) == 200
  {
  }

  /** np.ceil on a real, as an integer. */
  function Ceil(x: real): (r: int)
    ensures r as real - 1.0 < x <= r as real
  {
    if x.Floor as real == x then x.Floor else x.Floor + 1
  }

  /** get_max_words_for_observed_consistency_explanation: the smaller of
      the token budget in words less 50 answer words and the effort's cap,
      scaled by the underestimate factor, at least 10, rounded up, then
      rounded down by RoundMaxWords. */
  function MaxWordsForExplanation(maxTokens: int, avgWordsPerToken: real, effortMaxWords: int, underestimateFactor: real): int
  {
    var budget := maxTokens as real * avgWordsPerToken - 50.0;
    var maxWords := if budget <= effortMaxWords as real then budget else effortMaxWords as real;
    var scaled := maxWords * underestimateFactor;
    RoundMaxWords(Ceil(if 10.0 >= scaled then 10.0 else scaled))
  }

  /** The budget is always at least 10 words, and it never exceeds the
      scaled word limit rounded up. */
  lemma MaxWordsAtLeastTen(maxTokens: int, avgWordsPerToken: real, effortMaxWords: int, underestimateFactor: real)
    ensures 10 <= MaxWordsForExplanation(maxTokens, avgWordsPerToken, effortMaxWords, underestimateFactor)
    ensures MaxWordsForExplanation(maxTokens, avgWordsPerToken, effortMaxWords, underestimateFactor) as real
      < 1.0 + (var budget := maxTokens as real * avgWordsPerToken - 50.0;
               var m := if budget <= effortMaxWords as real then budget else effortMaxWords as real;
               if 10.0 >= m * underestimateFactor then 10.0 else m * underestimateFactor)
  {
    var budget := maxTokens as real * avgWordsPerToken - 50.0;
    var m := if budget <= effortMaxWords as real then budget else effortMaxWords as real;
    var x := if 10.0 >= m * underestimateFactor then 10.0 else m * underestimateFactor;
    RoundMaxWordsSpec(Ceil(x));
  }
}
