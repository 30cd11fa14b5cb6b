/** tlm/utils/parse_utils.py: confidences read off token log-probabilities.
    `_logprob_to_probability` is `exp`; every position and alternative
    carries that probability (`prob`) rather than the log-probability. */
module ParseUtils {
  import opened Wrappers
  import opened Text
  import opened Types
  import opened Completions
  import opened MathUtils

  // ---------------------------------------------------------------------
  // get_choice_token_confidence

  /** A generated token as compared with the answer choices: stripped,
      lower-cased, punctuation removed. */
  function Preprocess(token: string): string {
    RemovePunctuation(Lower(Strip(token)))
  }

  predicate MatchesChoice(pre: string, choice: AnswerChoiceToken) {
    pre == Lower(choice.token)
  }

  /** The first declared choice that a preprocessed token equals. */
  function FirstChoice(pre: string, choices: seq<AnswerChoiceToken>): (r: Option<nat>)
    ensures r.Some? ==> r.value < |choices| && MatchesChoice(pre, choices[r.value])
    ensures r.Some? ==> forall j :: 0 <= j < r.value ==> !MatchesChoice(pre, choices[j])
    ensures r.None? <==> forall j :: 0 <= j < |choices| ==> !MatchesChoice(pre, choices[j])
  {
    if choices == [] then None
    else if MatchesChoice(pre, choices[0]) then Some(0)
    else
      match FirstChoice(pre, choices[1..])
      case None => None
      case Some(j) => Some(j + 1)
  }

  predicate Decides(t: TokenLogprob, choices: seq<AnswerChoiceToken>) {
    FirstChoice(Preprocess(t.token), choices).Some?
  }

  /** What a deciding token yields: p for a positive choice, 1 - p for a
      negative one. */
  function Decision(t: TokenLogprob, choices: seq<AnswerChoiceToken>): real
    requires Decides(t, choices)
  {
    var choice := choices[FirstChoice(Preprocess(t.token), choices).value];
    if choice.positive then t.prob else 1.0 - t.prob
  }

  /** The backward scan over the first k tokens: the decision of the last
      deciding token among them, 0.5 when none decides. */
  function ScanBack(content: seq<TokenLogprob>, choices: seq<AnswerChoiceToken>, k: nat): real
    requires k <= |content|
  {
    if k == 0 then 0.5
    else
      match FirstChoice(Preprocess(content[k - 1].token), choices)
      case Some(j) => if choices[j].positive then content[k - 1].prob else 1.0 - content[k - 1].prob
      case None => ScanBack(content, choices, k - 1)
  }

  /** get_choice_token_confidence: None without answer choices or without
      log-probabilities, otherwise the backward scan over all tokens. */
  function ChoiceTokenConfidence(c: CompletionData): Option<real>
  {
    if c.template.None? || c.template.value.answerChoiceTokens.None? || c.logprobs.None? then None
    else Some(ScanBack(c.logprobs.value, c.template.value.answerChoiceTokens.value, |c.logprobs.value|))
  }

  /** The scan over k tokens yields 0.5 when none of them decides. */
  lemma {:induction false} ScanBackNone(content: seq<TokenLogprob>, choices: seq<AnswerChoiceToken>, k: nat)
    requires k <= |content|
    requires forall i :: 0 <= i < k ==> !Decides(content[i], choices)
    ensures ScanBack(content, choices, k) == 0.5
  {
    if k > 0 {
      assert !Decides(content[k - 1], choices);
      ScanBackNone(content, choices, k - 1);
    }
  }

  /** The scan over k tokens stops at the last deciding one among them. */
  lemma {:induction false} ScanBackLast(content: seq<TokenLogprob>, choices: seq<AnswerChoiceToken>, k: nat, i: nat)
    requires i < k <= |content| && Decides(content[i], choices)
    requires forall m :: i < m < k ==> !Decides(content[m], choices)
    ensures ScanBack(content, choices, k) == Decision(content[i], choices)
  {
    if i < k - 1 {
      assert !Decides(content[k - 1], choices);
      ScanBackLast(content, choices, k - 1, i);
    }
  }

  /** The scan yields a probability when every token probability is one. */
  lemma {:induction false} ScanBackInUnit(content: seq<TokenLogprob>, choices: seq<AnswerChoiceToken>, k: nat)
    requires k <= |content|
    requires forall i :: 0 <= i < |content| ==> 0.0 <= content[i].prob <= 1.0
    ensures 0.0 <= ScanBack(content, choices, k) <= 1.0
  {
    if k > 0 && FirstChoice(Preprocess(content[k - 1].token), choices).None? {
      ScanBackInUnit(content, choices, k - 1);
    }
  }

  /** Without any deciding token the confidence is 0.5; otherwise the last
      deciding token gives p or 1 - p. */
  lemma ChoiceTokenConfidenceSpec(c: CompletionData)
    requires c.template.Some? && c.template.value.answerChoiceTokens.Some? && c.logprobs.Some?
    ensures var content, choices := c.logprobs.value, c.template.value.answerChoiceTokens.value;
      ((forall i :: 0 <= i < |content| ==> !Decides(content[i], choices)) ==> ChoiceTokenConfidence(c) == Some(0.5)) &&
      forall i :: 0 <= i < |content| && Decides(content[i], choices) &&
        (forall k :: i < k < |content| ==> !Decides(content[k], choices))
        ==> ChoiceTokenConfidence(c) == Some(Decision(content[i], choices))
  {
    var content, choices := c.logprobs.value, c.template.value.answerChoiceTokens.value;
    if forall i :: 0 <= i < |content| ==> !Decides(content[i], choices) {
      ScanBackNone(content, choices, |content|);
    }
    forall i | 0 <= i < |content| && Decides(content[i], choices) &&
        (forall k :: i < k < |content| ==> !Decides(content[k], choices))
      ensures ChoiceTokenConfidence(c) == Some(Decision(content[i], choices))
    {
      ScanBackLast(content, choices, |content|, i);
    }
  }

  /** The confidence is a probability when the token probabilities are. */
  lemma ChoiceTokenConfidenceInUnit(c: CompletionData)
    requires c.logprobs.Some? ==> forall i :: 0 <= i < |c.logprobs.value| ==> 0.0 <= c.logprobs.value[i].prob <= 1.0
    ensures ChoiceTokenConfidence(c).Some? ==> 0.0 <= ChoiceTokenConfidence(c).value <= 1.0
  {
    if ChoiceTokenConfidence(c).Some? {
      var content, choices := c.logprobs.value, c.template.value.answerChoiceTokens.value;
      ScanBackInUnit(content, choices, |content|);
    }
  }

  /** The inner loop: the choices in declared order, stopping at the first
      one the preprocessed token equals. */
  method FindChoice(pre: string, choices: seq<AnswerChoiceToken>) returns (found: Option<nat>)
    ensures found == FirstChoice(pre, choices)
  {
    var j := 0;
    while j < |choices|
      invariant 0 <= j <= |choices|
      invariant forall jj :: 0 <= jj < j ==> !MatchesChoice(pre, choices[jj])
    {
      if pre == Lower(choices[j].token) {
        return Some(j);
      }
      j := j + 1;
    }
    return None;
  }

  /** The reverse scan with early return; the inner loop tries the choices
      in declared order. */
  method GetChoiceTokenConfidence(c: CompletionData) returns (r: Option<real>)
    ensures r == ChoiceTokenConfidence(c)
  {
    if c.template.None? || c.template.value.answerChoiceTokens.None? || c.logprobs.None? {
      return None;
    }
    var content, choices := c.logprobs.value, c.template.value.answerChoiceTokens.value;
    ghost var total := ScanBack(content, choices, |content|);
    assert ChoiceTokenConfidence(c) == Some(total);
    var k := |content|;
    while k > 0
      invariant 0 <= k <= |content|
      invariant ScanBack(content, choices, k) == total
    {
      var t := content[k - 1];
      var found := FindChoice(Preprocess(t.token), choices);
      ScanStep(content, choices, k, found);
      if found.Some? {
        if choices[found.value].positive {
          return Some(t.prob);
        } else {
          return Some(1.0 - t.prob);
        }
      }
      k := k - 1;
    }
    return Some(0.5);
  }

  /** One step of the backward scan: stop at a matching token, pass over
      any other. */
  lemma ScanStep(content: seq<TokenLogprob>, choices: seq<AnswerChoiceToken>, k: nat, found: Option<nat>)
    requires 0 < k <= |content| && found == FirstChoice(Preprocess(content[k - 1].token), choices)
    ensures found.Some? ==>
      found.value < |choices| &&
      ScanBack(content, choices, k) == (if choices[found.value].positive then content[k - 1].prob else 1.0 - content[k - 1].prob)
    ensures found.None? ==> ScanBack(content, choices, k) == ScanBack(content, choices, k - 1)
  {
  }

  // ---------------------------------------------------------------------
  // _get_normalized_token

  predicate IsJunk(c: char) {
    IsSpace(c) || IsPunctuation(c)
  }

  /** Drops leading whitespace and punctuation. */
  function DropLeading(t: string): string
  {
    if t == [] || !IsJunk(t[0]) then t else DropLeading(t[1..])
  }

  /** Drops trailing whitespace and punctuation. */
  function DropTrailing(t: string): string
  {
    if t == [] || !IsJunk(t[|t| - 1]) then t else DropTrailing(t[..|t| - 1])
  }

  /** What _get_normalized_token computes: the token lower-cased without
      whitespace or punctuation at either end, except that a one-character
      token is only lower-cased, even when it is punctuation. */
  function NormalizedToken(t: string): string {
    if |t| == 1 then Lower(t) else Lower(DropTrailing(DropLeading(t)))
  }

  /** Dropping stops at the first character that is not junk. */
  lemma {:induction false} DropLeadingAt(t: string, a: nat)
    requires a <= |t| && (forall i :: 0 <= i < a ==> IsJunk(t[i])) && (a == |t| || !IsJunk(t[a]))
    ensures DropLeading(t) == t[a..]
  {
    if a > 0 {
      var rest := t[1..];
      assert forall i :: 0 <= i < a - 1 ==> rest[i] == t[i + 1];
      assert a - 1 < |rest| ==> rest[a - 1] == t[a];
      DropLeadingAt(rest, a - 1);
      assert rest[a - 1..] == t[a..];
    }
  }

  /** Dropping stops at the last character that is not junk. */
  lemma {:induction false} DropTrailingAt(t: string, b: nat)
    requires b <= |t| && (forall i :: b <= i < |t| ==> IsJunk(t[i])) && (b == 0 || !IsJunk(t[b - 1]))
    ensures DropTrailing(t) == t[..b]
  {
    if b < |t| {
      var init := t[..|t| - 1];
      assert forall i :: b <= i < |init| ==> init[i] == t[i];
      assert b > 0 ==> init[b - 1] == t[b - 1];
      DropTrailingAt(init, b);
      assert init[..b] == t[..b];
    } else {
      assert t[..b] == t;
    }
  }

  /** A token of two or more characters that is all junk normalizes to "". */
  lemma AllJunk(t: string)
    requires |t| != 1 && forall i :: 0 <= i < |t| ==> IsJunk(t[i])
    ensures NormalizedToken(t) == ""
  {
    DropLeadingAt(t, |t|);
  }

  /** Otherwise the kept slice runs from the first to the last character
      that is not junk. */
  lemma KeptSlice(t: string, first: nat, last: nat)
    requires first <= last < |t| && !IsJunk(t[first]) && !IsJunk(t[last])
    requires forall i :: 0 <= i < first ==> IsJunk(t[i])
    requires forall i :: last < i < |t| ==> IsJunk(t[i])
    ensures NormalizedToken(t) == Lower(t[first..last + 1])
  {
    DropLeadingAt(t, first);
    var rest := t[first..];
    assert forall i :: last + 1 - first <= i < |rest| ==> rest[i] == t[i + first];
    DropTrailingAt(rest, last + 1 - first);
    assert rest[..last + 1 - first] == t[first..last + 1];
  }

  /** _get_normalized_token: the forward loop stops at the first kept
      character or at the last index, the backward loop at the last kept
      character or at index 0, and the slice between them is lower-cased. */
  method GetNormalizedToken(t: string) returns (r: string)
    ensures r == NormalizedToken(t)
  {
    var start := 0;
    while start < |t| - 1 && IsJunk(t[start])
      invariant 0 <= start <= if |t| == 0 then 0 else |t| - 1
      invariant forall i :: 0 <= i < start ==> IsJunk(t[i])
    {
      start := start + 1;
    }
    var end := |t| - 1;
    while end > 0 && IsJunk(t[end])
      invariant -1 <= end < |t| && (|t| > 0 ==> end >= 0)
      invariant forall i :: end < i < |t| ==> IsJunk(t[i])
    {
      end := end - 1;
    }
    var slice := if start <= end then t[start..end + 1] else "";
    r := Lower(slice);
    if |t| > 1 {
      if !IsJunk(t[start]) {
        KeptSlice(t, start, end);
      } else {
        AllJunk(t);
      }
    }
  }

  // ---------------------------------------------------------------------
  // _find_token_index

  /** Joint length of a list of tokens. */
  function TotalLength(tokens: seq<string>): nat {
    if tokens == [] then 0 else |tokens[0]| + TotalLength(tokens[1..])
  }

  /** The index of the token covering character `stringIndex` of the
      joined tokens, or -1 past the end. */
  function TokenIndexOf(tokens: seq<string>, stringIndex: int): (r: int)
    ensures -1 <= r < |tokens|
  {
    if tokens == [] then -1
    else if |tokens[0]| > stringIndex then 0
    else
      var rest := TokenIndexOf(tokens[1..], stringIndex - |tokens[0]|);
      if rest == -1 then -1 else rest + 1
  }

  /** -1 exactly when there are no tokens or the index is at or past the
      joined length; otherwise the first token whose cumulative length
      exceeds the index (a negative index therefore gives 0). */
  lemma {:induction false} TokenIndexOfSpec(tokens: seq<string>, stringIndex: int)
    ensures TokenIndexOf(tokens, stringIndex) == -1 <==> tokens == [] || TotalLength(tokens) <= stringIndex
    ensures var r := TokenIndexOf(tokens, stringIndex);
      r != -1 ==> stringIndex < TotalLength(tokens[..r + 1]) && (r > 0 ==> TotalLength(tokens[..r]) <= stringIndex)
  {
    if tokens != [] {
      var rest := tokens[1..];
      TokenIndexOfSpec(rest, stringIndex - |tokens[0]|);
      assert tokens[..1] == [tokens[0]] && tokens[..1][1..] == [];
      assert tokens[..0] == [];
      var r := TokenIndexOf(tokens, stringIndex);
      if r > 0 {
        assert tokens[..r][1..] == rest[..r - 1];
        assert tokens[..r + 1][1..] == rest[..r];
      }
    }
  }

  function Shift(r: int, offset: nat): int {
    if r == -1 then -1 else r + offset
  }

  /** _find_token_index: accumulates token lengths until one passes the index. */
  method FindTokenIndex(tokens: seq<string>, stringIndex: int) returns (r: int)
    ensures r == TokenIndexOf(tokens, stringIndex)
  {
    var indexCount := 0;
    var idx := 0;
    while idx < |tokens|
      invariant 0 <= idx <= |tokens|
      invariant TokenIndexOf(tokens, stringIndex) == Shift(TokenIndexOf(tokens[idx..], stringIndex - indexCount), idx)
    {
      var tokenLength := |tokens[idx]|;
      if indexCount + tokenLength > stringIndex {
        return idx;
      }
      assert tokens[idx..][1..] == tokens[idx + 1..];
      indexCount := indexCount + tokenLength;
      idx := idx + 1;
    }
    return -1;
  }

  // ---------------------------------------------------------------------
  // _get_probability_of_generic_answer_tokens

  /** Probability mass of the alternatives spelling the same normalized
      token differently, accumulated in order. */
  function SameTokenMass(top: seq<TopLogprob>, token: string): real
  {
    if top == [] then 0.0
    else
      var last := top[|top| - 1];
      SameTokenMass(top[..|top| - 1], token) +
      (if NormalizedToken(last.token) == NormalizedToken(token) && last.token != token then last.prob else 0.0)
  }

  lemma {:induction false} SameTokenMassNonNegative(top: seq<TopLogprob>, token: string)
    requires forall i :: 0 <= i < |top| ==> top[i].prob >= 0.0
    ensures SameTokenMass(top, token) >= 0.0
  {
    if top != [] {
      SameTokenMassNonNegative(top[..|top| - 1], token);
    }
  }

  function Min1(x: real): real {
    if x <= 1.0 then x else 1.0
  }

  /** The probability of one position: its own plus its differently-spelled
      alternatives, capped at 1. */
  function PositionProbability(p: TokenLogprob): real {
    Min1(p.prob + SameTokenMass(p.top, p.token))
  }

  /** `xs[i]` for a Python index that may count from the end. */
  predicate ValidIndex<T>(xs: seq<T>, i: int) {
    -|xs| <= i < |xs|
  }

  function PyIndex<T>(xs: seq<T>, i: int): T
    requires ValidIndex(xs, i)
  {
    if i >= 0 then xs[i] else xs[|xs| + i]
  }

  /** The probabilities of positions lo..hi inclusive, failing on an index
      outside the list. */
  function RangeProbabilities(positions: seq<TokenLogprob>, lo: int, hi: int): (r: Result<seq<real>>)
    ensures r.Ok? ==> |r.value| == if lo <= hi then hi - lo + 1 else 0
    decreases hi - lo
  {
    if lo > hi then Ok([])
    else if !ValidIndex(positions, lo) then Err("IndexError: list index out of range")
    else
      var rest :- RangeProbabilities(positions, lo + 1, hi);
      Ok([PositionProbability(PyIndex(positions, lo))] + rest)
  }

  function Tokens(positions: seq<TokenLogprob>): (ts: seq<string>)
    ensures |ts| == |positions|
  {
    seq(|positions|, i requires 0 <= i < |positions| => positions[i].token)
  }

  /** _get_probability_of_generic_answer_tokens: None for an empty message,
      else the mean position probability over the tokens covering the
      answer's span, 0.5 when that range is empty. */
  function GenericAnswerTokensProbability(message: string, positions: seq<TokenLogprob>, startIdx: int, endIdx: int)
    : Result<Option<real>>
  {
    if message == "" then Ok(None)
    else
      var first := TokenIndexOf(Tokens(positions), startIdx);
      var last := TokenIndexOf(Tokens(positions), endIdx - 1);
      var probabilities :- RangeProbabilities(positions, first, last);
      if probabilities == [] then Ok(Some(0.5)) else Ok(Some(Mean(probabilities)))
  }

  predicate NonNegativeProbabilities(positions: seq<TokenLogprob>) {
    forall i :: 0 <= i < |positions| ==>
      positions[i].prob >= 0.0 && forall k :: 0 <= k < |positions[i].top| ==> positions[i].top[k].prob >= 0.0
  }

  lemma {:induction false} RangeProbabilitiesInUnit(positions: seq<TokenLogprob>, lo: int, hi: int)
    requires NonNegativeProbabilities(positions)
    ensures RangeProbabilities(positions, lo, hi).Ok? ==>
      forall i :: 0 <= i < |RangeProbabilities(positions, lo, hi).value| ==>
        0.0 <= RangeProbabilities(positions, lo, hi).value[i] <= 1.0
    decreases hi - lo
  {
    if lo <= hi && ValidIndex(positions, lo) {
      RangeProbabilitiesInUnit(positions, lo + 1, hi);
      var p := PyIndex(positions, lo);
      SameTokenMassNonNegative(p.top, p.token);
    }
  }

  /** With non-negative probabilities the result is a probability. */
  lemma GenericAnswerTokensProbabilityInUnit(message: string, positions: seq<TokenLogprob>, startIdx: int, endIdx: int)
    requires NonNegativeProbabilities(positions)
    ensures var r := GenericAnswerTokensProbability(message, positions, startIdx, endIdx);
      r.Ok? && r.value.Some? ==> 0.0 <= r.value.value <= 1.0
  {
    var first := TokenIndexOf(Tokens(positions), startIdx);
    var last := TokenIndexOf(Tokens(positions), endIdx - 1);
    RangeProbabilitiesInUnit(positions, first, last);
    var probabilities := RangeProbabilities(positions, first, last);
    if message != "" && probabilities.Ok? && probabilities.value != [] {
      MeanBounds(probabilities.value, 0.0, 1.0);
    }
  }

  /** A position range fails exactly when it reaches an index outside the
      list; with an empty list that is any non-empty range. */
  lemma RangeProbabilitiesEmptyList(lo: int, hi: int)
    ensures RangeProbabilities([], lo, hi).Ok? <==> lo > hi
  {
  }

  function Prepend(xs: seq<real>, r: Result<seq<real>>): Result<seq<real>> {
    if r.Ok? then Ok(xs + r.value) else r
  }

  /** Taking one more position into the accumulated list. */
  lemma PrependStep(positions: seq<TokenLogprob>, probabilities: seq<real>, i: int, last: int)
    requires i <= last && ValidIndex(positions, i)
    ensures Prepend(probabilities, RangeProbabilities(positions, i, last)) ==
      Prepend(probabilities + [PositionProbability(PyIndex(positions, i))], RangeProbabilities(positions, i + 1, last))
  {
    var rest := RangeProbabilities(positions, i + 1, last);
    if rest.Ok? {
      assert probabilities + ([PositionProbability(PyIndex(positions, i))] + rest.value) ==
        probabilities + [PositionProbability(PyIndex(positions, i))] + rest.value;
    }
  }

  /** The inner loop: one position's probability, raised by each
      alternative with the same normalized spelling, then capped. */
  method GetPositionProbability(position: TokenLogprob) returns (probability: real)
    ensures probability == PositionProbability(position)
  {
    probability := position.prob;
    var normalized := GetNormalizedToken(position.token);
    var k := 0;
    while k < |position.top|
      invariant 0 <= k <= |position.top|
      invariant probability == position.prob + SameTokenMass(position.top[..k], position.token)
    {
      var alternative := GetNormalizedToken(position.top[k].token);
      assert position.top[..k + 1][..k] == position.top[..k];
      if alternative == normalized && position.top[k].token != position.token {
        probability := probability + position.top[k].prob;
      }
      k := k + 1;
    }
    assert position.top[..k] == position.top;
    probability := Min1(probability);
  }

  /** The loop over the token range, failing at an index outside the list. */
  method GetGenericAnswerTokensProbability(message: string, positions: seq<TokenLogprob>, startIdx: int, endIdx: int)
    returns (r: Result<Option<real>>)
    ensures r == GenericAnswerTokensProbability(message, positions, startIdx, endIdx)
  {
    if message == "" {
      return Ok(None);
    }
    var tokens := Tokens(positions);
    var first := FindTokenIndex(tokens, startIdx);
    var last := FindTokenIndex(tokens, endIdx - 1);
    var probabilities: seq<real> := [];
    var i := first;
    assert RangeProbabilities(positions, first, last).Ok? ==>
      [] + RangeProbabilities(positions, first, last).value == RangeProbabilities(positions, first, last).value;
    while i <= last
      invariant first <= i || last < first
      invariant RangeProbabilities(positions, first, last) == Prepend(probabilities, RangeProbabilities(positions, i, last))
      decreases last - i
    {
      if !(-|positions| <= i < |positions|) {
        return Err("IndexError: list index out of range");
      }
      var position := if i >= 0 then positions[i] else positions[|positions| + i];
      var probability := GetPositionProbability(position);
      PrependStep(positions, probabilities, i, last);
      probabilities := probabilities + [probability];
      i := i + 1;
    }
    assert probabilities + [] == probabilities;
    if probabilities == [] {
      return Ok(Some(0.5));
    }
    return Ok(Some(Sum(probabilities) / |probabilities| as real));
  }

  // ---------------------------------------------------------------------
  // compute_score_expected_value

  /** The three outcomes: NaN for a failed call, None when the score token is
      absent or the completion has no log-probabilities, or a value. */
  datatype ExpectedScore = NaN | NoScore | Expected(value: real)

  /** The prior mass of each score 1..5. */
  const PriorMass: real := 0.001

  /** The score 1..5 that an alternative token spells, if any. */
  function ScoreToken(token: string): Option<nat> {
    if IsDecimal(token) && 1 <= DecimalValue(token) <= 5 then Some(DecimalValue(token)) else None
  }

  /** Linear probability of each score 1..5 (entry s - 1): the prior plus the
      alternatives spelling that score. */
  function LinearProbabilities(top: seq<TopLogprob>): (p: seq<real>)
    ensures |p| == 5
  {
    if top == [] then [PriorMass, PriorMass, PriorMass, PriorMass, PriorMass]
    else
      var p := LinearProbabilities(top[..|top| - 1]);
      var t := top[|top| - 1];
      match ScoreToken(t.token)
      case None => p
      case Some(s) => p[s - 1 := p[s - 1] + t.prob]
  }

  /** Σ (s - 1) · P(s). */
  function WeightedSum(p: seq<real>): real
    requires |p| == 5
  {
    0.0 * p[0] + 1.0 * p[1] + 2.0 * p[2] + 3.0 * p[3] + 4.0 * p[4]
  }

  /** Σ P(s). */
  function TotalMass(p: seq<real>): real
    requires |p| == 5
  {
    p[0] + p[1] + p[2] + p[3] + p[4]
  }

  /** The first generated token equal to the raw score. */
  function FirstTokenEqual(content: seq<TokenLogprob>, rawScore: string): (r: Option<nat>)
    ensures r.Some? ==> r.value < |content| && content[r.value].token == rawScore
    ensures r.Some? ==> forall i :: 0 <= i < r.value ==> content[i].token != rawScore
    ensures r.None? ==> forall i :: 0 <= i < |content| ==> content[i].token != rawScore
  {
    if content == [] then None
    else if content[0].token == rawScore then Some(0)
    else
      match FirstTokenEqual(content[1..], rawScore)
      case None => None
      case Some(i) => Some(i + 1)
  }

  /** compute_score_expected_value: (Σ (s - 1) · P(s) / Σ P(s)) / 4 over the
      alternatives of the first token equal to the raw score. A zero total
      would raise inside the `try` and also give None. */
  function ScoreExpectedValue(o: Outcome, rawScore: string): ExpectedScore
  {
    match o
    case Failure(_) => NaN
    case Success(c) =>
      if c.logprobs.None? then NoScore
      else
        match FirstTokenEqual(c.logprobs.value, rawScore)
        case None => NoScore
        case Some(i) =>
          var p := LinearProbabilities(c.logprobs.value[i].top);
          if TotalMass(p) == 0.0 then NoScore else Expected((WeightedSum(p) / TotalMass(p)) / 4.0)
  }

  lemma {:induction false} LinearProbabilitiesPositive(top: seq<TopLogprob>)
    requires forall i :: 0 <= i < |top| ==> top[i].prob >= 0.0
    ensures forall s :: 0 <= s < 5 ==> LinearProbabilities(top)[s] >= PriorMass
  {
    if top != [] {
      LinearProbabilitiesPositive(top[..|top| - 1]);
    }
  }

  /** With non-negative alternative probabilities the expected score is
      defined and lies in [0, 1]. */
  lemma ScoreExpectedValueInUnit(o: Outcome, rawScore: string)
    requires o.Success? && o.completion.logprobs.Some? ==> NonNegativeProbabilities(o.completion.logprobs.value)
    ensures ScoreExpectedValue(o, rawScore).Expected? <==>
      o.Success? && o.completion.logprobs.Some? && FirstTokenEqual(o.completion.logprobs.value, rawScore).Some?
    ensures ScoreExpectedValue(o, rawScore).Expected? ==> 0.0 <= ScoreExpectedValue(o, rawScore).value <= 1.0
  {
    if o.Success? && o.completion.logprobs.Some? && FirstTokenEqual(o.completion.logprobs.value, rawScore).Some? {
      var content := o.completion.logprobs.value;
      var i := FirstTokenEqual(content, rawScore).value;
      var top := content[i].top;
      LinearProbabilitiesPositive(top);
      var p := LinearProbabilities(top);
      WeightedRatio(WeightedSum(p), TotalMass(p));
    }
  }

  lemma WeightedRatio(w: real, total: real)
    requires total > 0.0 && 0.0 <= w <= 4.0 * total
    ensures 0.0 <= (w / total) / 4.0 <= 1.0
  {
    assert w / total <= 4.0;
  }

  /** A score token "4" whose alternatives are "4" and "5", each with
      probability 0.5, has expected score (3 · 0.501 + 4 · 0.501 + 0.003) / 1.005 / 4. */
  lemma ScoreExpectedValueExample(c: CompletionData)
    requires c.logprobs == Some([TokenLogprob("4", 0.5, [TopLogprob("4", 0.5), TopLogprob("5", 0.5)])])
    ensures ScoreExpectedValue(Success(c), "4") == Expected((3.0 * 0.501 + 4.0 * 0.501 + 0.003) / 1.005 / 4.0)
  {
    var top := [TopLogprob("4", 0.5), TopLogprob("5", 0.5)];
    assert top[..1] == [TopLogprob("4", 0.5)] && top[..1][..0] == [];
    assert ScoreToken("4") == Some(4) by {
      assert "4"[..0] == [];
    }
    assert ScoreToken("5") == Some(5) by {
      assert "5"[..0] == [];
    }
    var p0 := [PriorMass, PriorMass, PriorMass, PriorMass, PriorMass];
    assert LinearProbabilities(top[..1]) == p0[3 := PriorMass + 0.5];
    var p := LinearProbabilities(top);
    assert p == p0[3 := PriorMass + 0.5][4 := PriorMass + 0.5];
  }

  /** compute_score_expected_value: the search loop with break, then the
      accumulation of linear probabilities and of the weighted sum. */
  method ComputeScoreExpectedValue(o: Outcome, rawScore: string) returns (r: ExpectedScore)
    ensures r == ScoreExpectedValue(o, rawScore)
  {
    if o.Failure? {
      return NaN;
    }
    var c := o.completion;
    if c.logprobs.None? {
      return NoScore;
    }
    var content := c.logprobs.value;
    var found := FindScoreToken(content, rawScore);
    if found.None? {
      return NoScore;
    }
    var p := AccumulateLinearProbabilities(content[found.value].top);
    var weighted, total := WeightedAndTotal(p);
    if total == 0.0 {
      return NoScore;
    }
    return Expected((weighted / total) / 4.0);
  }

  /** The loop over the scores 1..5 summing (s - 1) · P(s) and P(s). */
  method WeightedAndTotal(p: seq<real>) returns (weighted: real, total: real)
    requires |p| == 5
    ensures weighted == WeightedSum(p) && total == TotalMass(p)
  {
    weighted := 0.0;
    total := 0.0;
    var score := 1;
    while score <= 5
      invariant 1 <= score <= 6
      invariant weighted == PartialWeighted(p, score - 1)
      invariant total == PartialTotal(p, score - 1)
    {
      weighted := weighted + (score - 1) as real * p[score - 1];
      total := total + p[score - 1];
      score := score + 1;
    }
    assert PartialWeighted(p, 5) == WeightedSum(p) by {
      assert PartialWeighted(p, 1) == 0.0 * p[0];
      assert PartialWeighted(p, 3) == 0.0 * p[0] + 1.0 * p[1] + 2.0 * p[2];
    }
    assert PartialTotal(p, 5) == TotalMass(p) by {
      assert PartialTotal(p, 1) == p[0];
      assert PartialTotal(p, 3) == p[0] + p[1] + p[2];
    }
  }

  /** The search for the score token, stopping at the first match. */
  method FindScoreToken(content: seq<TokenLogprob>, rawScore: string) returns (found: Option<nat>)
    ensures found == FirstTokenEqual(content, rawScore)
  {
    var i := 0;
    while i < |content|
      invariant 0 <= i <= |content|
      invariant forall k :: 0 <= k < i ==> content[k].token != rawScore
    {
      if content[i].token == rawScore {
        return Some(i);
      }
      i := i + 1;
    }
    return None;
  }

  /** The accumulation of linear probabilities over the alternatives. */
  method AccumulateLinearProbabilities(top: seq<TopLogprob>) returns (p: seq<real>)
    ensures p == LinearProbabilities(top)
  {
    p := [PriorMass, PriorMass, PriorMass, PriorMass, PriorMass];
    var k := 0;
    while k < |top|
      invariant 0 <= k <= |top|
      invariant p == LinearProbabilities(top[..k])
    {
      assert top[..k + 1][..k] == top[..k];
      var s := ScoreToken(top[k].token);
      if s.Some? {
        p := p[s.value - 1 := p[s.value - 1] + top[k].prob];
      }
      k := k + 1;
    }
    assert top[..k] == top;
  }

  /** The weighted sum after the first n scores. */
  function PartialWeighted(p: seq<real>, n: nat): real
    requires n <= |p|
  {
    if n == 0 then 0.0 else PartialWeighted(p, n - 1) + (n - 1) as real * p[n - 1]
  }

  /** The total mass after the first n scores. */
  function PartialTotal(p: seq<real>, n: nat): real
    requires n <= |p|
  {
    if n == 0 then 0.0 else PartialTotal(p, n - 1) + p[n - 1]
  }

  // ---------------------------------------------------------------------
  // get_parsed_answer_tokens_confidence and compute_mean_message_confidence

  /** get_parsed_answer_tokens_confidence: asserts log-probabilities, then
      the generic answer-token probability when every position has
      alternatives, else None. */
  function ParsedAnswerTokensConfidence(c: CompletionData, startIdx: int, endIdx: int): (r: Result<Option<real>>)
    ensures c.logprobs.None? ==> r.Err?
    ensures c.logprobs.Some? && (exists i :: 0 <= i < |c.logprobs.value| && c.logprobs.value[i].top == []) ==> r == Ok(None)
  {
    if c.logprobs.None? then Err("AssertionError")
    else if forall i :: 0 <= i < |c.logprobs.value| ==> c.logprobs.value[i].top != [] then
      GenericAnswerTokensProbability(c.message, c.logprobs.value, startIdx, endIdx)
    else Ok(None)
  }

  /** compute_mean_message_confidence: the mean probability of the message's
      tokens, NaN for no tokens. */
  function MeanMessageConfidence(c: CompletionData): (r: Result<Score>)
    ensures r.Ok? <==> c.logprobs.Some?
    ensures r.Ok? ==> (r.value.None? <==> c.logprobs.value == [])
  {
    if c.logprobs.None? then Err("AssertionError")
    else if c.logprobs.value == [] then Ok(None)
    else Ok(Some(Mean(seq(|c.logprobs.value|, i requires 0 <= i < |c.logprobs.value| => c.logprobs.value[i].prob))))
  }

  lemma MeanMessageConfidenceInUnit(c: CompletionData)
    requires c.logprobs.Some? ==> forall i :: 0 <= i < |c.logprobs.value| ==> 0.0 <= c.logprobs.value[i].prob <= 1.0
    ensures MeanMessageConfidence(c).Ok? && MeanMessageConfidence(c).value.Some? ==>
      0.0 <= MeanMessageConfidence(c).value.value <= 1.0
  {
    if c.logprobs.Some? && c.logprobs.value != [] {
      var ps := seq(|c.logprobs.value|, i requires 0 <= i < |c.logprobs.value| => c.logprobs.value[i].prob);
      MeanBounds(ps, 0.0, 1.0);
    }
  }
}
