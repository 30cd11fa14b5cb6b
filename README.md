# Trust scoring engine, modelled in Dafny

This project models the core of `tlm`, a library that scores how
trustworthy a language model's answer is. The core has two parts.

**A dependency-gated stage scheduler** (`Components`, `Pipeline`). An
`InferencePipeline` registers components. A component holds an
`ExecutionContext` (a dictionary of named results), a list of the
components it depends on, the list of components it blocks, a counter of
completed dependencies and a ready flag. `run` first validates the graph.
Every dependency must be registered, and a depth-first search with a
`visited` set and a recursion stack must find no cycle. Then each
component runs once it is ready. After it runs, it notifies the
components it blocks, which count it and merge its results. The run's
result is the union of all contexts, with later components winning on
shared keys. These are classes with `modifies` frames. The scheduler is a
sequential loop that repeatedly runs some ready component that has not
run yet. The proofs show that it never gets stuck on an acyclic graph,
that every component runs exactly once after its dependencies, and that
each component sees exactly its dependencies' results.

**The scoring layer** turns parsed model outputs into scores in [0,1]:
- word-set Jaccard similarity and its structured-output variant (`Jaccard`);
- the exact-match indicator matrix (`Indicator`);
- classification and question-answering consistency, including the
  language-model-judge blends and their lexical fallback (`Consistency`,
  `LlmConsistency`);
- self-reflection scoring with its column-major reshape (`SelfReflectionScoring`);
- per-field aggregation (`PerField`);
- prompt-evaluation averaging (`PromptEvaluation`);
- choice-token confidence and expected-value scoring (`ParseUtils`);
- the categorical score mappings (`ScoreMapping`);
- constrained-output snapping (`ConstrainOutputs`);
- the numeric primitives (`MathUtils`): NaN-safe mean, median index,
  asymptotic rescaling, harmonic mean and cosine similarity.

Reals stand for floats. NaN is `None` of an `Option<real>`.

**The stages** in `tlm/components/scores` and `tlm/components/completions`
are modelled as functions from a component's current results to the
(key, value) pairs it adds, or to the exception it raises.
`Component.Execute` applies those writes to the context in order. A model
call is an oracle parameter from a request to either a returned outcome
(a completion or a failure) or a raised exception. `asyncio.gather` is
`Stages.GatherCalls`.

Modules follow the source files. `Json` stands for decoded JSON and
Python literals. `Text` holds the string built-ins the source relies on
(`strip`, `lower`, punctuation removal). `Wrappers` holds `Option` and
`Result`.

## Model

| member | source | states |
|---|---|---|
| ChatValidation.Missing | tlm/utils/chat_completion_validation.py:16 | a parameter is reported missing exactly when it is required and absent from the dictionary |
| ChatValidation.ValidateSpec | tlm/utils/chat_completion_validation.py:13-21 | validation raises ValueError exactly when "messages" is absent, and the message lists the sorted required parameters ("...parameter(s): messages") |
| ChatValidation.ExtraKeysAllowed | tlm/utils/chat_completion_validation.py:13-21 | adding extra keys to a valid dictionary never makes it invalid |
| Evals.GroupEvals | tlm/utils/eval_utils.py:4-17 | None gives two empty lists; otherwise the first list holds the evals with a response identifier and the second the others, each in input order |
| Evals.SelectPartition | tlm/utils/eval_utils.py:11-15 | every input eval lands in exactly one of the two lists (multiset union is the input), the lengths sum to the input length, and each list holds only its kind |
| Evals.SelectMultiset | tlm/utils/eval_utils.py:11-15 | the two lists together hold the input's evals with their multiplicities |
| Evals.SelectMembers | tlm/utils/eval_utils.py:12-15 | every eval in a list has that list's kind |
| Evals.SelectOrdered | tlm/utils/eval_utils.py:8-17 | each list is a subsequence of the input: its entries sit at strictly increasing input positions |
| Types.ForWorkflow | tlm/types/base.py:30-43 | QA and any unlisted workflow map to STATEMENT, CLASSIFICATION to EMBEDDING_SMALL, BINARY_CLASSIFICATION to EMBEDDING_LARGE, RAG to CODE, STRUCTURED_OUTPUT_SCORING to JACCARD, each as an if-and-only-if |
| Types.KeysDistinct | tlm/types/base.py:15-20 | distinct response fields are stored under distinct keys |
| Completions.AnswerOf | tlm/components/completions/reference_completion_components.py:100-102 | the answer is the ANSWER field when it is truthy, otherwise the MESSAGE field when present, otherwise the message |
| Completions.MappedScoreOf | tlm/utils/scoring/llm_consistency_scoring_utils.py:32 | the mapped score is known exactly when the MAPPED_SCORE field is present and numeric, and is NaN otherwise |
| Completions.StripValue | tlm/types/completion.py:53 | strings are stripped and stay strings; every other value is stored unchanged |
| Completions.StripOptional | tlm/types/completion.py:22-28 | a missing explanation stays missing and a present one stays present (stripped) |
| Completions.WithResponseField | tlm/types/completion.py:52-60 | the field's key receives the stripped value; MESSAGE also sets the message and EXPLANATION the explanation; nothing else of the completion changes |
| Completions.ResponseFieldRestore | tlm/types/completion.py:52-60 | storing again the value a field now holds changes nothing (stripping is idempotent) |
| Completions.Completion.constructor | tlm/types/completion.py:11-28 | message and explanation are stripped at construction, a None explanation stays None, and the response fields start empty |
| Completions.Completion.AddResponseField | tlm/types/completion.py:52-60 | the completion's new value is WithResponseField of its old value |
| Completions.Completion.ScalePerplexity | tlm/utils/constrain_outputs_utils.py:62-66 | a known perplexity is multiplied by the factor and nothing else changes |
| Completions.OptionalFloat | tlm/types/completion.py:14 | the lax validation of the optional float perplexity succeeds exactly on None, a number, a boolean or a string the numeric parse accepts, and gives None exactly for None |
| Completions.OptionalFloatCoerces | tlm/types/completion.py:14 | the string "0.5" is read as 0.5, True as 1.0 and False as 0.0, and a list is rejected |
| Completions.FromResponseProperties | tlm/types/completion.py:30-38 | from_response fails exactly when "response" is missing or not a string, or a perplexity is present that the lax float validation rejects; otherwise MESSAGE and ANSWER both hold the stripped response and the perplexity is the validated value, or None when absent |
| Completions.FromResponse | tlm/types/completion.py:30-38 | builds a fresh completion whose value is the one described by FromResponseProperties, failing exactly when that does |
| Completions.FromCompletionDictData | tlm/types/completion.py:40-50 | the only response field is ANSWER, holding the stripped message content, and the original dictionary is kept |
| Completions.FromCompletionDict | tlm/types/completion.py:40-50 | builds a fresh completion with exactly the value FromCompletionDictData describes, failing exactly when it does |
| Text.StripSpec | tlm/types/completion.py:28 | `str.strip` removes exactly the whitespace at both ends: the result is a slice that neither starts nor ends with whitespace, and everything cut off is whitespace |
| Text.StripIdempotent | tlm/types/completion.py:53 | stripping a stripped string changes nothing |
| Text.RemovePunctuation | tlm/utils/parse_utils.py:89-94 | the translation keeps only characters of the input, and none of them is punctuation |
| Text.RemovePunctuationAppend | tlm/utils/parse_utils.py:89-94 | the translation distributes over concatenation: each part is translated on its own, in order |
| Text.RemovePunctuationChar | tlm/utils/parse_utils.py:89-94 | one character is deleted exactly when it is punctuation and kept otherwise; with the lemma above this pins the translation down |
| Text.RemovePunctuationKeeps | tlm/utils/parse_utils.py:89-94 | a text without punctuation is unchanged, and a text of punctuation only becomes empty |
| Text.Lower | tlm/utils/parse_utils.py:94-96 | lower-casing keeps the length and maps each character on its own (ASCII upper case to lower case) |
| ParseUtils.FirstChoice | tlm/utils/parse_utils.py:95-96 | the choices are tried in declared order: the result is the first choice that the preprocessed token equals (lower-cased), or none when no choice matches |
| ParseUtils.FindChoice | tlm/utils/parse_utils.py:95-101 | the inner loop stops at exactly the choice FirstChoice names |
| ParseUtils.ScanBackNone | tlm/utils/parse_utils.py:93-103 | the backward scan over tokens none of which matches a choice yields the 0.5 default |
| ParseUtils.ScanBackLast | tlm/utils/parse_utils.py:93-101 | the backward scan stops at the last token that matches a choice and yields p for a positive choice, 1 - p for a negative one |
| ParseUtils.ScanBackInUnit | tlm/utils/parse_utils.py:93-103 | the backward scan yields a value in [0,1] when every token probability lies in [0,1] |
| ParseUtils.ChoiceTokenConfidenceSpec | tlm/utils/parse_utils.py:76-103 | with answer choices and log-probabilities, the confidence is 0.5 when no token matches a choice; otherwise the last matching token gives p for a positive choice and 1 - p for a negative one |
| ParseUtils.ChoiceTokenConfidenceInUnit | tlm/utils/parse_utils.py:97-103 | the confidence lies in [0,1] when the token probabilities do |
| ParseUtils.GetChoiceTokenConfidence | tlm/utils/parse_utils.py:76-103 | the reverse scan with early return computes exactly the confidence ChoiceTokenConfidenceSpec describes, None without choices or log-probabilities |
| ParseUtils.DropLeadingAt | tlm/utils/parse_utils.py:166-169 | the forward loop stops at the first character that is neither whitespace nor punctuation |
| ParseUtils.DropTrailingAt | tlm/utils/parse_utils.py:170-173 | the backward loop stops at the last character that is neither whitespace nor punctuation |
| ParseUtils.AllJunk | tlm/utils/parse_utils.py:165-174 | a token of two or more characters that is all whitespace or punctuation normalizes to "" |
| ParseUtils.KeptSlice | tlm/utils/parse_utils.py:165-174 | otherwise the normalized token is the lower-cased slice from the first to the last kept character |
| ParseUtils.GetNormalizedToken | tlm/utils/parse_utils.py:165-174 | the two loops compute the normalized token; a one-character token is only lower-cased, even when it is punctuation |
| ParseUtils.TokenIndexOf | tlm/utils/parse_utils.py:177-185 | the result is -1 or a valid token index |
| ParseUtils.TokenIndexOfSpec | tlm/utils/parse_utils.py:177-185 | -1 exactly when there are no tokens or the index is at or past the joined length; otherwise the smallest token index whose cumulative length exceeds the string index |
| ParseUtils.FindTokenIndex | tlm/utils/parse_utils.py:177-185 | the accumulating loop returns exactly TokenIndexOf |
| ParseUtils.SameTokenMassNonNegative | tlm/utils/parse_utils.py:148-156 | the probability added for differently spelled alternatives is never negative |
| ParseUtils.RangeProbabilities | tlm/utils/parse_utils.py:144-158 | when no index leaves the list, there is one probability per position of the inclusive range |
| ParseUtils.Tokens | tlm/utils/parse_utils.py:139 | one token per position |
| ParseUtils.RangeProbabilitiesInUnit | tlm/utils/parse_utils.py:146-158 | every position probability is capped at 1 and is non-negative when the log-probabilities' probabilities are |
| ParseUtils.GenericAnswerTokensProbabilityInUnit | tlm/utils/parse_utils.py:131-162 | the answer-token probability (the mean over the answer span, 0.5 for an empty span) lies in [0,1] |
| ParseUtils.RangeProbabilitiesEmptyList | tlm/utils/parse_utils.py:145-146 | with no positions the range succeeds exactly when it is empty; any other range indexes outside the list and raises |
| ParseUtils.PrependStep | tlm/utils/parse_utils.py:145-158 | appending one position's probability extends the accumulated list by that range step |
| ParseUtils.GetPositionProbability | tlm/utils/parse_utils.py:146-157 | the inner loop computes the position's probability plus every differently spelled alternative with the same normalized token, capped at 1 |
| ParseUtils.GetGenericAnswerTokensProbability | tlm/utils/parse_utils.py:131-162 | the loop over the token range computes exactly the answer-token probability: None for an empty message, the mean, or 0.5 |
| ParseUtils.LinearProbabilities | tlm/utils/parse_utils.py:49-61 | there are exactly five linear probabilities, one per score 1..5 |
| ParseUtils.FirstTokenEqual | tlm/utils/parse_utils.py:40-43 | the search finds the first generated token equal to the raw score, or none when no token equals it |
| ParseUtils.LinearProbabilitiesPositive | tlm/utils/parse_utils.py:49-61 | each score's linear probability is at least the 1e-3 prior when alternatives' probabilities are non-negative |
| ParseUtils.ScoreExpectedValueInUnit | tlm/utils/parse_utils.py:15-73 | the expected score exists exactly for a success with log-probabilities and a token equal to the raw score, and then lies in [0,1] |
| ParseUtils.WeightedRatio | tlm/utils/parse_utils.py:63-69 | a weighted sum between 0 and 4 times the total mass, divided by the total and by 4, lies in [0,1] |
| ParseUtils.ScoreExpectedValueExample | tlm/utils/parse_utils.py:49-70 | a score token "4" whose alternatives "4" and "5" each have probability 0.5 scores (3·0.501 + 4·0.501 + 0.003) / 1.005 / 4 |
| ParseUtils.ComputeScoreExpectedValue | tlm/utils/parse_utils.py:15-73 | the method's search, accumulation and sums give exactly the expected score: NaN for a failure, None without the token, else the weighted ratio |
| ParseUtils.WeightedAndTotal | tlm/utils/parse_utils.py:63-68 | the loop computes the weighted sum Σ(s-1)·P(s) and the total mass Σ P(s) |
| ParseUtils.FindScoreToken | tlm/utils/parse_utils.py:40-43 | the search loop with break finds exactly FirstTokenEqual |
| ParseUtils.AccumulateLinearProbabilities | tlm/utils/parse_utils.py:49-61 | the accumulation over the alternatives gives exactly the five linear probabilities, skipping tokens that are not decimal 1..5 |
| ParseUtils.ParsedAnswerTokensConfidence | tlm/utils/parse_utils.py:106-128 | missing log-probabilities fail the assertion; a position without alternatives gives None |
| ParseUtils.MeanMessageConfidence | tlm/utils/parse_utils.py:188-197 | it succeeds exactly when log-probabilities exist, and is NaN exactly when there are no tokens |
| ParseUtils.MeanMessageConfidenceInUnit | tlm/utils/parse_utils.py:188-197 | the mean message confidence lies in [0,1] when token probabilities do |
| MathUtils.MeanBounds | tlm/utils/math_utils.py:42-43 | the mean of a non-empty list lies between any lower and upper bound of its entries |
| MathUtils.SumAppend | tlm/utils/math_utils.py:42-43 | sums distribute over concatenation |
| MathUtils.ValidValues | tlm/utils/math_utils.py:30-31 | a row's non-NaN entries are no more numerous than the row |
| MathUtils.NanSafeMean | tlm/utils/math_utils.py:36-48 | unless every entry is NaN there is one mean per row; when every entry is NaN (an empty matrix included) the result is all NaN, of the expected length or a single NaN when none is given |
| MathUtils.RowMeanBounds | tlm/utils/math_utils.py:42-43 | a row's NaN-safe mean lies between any bounds of its non-NaN entries |
| MathUtils.NanSafeMeanInUnit | tlm/utils/math_utils.py:36-48 | every entry of the NaN-safe mean of a matrix of [0,1] scores is NaN or in [0,1] |
| MathUtils.RowMeanExample | tlm/utils/math_utils.py:42-43 | the row [2, 3, 1, NaN] has NaN-safe mean 2 |
| MathUtils.ValidIndices | tlm/utils/math_utils.py:30 | `np.where(~np.isnan(row))` lists exactly the positions of the non-NaN entries |
| MathUtils.FirstMinPos | tlm/utils/math_utils.py:32 | the chosen position holds a smallest valid value |
| MathUtils.SelectStableRank | tlm/utils/math_utils.py:32 | the entry a stable argsort puts at position t is the t-th smallest (0-based): at most t values lie strictly below it and more than t at or below it |
| MathUtils.MedianIndex | tlm/utils/math_utils.py:29-32 | a row has a median index exactly when it has a non-NaN entry; the index points to a non-NaN entry |
| MathUtils.MedianIndexRank | tlm/utils/math_utils.py:29-32 | the median index's value is the (k div 2)-th smallest of the row's k non-NaN values |
| MathUtils.MedianIndices | tlm/utils/math_utils.py:19-33 | one index per row, each at a non-NaN entry; a row that is all NaN makes the indexing raise |
| MathUtils.GetMedianIndices | tlm/utils/math_utils.py:19-33 | the loop filling one index per row computes exactly MedianIndices |
| MathUtils.FlattenLength | tlm/utils/scoring/indicator_scoring_utils.py:21 | flattening n rows of m entries gives n·m entries |
| MathUtils.FlattenAt | tlm/utils/scoring/consistency_scoring_utils.py:147-173 | entry (i, j) of a matrix with m columns sits at i·m + j of its row-major flattening |
| MathUtils.Rows | tlm/utils/scoring/consistency_scoring_utils.py:226-237 | cutting a flat list into rows of equal width gives a matrix that flattens back to the list |
| MathUtils.Reshape | tlm/utils/scoring/self_reflection_scoring_utils.py:34-36 | `reshape((rows, -1))` fails exactly when rows is 0 or does not divide the length; otherwise it gives rows rows of equal width that flatten back to the list |
| MathUtils.ReshapeFlatten | tlm/utils/scoring/self_reflection_scoring_utils.py:34-36 | reshaping a row-major flattening by its row count gives the matrix back |
| MathUtils.RowsOfFlatten | tlm/utils/scoring/consistency_scoring_utils.py:226-237 | cutting a flattening into its rows gives the matrix back |
| MathUtils.CountTrue | tlm/utils/scoring/consistency_scoring_utils.py:213-228 | a mask has at most as many set entries as entries |
| MathUtils.Gather | tlm/utils/scoring/consistency_scoring_utils.py:213-228 | `xs[mask]` has one entry per set mask position |
| MathUtils.Scatter | tlm/utils/scoring/consistency_scoring_utils.py:213-228 | `out[mask] = values` keeps the mask's length |
| MathUtils.GatherAt | tlm/utils/scoring/consistency_scoring_utils.py:213-228 | entry i of the input is entry CountTrue(mask[..i]) of `xs[mask]` |
| MathUtils.ScatterAt | tlm/utils/scoring/consistency_scoring_utils.py:213-228 | a scattered vector holds value number CountTrue(mask[..i]) at a set position i and the fill value elsewhere |
| MathUtils.GatherScatter | tlm/utils/scoring/consistency_scoring_utils.py:213-228 | scattering and then gathering through the same mask gives the values back |
| MathUtils.AsymptoticRange | tlm/utils/math_utils.py:64-72 | a score in [0,1] is mapped into [1e-3, 1 - 1e-3] |
| MathUtils.AsymptoticMonotone | tlm/utils/math_utils.py:64-72 | the rescaling is strictly increasing |
| MathUtils.HarmonicMean | tlm/utils/math_utils.py:75-83 | the empty list gives 0, and any defined result is at most 1 |
| MathUtils.ReciprocalSumPositive | tlm/utils/math_utils.py:82-83 | on non-negative scores the reciprocal sum is defined, and positive for a non-empty list |
| MathUtils.HarmonicMeanRange | tlm/utils/math_utils.py:75-83 | on a non-empty list of non-negative scores the harmonic mean is defined and lies in (0, 1] |
| MathUtils.HarmonicMeanExample | tlm/utils/math_utils.py:75-83 | harmonic_mean([1.0, 0.75, 1.0]) lies between 0.90 and 0.91 |
| MathUtils.Clip01 | tlm/utils/math_utils.py:16 | clipping gives a value in [0,1], keeps values inside, sends negatives to 0 and values above 1 to 1 |
| MathUtils.CosineSimilarity | tlm/utils/math_utils.py:10-16 | the cosine similarity lies in [0,1], and is NaN exactly when a norm is zero (0/0) |
| MathUtils.CosineExamples | tlm/utils/math_utils.py:10-16 | [1,0] against [3,4] gives 0.6 and against [0,1] gives 0 |
| Jaccard.SkipNonWord | tlm/utils/scoring/jaccard_utils.py:8 | the scan drops exactly the leading non-word characters and stops at a word character or the end |
| Jaccard.WordLength | tlm/utils/scoring/jaccard_utils.py:8 | the leading run of word characters is maximal: it ends at the end of input or at a non-word character |
| Jaccard.ExtractWords | tlm/utils/scoring/jaccard_utils.py:6-8 | every extracted word is a non-empty run of word characters |
| Jaccard.ExtractWordsCoversWordChars | tlm/utils/scoring/jaccard_utils.py:6-8 | the words, concatenated, are exactly the input's word characters in order: none is lost and none invented |
| Jaccard.ExtractWordsStep | tlm/utils/scoring/jaccard_utils.py:8 | after a gap of non-word characters, a word ended by a non-word character or the end of input is the next match |
| Jaccard.ExtractWordsGap | tlm/utils/scoring/jaccard_utils.py:8 | a string without word characters has no words |
| Jaccard.ExtractWordsOfInterleave | tlm/utils/scoring/jaccard_utils.py:6-8 | any split of a string into words separated by non-empty gaps of non-word characters is exactly the list extract_words returns (the matches are the maximal runs) |
| Jaccard.WordSetOf | tlm/utils/scoring/jaccard_utils.py:25-26 | the word set of a string given by such a split is the set of its words |
| Jaccard.WordPunctuationIsUnderscore | tlm/utils/scoring/jaccard_utils.py:6-8 | the only punctuation character that can appear inside a word is the underscore |
| Jaccard.Similarity | tlm/utils/scoring/jaccard_utils.py:28-36 | max(0, I - S) / max(1, U - S) lies in [0,1] |
| Jaccard.GetAllKeys | tlm/utils/scoring/jaccard_utils.py:47-56 | the loops collect exactly every dictionary key found anywhere inside the value, through dictionaries, lists and tuples; other values contribute nothing |
| Jaccard.GetObjectKeys | tlm/utils/scoring/jaccard_utils.py:49-52 | the loop over a dictionary's entries collects every key and every key below each value |
| Jaccard.GetArrayKeys | tlm/utils/scoring/jaccard_utils.py:53-55 | the loop over a list or tuple collects every key below each item |
| Jaccard.StructuredKeys | tlm/utils/scoring/jaccard_utils.py:39-44 | an answer that does not decode has no keys; one that does has all the keys of the decoded value |
| Jaccard.JaccardSimilarity | tlm/utils/scoring/jaccard_utils.py:11-36 | both variants lie in [0,1] |
| Jaccard.JaccardSymmetric | tlm/utils/scoring/jaccard_utils.py:36 | plain similarity does not depend on argument order |
| Jaccard.SimilaritySelf | tlm/utils/scoring/jaccard_utils.py:32-33 | a word set with more words than discounted keys is fully similar to itself |
| Jaccard.JaccardIdentical | tlm/utils/scoring/jaccard_utils.py:36 | a string with at least one word scores 1.0 against itself |
| Jaccard.StructuredIdentical | tlm/utils/scoring/jaccard_utils.py:28-34 | in the structured variant an answer scores 1.0 against itself when it has more words than keys |
| Jaccard.JaccardWordless | tlm/utils/scoring/jaccard_utils.py:28-36 | two strings without words score 0.0, in both variants |
| Jaccard.JaccardExampleOneThird | tests/unit/utils/test_jaccard_utils.py:10 | "Hello, world!" against "Hello, universe!" scores 1/3 |
| Jaccard.JaccardExamplePunctuation | tests/unit/utils/test_jaccard_utils.py:11 | a difference in punctuation only scores 1.0 |
| Jaccard.JaccardExampleCase | tlm/utils/scoring/jaccard_utils.py:36 | comparison is case-sensitive: "Hello" against "hello" scores 0.0 |
| Jaccard.JohnKeys | tlm/utils/scoring/jaccard_utils.py:47-56 | the decoded record {'name': 'John', 'age': 30} has the keys name and age |
| Jaccard.JaccardExampleExtraKey | tests/unit/utils/test_jaccard_utils.py:29 | one extra key-value pair in the comparison scores 0.4 in the structured variant |
| Jaccard.JaccardExampleOtherValues | tests/unit/utils/test_jaccard_utils.py:28 | the same keys with different values score 0.0 in the structured variant |
| Indicator.IndicatorRow | tlm/utils/scoring/indicator_scoring_utils.py:12-15 | row x of the mask has one entry per comparison answer, 1.0 where it equals x and 0.0 elsewhere |
| Indicator.IndicatorMask | tlm/utils/scoring/indicator_scoring_utils.py:12-15 | the mask has one row per reference answer and one column per comparison answer |
| Indicator.IndicatorRowSum | tlm/utils/scoring/indicator_scoring_utils.py:12-20 | a mask row has no NaN and its entries add up to the number of comparison answers equal to the reference |
| Indicator.IndicatorFlatLength | tlm/utils/scoring/indicator_scoring_utils.py:21 | the flat output has |refs|·|comps| entries |
| Indicator.IndicatorFlatAt | tlm/utils/scoring/indicator_scoring_utils.py:12-21 | in row-major order, flat entry i·m + j is 1.0 exactly when reference i equals comparison j, and 0.0 otherwise |
| Indicator.IndicatorMeans | tlm/utils/scoring/indicator_scoring_utils.py:10-20 | with at least one comparison answer there is one mean per reference answer, equal to the fraction of comparison answers equal to it, so in [0,1] |
| Indicator.IndicatorNoComparisons | tlm/utils/scoring/indicator_scoring_utils.py:17-21 | with no comparison answers the all-NaN branch gives |refs| NaNs and an empty flat mask |
| Consistency.JaccardMatrix | tlm/utils/scoring/consistency_scoring_utils.py:155-173 | the lexical matrix exists exactly when every pair of the product is two strings; it has one row per reference and one column per comparison, and cell (i, j) is the similarity of reference i and comparison j |
| Consistency.JaccardScores | tlm/utils/scoring/consistency_scoring_utils.py:164-173 | the flat lexical scores exist exactly when every pair is two strings, and there are |refs|·|comps| of them |
| Consistency.JaccardScoresAt | tlm/utils/scoring/consistency_scoring_utils.py:164-173 | flat entry i·m + j is the similarity of reference i and comparison j, a number in [0,1] |
| Consistency.ClassificationMatrix | tlm/utils/scoring/consistency_scoring_utils.py:94-125 | the classification matrix has one row per reference answer and one column per completion |
| Consistency.GenerateClassificationScores | tlm/utils/scoring/consistency_scoring_utils.py:80-128 | the nested loops appending one row of scores per reference compute exactly the classification means and flat scores |
| Consistency.ClassificationScoresAt | tlm/utils/scoring/consistency_scoring_utils.py:96-123 | cell (i, j): 0 for a reference outside the labels or a failed completion; the perplexity p for an exact match that has one; with exactly two labels 1 - p for a comparison that is a label with perplexity p and 0.5 otherwise; 0 with any other label count |
| Consistency.ClassificationMeansInUnit | tlm/utils/scoring/consistency_scoring_utils.py:127-128 | with perplexities in [0,1] there is one mean per reference answer and each is NaN or in [0,1] |
| Consistency.ComputeConsistencyScoresClassification | tlm/utils/scoring/consistency_scoring_utils.py:46-77 | the classification scorer runs exactly when some successful comparison has a perplexity; otherwise the indicator scores are used |
| Consistency.BlendBetween | tlm/utils/scoring/consistency_scoring_utils.py:232-237 | a blend is NaN exactly when the lexical score is, keeps the lexical score when the judge score is NaN, and otherwise 0.05·lexical + 0.95·judge (0.05 is the lexical weight `LLM_CONSISTENCY_JACCARD_WEIGHT` of line 25) lies between the two |
| Consistency.CodeJudgeScores | tlm/utils/scoring/consistency_scoring_utils.py:213-228 | when the judge returns there is one judge score per reference row |
| Consistency.CodeJudgeScoresSpec | tlm/utils/scoring/consistency_scoring_utils.py:213-228 | the judge is asked exactly about (reference i, comparison at median i) for the rows whose median lexical score is not 1.0, in row order; it succeeds exactly when none of those requests raises; an identical row scores 1.0 without a call and any other row the judge's verdict |
| Consistency.CountTruePreimage | tlm/utils/scoring/consistency_scoring_utils.py:224-228 | every judge result belongs to exactly one masked row |
| Consistency.MarkIdentical | tlm/utils/scoring/consistency_scoring_utils.py:216-218 | the identical rows of the array receive 1.0 and the others keep their value |
| Consistency.WriteJudged | tlm/utils/scoring/consistency_scoring_utils.py:228 | the masked rows receive the judge scores in order and the identical rows keep 1.0 |
| Consistency.CodeBlendInPlace | tlm/utils/scoring/consistency_scoring_utils.py:212-243 | the in-place writes through the mask and its complement give exactly the blending stage |
| Consistency.ComputeCodeSimilarityScores | tlm/utils/scoring/consistency_scoring_utils.py:205-243 | the method computes exactly the code-path scores |
| Consistency.CodeBlendAt | tlm/utils/scoring/consistency_scoring_utils.py:212-243 | cell (i, j): when no judge request raised, the lexical score blended with the row's judge score (a row whose median is 1.0 is blended with 1.0, not set to 1.0); when one raised, the plain lexical score |
| Consistency.CodeSimilarityScoresUnfold | tlm/utils/scoring/consistency_scoring_utils.py:205-214 | with string answers and at least one of each, every row has a median index and the code scores are the blending stage applied to the lexical matrix |
| Consistency.BroadcastBlendProduct | tlm/utils/scoring/consistency_scoring_utils.py:250-262 | blending the n·m lexical scores with the min(n, m) judge scores succeeds exactly when n = 1 or m = 1, and then every lexical score is blended with the first judge score |
| Consistency.StatementSimilarityScoresSpec | tlm/utils/scoring/consistency_scoring_utils.py:246-266 | a raised judge request is an error (it is outside the `try`); otherwise the statement scores exist exactly when there is one reference or one comparison, and each is the lexical score at its position blended with the verdict on the first pair |
| Consistency.EmbedAll | tlm/utils/scoring/consistency_scoring_utils.py:179-193 | the embeddings exist exactly when every text embeds, one per text in order |
| Consistency.EmbeddingScoresInUnit | tlm/utils/scoring/consistency_scoring_utils.py:176-202 | every embedding score is NaN (a zero vector) or in [0,1], one per pair of the product |
| Consistency.FlattenEntryFrom | tlm/utils/scoring/consistency_scoring_utils.py:197-202 | each flat score comes from some cell of the product |
| Consistency.ComputeScoresQaJaccard | tlm/utils/scoring/consistency_scoring_utils.py:131-152 | with no reference answer the reshape fails; with Jaccard over strings there is one mean per reference, mean i is the NaN-safe mean of row i of the lexical matrix, and every mean lies in [0,1] |
| Consistency.ComputeScoresQaExample | tests/unit/utils/test_consistency_scoring_utils.py:12-19 | the unit-test answers give flat scores [1, 1/3, 1/3, .5, .5, .5, 1, 1/3, 1/3] and means [5/9, .5, 5/9] |
| Consistency.LexicalExampleMatrix | tests/unit/utils/test_consistency_scoring_utils.py:14-18 | the unit-test answers' pairwise similarities form the expected 3×3 lexical matrix |
| LlmConsistency.Zip | tlm/utils/scoring/llm_consistency_scoring_utils.py:19-24 | the pairs stop at the shorter list: min(|refs|, |comps|) of them, pair i being (reference i, comparison i) |
| LlmConsistency.FirstRaised | tlm/utils/scoring/llm_consistency_scoring_utils.py:26-28 | there is no error exactly when every call returned |
| LlmConsistency.LlmConsistencyScoresSpec | tlm/utils/scoring/llm_consistency_scoring_utils.py:13-37 | one judge request per zipped pair; the result is an LLMConsistencyInferenceError exactly when a request raised; otherwise there are min(|refs|, |comps|) scores in pair order, each the mapped score of a completion or NaN for a failure or a missing mapped score |
| SelfReflectionScoring.ReflectionScoreCases | tlm/utils/scoring/self_reflection_scoring_utils.py:46-80 | a PARSE failure scores the configured parse-failure score and any other failure NaN; a success uses the token confidence when there is one, else the mapped score when there is one, else NaN |
| SelfReflectionScoring.ReflectionScoreInUnit | tlm/utils/scoring/self_reflection_scoring_utils.py:46-80 | each per-completion score lies in [0,1] when the parse-failure setting, the mapped score and the token probabilities do |
| SelfReflectionScoring.Transpose | tlm/utils/scoring/self_reflection_scoring_utils.py:34-36 | the transpose swaps rows and columns: entry (i, c) is entry (c, i) of the input |
| SelfReflectionScoring.ReshapeColumnMajor | tlm/utils/scoring/self_reflection_scoring_utils.py:34-36 | `reshape(n, -1, order="F")` fails exactly when n is 0 or does not divide the length; otherwise it gives n rows of equal width |
| SelfReflectionScoring.ReshapeColumnMajorAt | tlm/utils/scoring/self_reflection_scoring_utils.py:34-36 | flat index k lands in row k mod n, column k div n |
| SelfReflectionScoring.ReshapeOneRow | tlm/utils/scoring/self_reflection_scoring_utils.py:34-36 | with a single row the reshape is the flat list itself |
| SelfReflectionScoring.ReshapeOneColumn | tlm/utils/scoring/self_reflection_scoring_utils.py:34-36 | with a single column, row i is [flat[i]] |
| SelfReflectionScoring.ReshapeTwoByTwo | tlm/utils/scoring/self_reflection_scoring_utils.py:34-36 | [a, b, c, d] reshaped into 2 rows column-major is [[a, c], [b, d]] |
| SelfReflectionScoring.ReflectionScores | tlm/utils/scoring/self_reflection_scoring_utils.py:27-32 | one score per completion, in input order |
| SelfReflectionScoring.SelfReflectionScoresSpec | tlm/utils/scoring/self_reflection_scoring_utils.py:21-43 | the call fails exactly when there are no reference answers or their number does not divide the number of completions; otherwise it gives one score per reference answer, each NaN or in [0,1] |
| SelfReflectionScoring.SelfReflectionRowSource | tlm/utils/scoring/self_reflection_scoring_utils.py:34-36 | completion k feeds the score of reference answer k mod n |
| SelfReflectionScoring.IntendedScores | tlm/components/completions/self_reflection_completion_generator.py:61-65 | one intended score per answer row |
| SelfReflectionScoring.ReflectionScoresFlatten | tlm/components/scores/self_reflection_score_computation.py:12-14 | scoring commutes with the answer-major flattening |
| SelfReflectionScoring.SelfReflectionAligned | tlm/utils/scoring/self_reflection_scoring_utils.py:34-43 | with one reference answer, or one template per answer, the column-major reshape of the answer-major flattening puts exactly answer i's reflections in row i, so the scores are the per-answer means |
| SelfReflectionScoring.SelfReflectionMixesAnswers | tlm/utils/scoring/self_reflection_scoring_utils.py:34-36 | with two answers and two templates the rows mix answers: reflections scoring 1.0 for answer 0 and 0.0 for answer 1 give 0.5 to both answers instead of 1.0 and 0.0 |
| PerField.PerFieldMetadataSpec | tlm/utils/scoring/per_field_scoring_utils.py:8-27 | extraction succeeds exactly when the answer is a dictionary of fields, each holding the score key, a raw score the score mapping accepts and a string explanation; then every top-level field is kept, with its mapped score and its explanation |
| PerField.PerFieldMappingRaises | tlm/utils/scoring/per_field_scoring_utils.py:18-19 | a raw score on which the score mapping raises makes the whole extraction raise |
| PerField.CertaintyFieldRaises | tlm/utils/scoring/per_field_scoring_utils.py:18-19 | with `certainty_mapping` as the score mapping, a raw score that is not a string makes the extraction raise |
| PerField.ExtractPerFieldMetadata | tlm/utils/scoring/per_field_scoring_utils.py:15-27 | the loop over the answer's fields fails exactly when the specification does and otherwise builds the same field map |
| PerField.ArgMin | tlm/utils/scoring/per_field_scoring_utils.py:46 | np.argmin: an index of a smallest score, and the first such index |
| PerField.EntriesNonEmpty | tlm/utils/scoring/per_field_scoring_utils.py:33-42 | a field has recorded entries exactly when some reflection has it |
| PerField.EntryOrigin | tlm/utils/scoring/per_field_scoring_utils.py:33-42 | each recorded entry of a field comes from a reflection holding that field, and entries keep the reflections' order |
| PerField.FieldCompositesKeys | tlm/utils/scoring/per_field_scoring_utils.py:44-52 | the composite has exactly the field names seen in some reflection; no reflections give an empty composite |
| PerField.CompositeSpec | tlm/utils/scoring/per_field_scoring_utils.py:46-50 | a field's composite score lies between its smallest and largest score, and its explanation is the one recorded with the first smallest score |
| PerField.FieldCompositeAt | tlm/utils/scoring/per_field_scoring_utils.py:44-50 | each field's composite is computed from that field's entries in reflection order |
| PerField.MaxOf | tlm/utils/scoring/per_field_scoring_utils.py:48 | the largest score of a non-empty list bounds every score and is one of them |
| PerField.NamesStep | tlm/utils/scoring/per_field_scoring_utils.py:33-34 | reading one more reflection adds its fields to the names seen and its entries to the end of each field's list |
| PerField.PartialStep | tlm/utils/scoring/per_field_scoring_utils.py:35-42 | appending one more field of a reflection is one step of the partial update |
| PerField.PartialComplete | tlm/utils/scoring/per_field_scoring_utils.py:34-42 | reading every field of one more reflection turns the score data of the prefix into that of the longer prefix |
| PerField.ScoreDataAligned | tlm/utils/scoring/per_field_scoring_utils.py:36-42 | the score and explanation lists of a field stay the same length, and position j of both comes from one reflection holding the field |
| PerField.CollectScoreData | tlm/utils/scoring/per_field_scoring_utils.py:31-42 | the first loop builds the aligned per-field score and explanation lists of all reflections |
| PerField.AddReflection | tlm/utils/scoring/per_field_scoring_utils.py:34-42 | the inner loop appends every field of one reflection to the score data |
| PerField.Summarize | tlm/utils/scoring/per_field_scoring_utils.py:44-50 | the second loop gives one composite per collected field: the mean score and the explanation at the argmin |
| PerField.ComputeFieldMetadata | tlm/utils/scoring/per_field_scoring_utils.py:30-52 | compute_field_metadata equals the composite of every field's entries in reflection order |
| PromptEvaluation.PromptEvaluationScoreCases | tlm/utils/scoring/prompt_evaluation_scoring_utils.py:40-66 | a failure scores 0.0; a non-zero token confidence is used; otherwise a non-zero mapped score; otherwise NaN |
| PromptEvaluation.ZeroIsDropped | tlm/utils/scoring/prompt_evaluation_scoring_utils.py:59-66 | because the walrus tests are truth tests, a successful completion never scores 0.0: a zero confidence or mapped score falls through |
| PromptEvaluation.ExtractPromptEvaluationScores | tlm/utils/scoring/prompt_evaluation_scoring_utils.py:21-37 | one score per completion, in order, an empty list giving an empty list |
| PromptEvaluation.PromptEvaluationScores | tlm/utils/scoring/prompt_evaluation_scoring_utils.py:10-18 | one entry per reference answer |
| PromptEvaluation.PromptEvaluationScoresSpec | tlm/utils/scoring/prompt_evaluation_scoring_utils.py:10-18 | every entry is the same mean of the non-NaN scores; it lies in [0,1] when the probabilities do, and it is NaN exactly when no completion has a score |
| PromptEvaluation.ValidValuesEmpty | tlm/utils/scoring/prompt_evaluation_scoring_utils.py:17 | the filtered list is empty exactly when every score is NaN |
| PromptEvaluationScoreExtraction.EvaluationOutcomes | tlm/components/scores/prompt_evaluation_score_extraction.py:8 | an absent or None completion list reads as empty; a value of another kind is an error |
| PromptEvaluationScoreExtraction.ExecuteSpec | tlm/components/scores/prompt_evaluation_score_extraction.py:6-12 | without reference answers the stage fails; otherwise it writes only prompt_evaluation_scores, one entry per reference answer, each the mean of the per-completion scores and NaN when no completion was given |
| PerplexityScoreComputation.Perplexities | tlm/components/scores/perplexity_score_computation.py:11 | one perplexity per reference completion, in order |
| PerplexityScoreComputation.AnyPerplexitySpec | tlm/components/scores/perplexity_score_computation.py:14 | the `any` flag is true exactly when some entry is not None |
| PerplexityScoreComputation.ExecuteSpec | tlm/components/scores/perplexity_score_computation.py:8-14 | the stage fails only without a list of reference completions; otherwise it writes exactly perplexity_scores then use_perplexity_score, score i being completion i's perplexity, and the flag set exactly when some completion has one |
| SelfReflectionScoreComputation.ReflectionMetadataSpec | tlm/components/scores/self_reflection_score_computation.py:19-23 | the metadata list exists exactly when every reflection succeeded (reading the field of a failure raises); it has no more entries than reflections, each the metadata of some reflection |
| SelfReflectionScoreComputation.ReflectionMetadataAll | tlm/components/scores/self_reflection_score_computation.py:19-23 | when every reflection carries metadata the list is theirs, position by position |
| SelfReflectionScoreComputation.ExecuteSpec | tlm/components/scores/self_reflection_score_computation.py:8-26 | with successful reflections that split evenly over the answers, the stage writes exactly self_reflection_scores (one score per answer, NaN or in [0,1]) and self_reflection_metadata_per_field (the per-field composite over the fields some reflection names); a failed reflection makes it fail |
| SelfReflectionScoreComputation.ExecuteAligned | tlm/components/scores/self_reflection_score_computation.py:12-17 | with one reference answer, or one template per answer, the score written for answer i is the mean of answer i's own reflections |
| ConsistencyScoreComputation.ExecuteKeys | tlm/components/scores/consistency_score_computation.py:46-55 | a successful run writes exactly the four keys; with no consistency answers it always succeeds and all four arrays are empty |
| ConsistencyScoreComputation.ExecuteClassification | tlm/components/scores/consistency_score_computation.py:31-38 | with constrained outputs the classification scorer decides the consistency scores, one mean per reference answer, NaN or in [0,1]; the indicator arrays are all None, n and n * m long |
| ConsistencyScoreComputation.IndicatorMeansInUnit | tlm/components/scores/consistency_score_computation.py:43-45 | with at least one comparison answer the indicator means are one per reference answer, each in [0,1] |
| ConsistencyScoreComputation.ExecuteQa | tlm/components/scores/consistency_score_computation.py:39-45 | without constrained outputs the stage fails exactly when the QA scorer with the configured similarity measure does, and otherwise writes its means and flat scores |
| ConsistencyScoreComputation.ExecuteQaIndicators | tlm/components/scores/consistency_score_computation.py:39-45 | without constrained outputs indicator mean i is the fraction of consistency answers equal to reference answer i, within [0,1], with n * m flat indicator entries |
| ScoreMapping.Lookup | tlm/templates/score_mapping.py:6-98 | `table.get(x, 0.5)` succeeds exactly on a hashable key; the result is in [0,1] when the table's values are, and anything but the default comes from a string key in the table |
| ScoreMapping.Score5 | tlm/templates/score_mapping.py:6-18 | score_5_mapping fails only on an unhashable value, lies in [0,1], and gives 0.5 for a string outside the table |
| ScoreMapping.Score10 | tlm/templates/score_mapping.py:21-45 | score_10_mapping fails only on an unhashable value, lies in [0,1], and gives 0.5 for a string outside the table |
| ScoreMapping.Numeral | tlm/templates/score_mapping.py:8-12 | the decimal numeral of n is a digit string whose value is n |
| ScoreMapping.Score5Numerals | tlm/templates/score_mapping.py:8-12 | the 1-5 table maps numeral n to (n - 1) / 4 |
| ScoreMapping.Score10Numerals | tlm/templates/score_mapping.py:23-33 | the 0-10 table maps numeral n to n / 10 |
| ScoreMapping.WordsMatchDigits | tlm/templates/score_mapping.py:6-45 | in both tables each spelled-out numeral maps like its digits |
| ScoreMapping.Score100 | tlm/templates/score_mapping.py:48-53 | score_100_mapping divides the parsed number by 100, gives 0.5 for a string that does not parse, and fails on a value float() refuses |
| ScoreMapping.Score100NotClamped | tlm/templates/score_mapping.py:50 | the result is not clamped: "150" maps to 1.5 |
| ScoreMapping.TrueFalse | tlm/templates/score_mapping.py:56-64 | true_false_mapping gives 1.0 exactly for the true spellings, True and 1, 0.0 exactly for the false spellings, False and 0, and 0.5 otherwise |
| ScoreMapping.YesNo | tlm/templates/score_mapping.py:67-73 | yes_no_mapping gives 1.0 exactly for Yes/yes, 0.0 exactly for No/no, and 0.5 otherwise |
| ScoreMapping.AB | tlm/templates/score_mapping.py:76-82 | ab_mapping gives 1.0 exactly for A/a, 0.0 exactly for B/b, and 0.5 otherwise |
| ScoreMapping.Certainty | tlm/templates/score_mapping.py:85-98 | certainty_mapping succeeds exactly on a string, lies in [0,1], and anything but the default comes from the lower-cased string's entry |
| ScoreMapping.CertaintyProperties | tlm/templates/score_mapping.py:85-98 | certainty ignores case and its five levels are strictly ordered |
| ScoreMapping.Apply | tlm/templates/score_mapping.py:6-98 | every mapper except score_100 gives a score in [0,1] |
| ConstrainOutputs.OptionAt | tlm/utils/constrain_outputs_utils.py:26-30 | the alternation tries the options in order: the result is the first option from k on that occurs at the position ignoring case, or none when no such option does |
| ConstrainOutputs.FindAllFromOptions | tlm/utils/constrain_outputs_utils.py:30 | every match of the case-insensitive alternation equals, ignoring case, one of the options |
| ConstrainOutputs.FindAllNonEmpty | tlm/utils/constrain_outputs_utils.py:30-31 | findall finds a match exactly when some option occurs somewhere in the message ignoring case |
| ConstrainOutputs.FirstWithLower | tlm/utils/constrain_outputs_utils.py:33 | `next(...)` gives the first option equal to the text ignoring case, and none exactly when no option is |
| ConstrainOutputs.ArgMaxRatio | tlm/utils/constrain_outputs_utils.py:39 | `max(key=ratio)` gives an option of greatest similarity, and the first such option |
| ConstrainOutputs.ChooseAnswerInOptions | tlm/utils/constrain_outputs_utils.py:26-56 | the chosen answer is always one of the options, and the call fails exactly when there are none |
| ConstrainOutputs.ChooseAnswerExact | tlm/utils/constrain_outputs_utils.py:30-36 | when some option is mentioned ignoring case, the answer is the first option equal, ignoring case, to the last match |
| ConstrainOutputs.ChooseAnswerClosest | tlm/utils/constrain_outputs_utils.py:39-44 | with no mention the answer is the first most similar option, or the last option when the best similarity is below 0.7; the similarity reported is the greatest one |
| ConstrainOutputs.ConstrainedDataSpec | tlm/utils/constrain_outputs_utils.py:26-66 | on success the ANSWER field holds a stripped option and only it and the perplexity change; an exact match leaves the perplexity alone, the closest-match path scales a known perplexity by 1e-3 below 0.7 and by the similarity otherwise |
| ConstrainOutputs.ConstrainOutput | tlm/utils/constrain_outputs_utils.py:8-59 | constrain_output updates the completion in place to exactly the constrained data, and with no options fails and leaves it unchanged |
| ConstrainOutputs.ScaleAnswerConfidence | tlm/utils/constrain_outputs_utils.py:62-66 | a known perplexity is multiplied by the reduction factor; nothing else changes |
| ConstrainOutputs.ExactExample | tlm/utils/constrain_outputs_utils.py:30-35 | "It is paris" with option "Paris" gives the option's own spelling |
| ConstrainOutputs.FallbackExample | tlm/utils/constrain_outputs_utils.py:43-44 | with no mention and all similarities below 0.7 the last option is chosen |
| ConstrainOutputs.ClosestExample | tlm/utils/constrain_outputs_utils.py:39-40 | "colour" mentions neither option, so the most similar option "color" is chosen with its similarity |
| ConstrainOutputs.NoMention | tlm/utils/constrain_outputs_utils.py:30 | an option longer than the message never occurs in it |
| Tokenize.RoundMaxWordsSpec | tlm/utils/tokenize_utils.py:41-48 | rounding never raises the budget, leaves it alone below 10, lands on a multiple of 10 (below 100) or of 50 (from 100) less than one step below, and keeps a budget of 10 or more at 10 or more |
| Tokenize.RoundMaxWordsExamples | tests/unit/utils/test_tokenize_utils.py:4-19 | the rounding gives the values the unit test expects |
| Tokenize.Ceil | tlm/utils/tokenize_utils.py:29-36 | np.ceil as an integer: the least integer not below x |
| Tokenize.MaxWordsAtLeastTen | tlm/utils/tokenize_utils.py:13-38 | the explanation budget is always at least 10 words and below the scaled word limit (itself at least 10) plus one |
| PromptUtils.ExtractUserPrompt | tlm/utils/prompt_utils.py:6-17 | the reverse scan with early return gives the prompt value; on success the result is the content of a user message after which no message is from the user; missing messages and no user message are ValueErrors |
| PromptUtils.LastUserContentSpec | tlm/utils/prompt_utils.py:11-15 | the scan returns the content of the last user message |
| PromptUtils.LastUserFrom | tlm/utils/prompt_utils.py:12-14 | the scan from any point past the last user message reaches that message |
| PromptUtils.NoUserMessage | tlm/utils/prompt_utils.py:12-17 | with no user message among well-formed messages the scan reports that the user prompt is not found |
| PromptUtils.FormatPrompt | tlm/utils/prompt_utils.py:34-47 | the filled JSON_FORMAT_PROMPT is longer than the schema it wraps |
| PromptUtils.ResponseFormatPromptSpec | tlm/utils/prompt_utils.py:30-47 | the prompt is empty exactly for a falsy format; a non-empty format wraps `json_schema.schema` when present and the whole format when a key is missing |
| PromptUtils.FormatUserRequest | tlm/utils/prompt_utils.py:20-27 | the request string grown one message at a time equals the request value, with the same errors |
| PromptUtils.RenderMessages | tlm/utils/prompt_utils.py:22-23 | the loop over the messages yields exactly their rendered text, or the first message's error |
| PromptUtils.MessagesTextErr | tlm/utils/prompt_utils.py:22-23 | an error rendering an early message is the error of the whole list |
| PromptUtils.MessagesTextOk | tlm/utils/prompt_utils.py:22-23 | rendering succeeds exactly when every message has a role and a content |
| PromptUtils.MessagesTextLines | tlm/utils/prompt_utils.py:22-23 | a successful rendering is the messages' "role: content" lines in order |
| PromptUtils.UserRequestSpec | tlm/utils/prompt_utils.py:20-27 | the request is the header, every message line in order, then the response-format prompt (an empty format when the key is absent) |
| ResponseFormat.AddExplanationFieldSpec | tlm/utils/response_format_utils.py:26-52 | the wrapping fails exactly on a malformed format or a name that is not a string; otherwise the wrapper's answer reference resolves to the original schema without its `$defs`, every other original definition is kept, and only the original name is added |
| ResponseFormat.WrapperShape | tlm/utils/response_format_utils.py:33-50 | the wrapper requires explanation and answer, forbids other properties, and is named ObvConsistencyResponse, strict, of type json_schema |
| ResponseFormat.AddExplanationToResponseFormat | tlm/utils/response_format_utils.py:12-23 | no response format gives None; otherwise the copy holds the wrapped format, logprobs true and top_logprobs, and every other parameter unchanged; a malformed format is an error |
| Components.ApplyWritesAt | tlm/components/base.py:16-19 | after a sequence of add calls a key holds its last written value, or its old value when not written, and no other key appears |
| Components.ExecutionContext.constructor | tlm/components/base.py:13-14 | a new context holds no results |
| Components.ExecutionContext.Add | tlm/components/base.py:16-19 | add stores the value under the key, overwriting an existing one, and changes no other key |
| Components.ExecutionContext.Get | tlm/components/base.py:21-22 | get gives the stored value, or the default for an absent key |
| Components.Component.constructor | tlm/components/base.py:26-39 | a new component has an empty context, counter 0 and an empty blocking list, is ready exactly when it has no dependencies, and is appended to each dependency's blocking list once per occurrence, nothing else of the dependencies changing |
| Components.Component.MergeContext | tlm/components/base.py:41-42 | the dependency's results are added, its values winning on shared keys |
| Components.Component.NotifyCompletion | tlm/components/base.py:44-51 | a non-dependency changes nothing; a dependency advances the counter by one, sets the ready flag once the counter reaches the number of dependencies (never clearing it) and merges the dependency's results |
| Components.Component.Execute | tlm/components/base.py:53-55 | the stage's writes are added to the context in order; a raising stage writes nothing and reports its exception |
| Pipeline.TopoAcyclic | tlm/pipeline/base.py:50-57 | a topological order covering every registered component rules out a cycle, which is what the depth-first search establishes |
| Pipeline.InheritedKeys | tlm/components/base.py:41-51 | a key reaches a component's context exactly when some dependency that completed produced it |
| Pipeline.UnionAt | tlm/pipeline/base.py:25-29 | a key of the run's result holds the value of the last component in the list that produced it |
| Pipeline.UnionOnly | tlm/pipeline/base.py:25-29 | a key no component produced is absent from the run's result |
| Pipeline.InferencePipeline.constructor | tlm/pipeline/base.py:11-12 | a new pipeline has no components |
| Pipeline.InferencePipeline.Add | tlm/pipeline/base.py:76-78 | add appends the component and returns it |
| Pipeline.InferencePipeline.HasCycle | tlm/pipeline/base.py:59-74 | the depth-first search from a component reports a cycle only when a cycle through registered components exists; otherwise the recursion stack is restored, the component and everything reachable are visited, and the finished components stay in topological order |
| Pipeline.InferencePipeline.Validate | tlm/pipeline/base.py:39-57 | validation fails with the unregistered-dependency error exactly when some dependency is not registered, with the cycle error exactly when the registered graph has a cycle, and succeeds exactly when neither holds, yielding a topological order of the components |
| Pipeline.InferencePipeline.ExecuteComponent | tlm/pipeline/base.py:31-37 | the ready component runs its stage on its context, then each component it blocks is notified once per occurrence in its blocking list; a raising stage changes nothing and notifies nobody |
| Pipeline.InferencePipeline.NotifyChildren | tlm/pipeline/base.py:36-37 | every blocked component is told once per occurrence that the component completed: its counter advances, its ready flag is set when all dependencies completed, and the component's results are merged |
| Pipeline.InferencePipeline.Run | tlm/pipeline/base.py:14-29 | run fails on an unregistered dependency or a cycle; otherwise it fails only with the error of some stage run on its inherited context, and on success every component ran exactly once, after its dependencies, on the merge of its dependencies' results, and the result is the union of all contexts in registration order |
| Pipeline.InferencePipeline.Schedule | tlm/pipeline/base.py:19-23 | while components are pending some ready one runs; either all run and the run's bookkeeping holds, or the failing stage's error is reported |
| Pipeline.InferencePipeline.Turn | tlm/pipeline/base.py:19-23 | one step of the event loop: a pending component that is ready runs and leaves the pending set |
| Pipeline.InferencePipeline.RunReady | tlm/pipeline/base.py:31-37 | running one ready component records its results and keeps the counters, flags and contexts of all components consistent with the components run so far |
| Pipeline.CycleOnStack | tlm/pipeline/base.py:61-62 | meeting a component already on the recursion stack closes a real cycle |
| Pipeline.RunStart | tlm/components/base.py:26-39 | the constructors' state is the start of a run: nothing run, every counter zero, every context empty, blocking lists matching dependencies |
| Pipeline.CountersStep | tlm/components/base.py:44-51 | after a component completes, each counter equals the number of completed dependencies and the ready flag says whether all completed |
| Pipeline.ReadyExists | tlm/pipeline/base.py:19-23 | in an acyclic pipeline some pending component is always ready, so the tasks never all wait forever |
| Pipeline.RunFinished | tlm/pipeline/base.py:23 | once every component ran, the order is a topological order of all components and each holds its stage's result on what it inherited |
| Pipeline.Gather | tlm/pipeline/base.py:25-29 | the closing loop merges the components' contexts in list order |
| Stages.Calls | tlm/components/completions/reference_completion_components.py:82-93 | one call per task, each the model's answer to that request, in task order |
| Stages.GatherCalls | tlm/components/completions/reference_completion_components.py:93 | `asyncio.gather` succeeds exactly when every call returns, and then gives the outcomes in request order; otherwise a raised exception propagates |
| Stages.JsonsAt | tlm/components/base.py:21-22 | reading a list of answers from the context succeeds exactly when the key holds one, and gives it |
| Stages.OutcomesAt | tlm/components/base.py:21-22 | reading a list of completions or failures succeeds exactly when the key holds one, and gives it |
| Stages.CompletionsAt | tlm/components/base.py:21-22 | reading a list of completions succeeds exactly when the key holds one, and gives it |
| Stages.NestedAt | tlm/components/base.py:21-22 | reading a nested list of completions succeeds exactly when the key holds one, and gives it |
| Stages.WrittenKeys | tlm/components/base.py:16-19 | the keys of a stage's add calls, in order |
| Stages.AnswerOrNone | tlm/components/completions/observed_consistency_completion_generator.py:70-78 | a success records its answer (the ANSWER field or else the message) and a failure records None |
| ReferenceCompletionComponents.FormatterSpec | tlm/components/completions/reference_completion_components.py:19-37 | the formatter exists exactly when the input is a well-formed completion dictionary; its stage writes prompt, reference_completions and reference_answers whenever the user prompt can be found, recording the one input completion and its answer, the stripped message content |
| ReferenceCompletionComponents.NewGenerator | tlm/components/completions/reference_completion_components.py:41-71 | a count that is not positive raises; the minimum is capped at the count; a response format is wrapped to ask for an explanation with log probabilities, and the template extracts the answer exactly when there was one |
| ReferenceCompletionComponents.Requests | tlm/components/completions/reference_completion_components.py:82-92 | one request per count |
| ReferenceCompletionComponents.Answers | tlm/components/completions/reference_completion_components.py:98-103 | one answer per completion: its ANSWER field, or else its message |
| ReferenceCompletionComponents.SplitAppend | tlm/components/completions/reference_completion_components.py:98-110 | splitting into completions and failures distributes over concatenation, so each part keeps input order |
| ReferenceCompletionComponents.SplitMembers | tlm/components/completions/reference_completion_components.py:98-110 | a completion is among the kept completions exactly when it is a successful result, and a failure among the failures exactly when it is a failed result |
| ReferenceCompletionComponents.SplitSizes | tlm/components/completions/reference_completion_components.py:98-110 | every result lands in exactly one of the two parts |
| ReferenceCompletionComponents.SplitOutcomes | tlm/components/completions/reference_completion_components.py:95-105 | the loop collects the answers of the successes and the failures, each in order |
| ReferenceCompletionComponents.GeneratorSpec | tlm/components/completions/reference_completion_components.py:73-114 | the generator asks `count` times for the user prompt, the first at temperature 0.0 and the rest at the alternate temperature or 0.0; it raises exactly when the prompt is missing, a call raises or fewer than min_count calls succeed; otherwise it writes the four keys, the prompt first, where the gathered results are the model's answers to the requests in order, the completions are exactly the successes among them and the failures exactly the failures (both in order, together `count`), and there is one answer per completion, its ANSWER field or fallback |
| ObservedConsistencyCompletionGenerator.NewGenerator | tlm/components/completions/observed_consistency_completion_generator.py:18-46 | a negative count raises and zero is allowed; a response format is wrapped to ask for an explanation with log probabilities, and the template extracts the answer exactly when there was one |
| ObservedConsistencyCompletionGenerator.Requests | tlm/components/completions/observed_consistency_completion_generator.py:54-67 | `count` requests for the user prompt |
| ObservedConsistencyCompletionGenerator.CollectAnswers | tlm/components/completions/observed_consistency_completion_generator.py:70-78 | one answer per result, in order: the completion's answer for a success and None for a failure |
| ObservedConsistencyCompletionGenerator.ExecuteSpec | tlm/components/completions/observed_consistency_completion_generator.py:48-81 | with count 0 the stage writes two empty lists without reading the prompt or calling the model; otherwise it raises exactly when the prompt is missing or a call raises, and else writes consistency_answers and consistency_completions, one entry per call, the answers aligned with the results |
| SelfReflectionCompletionGenerator.SelectTemplatesSpec | tlm/components/completions/self_reflection_completion_generator.py:21-28 | the templates are the workflow's list (classification's for binary classification, none for a workflow without one), kept whole for a count of at most 1 and cut to the first min(count, available) otherwise |
| SelfReflectionCompletionGenerator.RequestGrid | tlm/components/completions/self_reflection_completion_generator.py:37-57 | one row of requests per reference answer, one request per template |
| SelfReflectionCompletionGenerator.IssueRequests | tlm/components/completions/self_reflection_completion_generator.py:35-57 | the task list is the request grid flattened answer by answer, template by template |
| SelfReflectionCompletionGenerator.FlattenSnoc | tlm/components/completions/self_reflection_completion_generator.py:44-57 | extending the task list by one answer's requests appends that row |
| SelfReflectionCompletionGenerator.ChunkFlatten | tlm/components/completions/self_reflection_completion_generator.py:61-65 | chunking by the number of templates undoes the answer-major flattening |
| SelfReflectionCompletionGenerator.OutcomeGrid | tlm/components/completions/self_reflection_completion_generator.py:59 | the outcome for each answer and template is the model's answer to that request |
| SelfReflectionCompletionGenerator.GatherFlatten | tlm/components/completions/self_reflection_completion_generator.py:59 | gathering the flattened grid gives the flattened grid of outcomes |
| SelfReflectionCompletionGenerator.ExecuteSpec | tlm/components/completions/self_reflection_completion_generator.py:32-66 | with no template the stage raises (range step 0); with templates and calls that return it writes one row per reference answer and one column per template, cell (a, j) being the reflection on answer a with template j |
| SelfReflectionCompletionGenerator.ExecuteRaises | tlm/components/completions/self_reflection_completion_generator.py:59 | a reflection call that raises makes the stage raise |

## Left out

- Concurrency: asyncio tasks, `Lock` and `Event` are replaced by a sequential scheduler that runs one ready component at a time. This is one of the interleavings the event loop can produce. `asyncio.gather` raises the first exception in request order.
- A stage that raises after some of its `add` calls: the model writes nothing for it, whereas the source keeps the earlier writes (for example, `prompt` in the reference generator). The run then fails either way.
- Context values are typed (`Components.Value`). A value of the wrong kind read by a stage is an error rather than Python duck typing.
- Pipeline.InferencePipeline.Run: requires the state the constructors leave (nothing run yet, blocking lists matching dependencies, unshared contexts) and that each component is registered at most once. The source's `add` accepts a component twice, and `run` then starts it twice. It notifies its children twice, so a child that depends on it and on another component can become ready before that other dependency has finished and run on a partial context. The model does not capture this. A second run of the same pipeline is not modelled.
- ConsistencyScoreComputation.ClassificationConsistency: raises IndexError whenever there are fewer consistency answers than completions. The source raises only when it actually reads past the answers.
- ObservedConsistencyCompletionGenerator: the constructor stores `temperature` but `execute` never passes it on. The model reproduces this.
- `generate_completion`, the judge call, embeddings and `np.linalg.norm` are oracle parameters. So are `ast.literal_eval`/`json.loads` and the `difflib.SequenceMatcher` ratio. They are network or library code outside this model.
- The reasoning-effort presets, `REASONING_EFFORT_TO_MAX_EXPLANATION_WORDS` and the settings (`MAX_TOKENS`, `TOP_LOGPROBS`, the parse-failure score) are parameters.
- Prompt template classes are kept only by name (`Stages.TemplateRef`, `Stages.Reflection`). Their prompt text and `construct_response_format` are not modelled.
- ResponseFormat.AddExplanationFieldSpec: a `json_schema` name that is not a string (a number, a boolean or None) is an error in the model, because the model's JSON objects have string keys only. The source accepts any hashable name, files the schema under it in `$defs` and formats it into the `#/$defs/` reference.
- MathUtils.SelectStable: ties among equal valid scores are resolved in input order. `np.argsort` with its default sort kind is not stable, so among tied scores the source does not guarantee which index is the median. The rank lemmas hold for either choice.
- MathUtils.SelectStableRank: states the rank of the input-order choice; numpy may choose a different index among tied scores, as the line above says.
- PerField.PerFieldMetadata: every malformed answer gives one generic error. The source raises the exception of the first bad field in JSON key order, and the model's objects do not keep key order.
- Completions.MappedScoreOf: a mapped score that is not a number is read as NaN.
- Missing log probabilities and missing log-probability content are the same case (`None`).
- `np.exp` is not modelled: each token's log probability comes with its probability `prob`.
- Floating point: rounding, overflow, NaN propagation inside arithmetic, `float()` string parsing in `score_100_mapping` and pydantic's numeric-string parse of a float field (both parameters) are not modelled.
- Regular expressions: `tlm/templates/parsers.py` and the answer extraction it performs are not part of this model. The `re.findall` over escaped options in constrained-output snapping is modelled by a direct scan.
- `get_token_count` (tiktoken) is not modelled.
- `construct_per_field_response_format_model` builds a pydantic model class at run time and is not modelled.
- Logging, `warnings.warn` and the overwrite warning in `ExecutionContext.add` are not modelled.
- Dictionary iteration order is modelled only where it is visible in a result: list order, and the union order of contexts.
- The string built-ins in `Text` are ASCII only, with no Unicode case folding or whitespace classes.
