/** tlm/utils/constrain_outputs_utils.py: snapping a completion's answer to
    one of the allowed outputs. The case-insensitive `re.findall` over the
    escaped options is modelled as a left-to-right scan; difflib's
    SequenceMatcher ratio against the message is an oracle `ratio`. */
module ConstrainOutputs {
  import opened Wrappers
  import opened Text
  import opened Json
  import opened Types
  import opened Completions

  /** SIMILARITY_THRESHOLD below which the closest option is not trusted. */
  const Threshold: real := 0.7
  /** The perplexity factor applied when no option is close. */
  const NoMatchFactor: real := 0.001

  // ---------------------------------------------------------------------
  // re.findall("(o1|o2|...)", message, re.IGNORECASE)

  /** Option `o` occurs at position `pos` of `msg`, ignoring case. */
  predicate OccursAt(msg: string, o: string, pos: nat) {
    pos + |o| <= |msg| && Lower(msg[pos..pos + |o|]) == Lower(o)
  }

  /** The first alternative, from index k on, that matches at `pos`; an
      empty alternative is skipped when an empty match is not allowed. */
  function OptionAt(msg: string, options: seq<string>, pos: nat, allowEmpty: bool, k: nat): (r: Option<nat>)
    requires k <= |options|
    ensures r.Some? ==> k <= r.value < |options| && OccursAt(msg, options[r.value], pos) && (allowEmpty || |options[r.value]| > 0)
    ensures r.None? ==> forall j :: k <= j < |options| ==> !(OccursAt(msg, options[j], pos) && (allowEmpty || |options[j]| > 0))
    decreases |options| - k
  {
    if k == |options| then None
    else if OccursAt(msg, options[k], pos) && (allowEmpty || |options[k]| > 0) then Some(k)
    else OptionAt(msg, options, pos, allowEmpty, k + 1)
  }

  /** The matches from `pos` on: the first matching alternative wins at
      each position, a non-empty match resumes after itself, and after an
      empty match the next match may not be empty at the same position. */
  function FindAll(msg: string, options: seq<string>, pos: nat, allowEmpty: bool): seq<string>
    requires pos <= |msg|
    decreases |msg| - pos, if allowEmpty then 1 else 0
  {
    match OptionAt(msg, options, pos, allowEmpty, 0)
    case Some(k) =>
      var o := options[k];
      if |o| > 0 then [msg[pos..pos + |o|]] + FindAll(msg, options, pos + |o|, true)
      else [""] + FindAll(msg, options, pos, false)
    case None => if pos == |msg| then [] else FindAll(msg, options, pos + 1, true)
  }

  /** Every match equals, ignoring case, one of the options. */
  lemma {:induction false} FindAllFromOptions(msg: string, options: seq<string>, pos: nat, allowEmpty: bool)
    requires pos <= |msg|
    ensures forall t :: t in FindAll(msg, options, pos, allowEmpty) ==> exists o :: o in options && Lower(t) == Lower(o)
    decreases |msg| - pos, if allowEmpty then 1 else 0
  {
    match OptionAt(msg, options, pos, allowEmpty, 0)
    case Some(k) => {
      var o := options[k];
      if |o| > 0 {
        FindAllFromOptions(msg, options, pos + |o|, true);
      } else {
        FindAllFromOptions(msg, options, pos, false);
        assert Lower("") == Lower(o);
      }
    }
    case None => {
      if pos < |msg| {
        FindAllFromOptions(msg, options, pos + 1, true);
      }
    }
  }

  /** The scan finds a match exactly when some option occurs somewhere at or
      after `pos`. */
  lemma {:induction false} FindAllNonEmpty(msg: string, options: seq<string>, pos: nat)
    requires pos <= |msg|
    ensures FindAll(msg, options, pos, true) != [] <==>
      exists j, p :: 0 <= j < |options| && pos <= p <= |msg| && OccursAt(msg, options[j], p)
    decreases |msg| - pos
  {
    match OptionAt(msg, options, pos, true, 0)
    case Some(k) => {
    }
    case None => {
      if pos < |msg| {
        FindAllNonEmpty(msg, options, pos + 1);
        if exists j, p :: 0 <= j < |options| && pos <= p <= |msg| && OccursAt(msg, options[j], p) {
          var j, p :| 0 <= j < |options| && pos <= p <= |msg| && OccursAt(msg, options[j], p);
          assert p != pos;
        }
      } else {
        if exists j, p :: 0 <= j < |options| && pos <= p <= |msg| && OccursAt(msg, options[j], p) {
          var j, p :| 0 <= j < |options| && pos <= p <= |msg| && OccursAt(msg, options[j], p);
          assert p == pos;
        }
      }
    }
  }

  // ---------------------------------------------------------------------
  // Choosing the answer

  /** `next(o for o in options if o.lower() == text.lower())`. */
  function FirstWithLower(options: seq<string>, text: string): (r: Option<nat>)
    ensures r.Some? ==> r.value < |options| && Lower(options[r.value]) == Lower(text)
    ensures r.Some? ==> forall j :: 0 <= j < r.value ==> Lower(options[j]) != Lower(text)
    ensures r.None? <==> forall j :: 0 <= j < |options| ==> Lower(options[j]) != Lower(text)
  {
    if options == [] then None
    else if Lower(options[0]) == Lower(text) then Some(0)
    else
      var r := FirstWithLower(options[1..], text);
      if r.Some? then Some(r.value + 1) else None
  }

  /** `max(options, key=ratio)`: the first option of greatest ratio. */
  function ArgMaxRatio(options: seq<string>, ratio: string -> real): (r: nat)
    requires |options| > 0
    ensures r < |options|
    ensures forall j :: 0 <= j < |options| ==> ratio(options[j]) <= ratio(options[r])
    ensures forall j :: 0 <= j < r ==> ratio(options[j]) < ratio(options[r])
  {
    if |options| == 1 then 0
    else
      var k := ArgMaxRatio(options[1..], ratio) + 1;
      if ratio(options[0]) >= ratio(options[k]) then 0 else k
  }

  /** How the answer was chosen: by an exact (case-insensitive) mention, or
      as the closest option with its similarity. */
  datatype Snap = Exact(answer: string) | Closest(answer: string, similarity: real)

  /** The answer constrain_output stores. With no options the pattern "()"
      matches the empty string and `next` over no options raises. */
  function ChooseAnswer(msg: string, options: seq<string>, ratio: string -> real): (r: Result<Snap>)
  {
    if options == [] then Err("StopIteration")
    else
      var matches := FindAll(msg, options, 0, true);
      if matches != [] then
        FindAllFromOptions(msg, options, 0, true);
        var last := matches[|matches| - 1];
        assert last in matches;
        match FirstWithLower(options, last)
        case Some(k) => Ok(Exact(options[k]))
        case None => assert false; Err("StopIteration")
      else
        var best := options[ArgMaxRatio(options, ratio)];
        var similarity := ratio(best);
        if similarity < Threshold then Ok(Closest(options[|options| - 1], similarity))
        else Ok(Closest(best, similarity))
  }

  /** The answer is always one of the options, and it fails only when there
      are none. */
  lemma ChooseAnswerInOptions(msg: string, options: seq<string>, ratio: string -> real)
    ensures ChooseAnswer(msg, options, ratio).Err? <==> options == []
    ensures ChooseAnswer(msg, options, ratio).Ok? ==> ChooseAnswer(msg, options, ratio).value.answer in options
  {
    if options != [] {
      var matches := FindAll(msg, options, 0, true);
      if matches != [] {
        FindAllFromOptions(msg, options, 0, true);
        var last := matches[|matches| - 1];
        assert last in matches;
        var k := FirstWithLower(options, last).value;
        assert ChooseAnswer(msg, options, ratio) == Ok(Exact(options[k]));
      }
    }
  }

  /** When some option is mentioned, ignoring case, the answer is the first
      option equal (ignoring case) to the last mention. */
  lemma ChooseAnswerExact(msg: string, options: seq<string>, ratio: string -> real)
    requires options != []
    requires exists j, p :: 0 <= j < |options| && 0 <= p <= |msg| && OccursAt(msg, options[j], p)
    ensures FindAll(msg, options, 0, true) != []
    ensures ChooseAnswer(msg, options, ratio).Ok? && ChooseAnswer(msg, options, ratio).value.Exact?
    ensures FirstOptionWithLower(options, ChooseAnswer(msg, options, ratio).value.answer, LastOf(FindAll(msg, options, 0, true)))
  {
    FindAllNonEmpty(msg, options, 0);
    var matches := FindAll(msg, options, 0, true);
    FindAllFromOptions(msg, options, 0, true);
    var last := matches[|matches| - 1];
    assert last in matches;
    var k := FirstWithLower(options, last).value;
    assert IsFirstWithLower(options, k, LastOf(matches));
  }

  /** `answer` is the first option equal to `text` ignoring case. */
  predicate FirstOptionWithLower(options: seq<string>, answer: string, text: string) {
    exists k :: 0 <= k < |options| && answer == options[k] && IsFirstWithLower(options, k, text)
  }

  /** The last element of a non-empty sequence. */
  function LastOf(s: seq<string>): string
    requires s != []
  {
    s[|s| - 1]
  }

  /** Option k is the first one equal to `text` ignoring case. */
  predicate IsFirstWithLower(options: seq<string>, k: nat, text: string)
    requires k < |options|
  {
    Lower(options[k]) == Lower(text) && forall i :: 0 <= i < k ==> Lower(options[i]) != Lower(text)
  }

  /** When no option is mentioned, the answer is the first option of
      greatest similarity, or the last option when even that similarity is
      below 0.7; the similarity reported is the greatest one. */
  lemma ChooseAnswerClosest(msg: string, options: seq<string>, ratio: string -> real)
    requires options != []
    requires forall j, p :: 0 <= j < |options| && 0 <= p <= |msg| ==> !OccursAt(msg, options[j], p)
    ensures var r := ChooseAnswer(msg, options, ratio);
      var best := ArgMaxRatio(options, ratio);
      r.Ok? && r.value.Closest? && r.value.similarity == ratio(options[best]) &&
      (forall j :: 0 <= j < |options| ==> ratio(options[j]) <= r.value.similarity) &&
      (r.value.similarity >= Threshold ==> r.value.answer == options[best]) &&
      (r.value.similarity < Threshold ==> r.value.answer == options[|options| - 1])
  {
    FindAllNonEmpty(msg, options, 0);
  }

  // ---------------------------------------------------------------------
  // constrain_output and _scale_answer_confidence

  /** _scale_answer_confidence's factor. */
  function ReductionFactor(similarity: real): real {
    if similarity < Threshold then NoMatchFactor else similarity
  }

  /** The completion after constrain_output: the ANSWER field set to the
      chosen option (stripped, as add_response_field does), and on the
      closest-match path a known perplexity scaled by the reduction factor. */
  function ConstrainedData(d: CompletionData, msg: string, options: seq<string>, ratio: string -> real): Result<CompletionData>
  {
    var snap :- ChooseAnswer(msg, options, ratio);
    var answered := WithResponseField(d, Answer, JStr(snap.answer));
    match snap
    case Exact(_) => Ok(answered)
    case Closest(_, similarity) =>
      Ok(answered.(perplexity := Scaled(d.perplexity, ReductionFactor(similarity))))
  }

  /** The stored answer is a (stripped) option, nothing but the ANSWER field
      and the perplexity changes, the exact path leaves the perplexity alone,
      and the closest path multiplies it by 1e-3 below the threshold and by
      the similarity otherwise. */
  lemma ConstrainedDataSpec(d: CompletionData, msg: string, options: seq<string>, ratio: string -> real)
    ensures ConstrainedData(d, msg, options, ratio).Ok? <==> options != []
    ensures ConstrainedData(d, msg, options, ratio).Ok? ==>
      var r := ConstrainedData(d, msg, options, ratio).value;
      var snap := ChooseAnswer(msg, options, ratio).value;
      (exists o :: o in options && r.responseFields == d.responseFields[Answer.Key() := JStr(Strip(o))]) &&
      r.(responseFields := d.responseFields, perplexity := d.perplexity) == d &&
      (snap.Exact? ==> r.perplexity == d.perplexity) &&
      (snap.Closest? && snap.similarity < Threshold ==> r.perplexity == Scaled(d.perplexity, NoMatchFactor)) &&
      (snap.Closest? && snap.similarity >= Threshold ==> r.perplexity == Scaled(d.perplexity, snap.similarity))
  {
    ChooseAnswerInOptions(msg, options, ratio);
    var r := ChooseAnswer(msg, options, ratio);
    if r.Ok? && r.value.Closest? && r.value.similarity >= Threshold {
      assert ReductionFactor(r.value.similarity) == r.value.similarity;
    }
  }

  /** constrain_output, updating the completion in place. */
  method ConstrainOutput(c: Completion, msg: string, options: seq<string>, ratio: string -> real) returns (st: Status)
    modifies c
    ensures st.Fail? <==> options == []
    ensures st.Fail? ==> c.Data() == old(c.Data())
    ensures st.Done? ==> ConstrainedData(old(c.Data()), msg, options, ratio) == Ok(c.Data())
  {
    if options == [] {
      return Fail("StopIteration");
    }
    var matches := FindAll(msg, options, 0, true);
    if |matches| > 0 {
      FindAllFromOptions(msg, options, 0, true);
      var last := matches[|matches| - 1];
      assert last in matches;
      var k := FirstWithLower(options, last).value;
      c.AddResponseField(Answer, JStr(options[k]));
      return Done;
    }
    var best := options[ArgMaxRatio(options, ratio)];
    var similarity := ratio(best);
    if similarity < Threshold {
      best := options[|options| - 1];
    }
    c.AddResponseField(Answer, JStr(best));
    ScaleAnswerConfidence(c, similarity);
    st := Done;
  }

  /** _scale_answer_confidence. */
  method ScaleAnswerConfidence(c: Completion, similarity: real)
    modifies c
    ensures c.Data() == old(c.Data()).(perplexity := Scaled(old(c.Data()).perplexity, ReductionFactor(similarity)))
  {
    var factor := ReductionFactor(similarity);
    c.ScalePerplexity(factor);
  }

  /** A mention in any case is snapped to the option's own spelling. */
  lemma ExactExample(ratio: string -> real)
    ensures ChooseAnswer("It is paris", ["Paris"], ratio) == Ok(Exact("Paris"))
  {
    var options: seq<string> := ["Paris"];
    assert Lower("It is paris"[6..11]) == Lower(options[0]);
    assert OccursAt("It is paris", options[0], 6);
    ChooseAnswerExact("It is paris", options, ratio);
    ChooseAnswerInOptions("It is paris", options, ratio);
  }

  /** With no mention and every similarity below 0.7, the last option is
      used whatever the similarities. */
  lemma FallbackExample(ratio: string -> real)
    requires ratio("Berlin") < Threshold && ratio("London") < Threshold
    ensures ChooseAnswer("Rome", ["Berlin", "London"], ratio).Ok?
    ensures ChooseAnswer("Rome", ["Berlin", "London"], ratio).value.answer == "London"
  {
    var options: seq<string> := ["Berlin", "London"];
    NoMention("Rome", options);
    ChooseAnswerClosest("Rome", options, ratio);
  }

  /** "colour" is not mentioned as "color" or "palette"; the most similar
      option "color" is chosen when it is at least 0.7 similar. */
  lemma ClosestExample(ratio: string -> real)
    requires ratio("color") >= Threshold && ratio("palettes") < ratio("color")
    ensures ChooseAnswer("colour", ["palettes", "color"], ratio) == Ok(Closest("color", ratio("color")))
  {
    var options: seq<string> := ["palettes", "color"];
    forall j, p | 0 <= j < |options| && 0 <= p <= 6
      ensures !OccursAt("colour", options[j], p)
    {
      if j == 1 && p == 0 {
        assert Lower("colour"[0..5])[4] != Lower(options[1])[4];
      } else if j == 1 && p == 1 {
        assert Lower("colour"[1..6])[0] != Lower(options[1])[0];
      }
    }
    ChooseAnswerClosest("colour", options, ratio);
  }

  /** Options longer than the message cannot occur in it. */
  lemma NoMention(msg: string, options: seq<string>)
    requires forall j :: 0 <= j < |options| ==> |options[j]| > |msg|
    ensures forall j, p :: 0 <= j < |options| && 0 <= p <= |msg| ==> !OccursAt(msg, options[j], p)
  {
  }
}
