/** tlm/utils/scoring/per_field_scoring_utils.py: per-field reflection
    metadata extracted from a structured answer, and its aggregation over
    several reflections (mean score, explanation of the lowest score). */
module PerField {
  import opened Wrappers
  import opened Json
  import opened Types
  import opened MathUtils
  import ScoreMapping

  // ---------------------------------------------------------------------
  // extract_per_field_reflection_metadata

  const ExplanationKey: string := "explanation"

  /** One field's data is usable when it is a dictionary holding the score
      key and a string explanation, and the score mapping accepts its raw
      score. */
  predicate WellFormedField(data: Json, scoreKey: string, mapping: Json -> Result<real>) {
    data.JObj? && scoreKey in data.fields && mapping(data.fields[scoreKey]).Ok?
    && ExplanationKey in data.fields && data.fields[ExplanationKey].JStr?
  }

  /** The metadata of one well-formed field. */
  function FieldOf(data: Json, scoreKey: string, mapping: Json -> Result<real>): FieldMetadata
    requires WellFormedField(data, scoreKey, mapping)
  {
    FieldMetadata(mapping(data.fields[scoreKey]).value, data.fields[ExplanationKey].s)
  }

  /** The decoded answer: one metadata entry per top-level field, or an
      error when the answer is not a dictionary (no `items`) or some field
      lacks a key (KeyError), is not a dictionary (TypeError), has a raw
      score the mapping raises on, or has a non-string explanation
      (FieldMetadata validation). */
  function PerFieldMetadata(answer: Json, scoreKey: string, mapping: Json -> Result<real>): (r: Result<map<string, FieldMetadata>>)
  {
    if !answer.JObj? then Err("AttributeError: answer has no attribute 'items'")
    else if exists name :: name in answer.fields && !WellFormedField(answer.fields[name], scoreKey, mapping) then
      Err("per-field metadata is malformed")
    else Ok(map name | name in answer.fields :: FieldOf(answer.fields[name], scoreKey, mapping))
  }

  /** Extraction succeeds exactly on a dictionary of well-formed fields
      whose raw scores the mapping accepts, and then keeps every top-level
      field, each with its mapped score and its explanation. */
  lemma PerFieldMetadataSpec(answer: Json, scoreKey: string, mapping: Json -> Result<real>)
    ensures PerFieldMetadata(answer, scoreKey, mapping).Ok? <==>
      answer.JObj? && forall name :: name in answer.fields ==> WellFormedField(answer.fields[name], scoreKey, mapping)
    ensures PerFieldMetadata(answer, scoreKey, mapping).Ok? ==>
      PerFieldMetadata(answer, scoreKey, mapping).value.Keys == answer.fields.Keys
    ensures PerFieldMetadata(answer, scoreKey, mapping).Ok? ==>
      forall name :: name in answer.fields ==>
        Ok(PerFieldMetadata(answer, scoreKey, mapping).value[name].score) == mapping(answer.fields[name].fields[scoreKey]) &&
        JStr(PerFieldMetadata(answer, scoreKey, mapping).value[name].explanation) == answer.fields[name].fields[ExplanationKey]
  {
  }

  /** A raw score the mapping raises on makes the whole extraction raise. */
  lemma PerFieldMappingRaises(answer: Json, scoreKey: string, mapping: Json -> Result<real>, name: string)
    requires answer.JObj? && name in answer.fields
    requires answer.fields[name].JObj? && scoreKey in answer.fields[name].fields
    requires mapping(answer.fields[name].fields[scoreKey]).Err?
    ensures PerFieldMetadata(answer, scoreKey, mapping).Err?
  {
    assert !WellFormedField(answer.fields[name], scoreKey, mapping);
  }

  /** With certainty_mapping as the score mapping, a raw score that is not
      a string makes the extraction raise. */
  lemma CertaintyFieldRaises(answer: Json, scoreKey: string, name: string)
    requires answer.JObj? && name in answer.fields
    requires answer.fields[name].JObj? && scoreKey in answer.fields[name].fields
    requires !answer.fields[name].fields[scoreKey].JStr?
    ensures PerFieldMetadata(answer, scoreKey, ScoreMapping.Certainty).Err?
  {
    PerFieldMappingRaises(answer, scoreKey, ScoreMapping.Certainty, name);
  }

  /** The loop over `answer_json.items()`, filling `per_field_metadata`. */
  method ExtractPerFieldMetadata(answer: Json, scoreKey: string, mapping: Json -> Result<real>)
    returns (r: Result<map<string, FieldMetadata>>)
    ensures r.Ok? <==> PerFieldMetadata(answer, scoreKey, mapping).Ok?
    ensures r.Ok? ==> r.value == PerFieldMetadata(answer, scoreKey, mapping).value
  {
    if !answer.JObj? {
      return Err("AttributeError: answer has no attribute 'items'");
    }
    var fields := answer.fields;
    var remaining := fields.Keys;
    var metadata: map<string, FieldMetadata> := map[];
    while remaining != {}
      invariant remaining <= fields.Keys
      invariant metadata.Keys == fields.Keys - remaining
      invariant forall name :: name in metadata ==>
        WellFormedField(fields[name], scoreKey, mapping) && metadata[name] == FieldOf(fields[name], scoreKey, mapping)
      decreases |remaining|
    {
      var name :| name in remaining;
      var data := fields[name];
      if !WellFormedField(data, scoreKey, mapping) {
        return Err("per-field metadata is malformed");
      }
      metadata := metadata[name := FieldOf(data, scoreKey, mapping)];
      remaining := remaining - {name};
    }
    r := Ok(metadata);
    assert metadata == map name | name in fields :: FieldOf(fields[name], scoreKey, mapping);
  }

  // ---------------------------------------------------------------------
  // compute_field_metadata: specification

  /** The metadata recorded for `name`, reflection by reflection, in input
      order. */
  function Entries(ms: seq<map<string, FieldMetadata>>, name: string): seq<FieldMetadata>
  {
    if ms == [] then []
    else Entries(ms[..|ms| - 1], name) + (if name in ms[|ms| - 1] then [ms[|ms| - 1][name]] else [])
  }

  /** Every field name that occurs in some reflection. */
  function Names(ms: seq<map<string, FieldMetadata>>): set<string>
  {
    if ms == [] then {} else Names(ms[..|ms| - 1]) + ms[|ms| - 1].Keys
  }

  function Scores(es: seq<FieldMetadata>): (s: seq<real>)
    ensures |s| == |es|
  {
    seq(|es|, j requires 0 <= j < |es| => es[j].score)
  }

  function Explanations(es: seq<FieldMetadata>): (s: seq<string>)
    ensures |s| == |es|
  {
    seq(|es|, j requires 0 <= j < |es| => es[j].explanation)
  }

  /** np.argmin: the first position of the smallest value. */
  function ArgMin(xs: seq<real>): (r: nat)
    requires |xs| > 0
    ensures r < |xs|
    ensures forall j :: 0 <= j < |xs| ==> xs[r] <= xs[j]
    ensures forall j :: 0 <= j < r ==> xs[j] > xs[r]
  {
    if |xs| == 1 then 0
    else
      var k := ArgMin(xs[1..]) + 1;
      if xs[0] <= xs[k] then 0 else k
  }

  /** A field's composite: the mean score, with the explanation given
      alongside the lowest score. */
  function Composite(es: seq<FieldMetadata>): FieldMetadata
    requires |es| > 0
  {
    FieldMetadata(Mean(Scores(es)), es[ArgMin(Scores(es))].explanation)
  }

  lemma {:induction false} EntriesNonEmpty(ms: seq<map<string, FieldMetadata>>, name: string)
    ensures name in Names(ms) <==> |Entries(ms, name)| > 0
  {
    if ms != [] {
      EntriesNonEmpty(ms[..|ms| - 1], name);
    }
  }

  /** The composite of one field seen in some reflection. */
  function FieldComposite(ms: seq<map<string, FieldMetadata>>, name: string): FieldMetadata
    requires name in Names(ms)
  {
    EntriesNonEmpty(ms, name);
    Composite(Entries(ms, name))
  }

  /** compute_field_metadata. */
  function FieldComposites(ms: seq<map<string, FieldMetadata>>): map<string, FieldMetadata>
  {
    map name | name in Names(ms) :: FieldComposite(ms, name)
  }

  /** Entry j of a field comes from a reflection that has the field, and
      later entries come from later reflections. */
  lemma {:induction false} EntryOrigin(ms: seq<map<string, FieldMetadata>>, name: string, j: nat) returns (c: nat)
    requires j < |Entries(ms, name)|
    ensures c < |ms| && name in ms[c] && ms[c][name] == Entries(ms, name)[j]
    ensures j + 1 < |Entries(ms, name)| ==> exists d :: c < d < |ms| && name in ms[d] && ms[d][name] == Entries(ms, name)[j + 1]
    decreases |ms|
  {
    var init := ms[..|ms| - 1];
    var last := |ms| - 1;
    if j < |Entries(init, name)| {
      c := EntryOrigin(init, name, j);
      if j + 1 < |Entries(ms, name)| {
        if j + 1 < |Entries(init, name)| {
          var d := EntryOrigin(init, name, j + 1);
          var d' :| c < d' < |init| && name in init[d'] && init[d'][name] == Entries(init, name)[j + 1];
          assert ms[d'] == init[d'];
        } else {
          assert name in ms[last] && Entries(ms, name)[j + 1] == ms[last][name];
        }
      }
    } else {
      assert name in ms[last];
      c := last;
    }
  }

  /** The composite keys are exactly the field names seen, so no input
      gives no output. */
  lemma FieldCompositesKeys(ms: seq<map<string, FieldMetadata>>)
    ensures FieldComposites(ms).Keys == Names(ms)
    ensures ms == [] ==> FieldComposites(ms) == map[]
  {
  }

  /** A composite score lies between the field's smallest and largest
      score, and its explanation is the one recorded with the first
      occurrence of the smallest score. */
  lemma CompositeSpec(es: seq<FieldMetadata>)
    requires |es| > 0
    ensures var k := ArgMin(Scores(es));
      Composite(es).explanation == es[k].explanation &&
      (forall j :: 0 <= j < |es| ==> es[k].score <= es[j].score) &&
      (forall j :: 0 <= j < k ==> es[j].score > es[k].score) &&
      es[k].score <= Composite(es).score <= MaxOf(Scores(es))
  {
    var s := Scores(es);
    var k := ArgMin(s);
    assert forall j :: 0 <= j < |es| ==> s[j] == es[j].score;
    MeanBounds(s, s[k], MaxOf(s));
  }

  /** Each composite is the composite of the field's entries in input order. */
  lemma FieldCompositeAt(ms: seq<map<string, FieldMetadata>>, name: string)
    requires name in Names(ms)
    ensures |Entries(ms, name)| > 0
    ensures FieldComposites(ms)[name] == Composite(Entries(ms, name))
  {
    EntriesNonEmpty(ms, name);
  }

  /** The largest value of a non-empty list. */
  function MaxOf(xs: seq<real>): (m: real)
    requires |xs| > 0
    ensures forall j :: 0 <= j < |xs| ==> xs[j] <= m
    ensures exists j :: 0 <= j < |xs| && xs[j] == m
  {
    if |xs| == 1 then xs[0]
    else
      var rest := MaxOf(xs[1..]);
      assert forall j :: 1 <= j < |xs| ==> xs[j] == xs[1..][j - 1];
      if xs[0] >= rest then xs[0] else rest
  }

  // ---------------------------------------------------------------------
  // compute_field_metadata: the loops

  /** score_data's value for one field: the aligned score and explanation
      lists. */
  datatype FieldData = FieldData(scores: seq<real>, explanations: seq<string>)

  function DataOf(es: seq<FieldMetadata>): FieldData {
    FieldData(Scores(es), Explanations(es))
  }

  lemma {:induction false} NamesStep(ms: seq<map<string, FieldMetadata>>, i: nat)
    requires i < |ms|
    ensures Names(ms[..i + 1]) == Names(ms[..i]) + ms[i].Keys
    ensures forall name :: Entries(ms[..i + 1], name) == Entries(ms[..i], name) + (if name in ms[i] then [ms[i][name]] else [])
  {
    assert ms[..i + 1][..i] == ms[..i];
  }

  lemma DataOfAppend(es: seq<FieldMetadata>, e: FieldMetadata)
    ensures DataOf(es + [e]) == FieldData(DataOf(es).scores + [e.score], DataOf(es).explanations + [e.explanation])
  {
  }

  /** score_data once the reflections `ms` have been read: each field seen
      maps to its aligned score and explanation lists. */
  function ScoreData(ms: seq<map<string, FieldMetadata>>): map<string, FieldData>
  {
    map name | name in Names(ms) :: DataOf(Entries(ms, name))
  }

  /** A field's lists after one more occurrence: a new field starts both
      lists, a known field has both lists extended. */
  function AppendOne(data: map<string, FieldData>, name: string, md: FieldMetadata): FieldData
  {
    if name !in data then FieldData([md.score], [md.explanation])
    else FieldData(data[name].scores + [md.score], data[name].explanations + [md.explanation])
  }

  /** score_data after the fields `done` of reflection `m` were appended
      to `data0`. */
  function Partial(data0: map<string, FieldData>, m: map<string, FieldMetadata>, done: set<string>): map<string, FieldData>
    requires done <= m.Keys
  {
    map name | name in data0.Keys + done :: if name in done then AppendOne(data0, name, m[name]) else data0[name]
  }

  lemma PartialStep(data0: map<string, FieldData>, m: map<string, FieldMetadata>, done: set<string>, name: string)
    requires done <= m.Keys && name in m && name !in done
    ensures Partial(data0, m, done)[name := AppendOne(Partial(data0, m, done), name, m[name])] == Partial(data0, m, done + {name})
  {
    var p := Partial(data0, m, done);
    assert AppendOne(p, name, m[name]) == AppendOne(data0, name, m[name]);
  }

  /** Reading every field of one more reflection extends score_data. */
  lemma {:induction false} PartialComplete(ms: seq<map<string, FieldMetadata>>, i: nat)
    requires i < |ms|
    ensures Partial(ScoreData(ms[..i]), ms[i], ms[i].Keys) == ScoreData(ms[..i + 1])
  {
    NamesStep(ms, i);
    var data0 := ScoreData(ms[..i]);
    var lhs := Partial(data0, ms[i], ms[i].Keys);
    var rhs := ScoreData(ms[..i + 1]);
    forall name | name in rhs
      ensures name in lhs && lhs[name] == rhs[name]
    {
      PartialCompleteAt(ms, i, name);
    }
    assert lhs.Keys == rhs.Keys;
  }

  /** One field of PartialComplete. */
  lemma PartialCompleteAt(ms: seq<map<string, FieldMetadata>>, i: nat, name: string)
    requires i < |ms| && name in Names(ms[..i + 1])
    ensures var lhs := Partial(ScoreData(ms[..i]), ms[i], ms[i].Keys);
      name in lhs && lhs[name] == DataOf(Entries(ms[..i + 1], name))
  {
    NamesStep(ms, i);
    var data0 := ScoreData(ms[..i]);
    if name in ms[i] {
      var md := ms[i][name];
      if name in data0 {
        DataOfAppend(Entries(ms[..i], name), md);
      } else {
        EntriesNonEmpty(ms[..i], name);
        assert Entries(ms[..i + 1], name) == [md];
      }
    }
  }

  /** The score and explanation lists stay aligned: position j of both
      holds the score and explanation of one reflection that has the field. */
  lemma ScoreDataAligned(ms: seq<map<string, FieldMetadata>>, name: string, j: nat) returns (c: nat)
    requires name in ScoreData(ms) && j < |ScoreData(ms)[name].scores|
    ensures |ScoreData(ms)[name].explanations| == |ScoreData(ms)[name].scores|
    ensures c < |ms| && name in ms[c]
    ensures ms[c][name] == FieldMetadata(ScoreData(ms)[name].scores[j], ScoreData(ms)[name].explanations[j])
  {
    c := EntryOrigin(ms, name, j);
  }

  /** The first loop: one pass over the reflections, appending each field's
      score and explanation to that field's lists. */
  method CollectScoreData(ms: seq<map<string, FieldMetadata>>) returns (data: map<string, FieldData>)
    ensures data == ScoreData(ms)
  {
    data := map[];
    assert ScoreData(ms[..0]) == map[];
    for i := 0 to |ms|
      invariant data == ScoreData(ms[..i])
    {
      data := AddReflection(data, ms[i]);
      PartialComplete(ms, i);
    }
    assert ms[..|ms|] == ms;
  }

  /** The inner loop over one reflection's fields. */
  method AddReflection(data0: map<string, FieldData>, m: map<string, FieldMetadata>) returns (data: map<string, FieldData>)
    ensures data == Partial(data0, m, m.Keys)
  {
    data := data0;
    var remaining := m.Keys;
    ghost var done: set<string> := {};
    assert data0 == Partial(data0, m, {});
    while remaining != {}
      invariant done <= m.Keys && remaining <= m.Keys
      invariant forall name :: name in m ==> (name in done <==> name !in remaining)
      invariant data == Partial(data0, m, done)
      decreases |remaining|
    {
      var name :| name in remaining;
      var metadata := m[name];
      PartialStep(data0, m, done, name);
      if name !in data {
        data := data[name := FieldData([metadata.score], [metadata.explanation])];
      } else {
        data := data[name := FieldData(data[name].scores + [metadata.score], data[name].explanations + [metadata.explanation])];
      }
      remaining := remaining - {name};
      done := done + {name};
    }
    assert done == m.Keys;
  }

  /** The second loop: one composite per collected field. */
  method Summarize(data: map<string, FieldData>) returns (composite: map<string, FieldMetadata>)
    requires forall name :: name in data ==> |data[name].scores| > 0 && |data[name].explanations| == |data[name].scores|
    ensures composite.Keys == data.Keys
    ensures forall name :: name in composite ==>
      composite[name] == FieldMetadata(Mean(data[name].scores), data[name].explanations[ArgMin(data[name].scores)])
  {
    composite := map[];
    var remaining := data.Keys;
    while remaining != {}
      invariant remaining <= data.Keys
      invariant composite.Keys == data.Keys - remaining
      invariant forall name :: name in composite ==>
        composite[name] == FieldMetadata(Mean(data[name].scores), data[name].explanations[ArgMin(data[name].scores)])
      decreases |remaining|
    {
      var name :| name in remaining;
      var scores := data[name].scores;
      var minIndex := ArgMin(scores);
      composite := composite[name := FieldMetadata(Mean(scores), data[name].explanations[minIndex])];
      remaining := remaining - {name};
    }
  }

  /** compute_field_metadata, as the source computes it. */
  method ComputeFieldMetadata(ms: seq<map<string, FieldMetadata>>) returns (composite: map<string, FieldMetadata>)
    ensures composite == FieldComposites(ms)
  {
    var data := CollectScoreData(ms);
    forall name | name in data
      ensures |data[name].scores| > 0 && |data[name].explanations| == |data[name].scores|
    {
      EntriesNonEmpty(ms, name);
    }
    composite := Summarize(data);
    forall name | name in composite
      ensures composite[name] == FieldComposites(ms)[name]
    {
      EntriesNonEmpty(ms, name);
      var es := Entries(ms, name);
      assert data[name] == DataOf(es);
      assert Explanations(es)[ArgMin(Scores(es))] == es[ArgMin(Scores(es))].explanation;
    }
  }
}
