/** tlm/templates/score_mapping.py: the functions that turn a parsed score
    (a string, or whatever the decoded answer holds) into a number. Every
    table mapping is a dictionary lookup with default 0.5; a value that cannot
    be a dictionary key (a list or a dictionary) raises TypeError. */
module ScoreMapping {
  import opened Wrappers
  import opened Text
  import opened Json

  const Default: real := 0.5

  const Score5Table: map<string, real> := map[
    "5" := 1.0, "4" := 0.75, "3" := 0.5, "2" := 0.25, "1" := 0.0,
    "five" := 1.0, "four" := 0.75, "three" := 0.5, "two" := 0.25, "one" := 0.0]

  const Score10Table: map<string, real> := map[
    "10" := 1.0, "9" := 0.9, "8" := 0.8, "7" := 0.7, "6" := 0.6, "5" := 0.5,
    "4" := 0.4, "3" := 0.3, "2" := 0.2, "1" := 0.1, "0" := 0.0,
    "ten" := 1.0, "nine" := 0.9, "eight" := 0.8, "seven" := 0.7, "six" := 0.6, "five" := 0.5,
    "four" := 0.4, "three" := 0.3, "two" := 0.2, "one" := 0.1, "zero" := 0.0]

  /** The spelled-out numerals of 0..10. */
  const NumberWords: seq<string> := ["zero", "one", "two", "three", "four", "five", "six", "seven", "eight", "nine", "ten"]

  const YesNoTable: map<string, real> := map["Yes" := 1.0, "No" := 0.0, "yes" := 1.0, "no" := 0.0]

  const ABTable: map<string, real> := map["A" := 1.0, "B" := 0.0, "a" := 1.0, "b" := 0.0]

  const TrueFalseStrings: map<string, real> := map["True" := 1.0, "False" := 0.0, "true" := 1.0, "false" := 0.0]

  const CertaintyTable: map<string, real> := map[
    "certain" := 1.0, "mostly certain" := 0.75, "somewhat certain" := 0.5,
    "uncertain" := 0.25, "likely incorrect" := 0.0]

  predicate Hashable(x: Json) {
    !x.JArr? && !x.JObj?
  }

  predicate InUnit(table: map<string, real>) {
    forall k :: k in table ==> 0.0 <= table[k] <= 1.0
  }

  /** `table.get(x, 0.5)` for a table whose keys are strings. */
  function Lookup(table: map<string, real>, x: Json): (r: Result<real>)
    ensures r.Ok? <==> Hashable(x)
    ensures r.Ok? && InUnit(table) ==> 0.0 <= r.value <= 1.0
    ensures r.Ok? && r.value != Default ==> x.JStr? && x.s in table
  {
    if !Hashable(x) then Err("TypeError: unhashable type")
    else if x.JStr? && x.s in table then Ok(table[x.s])
    else Ok(Default)
  }

  /** score_5_mapping. */
  function Score5(x: Json): (r: Result<real>)
    ensures r.Ok? <==> Hashable(x)
    ensures r.Ok? ==> 0.0 <= r.value <= 1.0
    ensures x.JStr? && x.s !in Score5Table ==> r == Ok(Default)
  {
    Lookup(Score5Table, x)
  }

  /** score_10_mapping. */
  function Score10(x: Json): (r: Result<real>)
    ensures r.Ok? <==> Hashable(x)
    ensures r.Ok? ==> 0.0 <= r.value <= 1.0
    ensures x.JStr? && x.s !in Score10Table ==> r == Ok(Default)
  {
    Lookup(Score10Table, x)
  }

  /** The decimal numeral of 0..10. */
  function Numeral(n: nat): (s: string)
    requires n <= 10
    ensures IsDecimal(s) && DecimalValue(s) == n
  {
    if n == 10 then
      assert "10"[..1] == "1";
      "10"
    else [('0' as int + n) as char]
  }

  /** The 1-5 table maps the numeral n to (n - 1) / 4. */
  lemma Score5Numerals()
    ensures forall n :: 1 <= n <= 5 ==> Numeral(n) in Score5Table && Score5Table[Numeral(n)] == (n - 1) as real / 4.0
  {
    assert Numeral(1) == "1" && Numeral(2) == "2" && Numeral(3) == "3" && Numeral(4) == "4" && Numeral(5) == "5";
  }

  /** The 0-10 table maps the numeral n to n / 10. */
  lemma Score10Numerals()
    ensures forall n :: 0 <= n <= 10 ==> Numeral(n) in Score10Table && Score10Table[Numeral(n)] == n as real / 10.0
  {
    assert Numeral(0) == "0" && Numeral(1) == "1" && Numeral(2) == "2" && Numeral(3) == "3" && Numeral(4) == "4";
    assert Numeral(5) == "5" && Numeral(6) == "6" && Numeral(7) == "7" && Numeral(8) == "8" && Numeral(9) == "9";
  }

  /** Each spelled-out numeral maps like its digits, in both tables. */
  lemma WordsMatchDigits()
    ensures forall n :: 0 <= n <= 10 ==> NumberWords[n] in Score10Table && Score10Table[NumberWords[n]] == Score10Table[Numeral(n)]
    ensures forall n :: 1 <= n <= 5 ==> NumberWords[n] in Score5Table && Score5Table[NumberWords[n]] == Score5Table[Numeral(n)]
  {
    Score5Numerals();
    Score10Numerals();
  }

  /** score_100_mapping: float(x) / 100 with no clamping; a string that does not
      parse as a float gives 0.5, and a value float() rejects with TypeError
      raises. `parseFloat` stands for Python's float() on strings. */
  function Score100(x: Json, parseFloat: string -> Option<real>): (r: Result<real>)
    ensures r.Ok? <==> x.JStr? || x.JNum? || x.JBool?
    ensures x.JStr? && parseFloat(x.s).None? ==> r == Ok(Default)
    ensures x.JStr? && parseFloat(x.s).Some? ==> r == Ok(parseFloat(x.s).value / 100.0)
    ensures x.JNum? ==> r == Ok(x.n / 100.0)
  {
    match x
    case JStr(s) => if parseFloat(s).None? then Ok(Default) else Ok(parseFloat(s).value / 100.0)
    case JNum(n) => Ok(n / 100.0)
    case JBool(b) => Ok(if b then 0.01 else 0.0)
    case _ => Err("TypeError: float() argument must be a string or a real number")
  }

  /** Scores above 100 are not clamped: "150" maps to 1.5. */
  lemma Score100NotClamped(parseFloat: string -> Option<real>)
    requires parseFloat("150") == Some(150.0)
    ensures Score100(JStr("150"), parseFloat) == Ok(1.5)
  {
  }

  /** true_false_mapping: the four spellings, the booleans, and the numbers
      equal to them as dictionary keys (1 and 0). */
  function TrueFalse(x: Json): (r: Result<real>)
    ensures r.Ok? <==> Hashable(x)
    ensures r == Ok(1.0) <==> x in {JStr("True"), JStr("true"), JBool(true), JNum(1.0)}
    ensures r == Ok(0.0) <==> x in {JStr("False"), JStr("false"), JBool(false), JNum(0.0)}
    ensures r.Ok? ==> r.value in {0.0, 0.5, 1.0}
  {
    match x
    case JBool(b) => Ok(if b then 1.0 else 0.0)
    case JNum(n) => Ok(if n == 1.0 then 1.0 else if n == 0.0 then 0.0 else Default)
    case _ => Lookup(TrueFalseStrings, x)
  }

  /** yes_no_mapping. */
  function YesNo(x: Json): (r: Result<real>)
    ensures r.Ok? <==> Hashable(x)
    ensures r == Ok(1.0) <==> x in {JStr("Yes"), JStr("yes")}
    ensures r == Ok(0.0) <==> x in {JStr("No"), JStr("no")}
    ensures r.Ok? ==> r.value in {0.0, 0.5, 1.0}
  {
    Lookup(YesNoTable, x)
  }

  /** ab_mapping. */
  function AB(x: Json): (r: Result<real>)
    ensures r.Ok? <==> Hashable(x)
    ensures r == Ok(1.0) <==> x in {JStr("A"), JStr("a")}
    ensures r == Ok(0.0) <==> x in {JStr("B"), JStr("b")}
    ensures r.Ok? ==> r.value in {0.0, 0.5, 1.0}
  {
    Lookup(ABTable, x)
  }

  /** certainty_mapping: lower-cases a string before the lookup; a non-string
      has no `lower` and raises. */
  function Certainty(x: Json): (r: Result<real>)
    ensures r.Ok? <==> x.JStr?
    ensures r.Ok? ==> 0.0 <= r.value <= 1.0
    ensures r.Ok? && r.value != Default ==> Lower(x.s) in CertaintyTable
  {
    if !x.JStr? then Err("AttributeError: object has no attribute 'lower'")
    else Lookup(CertaintyTable, JStr(Lower(x.s)))
  }

  /** The certainty levels ignore case and are strictly ordered. */
  lemma CertaintyProperties(s: string)
    ensures Certainty(JStr(s)) == Certainty(JStr(Lower(s)))
    ensures Certainty(JStr("Certain")).value > Certainty(JStr("Mostly Certain")).value
            > Certainty(JStr("Somewhat Certain")).value > Certainty(JStr("Uncertain")).value
            > Certainty(JStr("Likely Incorrect")).value
  {
    LowerIdempotent(s);
    assert Lower("Certain") == "certain";
    assert Lower("Mostly Certain") == "mostly certain";
    assert Lower("Somewhat Certain") == "somewhat certain";
    assert Lower("Uncertain") == "uncertain";
    assert Lower("Likely Incorrect") == "likely incorrect";
  }

  /** The mapper a template carries. */
  datatype ScoreMapper =
    | Score5Mapper
    | Score10Mapper
    | Score100Mapper(parseFloat: string -> Option<real>)
    | TrueFalseMapper
    | YesNoMapper
    | ABMapper
    | CertaintyMapper

  function Apply(m: ScoreMapper, x: Json): (r: Result<real>)
    ensures r.Ok? && !m.Score100Mapper? ==> 0.0 <= r.value <= 1.0
  {
    match m
    case Score5Mapper => Score5(x)
    case Score10Mapper => Score10(x)
    case Score100Mapper(parse) => Score100(x, parse)
    case TrueFalseMapper => TrueFalse(x)
    case YesNoMapper => YesNo(x)
    case ABMapper => AB(x)
    case CertaintyMapper => Certainty(x)
  }
}
