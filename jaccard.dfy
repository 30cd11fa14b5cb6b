/** tlm/utils/scoring/jaccard_utils.py: word-set Jaccard similarity, with a
    structured variant that discounts the keys of a decoded answer. */
module Jaccard {
  import opened Wrappers
  import opened Text
  import opened Json

  /** A non-empty run of word characters. */
  predicate IsWord(w: string) {
    |w| > 0 && forall i :: 0 <= i < |w| ==> IsWordChar(w[i])
  }

  /** Drops the leading non-word characters. */
  function SkipNonWord(s: string): (t: string)
    ensures |t| <= |s| && t == s[|s| - |t|..]
    ensures t == [] || IsWordChar(t[0])
    ensures forall i :: 0 <= i < |s| - |t| ==> !IsWordChar(s[i])
  {
    if s == [] || IsWordChar(s[0]) then s else SkipNonWord(s[1..])
  }

  /** The length of the leading run of word characters. */
  function WordLength(s: string): (n: nat)
    ensures n <= |s|
    ensures forall i :: 0 <= i < n ==> IsWordChar(s[i])
    ensures n == |s| || !IsWordChar(s[n])
  {
    if s == [] || !IsWordChar(s[0]) then 0 else 1 + WordLength(s[1..])
  }

  /** extract_words: the matches of `\b\w+\b`, which are the maximal runs of
      word characters, left to right. */
  function ExtractWords(s: string): (ws: seq<string>)
    ensures forall i :: 0 <= i < |ws| ==> IsWord(ws[i])
    decreases |s|
  {
    var t := SkipNonWord(s);
    if t == [] then []
    else
      var n := WordLength(t);
      FirstWord(t);
      var word, rest := t[..n], ExtractWords(t[n..]);
      WordsCons(word, rest);
      [word] + rest
  }

  /** After the gap, a non-empty string starts with a word. */
  lemma FirstWord(t: string)
    requires t != [] && IsWordChar(t[0])
    ensures 0 < WordLength(t) <= |t|
    ensures IsWord(t[..WordLength(t)])
  {
    var n := WordLength(t);
    assert t[..n][0] == t[0];
  }

  lemma WordsCons(word: string, rest: seq<string>)
    requires IsWord(word) && forall i :: 0 <= i < |rest| ==> IsWord(rest[i])
    ensures forall i :: 0 <= i < |[word] + rest| ==> IsWord(([word] + rest)[i])
  {
    forall i | 0 <= i < |[word] + rest| ensures IsWord(([word] + rest)[i]) {
      if i > 0 { assert ([word] + rest)[i] == rest[i - 1]; }
    }
  }

  /** The word characters of `s`, in order. */
  function WordChars(s: string): string
  {
    if s == [] then [] else (if IsWordChar(s[0]) then [s[0]] else []) + WordChars(s[1..])
  }

  function Concat(ws: seq<string>): string
  {
    if ws == [] then [] else ws[0] + Concat(ws[1..])
  }

  lemma {:induction false} WordCharsAppend(x: string, y: string)
    ensures WordChars(x + y) == WordChars(x) + WordChars(y)
    decreases |x|
  {
    if x == [] {
      assert x + y == y;
    } else {
      var head := if IsWordChar(x[0]) then [x[0]] else [];
      assert (x + y)[0] == x[0];
      assert (x + y)[1..] == x[1..] + y;
      assert WordChars(x + y) == head + WordChars(x[1..] + y);
      WordCharsAppend(x[1..], y);
      assert WordChars(x) == head + WordChars(x[1..]);
    }
  }

  lemma {:induction false} WordCharsOfWord(w: string)
    requires forall i :: 0 <= i < |w| ==> IsWordChar(w[i])
    ensures WordChars(w) == w
    decreases |w|
  {
    if w != [] {
      WordCharsOfWord(w[1..]);
    }
  }

  lemma {:induction false} WordCharsOfGap(g: string)
    requires forall i :: 0 <= i < |g| ==> !IsWordChar(g[i])
    ensures WordChars(g) == []
    decreases |g|
  {
    if g != [] {
      WordCharsOfGap(g[1..]);
    }
  }

  lemma WordCharsAfterSkip(s: string)
    ensures WordChars(SkipNonWord(s)) == WordChars(s)
  {
    var t := SkipNonWord(s);
    var gap := s[..|s| - |t|];
    assert s == gap + t;
    WordCharsAppend(gap, t);
    WordCharsOfGap(gap);
  }

  lemma ConcatCons(w: string, ws: seq<string>)
    ensures Concat([w] + ws) == w + Concat(ws)
  {
    assert ([w] + ws)[0] == w && ([w] + ws)[1..] == ws;
  }

  /** The extracted words, concatenated, are exactly the word characters of
      the input: no word character is lost and none is invented. */
  lemma {:induction false} ExtractWordsCoversWordChars(s: string)
    ensures Concat(ExtractWords(s)) == WordChars(s)
    decreases |s|
  {
    var t := SkipNonWord(s);
    if t == [] {
      WordCharsAfterSkip(s);
      assert ExtractWords(s) == [];
    } else {
      var n := WordLength(t);
      ExtractWordsCoversWordChars(t[n..]);
      CoversStep(s, t, n);
    }
  }

  /** The step of the induction: the first word, then the rest's words. */
  lemma CoversStep(s: string, t: string, n: nat)
    requires t == SkipNonWord(s) && t != [] && n == WordLength(t)
    requires Concat(ExtractWords(t[n..])) == WordChars(t[n..])
    ensures Concat(ExtractWords(s)) == WordChars(s)
  {
    var word, rest := t[..n], t[n..];
    calc {
      Concat(ExtractWords(s));
      { assert ExtractWords(s) == [word] + ExtractWords(rest); }
      Concat([word] + ExtractWords(rest));
      { ConcatCons(word, ExtractWords(rest)); }
      word + Concat(ExtractWords(rest));
      word + WordChars(rest);
      { WordCharsSplit(t, n); }
      WordChars(t);
      { WordCharsAfterSkip(s); }
      WordChars(s);
    }
  }

  /** A leading run of word characters is kept whole. */
  lemma WordCharsSplit(t: string, n: nat)
    requires n <= |t| && forall i :: 0 <= i < n ==> IsWordChar(t[i])
    ensures WordChars(t) == t[..n] + WordChars(t[n..])
  {
    var word, rest := t[..n], t[n..];
    assert t == word + rest;
    WordCharsAppend(word, rest);
    WordCharsOfWord(word);
  }

  lemma {:induction false} SkipGap(g: string, t: string)
    requires forall i :: 0 <= i < |g| ==> !IsWordChar(g[i])
    requires t == [] || IsWordChar(t[0])
    ensures SkipNonWord(g + t) == t
    decreases |g|
  {
    if g == [] {
      assert g + t == t;
    } else {
      assert (g + t)[1..] == g[1..] + t;
      SkipGap(g[1..], t);
    }
  }

  lemma {:induction false} WordLengthOfWord(w: string, rest: string)
    requires forall i :: 0 <= i < |w| ==> IsWordChar(w[i])
    requires rest == [] || !IsWordChar(rest[0])
    ensures WordLength(w + rest) == |w|
    decreases |w|
  {
    if w == [] {
      assert w + rest == rest;
    } else {
      assert (w + rest)[1..] == w[1..] + rest;
      WordLengthOfWord(w[1..], rest);
    }
  }

  /** A gap of non-word characters, then a word ended by a non-word character
      or the end of input: the word is the next match. */
  lemma ExtractWordsStep(g: string, w: string, rest: string)
    requires forall i :: 0 <= i < |g| ==> !IsWordChar(g[i])
    requires IsWord(w)
    requires rest == [] || !IsWordChar(rest[0])
    ensures ExtractWords(g + w + rest) == [w] + ExtractWords(rest)
  {
    assert g + w + rest == g + (w + rest);
    SkipGap(g, w + rest);
    WordLengthOfWord(w, rest);
    assert (w + rest)[..|w|] == w && (w + rest)[|w|..] == rest;
  }

  /** A string without word characters has no words. */
  lemma ExtractWordsGap(g: string)
    requires forall i :: 0 <= i < |g| ==> !IsWordChar(g[i])
    ensures ExtractWords(g) == []
  {
    SkipGap(g, []);
    assert g + [] == g;
  }

  predicate IsGap(g: string) {
    forall i :: 0 <= i < |g| ==> !IsWordChar(g[i])
  }

  /** gaps[0] + words[0] + gaps[1] + ... + words[n-1] + gaps[n]. */
  function Interleave(gaps: seq<string>, words: seq<string>): string
    requires |gaps| == |words| + 1
  {
    if words == [] then gaps[0] else gaps[0] + words[0] + Interleave(gaps[1..], words[1..])
  }

  lemma InterleaveStart(gaps: seq<string>, words: seq<string>)
    requires |gaps| == |words| + 1 && words != [] && gaps[0] != []
    ensures Interleave(gaps, words) != [] && Interleave(gaps, words)[0] == gaps[0][0]
  {
    var tail := words[0] + Interleave(gaps[1..], words[1..]);
    assert Interleave(gaps, words) == gaps[0] + tail;
  }

  /** Conversely, any split of a string into words separated by non-empty
      gaps of non-word characters is the one extract_words finds. */
  lemma {:induction false} ExtractWordsOfInterleave(gaps: seq<string>, words: seq<string>)
    requires |gaps| == |words| + 1
    requires forall k :: 0 <= k < |gaps| ==> IsGap(gaps[k])
    requires forall k :: 0 <= k < |words| ==> IsWord(words[k])
    requires forall k :: 0 < k < |words| ==> gaps[k] != []
    ensures ExtractWords(Interleave(gaps, words)) == words
    decreases |words|
  {
    if words == [] {
      ExtractWordsGap(gaps[0]);
    } else {
      var gs, ws := gaps[1..], words[1..];
      SplitTail(gaps, words);
      ExtractWordsOfInterleave(gs, ws);
      InterleaveRestStart(gs, ws);
      InterleaveCons(gaps, words, ws);
    }
  }

  /** The tails of a split are a split. */
  lemma SplitTail(gaps: seq<string>, words: seq<string>)
    requires |gaps| == |words| + 1 && words != []
    requires forall k :: 0 <= k < |gaps| ==> IsGap(gaps[k])
    requires forall k :: 0 <= k < |words| ==> IsWord(words[k])
    requires forall k :: 0 < k < |words| ==> gaps[k] != []
    ensures IsGap(gaps[0]) && IsWord(words[0])
    ensures forall k :: 0 <= k < |gaps[1..]| ==> IsGap(gaps[1..][k])
    ensures forall k :: 0 <= k < |words[1..]| ==> IsWord(words[1..][k])
    ensures forall k :: 0 < k < |words[1..]| ==> gaps[1..][k] != []
    ensures |words| > 1 ==> gaps[1..][0] != []
  {
  }

  /** What follows a gap-then-word prefix starts with a non-word character. */
  lemma InterleaveRestStart(gs: seq<string>, ws: seq<string>)
    requires |gs| == |ws| + 1 && IsGap(gs[0]) && (ws != [] ==> gs[0] != [])
    ensures var rest := Interleave(gs, ws); rest == [] || !IsWordChar(rest[0])
  {
    if ws != [] {
      InterleaveStart(gs, ws);
    } else {
      assert Interleave(gs, ws) == gs[0];
    }
  }

  /** Putting the first gap and word in front of a split that extracts to
      the remaining words. */
  lemma InterleaveCons(gaps: seq<string>, words: seq<string>, ws: seq<string>)
    requires |gaps| == |words| + 1 && words != [] && ws == words[1..]
    requires IsGap(gaps[0]) && IsWord(words[0])
    requires var rest := Interleave(gaps[1..], words[1..]);
      (rest == [] || !IsWordChar(rest[0])) && ExtractWords(rest) == ws
    ensures ExtractWords(Interleave(gaps, words)) == words
  {
    InterleaveHead(gaps, words);
    assert [words[0]] + ws == words;
    ExtractWordsCons(gaps[0], words[0], Interleave(gaps[1..], words[1..]), ws);
  }

  lemma ExtractWordsCons(g: string, w: string, rest: string, ws: seq<string>)
    requires IsGap(g) && IsWord(w)
    requires (rest == [] || !IsWordChar(rest[0])) && ExtractWords(rest) == ws
    ensures ExtractWords(g + w + rest) == [w] + ws
  {
    ExtractWordsStep(g, w, rest);
  }

  lemma InterleaveHead(gaps: seq<string>, words: seq<string>)
    requires |gaps| == |words| + 1 && words != []
    ensures Interleave(gaps, words) == gaps[0] + words[0] + Interleave(gaps[1..], words[1..])
  {
  }

  /** The word set of a string given by its split into gaps and words. */
  lemma WordSetOf(s: string, gaps: seq<string>, words: seq<string>)
    requires |gaps| == |words| + 1 && s == Interleave(gaps, words)
    requires forall k :: 0 <= k < |gaps| ==> IsGap(gaps[k])
    requires forall k :: 0 <= k < |words| ==> IsWord(words[k])
    requires forall k :: 0 < k < |words| ==> gaps[k] != []
    ensures WordSet(s) == set w | w in words
  {
    ExtractWordsOfInterleave(gaps, words);
  }

  /** Two words with gaps around them and a non-empty gap between them. */
  lemma WordSetTwo(s: string, g0: string, w0: string, g1: string, w1: string, g2: string)
    requires s == g0 + w0 + g1 + w1 + g2
    requires IsGap(g0) && IsGap(g1) && IsGap(g2) && g1 != []
    requires IsWord(w0) && IsWord(w1)
    ensures WordSet(s) == {w0, w1}
  {
    var gaps, words := [g0, g1, g2], [w0, w1];
    assert Interleave(gaps[2..], words[2..]) == g2;
    assert Interleave(gaps[1..], words[1..]) == g1 + w1 + g2;
    assert Interleave(gaps, words) == s;
    WordSetOf(s, gaps, words);
    assert (set w | w in words) == {w0, w1};
  }

  /** Four words with gaps around them and non-empty gaps between them. */
  lemma WordSetFour(s: string, g0: string, w0: string, g1: string, w1: string, g2: string, w2: string,
                    g3: string, w3: string, g4: string)
    requires s == g0 + w0 + g1 + w1 + g2 + w2 + g3 + w3 + g4
    requires IsGap(g0) && IsGap(g1) && IsGap(g2) && IsGap(g3) && IsGap(g4)
    requires g1 != [] && g2 != [] && g3 != []
    requires IsWord(w0) && IsWord(w1) && IsWord(w2) && IsWord(w3)
    ensures WordSet(s) == {w0, w1, w2, w3}
  {
    var gaps, words := [g0, g1, g2, g3, g4], [w0, w1, w2, w3];
    InterleaveFour(g0, w0, g1, w1, g2, w2, g3, w3, g4);
    WordSetOf(s, gaps, words);
    assert (set w | w in words) == {w0, w1, w2, w3};
  }

  lemma InterleaveFour(g0: string, w0: string, g1: string, w1: string, g2: string, w2: string,
                       g3: string, w3: string, g4: string)
    ensures Interleave([g0, g1, g2, g3, g4], [w0, w1, w2, w3]) == g0 + w0 + g1 + w1 + g2 + w2 + g3 + w3 + g4
  {
    var gaps, words := [g0, g1, g2, g3, g4], [w0, w1, w2, w3];
    assert Interleave(gaps[4..], words[4..]) == g4;
    assert Interleave(gaps[3..], words[3..]) == g3 + w3 + g4;
    assert Interleave(gaps[2..], words[2..]) == g2 + w2 + g3 + w3 + g4;
    assert Interleave(gaps[1..], words[1..]) == g1 + w1 + g2 + w2 + g3 + w3 + g4;
  }

  /** Words hold letters, digits and underscores only, so the one character of
      `string.punctuation` that can appear inside a word is the underscore. */
  lemma WordPunctuationIsUnderscore(s: string, k: nat, i: nat)
    requires k < |ExtractWords(s)| && i < |ExtractWords(s)[k]|
    ensures IsPunctuation(ExtractWords(s)[k][i]) ==> ExtractWords(s)[k][i] == '_'
  {
    var w := ExtractWords(s)[k];
    assert IsWord(w);
    assert IsWordChar(w[i]);
  }

  function WordSet(s: string): set<string>
  {
    set w | w in ExtractWords(s)
  }

  lemma {:induction false} SubsetCardinality(x: set<string>, y: set<string>)
    requires x <= y
    ensures |x| <= |y|
    decreases |x|
  {
    if x != {} {
      var e :| e in x;
      SubsetCardinality(x - {e}, y - {e});
    }
  }

  /** max(0, I - S) / max(1, U - S) for word sets `a`, `b` and `s` discounted
      keys; the plain similarity is the case `s = 0`. */
  function Similarity(a: set<string>, b: set<string>, s: nat): (r: real)
    ensures 0.0 <= r <= 1.0
  {
    SubsetCardinality(a * b, a + b);
    var i := |a * b| - s;
    var u := |a + b| - s;
    (if i > 0 then i else 0) as real / (if u > 1 then u else 1) as real
  }

  /** get_all_keys: every dictionary key found anywhere inside `j`, through
      dictionaries, lists and tuples; other values contribute nothing. */
  function AllKeys(j: Json): set<string>
  {
    match j
    case JObj(fields) => fields.Keys + (set k, x | k in fields && x in AllKeys(fields[k]) :: x)
    case JArr(items) => set i, x | 0 <= i < |items| && x in AllKeys(items[i]) :: x
    case _ => {}
  }

  /** The keys below the entries of `fields` whose key is in `done`. */
  ghost function FieldKeysBelow(fields: map<string, Json>, done: set<string>): set<string>
  {
    set k, x | k in done && k in fields && x in AllKeys(fields[k]) :: x
  }

  lemma FieldKeysBelowAdd(fields: map<string, Json>, done: set<string>, k: string)
    requires k in fields
    ensures FieldKeysBelow(fields, done + {k}) == FieldKeysBelow(fields, done) + AllKeys(fields[k])
  {
  }

  /** The keys below the first `i` items. */
  ghost function ItemKeysBelow(items: seq<Json>, i: nat): set<string>
  {
    set n, x | 0 <= n < i && n < |items| && x in AllKeys(items[n]) :: x
  }

  lemma ItemKeysBelowStep(items: seq<Json>, i: nat)
    requires i < |items|
    ensures ItemKeysBelow(items, i + 1) == ItemKeysBelow(items, i) + AllKeys(items[i])
  {
  }

  lemma AllKeysObj(fields: map<string, Json>)
    ensures AllKeys(JObj(fields)) == fields.Keys + FieldKeysBelow(fields, fields.Keys)
  {
    var below := set k, x | k in fields && x in AllKeys(fields[k]) :: x;
    forall x ensures x in below <==> x in FieldKeysBelow(fields, fields.Keys) {
      if x in below {
        var k :| k in fields && x in AllKeys(fields[k]);
        assert k in fields.Keys;
      }
    }
  }

  lemma AllKeysArr(items: seq<Json>)
    ensures AllKeys(JArr(items)) == ItemKeysBelow(items, |items|)
  {
    var below := set n, x | 0 <= n < |items| && x in AllKeys(items[n]) :: x;
    forall x ensures x in below <==> x in ItemKeysBelow(items, |items|) {
      if x in ItemKeysBelow(items, |items|) {
        var n :| 0 <= n < |items| && n < |items| && x in AllKeys(items[n]);
        assert x in below;
      }
    }
  }

  /** get_all_keys as written: a set built up by adding each key and the keys
      below it, one dictionary entry or list item at a time. */
  method GetAllKeys(j: Json) returns (keys: set<string>)
    ensures keys == AllKeys(j)
    decreases j, 1
  {
    match j {
      case JObj(fields) =>
        keys := GetObjectKeys(j, fields);
      case JArr(items) =>
        keys := GetArrayKeys(j, items);
      case _ =>
        keys := {};
    }
  }

  /** The dictionary branch: each key, then the keys below its value. */
  method GetObjectKeys(j: Json, fields: map<string, Json>) returns (keys: set<string>)
    requires j == JObj(fields)
    ensures keys == AllKeys(j)
    decreases j, 0
  {
    keys := {};
    var remaining := fields.Keys;
    ghost var done := {};
    while remaining != {}
      invariant remaining <= fields.Keys && done == fields.Keys - remaining
      invariant keys == done + FieldKeysBelow(fields, done)
      decreases |remaining|
    {
      var k :| k in remaining;
      var below := GetAllKeys(fields[k]);
      FieldKeysBelowAdd(fields, done, k);
      keys := keys + {k} + below;
      assert keys == (done + {k}) + FieldKeysBelow(fields, done + {k});
      remaining := remaining - {k};
      done := done + {k};
    }
    AllKeysObj(fields);
  }

  /** The list and tuple branch: the keys below each item. */
  method GetArrayKeys(j: Json, items: seq<Json>) returns (keys: set<string>)
    requires j == JArr(items)
    ensures keys == AllKeys(j)
    decreases j, 0
  {
    keys := {};
    var i := 0;
    while i < |items|
      invariant 0 <= i <= |items|
      invariant keys == ItemKeysBelow(items, i)
    {
      var below := GetAllKeys(items[i]);
      ItemKeysBelowStep(items, i);
      keys := keys + below;
      i := i + 1;
    }
    AllKeysArr(items);
  }

  /** get_structured_output_keys: the keys of the answer once decoded as a
      Python literal; an answer that does not decode has none. */
  function StructuredKeys(answer: string, literalEval: string -> Option<Json>): (r: set<string>)
    ensures literalEval(answer).None? ==> r == {}
    ensures literalEval(answer).Some? ==> r == AllKeys(literalEval(answer).value)
  {
    match literalEval(answer)
    case None => {}
    case Some(d) => AllKeys(d)
  }

  /** jaccard_similarity. Only the answer's keys are discounted. */
  function JaccardSimilarity(answer: string, comparison: string, structured: bool,
                             literalEval: string -> Option<Json>): (r: real)
    ensures 0.0 <= r <= 1.0
  {
    if structured then Similarity(WordSet(answer), WordSet(comparison), |StructuredKeys(answer, literalEval)|)
    else Similarity(WordSet(answer), WordSet(comparison), 0)
  }

  /** Plain similarity does not depend on argument order. */
  lemma JaccardSymmetric(a: string, b: string, literalEval: string -> Option<Json>)
    ensures JaccardSimilarity(a, b, false, literalEval) == JaccardSimilarity(b, a, false, literalEval)
  {
    SimilaritySymmetric(WordSet(a), WordSet(b), 0);
  }

  lemma SimilaritySymmetric(x: set<string>, y: set<string>, s: nat)
    ensures Similarity(x, y, s) == Similarity(y, x, s)
  {
    assert x * y == y * x && x + y == y + x;
  }

  lemma SimilaritySelf(w: set<string>, k: nat)
    requires k < |w|
    ensures Similarity(w, w, k) == 1.0
  {
    assert w * w == w && w + w == w;
  }

  /** A string with at least one word is fully similar to itself. */
  lemma JaccardIdentical(s: string, literalEval: string -> Option<Json>)
    requires WordSet(s) != {}
    ensures JaccardSimilarity(s, s, false, literalEval) == 1.0
  {
    SimilaritySelf(WordSet(s), 0);
  }

  /** In the structured variant an answer compared with itself scores 1.0 as
      long as it has more words than keys. */
  lemma StructuredIdentical(s: string, literalEval: string -> Option<Json>)
    requires |StructuredKeys(s, literalEval)| < |WordSet(s)|
    ensures JaccardSimilarity(s, s, true, literalEval) == 1.0
  {
    SimilaritySelf(WordSet(s), |StructuredKeys(s, literalEval)|);
  }

  /** Two strings without words score 0.0, not 1.0. */
  lemma JaccardWordless(a: string, b: string, structured: bool, literalEval: string -> Option<Json>)
    requires ExtractWords(a) == [] && ExtractWords(b) == []
    ensures JaccardSimilarity(a, b, structured, literalEval) == 0.0
  {
    assert WordSet(a) == {} && WordSet(b) == {};
  }

  lemma SimilarityOneThird(x: set<string>, y: set<string>)
    requires x == {"Hello", "world"} && y == {"Hello", "universe"}
    ensures Similarity(x, y, 0) == 1.0 / 3.0
  {
    assert "Hello"[0] != "world"[0];
    assert x * y == {"Hello"};
    assert x + y == {"Hello", "world", "universe"};
  }

  lemma HelloWorldWords(a: string)
    requires a == "Hello, world!"
    ensures WordSet(a) == {"Hello", "world"}
  {
    WordSetTwo(a, "", "Hello", ", ", "world", "!");
  }

  lemma HelloUniverseWords(b: string)
    requires b == "Hello, universe!"
    ensures WordSet(b) == {"Hello", "universe"}
  {
    WordSetTwo(b, "", "Hello", ", ", "universe", "!");
  }

  /** "Hello, world!" against "Hello, universe!" scores 1/3. */
  lemma JaccardExampleOneThird(a: string, b: string, literalEval: string -> Option<Json>)
    requires a == "Hello, world!" && b == "Hello, universe!"
    ensures JaccardSimilarity(a, b, false, literalEval) == 1.0 / 3.0
  {
    HelloWorldWords(a);
    HelloUniverseWords(b);
    SimilarityOneThird(WordSet(a), WordSet(b));
  }

  lemma HelloWorldQuestionWords(b: string)
    requires b == "Hello, world!?"
    ensures WordSet(b) == {"Hello", "world"}
  {
    WordSetTwo(b, "", "Hello", ", ", "world", "!?");
  }

  /** A difference in punctuation only does not lower the score. */
  lemma JaccardExamplePunctuation(a: string, b: string, literalEval: string -> Option<Json>)
    requires a == "Hello, world!" && b == "Hello, world!?"
    ensures JaccardSimilarity(a, b, false, literalEval) == 1.0
  {
    HelloWorldWords(a);
    HelloWorldQuestionWords(b);
    assert WordSet(a) == WordSet(b);
    SimilaritySelf(WordSet(a), 0);
  }

  lemma SimilarityCase(x: set<string>, y: set<string>)
    requires x == {"Hello"} && y == {"hello"}
    ensures Similarity(x, y, 0) == 0.0
  {
    assert "Hello"[0] != "hello"[0];
    assert x * y == {};
  }

  /** A string of word characters only is one word. */
  lemma SingleWord(a: string)
    requires a in {"Hello", "hello"}
    ensures WordSet(a) == {a}
  {
    WordSetOf(a, ["", ""], [a]);
  }

  /** Comparison is case-sensitive: "Hello" and "hello" share no word. */
  lemma JaccardExampleCase(a: string, b: string, literalEval: string -> Option<Json>)
    requires a == "Hello" && b == "hello"
    ensures JaccardSimilarity(a, b, false, literalEval) == 0.0
  {
    SingleWord(a);
    SingleWord(b);
    SimilarityCase(WordSet(a), WordSet(b));
  }

  /** The structured answer {'name': 'John', 'age': 30}, decoded. */
  function JohnRecord(): Json {
    JObj(map["name" := JStr("John"), "age" := JNum(30.0)])
  }

  lemma JohnWords(a: string)
    requires a == "{'name': 'John', 'age': 30}"
    ensures WordSet(a) == {"name", "John", "age", "30"}
  {
    WordSetFour(a, "{'", "name", "': '", "John", "', '", "age", "': ", "30", "}");
  }

  lemma JaneWords(b: string)
    requires b == "{'name': 'Jane', 'age': 25}"
    ensures WordSet(b) == {"name", "Jane", "age", "25"}
  {
    WordSetFour(b, "{'", "name", "': '", "Jane", "', '", "age", "': ", "25", "}");
  }

  lemma JohnKeys()
    ensures AllKeys(JohnRecord()) == {"name", "age"}
  {
    var f := JohnRecord().fields;
    assert f.Keys == {"name", "age"};
    assert AllKeys(f["name"]) == {} && AllKeys(f["age"]) == {};
  }

  lemma JohnStructuredKeys(a: string, literalEval: string -> Option<Json>)
    requires literalEval(a) == Some(JohnRecord())
    ensures |StructuredKeys(a, literalEval)| == 2
  {
    JohnKeys();
    assert |{"name", "age"}| == 2;
  }

  lemma SimilarityExtraKey(x: set<string>, y: set<string>)
    requires x == {"name", "John", "age", "30"}
    requires y == {"name", "John", "age", "30", "city", "New", "York"}
    ensures Similarity(x, y, 2) == 0.4
  {
    assert x * y == x && x + y == y;
    assert |x| == 4;
    assert y == x + {"city", "New", "York"};
    assert |y| == 7;
  }

  /** Adding one key-value pair to an identical record scores 0.4: four shared
      words, seven in all, two of them the answer's keys. The comparison
      "{'name': 'John', 'age': 30, 'city': 'New York'}" is given by its word set. */
  lemma JaccardExampleExtraKey(a: string, b: string, literalEval: string -> Option<Json>)
    requires a == "{'name': 'John', 'age': 30}"
    requires WordSet(b) == {"name", "John", "age", "30", "city", "New", "York"}
    requires literalEval(a) == Some(JohnRecord())
    ensures JaccardSimilarity(a, b, true, literalEval) == 0.4
  {
    JohnWords(a);
    JohnStructuredKeys(a, literalEval);
    SimilarityExtraKey(WordSet(a), WordSet(b));
  }

  lemma SimilarityOtherValues(x: set<string>, y: set<string>)
    requires x == {"name", "John", "age", "30"}
    requires y == {"name", "Jane", "age", "25"}
    ensures Similarity(x, y, 2) == 0.0
  {
    assert "John"[1] != "Jane"[1] && "30"[0] != "25"[0];
    assert x * y == {"name", "age"};
    assert |x * y| == 2;
  }

  /** The same keys with different values score 0.0: the shared words are
      exactly the discounted keys. */
  lemma JaccardExampleOtherValues(a: string, b: string, literalEval: string -> Option<Json>)
    requires a == "{'name': 'John', 'age': 30}"
    requires b == "{'name': 'Jane', 'age': 25}"
    requires literalEval(a) == Some(JohnRecord())
    ensures JaccardSimilarity(a, b, true, literalEval) == 0.0
  {
    JohnWords(a);
    JaneWords(b);
    JohnStructuredKeys(a, literalEval);
    SimilarityOtherValues(WordSet(a), WordSet(b));
  }
}
