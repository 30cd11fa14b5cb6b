/** tlm/components/scores/perplexity_score_computation.py: the perplexity of
    each reference completion, and whether any of them has one. */
module PerplexityScoreComputation {
  import opened Wrappers
  import opened Completions
  import opened MathUtils
  import opened Components
  import opened Stages

  /** `[completion.perplexity for completion in reference_completions]`. */
  function Perplexities(cs: seq<CompletionData>): (ps: seq<Score>)
    ensures |ps| == |cs|
  {
    seq(|cs|, i requires 0 <= i < |cs| => cs[i].perplexity)
  }

  /** `any(score is not None for score in scores)`. */
  function AnyPerplexity(ps: seq<Score>): bool
  {
    if ps == [] then false else ps[0].Some? || AnyPerplexity(ps[1..])
  }

  /** `any` is true exactly when some entry is not None. */
  lemma {:induction false} AnyPerplexitySpec(ps: seq<Score>)
    ensures AnyPerplexity(ps) <==> exists i :: 0 <= i < |ps| && ps[i].Some?
  {
    if ps != [] {
      AnyPerplexitySpec(ps[1..]);
      if AnyPerplexity(ps[1..]) {
        var i :| 0 <= i < |ps[1..]| && ps[1..][i].Some?;
        assert ps[i + 1].Some?;
      }
      if exists i :: 0 <= i < |ps| && ps[i].Some? {
        var i :| 0 <= i < |ps| && ps[i].Some?;
        if i > 0 {
          assert ps[1..][i - 1].Some?;
        }
      }
    }
  }

  /** execute: writes `perplexity_scores` and then `use_perplexity_score`. */
  function Execute(results: map<string, Value>): Result<seq<(string, Value)>>
  {
    var cs :- CompletionsAt(results, "reference_completions");
    var ps := Perplexities(cs);
    Ok([("perplexity_scores", VScores(ps)), ("use_perplexity_score", VBool(AnyPerplexity(ps)))])
  }

  /** The stage fails only when there is no list of reference completions;
      otherwise it writes exactly the two keys, score i is the perplexity of
      reference completion i (None when it has none), and the flag is set
      exactly when some reference completion has a perplexity. */
  lemma ExecuteSpec(results: map<string, Value>)
    ensures Execute(results).Ok? <==> "reference_completions" in results && results["reference_completions"].VCompletions?
    ensures Execute(results).Ok? ==>
      var cs := results["reference_completions"].completions;
      var w := Execute(results).value;
      WrittenKeys(w) == ["perplexity_scores", "use_perplexity_score"]
      && w[0].1.VScores? && |w[0].1.scores| == |cs|
      && (forall i :: 0 <= i < |cs| ==> w[0].1.scores[i] == cs[i].perplexity)
      && w[1].1.VBool?
      && (w[1].1.b <==> exists i :: 0 <= i < |cs| && cs[i].perplexity.Some?)
  {
    if Execute(results).Ok? {
      var cs := results["reference_completions"].completions;
      var ps := Perplexities(cs);
      AnyPerplexitySpec(ps);
      var w := Execute(results).value;
      assert WrittenKeys(w) == ["perplexity_scores", "use_perplexity_score"];
      if exists i :: 0 <= i < |cs| && cs[i].perplexity.Some? {
        var i :| 0 <= i < |cs| && cs[i].perplexity.Some?;
        assert ps[i].Some?;
      }
    }
  }
}
