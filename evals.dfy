/** tlm/utils/eval_utils.py: splitting the configured evals into those
    that need the response and those that do not. */
module Evals {
  import opened Wrappers
  import opened Types

  /** An eval needs the response when it names a response identifier. */
  predicate NeedsResponse(e: Eval) {
    e.responseIdentifier.Some?
  }

  /** The evals satisfying `needs == NeedsResponse`, in input order. */
  function Select(evals: seq<Eval>, needs: bool): seq<Eval>
  {
    if evals == [] then []
    else Select(evals[..|evals| - 1], needs) + (if NeedsResponse(evals[|evals| - 1]) == needs then [evals[|evals| - 1]] else [])
  }

  /** group_evals: one pass appending each eval to one of two lists. */
  method GroupEvals(evals: Option<seq<Eval>>) returns (requiring: seq<Eval>, notRequiring: seq<Eval>)
    ensures evals.None? ==> requiring == [] && notRequiring == []
    ensures evals.Some? ==> requiring == Select(evals.value, true) && notRequiring == Select(evals.value, false)
  {
    if evals.None? {
      return [], [];
    }
    var es := evals.value;
    requiring, notRequiring := [], [];
    for i := 0 to |es|
      invariant requiring == Select(es[..i], true)
      invariant notRequiring == Select(es[..i], false)
    {
      assert es[..i + 1][..i] == es[..i];
      if es[i].responseIdentifier.Some? {
        requiring := requiring + [es[i]];
      } else {
        notRequiring := notRequiring + [es[i]];
      }
    }
    assert es[..|es|] == es;
  }

  /** The two lists partition the input: every eval lands in exactly one
      of them, the first holds only evals with a response identifier and
      the second only evals without one. */
  lemma SelectPartition(evals: seq<Eval>)
    ensures multiset(Select(evals, true)) + multiset(Select(evals, false)) == multiset(evals)
    ensures |Select(evals, true)| + |Select(evals, false)| == |evals|
    ensures forall e :: e in Select(evals, true) ==> NeedsResponse(e)
    ensures forall e :: e in Select(evals, false) ==> !NeedsResponse(e)
  {
    SelectMultiset(evals);
    assert |multiset(Select(evals, true)) + multiset(Select(evals, false))| == |multiset(evals)|;
    SelectMembers(evals, true);
    SelectMembers(evals, false);
  }

  /** The two lists hold together exactly the input's evals. */
  lemma {:induction false} SelectMultiset(evals: seq<Eval>)
    ensures multiset(Select(evals, true)) + multiset(Select(evals, false)) == multiset(evals)
  {
    if evals != [] {
      var init, last := evals[..|evals| - 1], evals[|evals| - 1];
      SelectMultiset(init);
      assert evals == init + [last];
      assert multiset(evals) == multiset(init) + multiset{last};
      if NeedsResponse(last) {
        assert Select(evals, true) == Select(init, true) + [last];
        assert Select(evals, false) == Select(init, false);
      } else {
        assert Select(evals, true) == Select(init, true);
        assert Select(evals, false) == Select(init, false) + [last];
      }
    }
  }

  /** Every eval a list holds has the list's kind. */
  lemma {:induction false} SelectMembers(evals: seq<Eval>, needs: bool)
    ensures forall e :: e in Select(evals, needs) ==> NeedsResponse(e) == needs
  {
    if evals != [] {
      SelectMembers(evals[..|evals| - 1], needs);
    }
  }

  /** Each list keeps input order: it is a subsequence of the input, given
      by increasing positions. */
  lemma {:induction false} SelectOrdered(evals: seq<Eval>, needs: bool) returns (pos: seq<nat>)
    ensures |pos| == |Select(evals, needs)|
    ensures forall k :: 0 <= k < |pos| ==> pos[k] < |evals| && evals[pos[k]] == Select(evals, needs)[k]
    ensures forall k, l :: 0 <= k < l < |pos| ==> pos[k] < pos[l]
  {
    if evals == [] {
      return [];
    }
    var n := |evals| - 1;
    var init := evals[..n];
    var p := SelectOrdered(init, needs);
    if NeedsResponse(evals[n]) == needs {
      pos := p + [n];
    } else {
      pos := p;
    }
  }
}
