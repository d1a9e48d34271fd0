/**
 * The summary filter of `analyze_with_ai`. The call to the text-generation
 * service is abstracted as `reply`: for each headline, the text the service
 * answers with, or `None` when the call raised an exception.
 */
module Summarizer {
  import opened Wrappers
  import opened Text

  /** The word whose presence marks a summary as not newsworthy. */
  const IgnoreMarker := "ignore"

  /** A summary is kept when its lower-cased text does not contain "ignore". */
  predicate Newsworthy(summary: string) {
    !Contains(Lower(summary), IgnoreMarker)
  }

  /** A summary is kept exactly when no position of its lower-cased text starts an "ignore". */
  lemma NewsworthyExactly(summary: string)
    ensures Newsworthy(summary) <==> forall i: nat :: !OccursAt(Lower(summary), IgnoreMarker, i)
  {
    ContainsAt(Lower(summary), IgnoreMarker);
  }

  /** The test ignores case: "ignore" written in any mix of capitals marks a summary as not newsworthy. */
  lemma IgnoreAnyCase(summary: string, word: string, i: nat)
    requires Lower(word) == IgnoreMarker && OccursAt(summary, word, i)
    ensures !Newsworthy(summary)
  {
    var lowered := Lower(summary);
    assert lowered[i..i + |word|] == Lower(word) by {
      forall k | 0 <= k < |word| ensures lowered[i..i + |word|][k] == Lower(word)[k] {
        assert summary[i + k] == word[k];
      }
    }
    assert OccursAt(lowered, IgnoreMarker, i);
    ContainsAt(lowered, IgnoreMarker);
  }

  /** What one call to the service contributes: the trimmed reply, if it was newsworthy. */
  function Contribution(outcome: Option<string>): seq<string> {
    match outcome
    case None => []
    case Some(text) => var summary := Strip(text); if Newsworthy(summary) then [summary] else []
  }

  /** One call contributes at most one summary, nothing when it raised, and only a trimmed, newsworthy one. */
  lemma ContributionClean(outcome: Option<string>)
    ensures |Contribution(outcome)| <= 1
    ensures outcome.None? ==> Contribution(outcome) == []
    ensures Contribution(outcome) != [] ==> Strip(Contribution(outcome)[0]) == Contribution(outcome)[0] && Newsworthy(Contribution(outcome)[0])
  {
    if outcome.Some? {
      StripIdempotent(outcome.value);
    }
  }

  /** The summaries `analyze_with_ai` returns for `headlines`. */
  function Meaningful(headlines: seq<string>, reply: string -> Option<string>): seq<string> {
    if headlines == [] then []
    else Meaningful(headlines[..|headlines| - 1], reply) + Contribution(reply(headlines[|headlines| - 1]))
  }

  /** One more headline adds its own contribution at the end. */
  lemma MeaningfulSnoc(headlines: seq<string>, h: string, reply: string -> Option<string>)
    ensures Meaningful(headlines + [h], reply) == Meaningful(headlines, reply) + Contribution(reply(h))
  {
    assert (headlines + [h])[..|headlines|] == headlines;
  }

  /** `analyze_with_ai`: ask for a summary of each headline in turn, keep the newsworthy ones. */
  method AnalyzeWithAi(headlines: seq<string>, reply: string -> Option<string>) returns (meaningful: seq<string>)
    ensures meaningful == Meaningful(headlines, reply)
  {
    meaningful := [];
    for i := 0 to |headlines|
      invariant meaningful == Meaningful(headlines[..i], reply)
    {
      assert headlines[..i + 1] == headlines[..i] + [headlines[i]];
      MeaningfulSnoc(headlines[..i], headlines[i], reply);
      match reply(headlines[i]) {
        case None =>
        case Some(content) =>
          var summary := Strip(content);
          if Newsworthy(summary) {
            meaningful := meaningful + [summary];
          }
      }
    }
    assert headlines[..|headlines|] == headlines;
  }

  /** Headlines are processed independently: the result for `a + b` is that for `a`, then that for `b`. */
  lemma {:induction false} MeaningfulAppend(a: seq<string>, b: seq<string>, reply: string -> Option<string>)
    ensures Meaningful(a + b, reply) == Meaningful(a, reply) + Meaningful(b, reply)
    decreases |b|
  {
    if b == [] {
      assert a + b == a;
    } else {
      var init, last := b[..|b| - 1], b[|b| - 1];
      assert a + b == (a + init) + [last];
      assert b == init + [last];
      MeaningfulAppend(a, init, reply);
      MeaningfulSnoc(a + init, last, reply);
      MeaningfulSnoc(init, last, reply);
    }
  }

  /** A headline whose call failed contributes nothing and leaves the others unchanged. */
  lemma FailureIsolated(a: seq<string>, h: string, b: seq<string>, reply: string -> Option<string>)
    requires reply(h) == None
    ensures Meaningful(a + [h] + b, reply) == Meaningful(a + b, reply)
  {
    assert Meaningful([h], reply) == [] by {
      assert [h][..0] == [];
    }
    MeaningfulAppend(a, [h], reply);
    MeaningfulAppend(a + [h], b, reply);
    MeaningfulAppend(a, b, reply);
  }

  /** The reply `outcome` succeeded, trims to `summary`, and `summary` is newsworthy. */
  predicate Yields(outcome: Option<string>, summary: string) {
    outcome.Some? && Strip(outcome.value) == summary && Newsworthy(summary)
  }

  /** Every returned summary comes from the reply to some headline. */
  lemma {:induction false} MeaningfulSource(headlines: seq<string>, reply: string -> Option<string>, summary: string)
    returns (j: nat)
    requires summary in Meaningful(headlines, reply)
    ensures j < |headlines| && Yields(reply(headlines[j]), summary)
    decreases |headlines|
  {
    var n := |headlines| - 1;
    var init := headlines[..n];
    if summary in Meaningful(init, reply) {
      j := MeaningfulSource(init, reply, summary);
      assert init[j] == headlines[j];
    } else {
      j := n;
    }
  }

  /** Every headline whose reply yields a newsworthy summary has that summary returned. */
  lemma {:induction false} MeaningfulComplete(headlines: seq<string>, reply: string -> Option<string>, j: nat)
    requires j < |headlines| && reply(headlines[j]).Some?
    requires Newsworthy(Strip(reply(headlines[j]).value))
    ensures Strip(reply(headlines[j]).value) in Meaningful(headlines, reply)
    decreases |headlines|
  {
    var n := |headlines| - 1;
    var init := headlines[..n];
    var summary := Strip(reply(headlines[j]).value);
    assert Meaningful(headlines, reply) == Meaningful(init, reply) + Contribution(reply(headlines[n]));
    if j < n {
      assert init[j] == headlines[j];
      MeaningfulComplete(init, reply, j);
    } else {
      assert Contribution(reply(headlines[n])) == [summary];
    }
  }

  /**
   * A summary is returned exactly when some headline's call succeeded with a
   * reply that trims to it and whose lower-cased text does not contain "ignore".
   */
  lemma MeaningfulMembers(headlines: seq<string>, reply: string -> Option<string>, summary: string)
    ensures summary in Meaningful(headlines, reply) <==>
            exists j :: 0 <= j < |headlines| && Yields(reply(headlines[j]), summary)
  {
    if summary in Meaningful(headlines, reply) {
      var j := MeaningfulSource(headlines, reply, summary);
    }
    if exists j :: 0 <= j < |headlines| && Yields(reply(headlines[j]), summary) {
      var j :| 0 <= j < |headlines| && Yields(reply(headlines[j]), summary);
      MeaningfulComplete(headlines, reply, j);
    }
  }

  /** Every returned summary is already trimmed and is newsworthy; there are at most as many as headlines. */
  lemma {:induction false} MeaningfulClean(headlines: seq<string>, reply: string -> Option<string>)
    ensures |Meaningful(headlines, reply)| <= |headlines|
    ensures forall s :: s in Meaningful(headlines, reply) ==> Strip(s) == s && Newsworthy(s)
    decreases |headlines|
  {
    if headlines != [] {
      var n := |headlines| - 1;
      MeaningfulClean(headlines[..n], reply);
      var outcome := reply(headlines[n]);
      if outcome.Some? {
        StripIdempotent(outcome.value);
      }
    }
  }
}
