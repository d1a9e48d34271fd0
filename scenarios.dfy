/**
 * Worked runs of the orchestrator on small concrete inputs: one or two sites
 * with fixed headlines and replies, and caches that are empty or already hold
 * one of the summaries. The services stay abstract; only their answers on the
 * inputs of a scenario are given.
 */
module Scenarios {
  import opened Wrappers
  import opened Text
  import opened DedupCache
  import opened Summarizer
  import opened Notifier
  import opened Agent

  /** The reply for "A" needs no trimming and is kept. */
  lemma ContributionSumA()
    ensures Contribution(Some("Sum A")) == ["Sum A"]
  {
    assert Strip("Sum A") == "Sum A" by {
      assert LeadingSpace("Sum A") == 0;
      assert TrailingSpace("Sum A") == 0;
    }
  }

  /** The reply for "B" is trimmed before it is kept. */
  lemma ContributionSumB()
    ensures Contribution(Some(" Sum B\n")) == ["Sum B"]
  {
    assert Strip(" Sum B\n") == "Sum B" by {
      assert LeadingSpace(" Sum B\n") == 1 by {
        assert " Sum B\n"[1..] == "Sum B\n";
        assert LeadingSpace("Sum B\n") == 0;
      }
      assert " Sum B\n"[1..] == "Sum B\n";
      assert TrailingSpace("Sum B\n") == 1 by {
        assert "Sum B\n"[..5] == "Sum B";
        assert TrailingSpace("Sum B") == 0;
      }
      assert "Sum B\n"[..5] == "Sum B";
    }
  }

  /** "Ignore this" has no white space around it. */
  lemma StripIgnoreThis()
    ensures Strip("Ignore this") == "Ignore this"
  {
    assert LeadingSpace("Ignore this") == 0;
    assert TrailingSpace("Ignore this") == 0;
  }

  /** "Ignore this", lower-cased, starts with "ignore". */
  lemma IgnoreThisNotNewsworthy()
    ensures !Newsworthy("Ignore this")
  {
    IgnoreAnyCase("Ignore this", "Ignore", 0);
  }

  /** A reply "Ignore this" is dropped. */
  lemma ContributionIgnored()
    ensures Contribution(Some("Ignore this")) == []
  {
    StripIgnoreThis();
    IgnoreThisNotNewsworthy();
  }

  /** Two headlines contribute their replies in order. */
  lemma MeaningfulOfTwo(h1: string, h2: string, reply: string -> Option<string>)
    ensures Meaningful([h1, h2], reply) == Contribution(reply(h1)) + Contribution(reply(h2))
  {
    MeaningfulAppend([h1], [h2], reply);
    assert [h1] + [h2] == [h1, h2];
    assert [h1][..0] == [] && [h2][..0] == [];
    assert Meaningful([h1], reply) == Contribution(reply(h1));
    assert Meaningful([h2], reply) == Contribution(reply(h2));
  }

  /** With one site, the batch is that site's summaries filtered against the cache. */
  lemma BatchOfOne(site: Site, seen: seq<string>, fetch: (string, string) -> seq<string>, reply: string -> Option<string>)
    requires site.url.Some?
    ensures Batch([site], seen, fetch, reply) == NewItems(SiteSummaries(site, fetch, reply), seen)
  {
    assert [site][..0] == [];
    assert seen + [] == seen;
  }

  /** The site lists the headlines "A" and "B" under `h2`; the service summarises them as "Sum A" and " Sum B\n". */
  predicate SiteWithTwoHeadlines(url: string, fetch: (string, string) -> seq<string>, reply: string -> Option<string>) {
    fetch(url, "h2") == ["A", "B"] && reply("A") == Some("Sum A") && reply("B") == Some(" Sum B\n")
  }

  /**
   * A site without a selector whose headlines "A" and "B" are summarised as
   * "Sum A" and " Sum B\n" yields ["Sum A", "Sum B"].
   */
  lemma SummariesOfTwoHeadlines(url: string, fetch: (string, string) -> seq<string>, reply: string -> Option<string>)
    requires SiteWithTwoHeadlines(url, fetch, reply)
    ensures SiteSummaries(Site(Some(url), None), fetch, reply) == ["Sum A", "Sum B"]
  {
    MeaningfulOfTwo("A", "B", reply);
    ContributionSumA();
    ContributionSumB();
  }

  /** A single candidate not yet seen is kept. */
  lemma KeepOne(x: string, seen: seq<string>)
    requires x !in seen
    ensures NewItems([x], seen) == [x]
  {
    NewItemsCons(x, [], seen);
  }

  /** Two different candidates, neither seen, are both kept, in order. */
  lemma KeepTwo(x: string, y: string, seen: seq<string>)
    requires x !in seen && y !in seen && x != y
    ensures NewItems([x, y], seen) == [x, y]
  {
    assert [x, y] == [x] + [y];
    NewItemsCons(x, [y], seen);
    KeepOne(y, seen + [x]);
  }

  /** Of two candidates, a seen first one is dropped and an unseen second one kept. */
  lemma KeepSecond(x: string, y: string, seen: seq<string>)
    requires x in seen && y !in seen
    ensures NewItems([x, y], seen) == [y]
  {
    assert [x, y] == [x] + [y];
    NewItemsCons(x, [y], seen);
    KeepOne(y, seen);
  }

  /**
   * The batch of the one site of the scenarios below (no `"selector"`,
   * headlines "A" and "B") is ["Sum A", "Sum B"] filtered against the cache.
   */
  lemma BatchOfTwoHeadlines(url: string, seen: seq<string>, fetch: (string, string) -> seq<string>, reply: string -> Option<string>)
    requires SiteWithTwoHeadlines(url, fetch, reply)
    ensures Batch([Site(Some(url), None)], seen, fetch, reply) == NewItems(["Sum A", "Sum B"], seen)
  {
    SummariesOfTwoHeadlines(url, fetch, reply);
    BatchOfOne(Site(Some(url), None), seen, fetch, reply);
  }

  /** The message for "Sum A" and "Sum B" reads, line by line, as the title and their two bullet lines. */
  lemma MessageOfTwo()
    ensures Split(Body(["Sum A", "Sum B"]), '\n') == [Title, Bullet("Sum A"), Bullet("Sum B")]
  {
    var updates := ["Sum A", "Sum B"];
    assert '\n' !in updates[0] && '\n' !in updates[1];
    BodyLines(updates);
    assert [Title] + Bullets(updates) == [Title, Bullet("Sum A"), Bullet("Sum B")];
  }

  /**
   * Empty cache: both summaries are collected, the cache is saved with their
   * two entries, and the message lists them as two bullet lines.
   */
  lemma FreshRun(url: string, fetch: (string, string) -> seq<string>, reply: string -> Option<string>, clock: nat -> string)
    requires SiteWithTwoHeadlines(url, fetch, reply)
    ensures var batch := Batch([Site(Some(url), None)], Headlines([]), fetch, reply);
            && batch == ["Sum A", "Sum B"]
            && Headlines([] + Stamped(batch, 0, clock)) == ["Sum A", "Sum B"]
            && Split(Body(batch), '\n') == [Title, Bullet("Sum A"), Bullet("Sum B")]
  {
    assert Headlines([]) == [];
    BatchOfTwoHeadlines(url, [], fetch, reply);
    KeepTwo("Sum A", "Sum B", []);
    GrownHeadlines([], ["Sum A", "Sum B"], clock);
    MessageOfTwo();
  }

  /** The cache already holds "Sum A": only "Sum B" is collected, and the cache grows by one entry. */
  lemma RunWithCachedSummary(url: string, fetch: (string, string) -> seq<string>, reply: string -> Option<string>,
                             stamp: string, clock: nat -> string)
    requires SiteWithTwoHeadlines(url, fetch, reply)
    ensures var loaded := [Entry("Sum A", stamp)];
            var batch := Batch([Site(Some(url), None)], Headlines(loaded), fetch, reply);
            && batch == ["Sum B"]
            && Headlines(loaded + Stamped(batch, 1, clock)) == ["Sum A", "Sum B"]
  {
    assert Headlines([Entry("Sum A", stamp)]) == ["Sum A"];
    GrownHeadlines([Entry("Sum A", stamp)], ["Sum B"], clock);
    BatchOfTwoHeadlines(url, ["Sum A"], fetch, reply);
    assert "Sum B" != "Sum A" by {
      assert "Sum B"[4] != "Sum A"[4];
    }
    KeepSecond("Sum A", "Sum B", ["Sum A"]);
  }

  /** A summary containing "Ignore" contributes nothing to the batch, and so nothing to the saved cache. */
  lemma RunWithIgnoredSummary(url: string, fetch: (string, string) -> seq<string>, reply: string -> Option<string>,
                              clock: nat -> string)
    requires fetch(url, "h2") == ["A", "B"] && reply("A") == Some("Sum A") && reply("B") == Some("Ignore this")
    ensures var batch := Batch([Site(Some(url), None)], [], fetch, reply);
            batch == ["Sum A"] && Headlines([] + Stamped(batch, 0, clock)) == ["Sum A"]
  {
    GrownHeadlines([], ["Sum A"], clock);
    assert Headlines([]) == [];
    assert SiteSummaries(Site(Some(url), None), fetch, reply) == ["Sum A"] by {
      MeaningfulOfTwo("A", "B", reply);
      ContributionSumA();
      ContributionIgnored();
    }
    BatchOfOne(Site(Some(url), None), [], fetch, reply);
    KeepOne("Sum A", []);
  }

  /** The first site cannot be reached; the second site's one new summary is the whole batch. */
  lemma RunWithUnreachableSite(a: Site, b: Site, fetch: (string, string) -> seq<string>, reply: string -> Option<string>)
    requires a.url.Some? && b.url.Some?
    requires fetch(a.url.value, SelectorOf(a)) == []
    requires fetch(b.url.value, SelectorOf(b)) == ["A"] && reply("A") == Some("Sum A")
    ensures Batch([a, b], [], fetch, reply) == ["Sum A"]
  {
    var config := [a, b];
    assert Batch([a], [], fetch, reply) == [] by {
      BatchOfOne(a, [], fetch, reply);
    }
    assert SiteSummaries(b, fetch, reply) == ["Sum A"] by {
      MeaningfulSnoc([], "A", reply);
      assert [] + ["A"] == ["A"];
      ContributionSumA();
    }
    KeepOne("Sum A", []);
    assert config[..1] == [a] && config[..2] == config;
    BatchStep(config, 1, [], fetch, reply);
  }
}
