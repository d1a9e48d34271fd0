/**
 * The run orchestrator of `agent_loop`: for every configured site, in order,
 * fetch its headlines, summarise them, keep the summaries the accumulating
 * cache has not seen, and collect them; then save the cache once and notify
 * once with everything collected.
 *
 * The outside world is given as parameters: `fetch(url, selector)` is what
 * `fetch_site` returns (empty on any error), `reply` the text-generation
 * service, `clock` the time readings of the cache and `accepted` the
 * messaging provider. The loaded configuration and cache are inputs; the
 * saved cache and the notification are recorded as effects.
 */
module Agent {
  import opened Wrappers
  import opened DedupCache
  import opened Summarizer
  import opened Notifier

  /** One entry of the configuration: `"url"` and `"selector"` may each be present or not. */
  datatype Site = Site(url: Option<string>, selector: Option<string>)

  const DefaultSelector := "h2"

  /** `site.get("selector", "h2")`. */
  function SelectorOf(site: Site): string {
    match site.selector
    case None => DefaultSelector
    case Some(selector) => selector
  }

  /** What a run does to the outside world after its fetches and summaries, in order. */
  datatype Effect =
    | SaveCache(entries: seq<Entry>)
    | Notify(updates: seq<string>, messages: seq<string>, waits: seq<nat>)

  /**
   * A run either finishes with its effects, or stops at the first site
   * without a `"url"` (the `KeyError` aborts the run before anything is saved
   * or sent).
   */
  datatype RunOutcome = Finished(effects: seq<Effect>) | MissingUrl(site: nat)

  predicate HasUrls(config: seq<Site>) {
    forall k :: 0 <= k < |config| ==> config[k].url.Some?
  }

  /** The position of the first site without a `"url"`, if any. */
  function FirstMissingUrl(config: seq<Site>): (r: Option<nat>)
    ensures r.None? <==> HasUrls(config)
    ensures r.Some? ==> r.value < |config| && config[r.value].url.None? && HasUrls(config[..r.value])
  {
    if config == [] then None
    else if config[0].url.None? then Some(0)
    else
      match FirstMissingUrl(config[1..])
      case None => None
      case Some(k) =>
        assert config[..k + 1] == [config[0]] + config[1..][..k];
        Some(k + 1)
  }

  /** The summaries of one site: its fetched headlines through the summary filter. */
  function SiteSummaries(site: Site, fetch: (string, string) -> seq<string>, reply: string -> Option<string>): seq<string>
    requires site.url.Some?
  {
    Meaningful(fetch(site.url.value, SelectorOf(site)), reply)
  }

  /** The summaries of all sites, in configuration order. */
  function AllSummaries(config: seq<Site>, fetch: (string, string) -> seq<string>, reply: string -> Option<string>): seq<string>
    requires HasUrls(config)
  {
    if config == [] then []
    else AllSummaries(config[..|config| - 1], fetch, reply) + SiteSummaries(config[|config| - 1], fetch, reply)
  }

  /**
   * `all_updates` after the sites of `config`, starting from a cache whose
   * headlines are `seen`: each site's new items, found against the cache as
   * the earlier sites left it.
   */
  function Batch(config: seq<Site>, seen: seq<string>, fetch: (string, string) -> seq<string>, reply: string -> Option<string>): seq<string>
    requires HasUrls(config)
  {
    if config == [] then []
    else
      var prior := Batch(config[..|config| - 1], seen, fetch, reply);
      prior + NewItems(SiteSummaries(config[|config| - 1], fetch, reply), seen + prior)
  }

  /** One more site: its new items are found against the cache the earlier sites left. */
  lemma BatchStep(config: seq<Site>, i: nat, seen: seq<string>, fetch: (string, string) -> seq<string>, reply: string -> Option<string>)
    requires i < |config| && HasUrls(config[..i]) && config[i].url.Some?
    ensures HasUrls(config[..i + 1])
    ensures var prior := Batch(config[..i], seen, fetch, reply);
            Batch(config[..i + 1], seen, fetch, reply) == prior + NewItems(SiteSummaries(config[i], fetch, reply), seen + prior)
  {
    assert config[..i + 1] == config[..i] + [config[i]];
  }

  /** The first site without a `"url"` after sites that all have one is `FirstMissingUrl`. */
  lemma {:induction false} FirstMissingUrlAt(config: seq<Site>, i: nat)
    requires i < |config| && HasUrls(config[..i]) && config[i].url.None?
    ensures FirstMissingUrl(config) == Some(i)
    decreases i
  {
    if i > 0 {
      assert config[..i][0] == config[0];
      var later := config[1..][..i - 1];
      assert HasUrls(later) by {
        forall k | 0 <= k < |later| ensures later[k].url.Some? {
          assert later[k] == config[..i][k + 1];
        }
      }
      FirstMissingUrlAt(config[1..], i - 1);
    }
  }

  /** Appending the entries for `a`, then those for `b`, appends the entries for `a + b`. */
  lemma CacheStep(loaded: seq<Entry>, a: seq<string>, b: seq<string>, clock: nat -> string)
    ensures var cache := loaded + Stamped(a, |loaded|, clock);
            cache + Stamped(b, |cache|, clock) == loaded + Stamped(a + b, |loaded|, clock)
  {
    assert Stamped(a, |loaded|, clock) + Stamped(b, |loaded| + |a|, clock) == Stamped(a + b, |loaded|, clock);
  }

  /** `agent_loop()`. */
  method AgentLoop(config: seq<Site>, loaded: seq<Entry>, fetch: (string, string) -> seq<string>,
                   reply: string -> Option<string>, clock: nat -> string, accepted: nat -> bool)
    returns (outcome: RunOutcome)
    ensures FirstMissingUrl(config).Some? ==> outcome == MissingUrl(FirstMissingUrl(config).value)
    ensures FirstMissingUrl(config).None? ==>
              var batch := Batch(config, Headlines(loaded), fetch, reply);
              && outcome.Finished?
              && |outcome.effects| == 2
              && outcome.effects[0] == SaveCache(loaded + Stamped(batch, |loaded|, clock))
              && outcome.effects[1].Notify?
              && outcome.effects[1].updates == batch
              && Sends(batch, accepted, outcome.effects[1].messages, outcome.effects[1].waits)
  {
    var cache := loaded;
    var allUpdates := [];
    for i := 0 to |config|
      invariant HasUrls(config[..i])
      invariant allUpdates == Batch(config[..i], Headlines(loaded), fetch, reply)
      invariant cache == loaded + Stamped(allUpdates, |loaded|, clock)
    {
      var site := config[i];
      match site.url {
        case None =>
          FirstMissingUrlAt(config, i);
          return MissingUrl(i);
        case Some(url) =>
          BatchStep(config, i, Headlines(loaded), fetch, reply);
          var selector := SelectorOf(site);
          var headlines := fetch(url, selector);
          var summaries := AnalyzeWithAi(headlines, reply);
          GrownHeadlines(loaded, allUpdates, clock);
          var newItems;
          newItems, cache := FilterNew(summaries, cache, clock);
          CacheStep(loaded, allUpdates, newItems, clock);
          allUpdates := allUpdates + newItems;
      }
    }
    assert config[..|config|] == config;
    var messages, waits := SendWhatsapp(allUpdates, accepted);
    outcome := Finished([SaveCache(cache), Notify(allUpdates, messages, waits)]);
  }

  /** A site without a `"selector"` is fetched with `"h2"`. */
  lemma DefaultSelectorUsed(url: string, fetch: (string, string) -> seq<string>, reply: string -> Option<string>)
    ensures SiteSummaries(Site(Some(url), None), fetch, reply) == Meaningful(fetch(url, "h2"), reply)
  {
  }

  /**
   * A summary comes from a site exactly when one of the headlines fetched with
   * the site's url and selector got a reply that trims to it and is newsworthy.
   */
  lemma SiteSummariesMembers(site: Site, fetch: (string, string) -> seq<string>, reply: string -> Option<string>, summary: string)
    requires site.url.Some?
    ensures var headlines := fetch(site.url.value, SelectorOf(site));
            summary in SiteSummaries(site, fetch, reply) <==>
            exists j :: 0 <= j < |headlines| && Yields(reply(headlines[j]), summary)
  {
    MeaningfulMembers(fetch(site.url.value, SelectorOf(site)), reply, summary);
  }

  /** The summaries of `a + b` are those of `a`, then those of `b`. */
  lemma {:induction false} AllSummariesAppend(a: seq<Site>, b: seq<Site>, fetch: (string, string) -> seq<string>, reply: string -> Option<string>)
    requires HasUrls(a) && HasUrls(b)
    ensures HasUrls(a + b)
    ensures AllSummaries(a + b, fetch, reply) == AllSummaries(a, fetch, reply) + AllSummaries(b, fetch, reply)
    decreases |b|
  {
    assert forall k :: 0 <= k < |a + b| ==> (a + b)[k] == if k < |a| then a[k] else b[k - |a|];
    if b == [] {
      assert a + b == a;
    } else {
      var init := b[..|b| - 1];
      assert (a + b)[..|a + b| - 1] == a + init;
      assert HasUrls(init) by {
        assert forall k :: 0 <= k < |init| ==> init[k] == b[k];
      }
      AllSummariesAppend(a, init, fetch, reply);
    }
  }

  /**
   * Collecting each site's new items against the accumulating cache gives
   * exactly what one filter over all sites' summaries, in configuration
   * order, would give.
   */
  lemma {:induction false} BatchIsOneFilter(config: seq<Site>, seen: seq<string>, fetch: (string, string) -> seq<string>, reply: string -> Option<string>)
    requires HasUrls(config)
    ensures Batch(config, seen, fetch, reply) == NewItems(AllSummaries(config, fetch, reply), seen)
    decreases |config|
  {
    if config != [] {
      var init := config[..|config| - 1];
      BatchIsOneFilter(init, seen, fetch, reply);
      NewItemsAppend(AllSummaries(init, fetch, reply), SiteSummaries(config[|config| - 1], fetch, reply), seen);
    }
  }

  /**
   * No collected update was already a headline of the loaded cache, and a
   * loaded cache with pairwise-distinct headlines is saved with
   * pairwise-distinct headlines.
   */
  lemma RunKeepsCacheDistinct(config: seq<Site>, loaded: seq<Entry>, fetch: (string, string) -> seq<string>,
                               reply: string -> Option<string>, clock: nat -> string)
    requires HasUrls(config)
    ensures var batch := Batch(config, Headlines(loaded), fetch, reply);
            (forall k :: 0 <= k < |batch| ==> batch[k] !in Headlines(loaded)) &&
            NoDuplicates(batch) &&
            (NoDuplicates(Headlines(loaded)) ==> NoDuplicates(Headlines(loaded + Stamped(batch, |loaded|, clock))))
  {
    BatchIsOneFilter(config, Headlines(loaded), fetch, reply);
    FilterNewKeepsDistinct(AllSummaries(config, fetch, reply), loaded, clock);
    NewItemsDistinct(AllSummaries(config, fetch, reply), Headlines(loaded));
  }

  /** A second run over the same summaries, from the saved cache, collects nothing. */
  lemma RunIdempotent(config: seq<Site>, loaded: seq<Entry>, fetch: (string, string) -> seq<string>,
                      reply: string -> Option<string>, clock: nat -> string)
    requires HasUrls(config)
    ensures var saved := loaded + Stamped(Batch(config, Headlines(loaded), fetch, reply), |loaded|, clock);
            Batch(config, Headlines(saved), fetch, reply) == []
  {
    var all := AllSummaries(config, fetch, reply);
    BatchIsOneFilter(config, Headlines(loaded), fetch, reply);
    var saved := loaded + Stamped(Batch(config, Headlines(loaded), fetch, reply), |loaded|, clock);
    BatchIsOneFilter(config, Headlines(saved), fetch, reply);
    FilterNewIdempotent(all, loaded, clock);
  }

  /** A site without summaries adds nothing to the summaries of all sites. */
  lemma AllSummariesSkip(a: seq<Site>, site: Site, b: seq<Site>,
                         fetch: (string, string) -> seq<string>, reply: string -> Option<string>)
    requires HasUrls(a) && site.url.Some? && HasUrls(b)
    requires SiteSummaries(site, fetch, reply) == []
    ensures HasUrls(a + [site] + b) && HasUrls(a + b)
    ensures AllSummaries(a + [site] + b, fetch, reply) == AllSummaries(a + b, fetch, reply)
  {
    var one := [site];
    assert HasUrls(one);
    assert HasUrls(a + one) && AllSummaries(a + one, fetch, reply) == AllSummaries(a, fetch, reply) by {
      assert AllSummaries(one, fetch, reply) == [] by {
        assert one[..0] == [];
      }
      AllSummariesAppend(a, one, fetch, reply);
    }
    assert HasUrls(a + one + b) &&
           AllSummaries(a + one + b, fetch, reply) == AllSummaries(a, fetch, reply) + AllSummaries(b, fetch, reply) by {
      AllSummariesAppend(a + one, b, fetch, reply);
    }
    AllSummariesAppend(a, b, fetch, reply);
  }

  /**
   * A site that yields no summaries (its fetch failed, say) leaves the
   * updates collected from the other sites as they are.
   */
  lemma SiteIsolation(a: seq<Site>, site: Site, b: seq<Site>, seen: seq<string>,
                      fetch: (string, string) -> seq<string>, reply: string -> Option<string>)
    requires HasUrls(a) && site.url.Some? && HasUrls(b)
    requires SiteSummaries(site, fetch, reply) == []
    ensures HasUrls(a + [site] + b) && HasUrls(a + b)
    ensures Batch(a + [site] + b, seen, fetch, reply) == Batch(a + b, seen, fetch, reply)
  {
    AllSummariesSkip(a, site, b, fetch, reply);
    BatchIsOneFilter(a + [site] + b, seen, fetch, reply);
    BatchIsOneFilter(a + b, seen, fetch, reply);
  }
}
