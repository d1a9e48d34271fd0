# News agent core in Dafny

This project models the core logic of a small news agent that is run on a schedule. One run does the following:

- It visits each configured site in order and scrapes that site's headlines.
- It asks a text-generation service to summarise each headline. It drops failed calls, and it drops summaries whose lower-cased text contains `"ignore"`.
- It keeps only the summaries that the persisted cache of already-collected summaries does not hold, and appends each kept summary to the cache with a timestamp.
- It saves the cache once, before anything is sent. A summary that was collected therefore stays cached, and is never offered again, even when its message is never delivered.
- It sends one WhatsApp message that lists every new summary. Sending is attempted up to three times, with exponential backoff after each failed attempt.

The model has seven modules:

- `Wrappers`: the `Option` type.
- `Text`: the parts of Python's string semantics the agent uses.
  - `str.strip()`, `str.lower()` (on ASCII letters), the substring test `pat in s` and `sep.join(parts)`.
  - `Split`, used to read a message back line by line. It undoes `Join` for a non-empty list of parts none of which contains the separator.
- `Summarizer`: the filtering loop of `analyze_with_ai`, as the method `AnalyzeWithAi`. It is specified by the function `Meaningful`.
- `DedupCache`: `filter_new`, as the method `FilterNew`. It is specified by the function `NewItems`. `FirstOccurrences` is an independent reference definition. Cache entries are `Entry(headline, timestamp)`.
- `Notifier`: `send_whatsapp`, as the method `SendWhatsapp`. It has two specifications:
  - the message text, `Body`;
  - the retry loop, `RetryFrom`, which gives the number of attempts and the list of waits in seconds.
- `Agent`: `agent_loop`, as the method `AgentLoop`. It is specified by these functions:
  - `Batch`: the collected updates, site by site, each site filtered against the cache as the earlier sites left it.
  - `AllSummaries`: the summaries of all sites.
  - `FirstMissingUrl`: the site at which the run aborts.
- `Scenarios`: four small end-to-end runs, each proved.
  - A fresh cache: the batch, the saved headlines, and the message read line by line.
  - A cache that already holds a summary: the batch and the saved headlines.
  - An "Ignore this" reply: the batch and the saved headlines.
  - An unreachable first site: the batch.

The outside world enters as parameters:

- `fetch(url, selector)` is what `fetch_site` returns. It is empty on any error.
- `reply(headline)` is the service's answer text, or `None` when the call raised.
- `clock(k)` is the timestamp text read when the cache holds `k` entries and the next entry is appended. Each append happens at a different cache length, so every sequence of clock readings has this form.
- `accepted(k)` says whether the 0-based send attempt `k` went through.

The loaded configuration and the loaded cache are inputs. A run that finishes returns its effects in order: `SaveCache(entries)` and then `Notify(updates, messages, waits)`.

Three behaviours of the code shape the model:

- A site without a `"url"` stops the run. The code reads `site["url"]` (main.py:115), so a missing url raises `KeyError` and leaves `agent_loop` before `save_cache` and `send_whatsapp`. The model returns `MissingUrl(i)` for the first such site `i`, with no effects.
- The code also sleeps after the third and final failed send (main.py:103-106). Under permanent failure the model records waits of 1, 2 and 4 seconds.
- `filter_new` appends to the caller's list in place and returns that same list (main.py:83-84). Its only caller rebinds `cache` to the result (main.py:118), so the model returns the grown cache as a value.

## Model

| member | source | states |
|---|---|---|
| Text.Strip | main.py:70 | `.strip()` returns a string that neither starts nor ends with white space and is no longer than its input. |
| Text.StripPadding | main.py:70 | Stripping removes only white space: the input is the result with white space before and after it. |
| Text.StripIdempotent | main.py:70 | Stripping an already stripped summary changes nothing. |
| Text.Lower | main.py:71 | `.lower()` on ASCII letters keeps the length. `Text.LowerCases` states what happens to each character. |
| Text.LowerCases | main.py:71 | The lower-cased text has no ASCII capitals. Each capital becomes its lower-case letter, and every other character is kept. |
| Text.Contains | main.py:71 | `pat in s`. `Text.ContainsEdges` and `Text.ContainsAt` state what it accepts. |
| Text.ContainsEdges | main.py:71 | The empty pattern is in every string, and a pattern longer than `s` never is. |
| Text.ContainsAt | main.py:71 | The substring test `pat in s` holds exactly when `pat` occurs at some position of `s`. |
| Text.Join | main.py:90 | `sep.join(parts)`. `Text.JoinPrefix` and `Text.SplitJoin` state its result. |
| Text.JoinPrefix | main.py:90 | Joining no parts gives the empty string. Otherwise the result starts with the first part. |
| Text.SplitJoin | main.py:90 | Splitting a `"\n".join(...)` on `"\n"` gives back the joined parts, provided no part contains a newline. |
| Summarizer.Newsworthy | main.py:71 | The keep test `"ignore" not in summary.lower()`. `Summarizer.NewsworthyExactly` and `Summarizer.IgnoreAnyCase` state what it accepts. |
| Summarizer.NewsworthyExactly | main.py:71 | A summary is kept exactly when no position of its lower-cased text starts an "ignore". |
| Summarizer.IgnoreAnyCase | main.py:71 | A summary that contains "ignore" in any mix of upper and lower case is dropped. |
| Summarizer.Contribution | main.py:70-74 | What one call adds: the trimmed reply when it is newsworthy, otherwise nothing. `Summarizer.ContributionClean` states its bounds. |
| Summarizer.ContributionClean | main.py:70-74 | One call contributes at most one summary, nothing when it raised, and only a trimmed, newsworthy one. |
| Summarizer.MeaningfulSnoc | main.py:61-72 | One more headline adds only its own contribution, at the end. |
| Summarizer.AnalyzeWithAi | main.py:58-75 | The loop returns exactly `Meaningful(headlines, reply)`: the trimmed, newsworthy replies, in headline order, with failed calls skipped. |
| Summarizer.MeaningfulAppend | main.py:61-75 | Headlines are processed independently: the result for `a + b` is the result for `a` followed by the result for `b`. |
| Summarizer.FailureIsolated | main.py:73-74 | A headline whose call raised contributes nothing and leaves the results of the other headlines unchanged. |
| Summarizer.MeaningfulSource | main.py:61-72 | Every returned summary is the trimmed, newsworthy reply to some input headline. |
| Summarizer.MeaningfulComplete | main.py:61-72 | Every successful reply whose trimmed text is newsworthy is returned. |
| Summarizer.MeaningfulMembers | main.py:61-75 | A summary is returned if and only if some headline's call succeeded with a reply that trims to it and does not contain "ignore" in lower case. |
| Summarizer.MeaningfulClean | main.py:70-72 | There are at most as many summaries as headlines, and every summary is already trimmed and newsworthy. |
| DedupCache.Headlines | main.py:81 | `[c["headline"] for c in cache]` has one headline per entry. `DedupCache.HeadlinesMembers` and `DedupCache.HeadlinesAppend` state its contents. |
| DedupCache.HeadlinesMembers | main.py:81 | `x` is among the cache's headlines exactly when some entry has headline `x`. |
| DedupCache.Stamped | main.py:83 | The entries the appends add, one per item, in order. `DedupCache.StampedSnoc` and `DedupCache.GrownHeadlines` state their contents. |
| DedupCache.HeadlinesAppend | main.py:81-83 | The headlines of `a + b` are those of `a` followed by those of `b`. |
| DedupCache.FilterNew | main.py:77-84 | The loop returns `NewItems(items, headlines of cache)`. The new cache is the old cache followed by one entry per new item, in order, stamped with the successive clock readings, so its length is the old length plus the number of new items. |
| DedupCache.GrownHeadlines | main.py:81-83 | The headlines of the grown cache are the old headlines followed by the new items. |
| DedupCache.FilterStep | main.py:80-83 | At each step the candidate is kept exactly when neither the cache nor the candidates kept so far hold it. |
| DedupCache.StampedSnoc | main.py:83 | Appending one entry stamps the new item with the reading taken at the current cache length. |
| DedupCache.NewItemsCons | main.py:80-83 | The first candidate is tested against the cache, and the rest against the cache grown by it. |
| DedupCache.NewItemsMembers | main.py:80-83 | An item is returned if and only if it is a candidate and not a headline of the incoming cache. |
| DedupCache.NewItemsDistinct | main.py:80-83 | No item is returned twice: later repeats within one input are dropped. |
| DedupCache.NewItemsAppend | main.py:80-83 | Filtering `a + b` is filtering `a`, then filtering `b` against the cache grown by `a`'s new items. |
| DedupCache.NewItemsSameSeen | main.py:81 | Only which headlines the cache holds matters, not their order or their repetition. |
| DedupCache.NewItemsAreFirstOccurrences | main.py:80-83 | The result equals the reference definition: the first occurrence of each candidate that the cache does not hold, in input order. |
| DedupCache.NewItemsAllSeen | main.py:81 | When every candidate is already a headline, nothing is returned. |
| DedupCache.FilterNewIdempotent | main.py:80-84 | Filtering the same candidates again against the returned cache returns nothing, and the cache that second call returns is the same cache. |
| DedupCache.FilterNewKeepsDistinct | main.py:81-83 | No returned item was already a headline of the cache, and a cache with pairwise-distinct headlines keeps them distinct. |
| Notifier.Bullet | main.py:90 | The line for an update is the bullet mark "• " followed by the update unchanged. |
| Notifier.Bullets | main.py:90 | `[f"• {u}" for u in updates]`: one line per update, in order, and line `k` is the bullet line of update `k`. |
| Notifier.Body | main.py:90 | The message starts with the header line "🔔 Latest Updates:". |
| Notifier.BodyLines | main.py:88-90 | Read line by line, the message is the title followed by `"• " + u` for each update `u`, in order (when no update spans more than one line). |
| Notifier.RetryFrom | main.py:94-106 | From attempt `k` on, at most `3 - k` attempts are made, at least one while `k < 3`, and there is at most one wait per attempt. |
| Notifier.Pow2 | main.py:104 | `2 ** attempt` is at least 1. `Notifier.Backoff` and `Notifier.RetryPermanentFailure` give the waits 1, 2 and 4. |
| Notifier.Backoff | main.py:104-106 | The waits after failed attempts `k .. n-1` are `2^k, ..., 2^(n-1)`. |
| Notifier.RetryFirstSuccess | main.py:94-106 | If the first success is at attempt `i`, exactly `i + 1` attempts are made, with waits `2^0, ..., 2^(i-1)`. |
| Notifier.RetryPermanentFailure | main.py:94-106 | Under permanent failure, 3 attempts are made, with waits of 1, 2 and 4 seconds. |
| Notifier.RetryStopsAtFirstSuccess | main.py:94-106 | Every attempt but the last failed. Fewer than three attempts means the last one succeeded. There is a wait after each failed attempt and none after a success. |
| Notifier.RetryAfterFailure | main.py:103-106 | After a failed attempt `k`, the loop waits `2^k` and goes on with attempt `k + 1`. |
| Notifier.SendWhatsapp | main.py:86-106 | An empty list sends nothing and waits for nothing. Otherwise the body is offered to the provider 1 to 3 times, and the attempts and waits are exactly `RetryFrom(accepted, 0)`. |
| Agent.FirstMissingUrl | main.py:114-115 | It is `None` exactly when every site has a url. Otherwise it is the first site without one. |
| Agent.FirstMissingUrlAt | main.py:114-115 | A site without a url that follows sites that all have one is the first missing url. |
| Agent.BatchStep | main.py:114-119 | One more site extends the batch with that site's new items, found against the cache that the earlier sites left. |
| Agent.CacheStep | main.py:118 | Growing the cache site by site gives the same entries as growing it once by all the new items. |
| Agent.AgentLoop | main.py:108-122 | With a missing url, the run aborts at the first such site and has no effects. Otherwise it saves the loaded cache followed by one entry per collected update, then notifies once with exactly `Batch(config, ...)`, and the sends satisfy the notifier's contract. |
| Agent.SelectorOf | main.py:115 | `site.get("selector", "h2")`. `Agent.DefaultSelectorUsed` shows that the default reaches the fetch. |
| Agent.DefaultSelectorUsed | main.py:115 | A site without a `"selector"` is fetched with `"h2"`. |
| Agent.SiteSummaries | main.py:115-117 | One site's `analyze_with_ai(fetch_site(url, selector))`. `Agent.DefaultSelectorUsed` states the `"h2"` default and `Agent.SiteSummariesMembers` its contents. |
| Agent.SiteSummariesMembers | main.py:115-117 | A summary comes from a site exactly when a headline fetched with the site's url and selector got a reply that trims to it and is newsworthy. |
| Agent.AllSummariesAppend | main.py:114-117 | The summaries of `a + b` are those of `a` followed by those of `b`. |
| Agent.BatchIsOneFilter | main.py:114-119 | Filtering site by site against the accumulating cache equals one `filter_new` over all sites' summaries, in configuration order. |
| Agent.RunKeepsCacheDistinct | main.py:114-121 | The batch holds no duplicates and nothing already in the loaded cache. A loaded cache with distinct headlines is saved with distinct headlines. |
| Agent.RunIdempotent | main.py:114-121 | A second run over the same summaries from the saved cache collects nothing. |
| Agent.AllSummariesSkip | main.py:114-117 | A site without summaries adds nothing to the summaries of all sites. |
| Agent.SiteIsolation | main.py:114-119 | A site that yields no summaries, for example because its fetch failed, leaves the updates collected from the other sites unchanged. |
| Scenarios.ContributionSumA | main.py:70-72 | The reply "Sum A" is kept as it is. |
| Scenarios.ContributionSumB | main.py:70-72 | The reply " Sum B\n" is trimmed to "Sum B" and kept. |
| Scenarios.StripIgnoreThis | main.py:70 | "Ignore this" has no white space to strip. |
| Scenarios.IgnoreThisNotNewsworthy | main.py:71 | "Ignore this" contains "ignore" once lower-cased. |
| Scenarios.ContributionIgnored | main.py:70-72 | The reply "Ignore this" contributes nothing. |
| Scenarios.MeaningfulOfTwo | main.py:61-75 | The summaries of two headlines are their two contributions, in order. |
| Scenarios.BatchOfOne | main.py:114-119 | The batch of a single site is its summaries filtered against the cache. |
| Scenarios.SummariesOfTwoHeadlines | main.py:115-117 | A site without a selector whose headlines "A" and "B" are summarised as "Sum A" and " Sum B\n" yields ["Sum A", "Sum B"]. |
| Scenarios.KeepOne | main.py:80-83 | A single candidate that the cache does not hold is kept. |
| Scenarios.KeepTwo | main.py:80-83 | Two different candidates that the cache does not hold are both kept, in order. |
| Scenarios.KeepSecond | main.py:80-83 | A cached first candidate is dropped and an uncached second one kept. |
| Scenarios.BatchOfTwoHeadlines | main.py:114-119 | The batch of the two-headline site is ["Sum A", "Sum B"] filtered against the cache. |
| Scenarios.MessageOfTwo | main.py:90 | The message for "Sum A" and "Sum B" reads, line by line, as the title and their two bullet lines. |
| Scenarios.FreshRun | main.py:108-122 | Starting from an empty cache, the batch is ["Sum A", "Sum B"], the saved cache holds exactly these two headlines, and the message lists them as two bullet lines under the title. |
| Scenarios.RunWithCachedSummary | main.py:108-122 | When the cache already holds "Sum A", the batch is ["Sum B"] and the saved cache's headlines are ["Sum A", "Sum B"], one more entry. |
| Scenarios.RunWithIgnoredSummary | main.py:108-122 | A reply "Ignore this" contributes nothing: the batch is ["Sum A"], and so is the saved cache's list of headlines. |
| Scenarios.RunWithUnreachableSite | main.py:108-122 | When the first site yields no headlines, the second site's one new summary is the whole batch. |

## Left out

- Text.Lower: lower-casing covers only the ASCII letters. For the "ignore" test this is exact. Python's `lower()` maps non-ASCII characters to ASCII letters in only two cases. U+0130 becomes "i" followed by U+0307. U+212A becomes "k". Neither can complete an ASCII "ignore" that the ASCII mapping misses.
- `fetch_site` (main.py:47-56) is not part of this model. The HTTP request, the status check and the CSS selection are foreign library calls, so `fetch(url, selector)` stands for their result.
- The OpenAI request (main.py:63-69) and the reading of its response are replaced by `reply(headline)`.
- Agent.AgentLoop: fetch is a function of (url, selector), so repeated entries are assumed to see the same page within one run. The code issues a separate request for each entry (main.py:116), and the page can change between requests. No proved property depends on this.
- Summarizer.AnalyzeWithAi: `reply` is a function of the headline, so the model assumes the service answers the same headline the same way within a run.
- The Twilio client's construction (main.py:92) and `messages.create` (main.py:96-100) are replaced by `accepted(k)`. A failure when the client is constructed is not modelled.
- Notifier.SendWhatsapp: `time.sleep` is recorded as the list of wait durations, not performed.
- `datetime.now()` is replaced by `clock`. The model does not fix the timestamp format.
- `load_config`, `load_cache` and `save_cache` (main.py:33-45) are JSON file I/O. The loaded values are inputs and the saved cache is an effect. Failures to read or write these files are not modelled.
- Configuration and cache values other than the expected shapes are not modelled: non-string urls or selectors, sites that are not objects, entries without `"headline"`.
- Logging, `load_dotenv` and the environment variables (main.py:17-26) produce no state the core reads.
- Signal handling, `argparse` and the 30-minute scheduler (main.py:127-146) are process control, outside one run.
- DedupCache.FilterNew: it returns the grown cache as a value. Aliasing of the caller's list is not captured, and the only caller cannot observe it.
