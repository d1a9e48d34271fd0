/**
 * The dedup cache of `filter_new`: the cache is the ordered list of summaries
 * already collected, each with the time it was first seen. A candidate is new when
 * no cache entry's headline equals it exactly; new candidates are returned in
 * input order and appended to the cache as they are found.
 *
 * The clock is a parameter: `clock(k)` is the text of the time read when the
 * cache holds `k` entries and the next one is appended. Each append happens
 * at a different cache length, so every sequence of clock readings is of this
 * form.
 */
module DedupCache {

  /** One record of the persisted cache. */
  datatype Entry = Entry(headline: string, timestamp: string)

  /** The headlines of the cache (the list `[c["headline"] for c in cache]`). */
  function Headlines(cache: seq<Entry>): (hs: seq<string>)
    ensures |hs| == |cache|
  {
    seq(|cache|, k requires 0 <= k < |cache| => cache[k].headline)
  }

  /** The entries for `items` appended one by one to a cache holding `from` entries. */
  function Stamped(items: seq<string>, from: nat, clock: nat -> string): (entries: seq<Entry>)
    ensures |entries| == |items|
  {
    seq(|items|, k requires 0 <= k < |items| => Entry(items[k], clock(from + k)))
  }

  /** `x in [c["headline"] for c in cache]`: some entry of the cache has the headline `x`. */
  lemma HeadlinesMembers(cache: seq<Entry>, x: string)
    ensures x in Headlines(cache) <==> exists k :: 0 <= k < |cache| && cache[k].headline == x
  {
    var hs := Headlines(cache);
    if x in hs {
      var k :| 0 <= k < |hs| && hs[k] == x;
      assert cache[k].headline == x;
    }
    if exists k :: 0 <= k < |cache| && cache[k].headline == x {
      var k :| 0 <= k < |cache| && cache[k].headline == x;
      assert hs[k] == x;
    }
  }

  /** The headlines of `a + b` are those of `a`, then those of `b`. */
  lemma HeadlinesAppend(a: seq<Entry>, b: seq<Entry>)
    ensures Headlines(a + b) == Headlines(a) + Headlines(b)
  {
  }

  /** Stamping one more item appends one entry, stamped with the reading at its position. */
  lemma StampedSnoc(items: seq<string>, item: string, from: nat, clock: nat -> string)
    ensures Stamped(items + [item], from, clock) == Stamped(items, from, clock) + [Entry(item, clock(from + |items|))]
  {
  }

  /** No headline occurs twice. */
  predicate NoDuplicates(s: seq<string>) {
    forall i, j :: 0 <= i < j < |s| ==> s[i] != s[j]
  }

  /**
   * The candidates `filter_new` keeps, when the cache's headlines are `seen`:
   * each candidate is checked against the cache as it has grown so far.
   */
  function NewItems(items: seq<string>, seen: seq<string>): seq<string> {
    if items == [] then []
    else if items[0] in seen then NewItems(items[1..], seen)
    else [items[0]] + NewItems(items[1..], seen + [items[0]])
  }

  /**
   * An independent description of the same result: the candidates at the
   * positions where neither the cache nor an earlier candidate holds them.
   */
  function FirstOccurrences(items: seq<string>, seen: seq<string>): seq<string> {
    if items == [] then []
    else
      var init, last := items[..|items| - 1], items[|items| - 1];
      FirstOccurrences(init, seen) + (if last in seen || last in init then [] else [last])
  }

  /** `filter_new(items, cache)`: returns the new items and the grown cache. */
  method FilterNew(items: seq<string>, cache: seq<Entry>, clock: nat -> string)
    returns (newItems: seq<string>, cache': seq<Entry>)
    ensures newItems == NewItems(items, Headlines(cache))
    ensures cache' == cache + Stamped(newItems, |cache|, clock)
    ensures |cache'| == |cache| + |newItems|
  {
    newItems, cache' := [], cache;
    ghost var seen := Headlines(cache);
    assert items[0..] == items && seen + [] == seen;
    for i := 0 to |items|
      invariant cache' == cache + Stamped(newItems, |cache|, clock)
      invariant newItems + NewItems(items[i..], seen + newItems) == NewItems(items, seen)
    {
      var item := items[i];
      FilterStep(items, i, seen, newItems);
      GrownHeadlines(cache, newItems, clock);
      if item !in Headlines(cache') {
        StampedSnoc(newItems, item, |cache|, clock);
        newItems := newItems + [item];
        cache' := cache' + [Entry(item, clock(|cache'|))];
      }
    }
    assert items[|items|..] == [];
  }

  /** The headlines of the grown cache are the old headlines followed by the added items. */
  lemma GrownHeadlines(cache: seq<Entry>, added: seq<string>, clock: nat -> string)
    ensures Headlines(cache + Stamped(added, |cache|, clock)) == Headlines(cache) + added
  {
    HeadlinesAppend(cache, Stamped(added, |cache|, clock));
  }

  /** The loop's step: the candidate at `i` is kept exactly when neither the cache nor the kept items hold it. */
  lemma FilterStep(items: seq<string>, i: nat, seen: seq<string>, kept: seq<string>)
    requires i < |items|
    requires kept + NewItems(items[i..], seen + kept) == NewItems(items, seen)
    ensures items[i] in seen + kept ==> kept + NewItems(items[i + 1..], seen + kept) == NewItems(items, seen)
    ensures items[i] !in seen + kept ==>
              (kept + [items[i]]) + NewItems(items[i + 1..], seen + (kept + [items[i]])) == NewItems(items, seen)
  {
    NewItemsUnfold(items, i, seen + kept);
    assert seen + (kept + [items[i]]) == (seen + kept) + [items[i]];
  }

  /** One step of the loop: the candidate at `i` is checked against `seen`. */
  lemma NewItemsUnfold(items: seq<string>, i: nat, seen: seq<string>)
    requires i < |items|
    ensures NewItems(items[i..], seen) ==
            if items[i] in seen then NewItems(items[i + 1..], seen)
            else [items[i]] + NewItems(items[i + 1..], seen + [items[i]])
  {
    assert items[i..][0] == items[i] && items[i..][1..] == items[i + 1..];
  }

  /** A candidate is kept exactly when it is a candidate and not already seen. */
  lemma {:induction false} NewItemsMembers(items: seq<string>, seen: seq<string>, x: string)
    ensures x in NewItems(items, seen) <==> x in items && x !in seen
    decreases |items|
  {
    if items != [] {
      NewItemsMembers(items[1..], seen, x);
      NewItemsMembers(items[1..], seen + [items[0]], x);
      assert items == [items[0]] + items[1..];
    }
  }

  /** No kept candidate is kept twice. */
  lemma {:induction false} NewItemsDistinct(items: seq<string>, seen: seq<string>)
    ensures NoDuplicates(NewItems(items, seen))
    decreases |items|
  {
    if items != [] {
      if items[0] in seen {
        NewItemsDistinct(items[1..], seen);
      } else {
        var rest := NewItems(items[1..], seen + [items[0]]);
        NewItemsDistinct(items[1..], seen + [items[0]]);
        NewItemsMembers(items[1..], seen + [items[0]], items[0]);
      }
    }
  }

  /** The first candidate is checked against `seen`, the rest against what is seen after it. */
  lemma NewItemsCons(x: string, rest: seq<string>, seen: seq<string>)
    ensures NewItems([x] + rest, seen) ==
            if x in seen then NewItems(rest, seen) else [x] + NewItems(rest, seen + [x])
  {
    assert ([x] + rest)[0] == x && ([x] + rest)[1..] == rest;
  }

  /** Filtering `a + b` is filtering `a`, then filtering `b` against what `a` added. */
  lemma {:induction false} NewItemsAppend(a: seq<string>, b: seq<string>, seen: seq<string>)
    ensures NewItems(a + b, seen) == NewItems(a, seen) + NewItems(b, seen + NewItems(a, seen))
    decreases |a|
  {
    if a == [] {
      assert a + b == b;
      assert seen + [] == seen;
    } else {
      var x, rest := a[0], a[1..];
      assert a == [x] + rest && a + b == [x] + (rest + b);
      NewItemsCons(x, rest, seen);
      NewItemsCons(x, rest + b, seen);
      if x in seen {
        NewItemsAppend(rest, b, seen);
      } else {
        NewItemsAppend(rest, b, seen + [x]);
        ConsAppendAssoc(x, NewItems(rest, seen + [x]), NewItems(b, seen + [x] + NewItems(rest, seen + [x])), seen);
      }
    }
  }

  /** Two associativity facts for a kept head `x`, used by `NewItemsAppend`. */
  lemma ConsAppendAssoc(x: string, kept: seq<string>, later: seq<string>, seen: seq<string>)
    ensures [x] + (kept + later) == ([x] + kept) + later
    ensures seen + [x] + kept == seen + ([x] + kept)
  {
  }

  /** Membership in `seen` only matters as a set. */
  lemma {:induction false} NewItemsSameSeen(items: seq<string>, seen: seq<string>, seen': seq<string>)
    requires forall x :: x in seen <==> x in seen'
    ensures NewItems(items, seen) == NewItems(items, seen')
    decreases |items|
  {
    if items != [] {
      NewItemsSameSeen(items[1..], seen, seen');
      NewItemsSameSeen(items[1..], seen + [items[0]], seen' + [items[0]]);
    }
  }

  /** The loop's result is the first occurrence of every candidate not already seen, in input order. */
  lemma {:induction false} NewItemsAreFirstOccurrences(items: seq<string>, seen: seq<string>)
    ensures NewItems(items, seen) == FirstOccurrences(items, seen)
    decreases |items|
  {
    if items != [] {
      var init, last := items[..|items| - 1], items[|items| - 1];
      assert items == init + [last];
      NewItemsAreFirstOccurrences(init, seen);
      NewItemsAppend(init, [last], seen);
      var seen' := seen + NewItems(init, seen);
      forall x ensures x in seen' <==> x in seen || x in init {
        NewItemsMembers(init, seen, x);
      }
      assert [last][1..] == [];
      if last in seen || last in init {
        assert last in seen';
        assert NewItems([last], seen') == [];
      } else {
        assert last !in seen';
        assert NewItems([last], seen') == [last];
      }
    }
  }

  /** Nothing is kept when every candidate is already seen. */
  lemma {:induction false} NewItemsAllSeen(items: seq<string>, seen: seq<string>)
    requires forall k :: 0 <= k < |items| ==> items[k] in seen
    ensures NewItems(items, seen) == []
    decreases |items|
  {
    if items != [] {
      NewItemsAllSeen(items[1..], seen);
    }
  }

  /**
   * Filtering again with the same candidates against the grown cache keeps
   * nothing and leaves that cache as it is.
   */
  lemma FilterNewIdempotent(items: seq<string>, cache: seq<Entry>, clock: nat -> string)
    ensures var cache' := cache + Stamped(NewItems(items, Headlines(cache)), |cache|, clock);
            NewItems(items, Headlines(cache')) == [] &&
            cache' + Stamped(NewItems(items, Headlines(cache')), |cache'|, clock) == cache'
  {
    var added := NewItems(items, Headlines(cache));
    var cache' := cache + Stamped(added, |cache|, clock);
    assert Headlines(cache') == Headlines(cache) + added;
    forall k | 0 <= k < |items| ensures items[k] in Headlines(cache') {
      NewItemsMembers(items, Headlines(cache), items[k]);
    }
    NewItemsAllSeen(items, Headlines(cache'));
  }

  /**
   * No new item was already a headline of the cache, and a cache whose
   * headlines are pairwise distinct stays so.
   */
  lemma FilterNewKeepsDistinct(items: seq<string>, cache: seq<Entry>, clock: nat -> string)
    ensures var added := NewItems(items, Headlines(cache));
            forall k :: 0 <= k < |added| ==> added[k] !in Headlines(cache)
    ensures NoDuplicates(Headlines(cache)) ==>
            NoDuplicates(Headlines(cache + Stamped(NewItems(items, Headlines(cache)), |cache|, clock)))
  {
    var prior := Headlines(cache);
    var added := NewItems(items, prior);
    forall k | 0 <= k < |added| ensures added[k] !in prior {
      NewItemsMembers(items, prior, added[k]);
    }
    NewItemsDistinct(items, prior);
    var grown := Headlines(cache + Stamped(added, |cache|, clock));
    assert grown == prior + added;
  }
}
