/**
 * The notifier of `send_whatsapp`: one message listing every update, handed
 * to the messaging provider up to three times, with an exponential wait
 * after each failed attempt. The provider is abstracted as `accepted`:
 * `accepted(k)` says whether the 0-based attempt `k` went through.
 */
module Notifier {
  import opened Text

  /** The first line of every message. */
  const Title := "\U{1F514} Latest Updates:"
  const Header := Title + "\n"

  /** The number of send attempts before giving up. */
  const MaxAttempts := 3

  /** The line for one update: the bullet mark and a space, then the update as it is. */
  function Bullet(update: string): (line: string)
    ensures |line| == |update| + 2
    ensures line[..2] == "\U{2022} " && line[2..] == update
  {
    "\U{2022} " + update
  }

  /** The bullet lines, one per update, in order. */
  function Bullets(updates: seq<string>): (lines: seq<string>)
    ensures |lines| == |updates|
    ensures forall k :: 0 <= k < |updates| ==> lines[k] == Bullet(updates[k])
  {
    seq(|updates|, k requires 0 <= k < |updates| => Bullet(updates[k]))
  }

  /** The message text: the header, then one bullet line per update, in order. */
  function Body(updates: seq<string>): (body: string)
    ensures |Header| <= |body| && body[..|Header|] == Header
  {
    Header + Join("\n", Bullets(updates))
  }

  /**
   * Read back line by line, the message is the title followed by the updates'
   * bullet lines, in order (when no update spans more than one line).
   */
  lemma BodyLines(updates: seq<string>)
    requires updates != []
    requires forall k :: 0 <= k < |updates| ==> '\n' !in updates[k]
    ensures Split(Body(updates), '\n') == [Title] + Bullets(updates)
  {
    var lines := [Title] + Bullets(updates);
    assert Join("\n", lines) == Title + "\n" + Join("\n", Bullets(updates));
    assert Body(updates) == Join("\n", lines);
    forall k | 0 <= k < |lines| ensures '\n' !in lines[k] {
      if k > 0 {
        assert lines[k] == "\U{2022} " + updates[k - 1];
      }
    }
    SplitJoin(lines, '\n');
  }

  /** `2 ** k`. */
  function Pow2(k: nat): (r: nat)
    ensures r >= 1
  {
    if k == 0 then 1 else 2 * Pow2(k - 1)
  }

  /** The effect of the retry loop: how many attempts were made, and the waits in seconds. */
  datatype Delivery = Delivery(attempts: nat, waits: seq<nat>)

  /** The attempts and waits of the retry loop from 0-based attempt `k` on. */
  function RetryFrom(accepted: nat -> bool, k: nat): (d: Delivery)
    requires k <= MaxAttempts
    ensures d.attempts <= MaxAttempts - k
    ensures k < MaxAttempts ==> 1 <= d.attempts
    ensures |d.waits| <= d.attempts
    decreases MaxAttempts - k
  {
    if k == MaxAttempts then Delivery(0, [])
    else if accepted(k) then Delivery(1, [])
    else
      var rest := RetryFrom(accepted, k + 1);
      Delivery(1 + rest.attempts, [Pow2(k)] + rest.waits)
  }

  /** The backoff waits after the failed attempts `k`, ..., `n - 1`. */
  function Backoff(k: nat, n: nat): (waits: seq<nat>)
    requires k <= n
    ensures |waits| == n - k
    ensures forall j :: 0 <= j < n - k ==> waits[j] == Pow2(k + j)
    decreases n - k
  {
    if k == n then [] else [Pow2(k)] + Backoff(k + 1, n)
  }

  /**
   * When the first success is at attempt `i`, exactly `i + 1` attempts are
   * made and the waits are `2^k` for each earlier attempt `k`.
   */
  lemma {:induction false} RetryFirstSuccess(accepted: nat -> bool, k: nat, i: nat)
    requires k <= i < MaxAttempts && accepted(i)
    requires forall j :: k <= j < i ==> !accepted(j)
    ensures RetryFrom(accepted, k) == Delivery(i + 1 - k, Backoff(k, i))
    decreases i - k
  {
    if k < i {
      RetryFirstSuccess(accepted, k + 1, i);
    }
  }

  /** Under permanent failure, three attempts are made, with waits of 1, 2 and 4 seconds. */
  lemma RetryPermanentFailure(accepted: nat -> bool)
    requires forall j :: 0 <= j < MaxAttempts ==> !accepted(j)
    ensures RetryFrom(accepted, 0) == Delivery(3, [1, 2, 4])
  {
    assert !accepted(0) && !accepted(1) && !accepted(2);
  }

  /** Every attempt but the last failed; fewer than three attempts means the last one succeeded. */
  lemma {:induction false} RetryStopsAtFirstSuccess(accepted: nat -> bool, k: nat)
    requires k < MaxAttempts
    ensures var d := RetryFrom(accepted, k);
            (forall j :: k <= j < k + d.attempts - 1 ==> !accepted(j)) &&
            (k + d.attempts < MaxAttempts ==> accepted(k + d.attempts - 1)) &&
            |d.waits| == (if accepted(k + d.attempts - 1) then d.attempts - 1 else d.attempts)
    decreases MaxAttempts - k
  {
    if !accepted(k) && k + 1 < MaxAttempts {
      RetryStopsAtFirstSuccess(accepted, k + 1);
    }
  }

  /**
   * What `send_whatsapp(updates)` does, given the provider's answers: nothing
   * for an empty list; otherwise the body is handed to the provider once per
   * attempt, the attempts stop at the first success or after three, and the
   * loop waits `2^k` seconds after each failed attempt `k`.
   */
  predicate Sends(updates: seq<string>, accepted: nat -> bool, messages: seq<string>, waits: seq<nat>) {
    && (updates == [] ==> messages == [] && waits == [])
    && (updates != [] ==> 1 <= |messages| <= MaxAttempts && Delivery(|messages|, waits) == RetryFrom(accepted, 0))
    && (forall k :: 0 <= k < |messages| ==> messages[k] == Body(updates))
  }

  /** After a failed attempt `k`, the rest of the loop is the wait `2^k`, then the loop from `k + 1`. */
  lemma RetryAfterFailure(accepted: nat -> bool, k: nat, waits: seq<nat>)
    requires k < MaxAttempts && !accepted(k)
    ensures RetryFrom(accepted, k).attempts == 1 + RetryFrom(accepted, k + 1).attempts
    ensures waits + RetryFrom(accepted, k).waits == (waits + [Pow2(k)]) + RetryFrom(accepted, k + 1).waits
  {
  }

  /** `send_whatsapp(updates)`. */
  method SendWhatsapp(updates: seq<string>, accepted: nat -> bool)
    returns (messages: seq<string>, waits: seq<nat>)
    ensures Sends(updates, accepted, messages, waits)
  {
    messages, waits := [], [];
    if updates == [] {
      return;
    }
    var body := Body(updates);
    for attempt := 0 to MaxAttempts
      invariant |messages| == attempt
      invariant forall k :: 0 <= k < |messages| ==> messages[k] == body
      invariant RetryFrom(accepted, 0).attempts == attempt + RetryFrom(accepted, attempt).attempts
      invariant RetryFrom(accepted, 0).waits == waits + RetryFrom(accepted, attempt).waits
    {
      messages := messages + [body];
      if accepted(attempt) {
        assert waits + [] == waits;
        break;
      }
      RetryAfterFailure(accepted, attempt, waits);
      var wait := Pow2(attempt);
      waits := waits + [wait];
    }
    assert waits + [] == waits;
  }
}
