/**
 * The retry policy shared by the two delivery workers of
 * cmd/apocalypse/server.go: post, and on failure try again, at most
 * `MaxAttempts` times in all. The result of each post call is opaque, so
 * a worker is driven by `outcomes`: `outcomes[i]` is whether attempt
 * `i + 1` would succeed.
 */
module Delivery {
  import opened Types

  /** Both workers give up after the third failed attempt. */
  const MaxAttempts: nat := 3

  /** How a job ended: the attempts made and whether the last one succeeded. */
  datatype Attempts = Attempts(count: nat, delivered: bool)

  /** The outcome of the retry loop once `made` attempts have failed. */
  function RetryFrom(outcomes: seq<bool>, made: nat): (r: Attempts)
    requires made < MaxAttempts <= |outcomes|
    ensures made < r.count <= MaxAttempts
    ensures forall i :: made <= i < r.count - 1 ==> !outcomes[i]
    ensures r.delivered == outcomes[r.count - 1]
    ensures !r.delivered ==> r.count == MaxAttempts
    decreases MaxAttempts - made
  {
    if outcomes[made] then Attempts(made + 1, true)
    else if made + 1 == MaxAttempts then Attempts(MaxAttempts, false)
    else RetryFrom(outcomes, made + 1)
  }

  /**
   * The outcome of delivering one job: at most three attempts, stopping at
   * the first success; the job is dropped only when all three fail.
   */
  function RetryOutcome(outcomes: seq<bool>): (r: Attempts)
    requires MaxAttempts <= |outcomes|
    ensures 1 <= r.count <= MaxAttempts
    ensures r.delivered ==> outcomes[r.count - 1] && forall i :: 0 <= i < r.count - 1 ==> !outcomes[i]
    ensures !r.delivered <==> forall i :: 0 <= i < MaxAttempts ==> !outcomes[i]
    ensures !r.delivered ==> r.count == MaxAttempts
  {
    RetryFrom(outcomes, 0)
  }

  /** The retry loop both workers run around their post call. */
  method Retry(outcomes: seq<bool>) returns (r: Attempts)
    requires MaxAttempts <= |outcomes|
    ensures r == RetryOutcome(outcomes)
  {
    var attemptCount := 0;
    var delivered := false;
    while !delivered && attemptCount < MaxAttempts
      invariant attemptCount <= MaxAttempts
      invariant !delivered && attemptCount < MaxAttempts ==> RetryOutcome(outcomes) == RetryFrom(outcomes, attemptCount)
      invariant !delivered && attemptCount == MaxAttempts ==> RetryOutcome(outcomes) == Attempts(MaxAttempts, false)
      invariant delivered ==> RetryOutcome(outcomes) == Attempts(attemptCount, true)
      decreases MaxAttempts - attemptCount
    {
      attemptCount := attemptCount + 1;
      delivered := outcomes[attemptCount - 1];
    }
    r := Attempts(attemptCount, delivered);
  }

  /**
   * The text the tweet worker posts: the value, with the signed change
   * only when the change is non-zero.
   */
  function TweetText(t: Tweet): (a: Announcement)
    ensures a.value == t.percentNow
    ensures a.change.Some? <==> t.percentChange != 0
    ensures a.change.Some? ==> a.change.value == t.percentChange
  {
    Announcement(t.percentNow, if t.percentChange != 0 then Some(t.percentChange) else None)
  }

  /** The last tweeted value after the tweet worker has handled `t`. */
  function AfterTweet(lastTweeted: Chance, t: Tweet, outcomes: seq<bool>): Chance
    requires MaxAttempts <= |outcomes|
  {
    if RetryOutcome(outcomes).delivered then t.percentNow else lastTweeted
  }

  /**
   * The last tweeted value after the tweet worker has handled every job
   * of `tweets` in queue order, the k-th with `outcomes[k]`.
   */
  function LastConfirmed(lastTweeted: Chance, tweets: seq<Tweet>, outcomes: seq<seq<bool>>): Chance
    requires |outcomes| == |tweets|
    requires forall k :: 0 <= k < |outcomes| ==> MaxAttempts <= |outcomes[k]|
    decreases |tweets|
  {
    if tweets == [] then lastTweeted
    else LastConfirmed(AfterTweet(lastTweeted, tweets[0], outcomes[0]), tweets[1..], outcomes[1..])
  }

  /**
   * The snapshots the tweet worker writes while handling every job of
   * `tweets` in queue order: one per confirmed tweet, taken just after it
   * recorded that tweet's value.
   */
  function ConfirmedSaves(tokens: map<string, Account>, lastTweeted: Chance,
                          tweets: seq<Tweet>, outcomes: seq<seq<bool>>): (saves: seq<ServerState>)
    requires |outcomes| == |tweets|
    requires forall k :: 0 <= k < |outcomes| ==> MaxAttempts <= |outcomes[k]|
    ensures |saves| <= |tweets|
    ensures forall i :: 0 <= i < |saves| ==> saves[i].tokens == tokens
    decreases |tweets|
  {
    if tweets == [] then []
    else
      var next := AfterTweet(lastTweeted, tweets[0], outcomes[0]);
      (if RetryOutcome(outcomes[0]).delivered then [ServerState(tokens, next)] else [])
        + ConfirmedSaves(tokens, next, tweets[1..], outcomes[1..])
  }

  /**
   * Draining the tweet queue leaves as last tweeted value either the old
   * one or the value of a tweet that was confirmed.
   */
  lemma {:induction false} LastConfirmedWasDelivered(lastTweeted: Chance, tweets: seq<Tweet>, outcomes: seq<seq<bool>>)
    requires |outcomes| == |tweets|
    requires forall k :: 0 <= k < |outcomes| ==> MaxAttempts <= |outcomes[k]|
    ensures var r := LastConfirmed(lastTweeted, tweets, outcomes);
      r == lastTweeted
      || exists k :: 0 <= k < |tweets| && RetryOutcome(outcomes[k]).delivered && r == tweets[k].percentNow
    decreases |tweets|
  {
    if tweets != [] {
      var next := AfterTweet(lastTweeted, tweets[0], outcomes[0]);
      LastConfirmedWasDelivered(next, tweets[1..], outcomes[1..]);
      var r := LastConfirmed(lastTweeted, tweets, outcomes);
      if r != lastTweeted && r != next {
        var k :| 0 <= k < |tweets[1..]| && RetryOutcome(outcomes[1..][k]).delivered && r == tweets[1..][k].percentNow;
        assert RetryOutcome(outcomes[k + 1]).delivered && r == tweets[k + 1].percentNow;
      }
    }
  }

  /**
   * When every tweet fails all its attempts, the last tweeted value is
   * untouched.
   */
  lemma {:induction false} AllFailedKeepsLast(lastTweeted: Chance, tweets: seq<Tweet>, outcomes: seq<seq<bool>>)
    requires |outcomes| == |tweets|
    requires forall k :: 0 <= k < |outcomes| ==> MaxAttempts <= |outcomes[k]|
    requires forall k :: 0 <= k < |outcomes| ==> !RetryOutcome(outcomes[k]).delivered
    ensures LastConfirmed(lastTweeted, tweets, outcomes) == lastTweeted
    decreases |tweets|
  {
    if tweets != [] {
      assert !RetryOutcome(outcomes[0]).delivered;
      AllFailedKeepsLast(lastTweeted, tweets[1..], outcomes[1..]);
    }
  }

  /**
   * Draining the tweet queue leaves as last tweeted value that of the last
   * confirmed tweet: if tweet `k` is delivered and every later one is
   * dropped, the result is tweet `k`'s value.
   */
  lemma {:induction false} LastConfirmedIsLastDelivered(lastTweeted: Chance, tweets: seq<Tweet>,
                                                      outcomes: seq<seq<bool>>, k: nat)
    requires |outcomes| == |tweets|
    requires forall j :: 0 <= j < |outcomes| ==> MaxAttempts <= |outcomes[j]|
    requires k < |tweets| && RetryOutcome(outcomes[k]).delivered
    requires forall j :: k < j < |outcomes| ==> !RetryOutcome(outcomes[j]).delivered
    ensures LastConfirmed(lastTweeted, tweets, outcomes) == tweets[k].percentNow
    decreases k
  {
    var next := AfterTweet(lastTweeted, tweets[0], outcomes[0]);
    if k == 0 {
      AllFailedKeepsLast(next, tweets[1..], outcomes[1..]);
    } else {
      LastConfirmedIsLastDelivered(next, tweets[1..], outcomes[1..], k - 1);
    }
  }
}
