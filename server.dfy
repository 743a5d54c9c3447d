/**
 * The `Server` of cmd/apocalypse/server.go: the token map and last tweeted
 * value it persists, the value of the latest poll, the two job queues
 * (Slack messages and tweets) and the count of pending jobs that the
 * shutdown path waits on.
 *
 * Goroutines, channels and the mutex are not modelled: each method runs
 * atomically, a queue is a `seq` the methods append to and take from, and
 * the wait group is the counter `pending`. Fetching, posting and reading
 * the data file are opaque calls; their results are parameters.
 */
module Apocalypse {
  import opened Types
  import opened ChangeDetection
  import opened Delivery

  /**
   * What a worker did with the job at the head of its queue: where it
   * posted (the webhook URL of a Slack message; `None` for a tweet), what
   * it posted, and how the attempts ended.
   */
  datatype Posted = Posted(url: Option<string>, text: Announcement, attempts: Attempts)

  /**
   * The state the server starts from: the decoded data file when there is
   * one, and an empty (never nil) token map otherwise.
   */
  function LoadState(load: LoadOutcome): (s: ServerState)
    ensures (load.Unreadable? || load.Malformed?) ==> s.tokens == map[] && s.lastTweetedValue == 0
    ensures load.Decoded? ==> s.lastTweetedValue == load.stored.lastTweetedValue
    ensures load.Decoded? && load.stored.tokens.Some? ==> s.tokens == load.stored.tokens.value
    ensures load.Decoded? && load.stored.tokens.None? ==> s.tokens == map[]
    ensures load.TypeMismatch? ==> s.lastTweetedValue == load.partial.lastTweetedValue
    ensures load.TypeMismatch? && load.partial.tokens.Some? ==> s.tokens == load.partial.tokens.value
    ensures load.TypeMismatch? && load.partial.tokens.None? ==> s.tokens == map[]
  {
    var stored := match load
      case Unreadable => StoredState(None, 0)
      case Malformed => StoredState(None, 0)
      case TypeMismatch(partial) => partial
      case Decoded(stored) => stored;
    ServerState(if stored.tokens.Some? then stored.tokens.value else map[], stored.lastTweetedValue)
  }

  /**
   * Why a registration is refused, if it is: the server is shutting down,
   * or the OAuth response lacks an access token or a team ID (checked in
   * that order).
   */
  function RegistrationError(quitRequested: bool, account: Account): (e: Option<RegisterError>)
    ensures e.None? <==> !quitRequested && account.accessToken != "" && account.teamID != ""
    ensures quitRequested ==> e == Some(ShuttingDown)
    ensures !quitRequested && account.accessToken == "" ==> e == Some(EmptyAccessToken)
    ensures !quitRequested && account.accessToken != "" && account.teamID == "" ==> e == Some(EmptyTeamID)
  {
    if quitRequested then Some(ShuttingDown)
    else if account.accessToken == "" then Some(EmptyAccessToken)
    else if account.teamID == "" then Some(EmptyTeamID)
    else None
  }

  /** The token map once `account` is stored under its team ID. */
  function Upsert(tokens: map<string, Account>, account: Account): (r: map<string, Account>)
    ensures r.Keys == tokens.Keys + {account.teamID}
    ensures r[account.teamID] == account
    ensures forall id :: id in tokens && id != account.teamID ==> r[id] == tokens[id]
  {
    tokens[account.teamID := account]
  }

  /** Registering a team ID twice keeps only the second account. */
  lemma SecondRegistrationWins(tokens: map<string, Account>, first: Account, second: Account)
    requires first.teamID == second.teamID
    ensures Upsert(Upsert(tokens, first), second) == Upsert(tokens, second)
  {
  }

  /**
   * A tweet that exhausts its retries leaves the last tweeted value alone,
   * so the next cycle that fetches the same value queues the same tweet
   * again; a tweet that is confirmed stops that.
   */
  lemma UnconfirmedTweetRequeued(lastTweeted: Chance, v: Chance, outcomes: seq<bool>)
    requires MaxAttempts <= |outcomes|
    requires TweetFor(true, lastTweeted, v).Some?
    ensures var t := TweetFor(true, lastTweeted, v).value;
      && (!RetryOutcome(outcomes).delivered ==> TweetFor(true, AfterTweet(lastTweeted, t, outcomes), v) == Some(t))
      && (RetryOutcome(outcomes).delivered ==> TweetFor(true, AfterTweet(lastTweeted, t, outcomes), v) == None)
  {
  }

  /** Appending to a queue: `(a + b) + c` and `a + (b + c)` are the same queue. */
  lemma AppendAssociative<T>(a: seq<T>, b: seq<T>, c: seq<T>)
    ensures (a + b) + c == a + (b + c)
  {
  }

  class Server {
    var tokens: map<string, Account>
    var lastTweetedValue: Chance
    var currentValue: Chance
    var twitterConfigured: bool
    var quitRequested: bool
    var outQueue: seq<SlackMessage>
    var tweetQueue: seq<Tweet>
    var pending: nat
    /** Every snapshot written to the data file, oldest first. */
    var saves: seq<ServerState>

    /** Every queued job is counted as pending work, and nothing else is. */
    ghost predicate Valid()
      reads this
    {
      pending == |outQueue| + |tweetQueue|
    }

    /** The part of the state that is persisted. */
    function State(): ServerState
      reads this
    {
      ServerState(tokens, lastTweetedValue)
    }

    /**
     * Start-up: loads the data file, falling back to an empty token map
     * when it cannot be read or decoded; no Twitter client yet, no jobs.
     */
    constructor (load: LoadOutcome)
      ensures Valid()
      ensures State() == LoadState(load)
      ensures currentValue == 0 && !twitterConfigured && !quitRequested
      ensures outQueue == [] && tweetQueue == [] && pending == 0 && saves == []
    {
      var s := LoadState(load);
      tokens := s.tokens;
      lastTweetedValue := s.lastTweetedValue;
      currentValue := 0;
      twitterConfigured := false;
      quitRequested := false;
      outQueue := [];
      tweetQueue := [];
      pending := 0;
      saves := [];
    }

    /** Installs the optional Twitter client. */
    method SetTwitterAPI()
      modifies this`twitterConfigured
      ensures twitterConfigured
    {
      twitterConfigured := true;
    }

    /**
     * Writes a snapshot of the persisted state. A failed write is logged
     * and ignored by every caller, so it leaves the state as it is.
     */
    method Save()
      modifies this`saves
      ensures saves == old(saves) + [State()]
    {
      saves := saves + [State()];
    }

    /**
     * One poll cycle, given the result of the fetch (`None` for a fetch
     * error). Returns, as ghost, the order in which the changed teams were
     * visited, which the map iteration leaves unspecified.
     */
    method PollCycle(fetched: Option<Chance>) returns (ghost order: seq<string>)
      requires Valid()
      modifies this`currentValue, this`tokens, this`outQueue, this`tweetQueue, this`pending, this`saves
      ensures Valid()
      ensures old(quitRequested) || fetched.None? ==> unchanged(this) && order == []
      ensures !old(quitRequested) && fetched.Some? ==>
        var v := fetched.value;
        var tweet := TweetFor(twitterConfigured, lastTweetedValue, v);
        && currentValue == v
        && tweetQueue == old(tweetQueue) + TweetJobs(tweet)
        && tokens == Refreshed(old(tokens), v)
        && |old(outQueue)| <= |outQueue|
        && outQueue[..|old(outQueue)|] == old(outQueue)
        && AnnouncedInOrder(outQueue[|old(outQueue)|..], order, old(tokens), v, old(tokens).Keys)
        && pending == old(pending) + |TweetJobs(tweet)| + |order|
        && saves == old(saves) + (if Changed(old(tokens), v) != {} then [State()] else [])
    {
      order := [];
      if quitRequested {
        return;
      }
      if fetched.None? {
        return;
      }
      var trumpChance := fetched.value;

      currentValue := trumpChance;
      QueueTweet(trumpChance);
      var needToSave;
      needToSave, order := QueueTeamMessages(trumpChance);
      if needToSave {
        Save();
      }
    }

    /**
     * The tweet step of a poll cycle: when Twitter is configured and
     * `trumpChance` differs from the last value tweeted successfully,
     * queues a tweet with the change since then (0 when nothing was ever
     * tweeted) and counts it as pending.
     */
    method QueueTweet(trumpChance: Chance)
      requires Valid()
      modifies this`tweetQueue, this`pending
      ensures Valid()
      ensures var tweet := TweetFor(twitterConfigured, lastTweetedValue, trumpChance);
        && tweetQueue == old(tweetQueue) + TweetJobs(tweet)
        && pending == old(pending) + |TweetJobs(tweet)|
    {
      if twitterConfigured {
        if trumpChance != lastTweetedValue {
          var percentChange := 0;
          if lastTweetedValue != 0 {
            percentChange := trumpChance - lastTweetedValue;
          }
          pending := pending + 1;
          tweetQueue := tweetQueue + [Tweet(trumpChance, percentChange)];
        }
      }
    }

    /**
     * The team loop of a poll cycle: for every team whose last reported
     * value differs from `trumpChance`, in whatever order the map yields
     * them, queues one announcement to its webhook, counts it as pending
     * and records the value as reported at once, before any delivery.
     */
    method QueueTeamMessages(trumpChance: Chance) returns (needToSave: bool, ghost order: seq<string>)
      requires Valid()
      modifies this`tokens, this`outQueue, this`pending
      ensures Valid()
      ensures tokens == Refreshed(old(tokens), trumpChance)
      ensures |old(outQueue)| <= |outQueue| && outQueue[..|old(outQueue)|] == old(outQueue)
      ensures AnnouncedInOrder(outQueue[|old(outQueue)|..], order, old(tokens), trumpChance, old(tokens).Keys)
      ensures pending == old(pending) + |order|
      ensures needToSave == (Changed(old(tokens), trumpChance) != {})
    {
      needToSave := false;
      order := [];
      ghost var start := tokens;
      ghost var added: seq<SlackMessage> := [];
      var remaining := tokens.Keys;
      while remaining != {}
        invariant TeamLoopState(tokens, start, trumpChance, remaining, added, order)
        invariant outQueue == old(outQueue) + added
        invariant needToSave == (order != [])
        invariant pending == old(pending) + |order|
        decreases remaining
      {
        var teamID :| teamID in remaining;
        TeamVisited(tokens, start, trumpChance, remaining, added, order, teamID);
        var team := tokens[teamID];
        if team.reportedTrumpChance != trumpChance {
          var message := Announce(team, trumpChance);
          AppendAssociative(old(outQueue), added, [message]);
          pending := pending + 1;
          outQueue := outQueue + [message];
          added := added + [message];
          order := order + [teamID];
          needToSave := true;
          tokens := tokens[teamID := Refresh(team, trumpChance)];
        }
        remaining := remaining - {teamID};
      }

      TeamLoopComplete(tokens, start, trumpChance, added, order, remaining);
      assert outQueue[|old(outQueue)|..] == added;
    }

    /**
     * The Slack worker takes the oldest message and tries to post it; an
     * empty queue blocks it (nothing happens). Whatever the outcome, the
     * job stops being pending; no other state changes, in particular the
     * team's reported value is not rolled back on failure.
     */
    method DeliverNextSlackMessage(outcomes: seq<bool>) returns (r: Option<Posted>)
      requires Valid()
      requires MaxAttempts <= |outcomes|
      modifies this`outQueue, this`pending
      ensures Valid()
      ensures old(outQueue) == [] ==> r.None? && unchanged(this)
      ensures old(outQueue) != [] ==>
        && r == Some(Posted(Some(old(outQueue)[0].url), old(outQueue)[0].text, RetryOutcome(outcomes)))
        && outQueue == old(outQueue)[1..]
        && pending == old(pending) - 1
    {
      if outQueue == [] {
        return None;
      }
      var slackMessage := outQueue[0];
      outQueue := outQueue[1..];
      var attempts := Retry(outcomes);
      pending := pending - 1;
      r := Some(Posted(Some(slackMessage.url), slackMessage.text, attempts));
    }

    /**
     * The tweet worker takes the oldest tweet and tries to post it; an
     * empty queue blocks it. Only a confirmed post records the tweeted
     * value and saves; an exhausted job changes nothing but the count of
     * pending work.
     */
    method DeliverNextTweet(outcomes: seq<bool>) returns (r: Option<Posted>)
      requires Valid()
      requires MaxAttempts <= |outcomes|
      modifies this`tweetQueue, this`pending, this`lastTweetedValue, this`saves
      ensures Valid()
      ensures old(tweetQueue) == [] ==> r.None? && unchanged(this)
      ensures old(tweetQueue) != [] ==>
        var tweet := old(tweetQueue)[0];
        && r == Some(Posted(None, TweetText(tweet), RetryOutcome(outcomes)))
        && tweetQueue == old(tweetQueue)[1..]
        && pending == old(pending) - 1
        && lastTweetedValue == AfterTweet(old(lastTweetedValue), tweet, outcomes)
        && saves == old(saves) + (if RetryOutcome(outcomes).delivered then [State()] else [])
    {
      if tweetQueue == [] {
        return None;
      }
      var tweet := tweetQueue[0];
      tweetQueue := tweetQueue[1..];
      var tweetMsg := TweetText(tweet);
      var attempts := Retry(outcomes);
      if attempts.delivered {
        lastTweetedValue := tweet.percentNow;
        Save();
      }
      pending := pending - 1;
      r := Some(Posted(None, tweetMsg, attempts));
    }

    /**
     * A `/trump` slash command: once the immediate response is written,
     * queues a reply to `responseURL` with the value of the latest poll
     * and no change. If writing the response fails, nothing is queued.
     */
    method HandleTrump(responseURL: string, responseWritten: bool)
      requires Valid()
      modifies this`outQueue, this`pending
      ensures Valid()
      ensures !responseWritten ==> unchanged(this)
      ensures responseWritten ==>
        && outQueue == old(outQueue) + [SlackMessage(responseURL, Announcement(currentValue, None))]
        && pending == old(pending) + 1
    {
      var value := currentValue;
      if !responseWritten {
        return;
      }
      pending := pending + 1;
      outQueue := outQueue + [SlackMessage(responseURL, Announcement(value, None))];
    }

    /**
     * The tail of the OAuth callback, given the decoded OAuth response:
     * refuses while shutting down or when the access token or team ID is
     * empty, touching nothing; otherwise stores the account under its team
     * ID, replacing any earlier one, and saves.
     */
    method Register(account: Account) returns (err: Option<RegisterError>)
      modifies this`tokens, this`saves
      ensures err == RegistrationError(quitRequested, account)
      ensures err.Some? ==> unchanged(this)
      ensures err.None? ==>
        && tokens == Upsert(old(tokens), account)
        && saves == old(saves) + [State()]
    {
      if quitRequested {
        return Some(ShuttingDown);
      }
      if account.accessToken == "" {
        return Some(EmptyAccessToken);
      }
      if account.teamID == "" {
        return Some(EmptyTeamID);
      }
      tokens := tokens[account.teamID := account];
      Save();
      err := None;
    }

    /**
     * The Slack worker draining its queue: the k-th message is posted with
     * `outcomes[k]`, and every job stops being pending whatever its outcome.
     */
    method DrainSlackQueue(outcomes: seq<seq<bool>>) returns (posted: seq<Posted>)
      requires Valid()
      requires |outcomes| == |outQueue|
      requires forall k :: 0 <= k < |outcomes| ==> MaxAttempts <= |outcomes[k]|
      modifies this`outQueue, this`pending
      ensures Valid() && outQueue == []
      ensures pending == old(pending) - |old(outQueue)|
      ensures |posted| == |old(outQueue)|
      ensures forall k :: 0 <= k < |posted| ==>
        posted[k] == Posted(Some(old(outQueue)[k].url), old(outQueue)[k].text, RetryOutcome(outcomes[k]))
    {
      posted := [];
      var i := 0;
      while i < |outcomes|
        invariant 0 <= i <= |outcomes|
        invariant Valid()
        invariant outQueue == old(outQueue)[i..]
        invariant |posted| == i
        invariant forall k :: 0 <= k < i ==>
          posted[k] == Posted(Some(old(outQueue)[k].url), old(outQueue)[k].text, RetryOutcome(outcomes[k]))
      {
        var r := DeliverNextSlackMessage(outcomes[i]);
        posted := posted + [r.value];
        i := i + 1;
      }
    }

    /**
     * The tweet worker draining its queue: the k-th tweet is posted with
     * `outcomes[k]`; each confirmed tweet records its value and saves.
     */
    method DrainTweetQueue(outcomes: seq<seq<bool>>) returns (posted: seq<Posted>)
      requires Valid()
      requires |outcomes| == |tweetQueue|
      requires forall k :: 0 <= k < |outcomes| ==> MaxAttempts <= |outcomes[k]|
      modifies this`tweetQueue, this`pending, this`lastTweetedValue, this`saves
      ensures Valid() && tweetQueue == []
      ensures pending == old(pending) - |old(tweetQueue)|
      ensures lastTweetedValue == LastConfirmed(old(lastTweetedValue), old(tweetQueue), outcomes)
      ensures saves == old(saves) + ConfirmedSaves(tokens, old(lastTweetedValue), old(tweetQueue), outcomes)
      ensures |posted| == |old(tweetQueue)|
      ensures forall k :: 0 <= k < |posted| ==>
        posted[k] == Posted(None, TweetText(old(tweetQueue)[k]), RetryOutcome(outcomes[k]))
    {
      posted := [];
      var j := 0;
      while j < |outcomes|
        invariant 0 <= j <= |outcomes|
        invariant Valid()
        invariant tweetQueue == old(tweetQueue)[j..]
        invariant LastConfirmed(lastTweetedValue, tweetQueue, outcomes[j..])
               == LastConfirmed(old(lastTweetedValue), old(tweetQueue), outcomes)
        invariant saves + ConfirmedSaves(tokens, lastTweetedValue, tweetQueue, outcomes[j..])
               == old(saves) + ConfirmedSaves(tokens, old(lastTweetedValue), old(tweetQueue), outcomes)
        invariant |posted| == j
        invariant forall k :: 0 <= k < j ==>
          posted[k] == Posted(None, TweetText(old(tweetQueue)[k]), RetryOutcome(outcomes[k]))
      {
        assert tweetQueue[1..] == old(tweetQueue)[j + 1..];
        assert outcomes[j..][1..] == outcomes[j + 1..];
        ghost var before := saves;
        var r := DeliverNextTweet(outcomes[j]);
        AppendAssociative(before, saves[|before|..],
                          ConfirmedSaves(tokens, lastTweetedValue, tweetQueue, outcomes[j + 1..]));
        posted := posted + [r.value];
        j := j + 1;
      }
    }

    /**
     * Shutdown: waits until every pending job has reached its end, the
     * k-th queued message with `slackOutcomes[k]` and the k-th queued tweet
     * with `tweetOutcomes[k]`. Team records are untouched; the last tweeted
     * value is that of the last confirmed tweet, if any, and each confirmed
     * tweet has written one snapshot.
     */
    method Stop(slackOutcomes: seq<seq<bool>>, tweetOutcomes: seq<seq<bool>>)
      returns (slackPosted: seq<Posted>, tweetPosted: seq<Posted>)
      requires Valid()
      requires |slackOutcomes| == |outQueue| && |tweetOutcomes| == |tweetQueue|
      requires forall k :: 0 <= k < |slackOutcomes| ==> MaxAttempts <= |slackOutcomes[k]|
      requires forall k :: 0 <= k < |tweetOutcomes| ==> MaxAttempts <= |tweetOutcomes[k]|
      modifies this`outQueue, this`tweetQueue, this`pending, this`lastTweetedValue, this`saves
      ensures Valid() && pending == 0 && outQueue == [] && tweetQueue == []
      ensures lastTweetedValue == LastConfirmed(old(lastTweetedValue), old(tweetQueue), tweetOutcomes)
      ensures saves == old(saves) + ConfirmedSaves(tokens, old(lastTweetedValue), old(tweetQueue), tweetOutcomes)
      ensures |slackPosted| == |old(outQueue)| && |tweetPosted| == |old(tweetQueue)|
      ensures forall k :: 0 <= k < |slackPosted| ==>
        slackPosted[k] == Posted(Some(old(outQueue)[k].url), old(outQueue)[k].text, RetryOutcome(slackOutcomes[k]))
      ensures forall k :: 0 <= k < |tweetPosted| ==>
        tweetPosted[k] == Posted(None, TweetText(old(tweetQueue)[k]), RetryOutcome(tweetOutcomes[k]))
    {
      slackPosted := DrainSlackQueue(slackOutcomes);
      tweetPosted := DrainTweetQueue(tweetOutcomes);
    }
  }
}
