/**
 * The decisions one poll cycle of cmd/apocalypse/server.go takes for a
 * fetched value: which tweet to queue, which teams to message, with what
 * change, and what each team's record becomes. The `Server` class runs
 * these decisions step by step; this module states them as values and
 * proves what they promise over one cycle and over many.
 */
module ChangeDetection {
  import opened Types

  /** The teams whose last reported value differs from `v`. */
  function Changed(tokens: map<string, Account>, v: Chance): set<string>
  {
    set id | id in tokens && tokens[id].reportedTrumpChance != v
  }

  /**
   * The Slack message queued for `team` when `v` differs from what it was
   * last told: sent to the team's webhook, showing the change only when the
   * previous value was positive.
   */
  function Announce(team: Account, v: Chance): (m: SlackMessage)
    ensures m.url == team.incomingWebhook.url
    ensures m.text.value == v
    ensures m.text.change.Some? <==> team.reportedTrumpChance > 0
    ensures m.text.change.Some? ==> m.text.change.value + team.reportedTrumpChance == v
  {
    var change := if team.reportedTrumpChance > 0 then Some(v - team.reportedTrumpChance) else None;
    SlackMessage(team.incomingWebhook.url, Announcement(v, change))
  }

  /** A team's record once `v` has been queued for it. */
  function Refresh(team: Account, v: Chance): Account
  {
    team.(reportedTrumpChance := v)
  }

  /** The token map after a poll cycle that fetched `v`. */
  function Refreshed(tokens: map<string, Account>, v: Chance): (r: map<string, Account>)
    ensures r.Keys == tokens.Keys
    ensures forall id :: id in r ==> r[id].reportedTrumpChance == v
    ensures forall id :: id in r ==> r[id].(reportedTrumpChance := tokens[id].reportedTrumpChance) == tokens[id]
    ensures forall id :: id in tokens && id !in Changed(tokens, v) ==> r[id] == tokens[id]
  {
    map id | id in tokens :: Refresh(tokens[id], v)
  }

  /**
   * The tweet a poll cycle queues, if any: only when Twitter is configured
   * and `v` differs from the last value tweeted successfully. The change is
   * 0 when nothing was ever tweeted (a last value of 0).
   */
  function TweetFor(twitterConfigured: bool, lastTweeted: Chance, v: Chance): (t: Option<Tweet>)
    ensures t.Some? <==> twitterConfigured && v != lastTweeted
    ensures t.Some? ==> t.value.percentNow == v
    ensures t.Some? && lastTweeted == 0 ==> t.value.percentChange == 0
    ensures t.Some? && lastTweeted != 0 ==> t.value.percentChange + lastTweeted == v
  {
    if twitterConfigured && v != lastTweeted then
      Some(Tweet(v, if lastTweeted != 0 then v - lastTweeted else 0))
    else
      None
  }

  /** The tweet as a sequence of zero or one jobs. */
  function TweetJobs(t: Option<Tweet>): seq<Tweet>
  {
    if t.Some? then [t.value] else []
  }

  /** No team ID occurs twice in `order`. */
  ghost predicate Distinct(order: seq<string>)
  {
    forall i, j :: 0 <= i < j < |order| ==> order[i] != order[j]
  }

  /**
   * `added` holds one announcement per team of `scope` whose value in
   * `tokens` differs from `v`, in the order `order` lists those teams (the
   * order in which the map happened to be iterated).
   */
  ghost predicate AnnouncedInOrder(added: seq<SlackMessage>, order: seq<string>,
                                   tokens: map<string, Account>, v: Chance, scope: set<string>)
  {
    && |added| == |order|
    && Distinct(order)
    && (forall k :: 0 <= k < |order| ==>
          order[k] in scope && order[k] in tokens && tokens[order[k]].reportedTrumpChance != v)
    && (forall k :: 0 <= k < |order| ==> order[k] in tokens && added[k] == Announce(tokens[order[k]], v))
    && (forall id :: id in scope && id in tokens && tokens[id].reportedTrumpChance != v ==> id in order)
  }

  /**
   * Visiting one more team `id` extends a batch: by its announcement when
   * its value differs from `v`, by nothing otherwise.
   */
  lemma AnnouncedInOrderStep(added: seq<SlackMessage>, order: seq<string>,
                             tokens: map<string, Account>, v: Chance, scope: set<string>, id: string)
    requires AnnouncedInOrder(added, order, tokens, v, scope)
    requires id in tokens && id !in scope
    ensures tokens[id].reportedTrumpChance != v ==>
      AnnouncedInOrder(added + [Announce(tokens[id], v)], order + [id], tokens, v, scope + {id})
    ensures tokens[id].reportedTrumpChance == v ==>
      AnnouncedInOrder(added, order, tokens, v, scope + {id})
  {
  }

  /**
   * Part-way through the team loop: the teams still to visit keep their
   * records from `start`, the visited ones hold their refreshed records.
   */
  ghost predicate PartlyRefreshed(tokens: map<string, Account>, start: map<string, Account>,
                                  v: Chance, remaining: set<string>)
  {
    && remaining <= start.Keys
    && tokens.Keys == start.Keys
    && (forall id :: id in remaining ==> tokens[id] == start[id])
    && (forall id :: id in start && id !in remaining ==> tokens[id] == Refresh(start[id], v))
  }

  /**
   * The state of the team loop with `remaining` still to visit: the records
   * are partly refreshed and `added` announces the changed visited teams.
   */
  ghost predicate TeamLoopState(tokens: map<string, Account>, start: map<string, Account>, v: Chance,
                                remaining: set<string>, added: seq<SlackMessage>, order: seq<string>)
  {
    && PartlyRefreshed(tokens, start, v, remaining)
    && AnnouncedInOrder(added, order, start, v, start.Keys - remaining)
  }

  /**
   * Visiting team `id`: when its value differs from `v` its record is
   * refreshed and its announcement appended, otherwise nothing changes;
   * the other records stay as they are.
   */
  lemma TeamVisited(tokens: map<string, Account>, start: map<string, Account>, v: Chance,
                    remaining: set<string>, added: seq<SlackMessage>, order: seq<string>, id: string)
    requires TeamLoopState(tokens, start, v, remaining, added, order) && id in remaining
    ensures id in tokens && tokens[id] == start[id]
    ensures tokens[id].reportedTrumpChance != v ==>
      TeamLoopState(tokens[id := Refresh(tokens[id], v)], start, v, remaining - {id},
                    added + [Announce(tokens[id], v)], order + [id])
    ensures tokens[id].reportedTrumpChance == v ==>
      TeamLoopState(tokens, start, v, remaining - {id}, added, order)
  {
    assert start.Keys - (remaining - {id}) == (start.Keys - remaining) + {id};
    AnnouncedInOrderStep(added, order, start, v, start.Keys - remaining, id);
  }

  /**
   * Once the loop has visited every team, the token map is the refreshed
   * one and a save is needed exactly when some team changed.
   */
  lemma TeamLoopComplete(tokens: map<string, Account>, start: map<string, Account>, v: Chance,
                         added: seq<SlackMessage>, order: seq<string>, remaining: set<string>)
    requires remaining == {}
    requires TeamLoopState(tokens, start, v, remaining, added, order)
    ensures tokens == Refreshed(start, v)
    ensures AnnouncedInOrder(added, order, start, v, start.Keys)
    ensures (order != []) == (Changed(start, v) != {})
  {
    assert start.Keys - remaining == start.Keys;
    if order != [] {
      assert order[0] in Changed(start, v);
    }
    if Changed(start, v) != {} {
      var id :| id in Changed(start, v);
      assert id in order;
    }
  }

  lemma {:induction false} DistinctCardinality(order: seq<string>)
    requires Distinct(order)
    ensures |set id | id in order| == |order|
  {
    if order != [] {
      var rest := order[1..];
      assert Distinct(rest) by {
        forall i, j | 0 <= i < j < |rest| ensures rest[i] != rest[j] {
          assert rest[i] == order[i + 1] && rest[j] == order[j + 1];
        }
      }
      DistinctCardinality(rest);
      assert order[0] !in rest by {
        forall k | 0 <= k < |rest| ensures rest[k] != order[0] {
          assert rest[k] == order[k + 1];
        }
      }
      assert (set id | id in order) == (set id | id in rest) + {order[0]} by {
        assert order == [order[0]] + rest;
      }
    }
  }

  /**
   * A whole cycle's batch holds exactly one message per changed team: the
   * teams it names are the changed ones, and there are as many messages as
   * changed teams.
   */
  lemma OneMessagePerChangedTeam(added: seq<SlackMessage>, order: seq<string>,
                                 tokens: map<string, Account>, v: Chance)
    requires AnnouncedInOrder(added, order, tokens, v, tokens.Keys)
    ensures (set id | id in order) == Changed(tokens, v)
    ensures |added| == |Changed(tokens, v)|
  {
    DistinctCardinality(order);
  }

  /**
   * A team already at `v` gets no message in the cycle and keeps its
   * record unchanged.
   */
  lemma UpToDateTeamSkipped(added: seq<SlackMessage>, order: seq<string>,
                            tokens: map<string, Account>, v: Chance, id: string)
    requires AnnouncedInOrder(added, order, tokens, v, tokens.Keys)
    requires id in tokens && tokens[id].reportedTrumpChance == v
    ensures id !in order
    ensures Refreshed(tokens, v)[id] == tokens[id]
  {
  }

  /**
   * A cycle run again with the value it just announced changes nothing:
   * no team is left to message.
   */
  lemma RefreshSettles(tokens: map<string, Account>, v: Chance)
    ensures Changed(Refreshed(tokens, v), v) == {}
    ensures Refreshed(Refreshed(tokens, v), v) == Refreshed(tokens, v)
  {
  }

  /**
   * The messages one team receives over successive successful poll cycles
   * that fetched `values`, starting from its record `team`.
   */
  function TeamAnnouncements(team: Account, values: seq<Chance>): seq<SlackMessage>
    decreases |values|
  {
    if values == [] then []
    else if team.reportedTrumpChance == values[0] then TeamAnnouncements(team, values[1..])
    else [Announce(team, values[0])] + TeamAnnouncements(Refresh(team, values[0]), values[1..])
  }

  /** The messages of a cycle's batch addressed to team `id`, in batch order. */
  function MessagesTo(added: seq<SlackMessage>, order: seq<string>, id: string): (r: seq<SlackMessage>)
    requires |added| == |order|
    ensures |r| <= |added|
    ensures forall m :: m in r ==> m in added
    decreases |order|
  {
    if order == [] then []
    else (if order[0] == id then [added[0]] else []) + MessagesTo(added[1..], order[1..], id)
  }

  /** A team the batch does not name receives nothing from it. */
  lemma {:induction false} MessagesToAbsent(added: seq<SlackMessage>, order: seq<string>, id: string)
    requires |added| == |order| && id !in order
    ensures MessagesTo(added, order, id) == []
    decreases |order|
  {
    if order != [] {
      assert order[0] != id;
      MessagesToAbsent(added[1..], order[1..], id);
    }
  }

  /** A team the batch names exactly once, at `k`, receives exactly `added[k]`. */
  lemma {:induction false} MessagesToOnce(added: seq<SlackMessage>, order: seq<string>, id: string, k: nat)
    requires |added| == |order| && k < |order| && order[k] == id
    requires forall j :: 0 <= j < |order| && j != k ==> order[j] != id
    ensures MessagesTo(added, order, id) == [added[k]]
    decreases |order|
  {
    if k == 0 {
      assert id !in order[1..] by {
        forall j | 0 <= j < |order[1..]| ensures order[1..][j] != id {
          assert order[1..][j] == order[j + 1];
        }
      }
      MessagesToAbsent(added[1..], order[1..], id);
    } else {
      assert order[0] != id;
      forall j | 0 <= j < |order[1..]| && j != k - 1 ensures order[1..][j] != id {
        assert order[1..][j] == order[j + 1];
      }
      MessagesToOnce(added[1..], order[1..], id, k - 1);
    }
  }

  /**
   * One cycle as a team sees it: what `TeamAnnouncements` gives for the
   * fetched values `[v] + rest` is the part of the cycle's batch addressed
   * to the team, followed by what the later cycles give starting from the
   * team's refreshed record.
   */
  lemma CycleExtendsTeamAnnouncements(added: seq<SlackMessage>, order: seq<string>,
                                      tokens: map<string, Account>, v: Chance, id: string, rest: seq<Chance>)
    requires AnnouncedInOrder(added, order, tokens, v, tokens.Keys)
    requires id in tokens
    ensures TeamAnnouncements(tokens[id], [v] + rest)
         == MessagesTo(added, order, id) + TeamAnnouncements(Refreshed(tokens, v)[id], rest)
  {
    assert ([v] + rest)[1..] == rest;
    if tokens[id].reportedTrumpChance == v {
      MessagesToAbsent(added, order, id);
    } else {
      assert id in order;
      var k :| 0 <= k < |order| && order[k] == id;
      MessagesToOnce(added, order, id, k);
    }
  }

  /**
   * The first message a team receives announces a value different from
   * the one on its record, and no two consecutive messages announce the
   * same value.
   */
  lemma {:induction false} NoRepeatedAnnouncement(team: Account, values: seq<Chance>)
    ensures var ms := TeamAnnouncements(team, values);
      && (|ms| > 0 ==> ms[0].text.value != team.reportedTrumpChance)
      && (forall k :: 0 <= k < |ms| - 1 ==> ms[k].text.value != ms[k + 1].text.value)
    decreases |values|
  {
    if values != [] {
      var v := values[0];
      if team.reportedTrumpChance == v {
        NoRepeatedAnnouncement(team, values[1..]);
      } else {
        var next := Refresh(team, v);
        NoRepeatedAnnouncement(next, values[1..]);
        var rest := TeamAnnouncements(next, values[1..]);
        var ms := [Announce(team, v)] + rest;
        assert TeamAnnouncements(team, values) == ms;
        forall k | 0 <= k < |ms| - 1 ensures ms[k].text.value != ms[k + 1].text.value {
          if k > 0 {
            assert ms[k] == rest[k - 1] && ms[k + 1] == rest[k];
          }
        }
      }
    }
  }

  /**
   * Every message a team receives over several cycles is an announcement
   * of one of the fetched values.
   */
  lemma {:induction false} AnnouncedValuesWereFetched(team: Account, values: seq<Chance>)
    ensures forall m :: m in TeamAnnouncements(team, values) ==> m.text.value in values
    decreases |values|
  {
    if values != [] {
      var v := values[0];
      var next := if team.reportedTrumpChance == v then team else Refresh(team, v);
      AnnouncedValuesWereFetched(next, values[1..]);
      forall m | m in TeamAnnouncements(next, values[1..]) ensures m.text.value in values {
        assert m.text.value in values[1..];
      }
    }
  }

  /**
   * A team on 5.0% that sees 5.0%, 5.0% then 7.0% gets exactly one
   * message: 7.0% with a change of +2.0.
   */
  lemma SameValueTwiceThenChange(team: Account)
    requires team.reportedTrumpChance == 50
    ensures TeamAnnouncements(team, [50, 50, 70])
         == [SlackMessage(team.incomingWebhook.url, Announcement(70, Some(20)))]
  {
  }
}
