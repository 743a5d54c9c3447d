# Apocalypse notifier: the poll-and-diff engine

This project models the notification engine of the `apocalypse` Slack app
(cmd/apocalypse/server.go). Every five minutes the server fetches the chance
of a Trump win. It queues a tweet when that value differs from the last one
tweeted successfully. It queues a Slack message for every registered team
whose last reported value differs. Two workers then deliver the queued jobs,
each with up to three attempts.

The model is one `Server` class (module `Apocalypse`, server.dfy). It holds:

- the token map from team ID to `Account`, each with its webhook and `reportedTrumpChance`;
- `lastTweetedValue` and `currentValue`;
- the Slack queue and the tweet queue, as sequences;
- `pending`, which stands for the wait group;
- `saves`, the list of snapshots written to the data file.

Its methods follow the source step by step: the poll cycle and its team
loop, the two delivery workers, the `/trump` reply, the OAuth registration
tail, start-up loading and shutdown. Each method is proved against pure
functions kept in separate modules:

- types.dfy: the entities (`Account`, `SlackMessage`, `Tweet`, `ServerState`, the load outcome).
- change_detection.dfy: what one cycle decides. This covers which teams change, the message each gets, the tweet, and the refreshed token map. It also says what a team receives over many cycles.
- delivery.dfy: the three-attempt retry policy, the tweet text, and the last tweeted value after a queue of tweets has been handled.

The central design point is kept as the source has it. A team's value is
recorded when its message is queued and is never rolled back if delivery
fails. The last tweeted value changes only when a tweet is confirmed.

Forecast values are float32 percentages in the source. Here they are
integers counting tenths of a percent (`Types.Chance`). The engine only
compares these values, tests their sign and subtracts them.

Results of calls the engine cannot see are parameters:

- the 538 fetch is `fetched: Option<Chance>`, with `None` for a fetch error;
- every post attempt is one entry of `outcomes: seq<bool>`;
- reading and decoding the data file is a `LoadOutcome`;
- the OAuth exchange hands `Register` an already-decoded `Account`;
- whether the immediate HTTP reply of `/trump` was written is `responseWritten`.

Go map iteration order is unspecified. The team loop therefore picks any
remaining team. `PollCycle` returns, as a ghost value, the order in which it
visited the changed teams. Its contract says that the new part of the Slack
queue holds exactly one announcement per changed team, in that order. It
does not fix the order itself.

## Model

| member | source | states |
|---|---|---|
| `ChangeDetection.Announce` | cmd/apocalypse/server.go:254-280 | The message goes to the team's webhook URL and carries the new value. It shows a change only when the team's previous value is > 0, and that change is new minus old. |
| `ChangeDetection.Refreshed` | cmd/apocalypse/server.go:242-285 | After a cycle every team keeps its key and reports the fetched value. No other field changes. A team already at that value is left exactly as it was. |
| `ChangeDetection.TweetFor` | cmd/apocalypse/server.go:220-238 | A tweet is queued iff Twitter is configured and the value differs from the last tweeted one. It carries the new value. Its change is 0 when the last tweeted value is 0, else new minus last. |
| `ChangeDetection.AnnouncedInOrderStep` | cmd/apocalypse/server.go:242-285 | One loop iteration adds one announcement exactly when the visited team's value differs from the fetched value, and adds nothing otherwise. |
| `ChangeDetection.TeamVisited` | cmd/apocalypse/server.go:242-284 | Visiting a team still to visit finds its record as it was at the start of the loop. If its value differs, its record is refreshed and its announcement appended; otherwise nothing changes. Every other record stays as it was. |
| `ChangeDetection.TeamLoopComplete` | cmd/apocalypse/server.go:242-285 | Once every team has been visited, the token map is the refreshed one, and a save is needed iff some team changed. |
| `ChangeDetection.OneMessagePerChangedTeam` | cmd/apocalypse/server.go:242-285 | A cycle's batch names exactly the changed teams, each once, so it holds as many messages as there are changed teams. |
| `ChangeDetection.UpToDateTeamSkipped` | cmd/apocalypse/server.go:244-252 | A team whose reported value already equals the fetched one gets no message, and its entry is unchanged. |
| `ChangeDetection.RefreshSettles` | cmd/apocalypse/server.go:242-285 | A second cycle with the same value finds no changed team, and its refresh is the identity. |
| `ChangeDetection.NoRepeatedAnnouncement` | cmd/apocalypse/server.go:241-285 | Over any sequence of cycles, a team's first message differs from its recorded value, and no two consecutive messages announce the same value. |
| `ChangeDetection.AnnouncedValuesWereFetched` | cmd/apocalypse/server.go:241-285 | Every value a team is told over several cycles is one of the fetched values. |
| `ChangeDetection.CycleExtendsTeamAnnouncements` | cmd/apocalypse/server.go:241-285 | For any cycle batch, a team's messages over the values `[v] + rest` are the batch's messages to that team, then those of the later cycles starting from its refreshed record. The batch holds one message to a changed team and none to an unchanged one. |
| `ChangeDetection.SameValueTwiceThenChange` | cmd/apocalypse/server.go:241-285 | A team on 5.0% that sees 5.0%, 5.0%, 7.0% receives exactly one message, for 7.0% with change +2.0. |
| `Delivery.RetryFrom` | cmd/apocalypse/server.go:128-142 | After `made` failed attempts, the loop makes at most 3 attempts in all. Every attempt before its last one failed. It ends delivered iff its last attempt succeeded, and it gives up only at the third failure. |
| `Delivery.RetryOutcome` | cmd/apocalypse/server.go:161-183 | A job takes 1 to 3 attempts and stops at the first success. It is dropped iff all three attempts fail, and then exactly three attempts were made. |
| `Delivery.Retry` | cmd/apocalypse/server.go:128-142 | The worker's counting loop ends exactly as `RetryOutcome` says: same attempt count, same delivered flag. |
| `Delivery.TweetText` | cmd/apocalypse/server.go:154-159 | The posted tweet shows the value, plus the signed change only when that change is non-zero. |
| `Delivery.LastConfirmedWasDelivered` | cmd/apocalypse/server.go:148-186 | After the tweet queue is drained, the last tweeted value is either the old one or the value of a tweet whose delivery succeeded. |
| `Delivery.ConfirmedSaves` | cmd/apocalypse/server.go:170-179 | Draining a tweet queue writes at most one snapshot per tweet. Each snapshot carries the token map as it was. |
| `Delivery.LastConfirmedIsLastDelivered` | cmd/apocalypse/server.go:148-186 | If tweet `k` is confirmed and every later tweet is dropped, the last tweeted value after the drain is tweet `k`'s value. |
| `Delivery.AllFailedKeepsLast` | cmd/apocalypse/server.go:161-169 | If every queued tweet exhausts its retries, the last tweeted value is unchanged. |
| `Apocalypse.LoadState` | cmd/apocalypse/server.go:55-74 | An unreadable or malformed file gives an empty token map and a last tweeted value of 0. A decoded or partly decoded file gives what was decoded. A missing token map becomes an empty one, never nil. |
| `Apocalypse.RegistrationError` | cmd/apocalypse/server.go:392-449 | A registration is accepted iff the server is not shutting down and the access token and team ID are both non-empty. The errors are checked in that order. |
| `Apocalypse.Upsert` | cmd/apocalypse/server.go:451-452 | The account is stored under its team ID, replacing any earlier one. Every other entry stays as it was. |
| `Apocalypse.SecondRegistrationWins` | cmd/apocalypse/server.go:452 | Registering the same team ID twice leaves only the second account. |
| `Apocalypse.UnconfirmedTweetRequeued` | cmd/apocalypse/server.go:170-183 | A tweet that exhausts its retries leaves the state that queued it. The next cycle with the same value therefore queues the same tweet again, and a confirmed tweet stops that. |
| `Apocalypse.Server.constructor` | cmd/apocalypse/server.go:54-88 | The server starts from `LoadState` of the data file, with no Twitter client, empty queues, nothing pending and value 0. |
| `Apocalypse.Server.SetTwitterAPI` | cmd/apocalypse/server.go:91-93 | Afterwards Twitter counts as configured. |
| `Apocalypse.Server.Save` | cmd/apocalypse/server.go:96-115 | A save records a snapshot of the token map and the last tweeted value, and changes nothing else. |
| `Apocalypse.Server.PollCycle` | cmd/apocalypse/server.go:190-298 | With the quit signal set or a fetch error, nothing changes and no job is queued. Otherwise the cycle does five things. It sets the current value. It queues the tweet `TweetFor` gives, leaving the last tweeted value alone. It refreshes every team. It queues exactly one announcement per changed team. It raises `pending` by one per job, and saves once iff some team changed. |
| `Apocalypse.Server.QueueTweet` | cmd/apocalypse/server.go:220-238 | The tweet step queues exactly the tweet `TweetFor` gives, counted as pending, and nothing else. |
| `Apocalypse.Server.QueueTeamMessages` | cmd/apocalypse/server.go:241-285 | The team loop refreshes the token map and appends one announcement per changed team, in visiting order, each counted as pending. It reports a save as needed iff some team changed. |
| `Apocalypse.Server.DeliverNextSlackMessage` | cmd/apocalypse/server.go:122-145 | The worker removes the oldest message and posts it to that message's URL, with its text, per `RetryOutcome`. It lowers `pending` by exactly one whatever the outcome and changes nothing else. With an empty queue nothing happens. |
| `Apocalypse.Server.DeliverNextTweet` | cmd/apocalypse/server.go:148-186 | The worker removes the oldest tweet and posts `TweetText` of it per `RetryOutcome`. It lowers `pending` by one. Only on success does it set the last tweeted value to the tweet's value and save. |
| `Apocalypse.Server.HandleTrump` | cmd/apocalypse/server.go:363-387 | Once the immediate reply is written, it queues one message to the response URL with the latest polled value and no change, counted as pending. Otherwise nothing changes. |
| `Apocalypse.Server.Register` | cmd/apocalypse/server.go:391-457 | On a refused registration nothing changes. Otherwise the account is upserted by team ID and one snapshot is saved. |
| `Apocalypse.Server.DrainSlackQueue` | cmd/apocalypse/server.go:122-145 | The Slack worker posts the k-th queued message to its URL with its text, per the k-th outcomes. Afterwards the queue is empty, and `pending` has dropped by the number of messages. |
| `Apocalypse.Server.DrainTweetQueue` | cmd/apocalypse/server.go:148-186 | The tweet worker posts `TweetText` of the k-th queued tweet per the k-th outcomes. Afterwards the queue is empty and `pending` has dropped by the number of tweets. The last tweeted value is `LastConfirmed`, and the snapshots written are `ConfirmedSaves`: one per confirmed tweet, in queue order, each with the value just confirmed. |
| `Apocalypse.Server.Stop` | cmd/apocalypse/server.go:305-307 | Shutdown ends only when every pending job has reached its outcome. It reports what each worker posted. Afterwards both queues are empty and `pending` is 0. The token map is unchanged. The last tweeted value is that of the last confirmed tweet (`LastConfirmedIsLastDelivered`). Exactly the snapshots of `ConfirmedSaves` are added. |

## Left out

- cmd/apocalypse/main.go: flag and environment parsing, signal handling, Twitter client set-up and the HTTP listener. It contains no decision logic.
- Goroutines, channels, the mutex and the wait group as concurrency primitives. Each method is one atomic step. The wait group is the counter `pending`. The sleeps between attempts and between polls are not modelled.
- Apocalypse.Server.Stop: runs the Slack worker to completion before the tweet worker, whereas the source runs them concurrently. The Slack worker writes no snapshot, so the snapshots a drain adds are those of the tweet worker alone. The model does not capture snapshots written by a concurrent poll cycle or registration while the workers drain.
- The quit channel is never closed anywhere in the source. The model keeps the flag `quitRequested` and its checks, but no operation sets it.
- HTTP handling: form parsing, the OAuth code exchange, the `access_denied` and missing-code paths, redirects and error responses. `Register` starts from a decoded account; `HandleTrump` starts from the response URL.
- Message text: the random quip, the log fields, and the `%.1f`/`%+.1f` formatting. A message is modelled as its value plus its optional change.
- Float32 arithmetic and rounding. Values are integer tenths of a percent, so subtraction is exact here.
- JSON encoding and decoding, the timestamped backup copy and the file write. A save is the recorded snapshot; a failed write is ignored by every caller, so it has no modelled effect. The snapshot round trip through JSON is therefore not modelled.
- A token map entry that decodes to a nil account (which would crash the Go loop) cannot be represented.
- `sendTextMessage`, `postJSON`, `postRequest`, `fetchTrumpChance`, `copyFileContents`, `randomQuip` and `PostTweet` are opaque. Their results are parameters.
- The `Account` type is declared in a file that is not part of this model. Its fields are taken from their uses in server.go.
