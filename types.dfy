/**
 * The values the dispatch engine of cmd/apocalypse/server.go works on.
 *
 * The forecast is a float32 percentage in the source; here it is an integer
 * number of tenths of a percent (`Chance`). The engine only compares values
 * for equality, tests `> 0` and `!= 0`, and subtracts them.
 */
module Types {

  /** A forecast value, in tenths of a percent. */
  type Chance = int

  datatype Option<+T> = None | Some(value: T)

  /** The Slack incoming webhook installed for a team. */
  datatype IncomingWebhook = IncomingWebhook(
    url: string,
    channelID: string,
    channelName: string,
    configurationURL: string)

  /**
   * Everything known about one Slack integration: the decoded OAuth
   * response plus the last value announced to that team.
   */
  datatype Account = Account(
    accessToken: string,
    scope: string,
    teamID: string,
    teamName: string,
    incomingWebhook: IncomingWebhook,
    reportedTrumpChance: Chance)

  /**
   * The content of a rendered announcement: the current value and, when the
   * message shows one, the signed change (the " (+x.x%)" suffix).
   */
  datatype Announcement = Announcement(value: Chance, change: Option<Chance>)

  /** A job on the Slack queue. The random quip and log fields are left out. */
  datatype SlackMessage = SlackMessage(url: string, text: Announcement)

  /** A job on the tweet queue. */
  datatype Tweet = Tweet(percentNow: Chance, percentChange: Chance)

  /** What a save writes to disk: the token map and the last tweeted value. */
  datatype ServerState = ServerState(tokens: map<string, Account>, lastTweetedValue: Chance)

  /**
   * A decoded data file. `tokens` is `None` when the file holds no token map
   * (the Go map is nil after decoding).
   */
  datatype StoredState = StoredState(tokens: Option<map<string, Account>>, lastTweetedValue: Chance)

  /**
   * The outcome of reading and decoding the data file at start-up.
   * `Malformed` is a file that is not well-formed JSON: the decoder writes
   * nothing. `TypeMismatch` is a well-formed file with a field of the wrong
   * type: the decoder reports an error but keeps what it had already filled.
   */
  datatype LoadOutcome =
    | Unreadable
    | Malformed
    | TypeMismatch(partial: StoredState)
    | Decoded(stored: StoredState)

  /** Why an OAuth registration was refused before any state changed. */
  datatype RegisterError = ShuttingDown | EmptyAccessToken | EmptyTeamID
}
