/**
 * The values a pickup-game session is made of, as the server keeps them in its
 * store: one session record per area, teams as `{id, name}` records, a score
 * pair, and the kinds of failure a handler can report.
 */
module Types {

  datatype Option<+T> = None | Some(value: T)

  /** Why a handler refused a request; the store is left as it was. */
  datatype Error =
    | NotFound           // no session for the area
    | InvalidInput       // missing or blank team name, reorder payload not an array
    | DuplicateName      // a queued team already has the trimmed name
    | GameInProgress     // start-game while two or more teams are in play
    | InsufficientTeams  // start-game with fewer than two queued teams
    | ModeNotSet         // game-result while the mode is falsy
    | InvalidTeamIds     // winner or loser id not found among the teams in play
    | InvalidGameResult  // game-result whose shape the active mode does not accept

  datatype Result<+T> = Ok(value: T) | Err(error: Error)

  datatype Team = Team(id: string, name: string)

  datatype Score = Score(team1: int, team2: int)

  const ZeroScore := Score(0, 0)

  /**
   * One area's record. `mode` is whatever the last configure request sent,
   * stored verbatim (None when the request carried no mode or null);
   * `teams` is the waiting queue, front first; `score` is None only for a
   * record written without one, which several handlers backfill.
   */
  datatype SessionState = SessionState(
    mode: Option<string>,
    teams: seq<Team>,
    inPlay: seq<Team>,
    score: Option<Score>)

  /** The two mode strings the result handler recognises. */
  const WinnerStaysOn := "winner-stays-on"
  const Classic := "classic"

  /** One score field of a score request. */
  datatype ScoreInput =
    | Omitted        // the field is absent (undefined)
    | Numeric(n: int) // the field parses to the integer n
    | NotNumeric     // present but does not parse (including null)

  /** JavaScript truthiness of an optional string: absent and "" are falsy. */
  predicate Truthy(s: Option<string>)
  {
    s.Some? && s.value != ""
  }

  /** The areas' records, keyed by area name; the whole data file. */
  type Store = map<string, SessionState>
}
