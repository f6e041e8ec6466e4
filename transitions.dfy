/**
 * What each request handler of the server does to one area's record, as a
 * function from the record before to the record after (or the error the
 * handler answers with, in which case the record is not written back).
 * backend/server.js runs these steps imperatively on the loaded record; the
 * class Server.Session does the same and is proved to agree with these
 * functions.
 */
module Transitions {
  import opened Types
  import opened Text

  /** The record a GET or a configure creates for an area it does not know. */
  function NewSession(mode: Option<string>): (r: SessionState)
    ensures r.mode == mode && r.teams == [] && r.inPlay == [] && r.score == Some(ZeroScore)
  {
    SessionState(mode, [], [], Some(ZeroScore))
  }

  /**
   * Configure on an existing record: the mode is overwritten with whatever
   * was sent, a missing score is backfilled, the queue and the teams in play
   * are kept (so a game in progress survives a mode change).
   */
  function Configure(s: SessionState, mode: Option<string>): (r: SessionState)
    ensures r.mode == mode
    ensures r.teams == s.teams && r.inPlay == s.inPlay
    ensures r.score == if s.score.None? then Some(ZeroScore) else s.score
  {
    s.(mode := mode, score := if s.score.None? then Some(ZeroScore) else s.score)
  }

  /**
   * The name an add-team request registers: None when the name is missing or
   * trims to nothing, otherwise the trimmed name.
   */
  function TeamName(name: Option<string>): (r: Option<string>)
    ensures r.None? <==> name.None? || forall k :: 0 <= k < |name.value| ==> IsSpace(name.value[k])
    ensures r.Some? ==> r.value == Trim(name.value) && r.value != []
  {
    if name.None? || name.value == "" || Trim(name.value) == "" then None
    else Some(Trim(name.value))
  }

  /** True when some team of ts is called name. */
  predicate NameTaken(ts: seq<Team>, name: string)
  {
    exists t :: t in ts && t.name == name
  }

  /**
   * Add a team under an already trimmed name: refused when a QUEUED team has
   * that name (teams in play are not looked at), otherwise the new team goes
   * to the back of the queue and nothing else changes.
   */
  function AddTeam(s: SessionState, name: string, id: string): (r: Result<SessionState>)
    ensures r.Ok? <==> !NameTaken(s.teams, name)
    ensures r.Err? ==> r.error == DuplicateName
    ensures r.Ok? ==> && |r.value.teams| == |s.teams| + 1
                      && r.value.teams[..|s.teams|] == s.teams
                      && r.value.teams[|s.teams|] == Team(id, name)
    ensures r.Ok? ==> r.value.inPlay == s.inPlay && r.value.score == s.score && r.value.mode == s.mode
  {
    if NameTaken(s.teams, name) then Err(DuplicateName)
    else Ok(s.(teams := s.teams + [Team(id, name)]))
  }

  /** ts without the teams whose id is id, the others in their order. */
  function Without(ts: seq<Team>, id: string): (r: seq<Team>)
    ensures |r| <= |ts|
    ensures |r| == |ts| <==> forall k :: 0 <= k < |ts| ==> ts[k].id != id
  {
    if ts == [] then []
    else (if ts[0].id == id then [] else [ts[0]]) + Without(ts[1..], id)
  }

  /** Filtering keeps exactly the teams with another id, and is the identity when none has the id. */
  lemma {:induction false} WithoutMembers(ts: seq<Team>, id: string)
    ensures forall t :: t in Without(ts, id) <==> t in ts && t.id != id
    ensures (forall t :: t in ts ==> t.id != id) ==> Without(ts, id) == ts
  {
    if ts != [] {
      WithoutMembers(ts[1..], id);
      assert ts == [ts[0]] + ts[1..];
    }
  }

  /**
   * Remove a team by id from the queue and from play. An unknown id is not an
   * error; a vacated place in play is not refilled.
   */
  function RemoveTeam(s: SessionState, id: string): (r: SessionState)
    ensures forall t :: t in r.teams <==> t in s.teams && t.id != id
    ensures forall t :: t in r.inPlay <==> t in s.inPlay && t.id != id
    ensures r.mode == s.mode && r.score == s.score
  {
    WithoutMembers(s.teams, id);
    WithoutMembers(s.inPlay, id);
    s.(teams := Without(s.teams, id), inPlay := Without(s.inPlay, id))
  }

  /** Reorder: the queue is replaced by whatever list was sent; nothing is checked. */
  function Reorder(s: SessionState, teams: seq<Team>): (r: SessionState)
    ensures r.teams == teams && r.inPlay == s.inPlay && r.mode == s.mode && r.score == s.score
  {
    s.(teams := teams)
  }

  /**
   * Start a game: refused while two or more teams are in play, then refused
   * with fewer than two queued teams; otherwise the two front teams of the
   * queue join the teams in play (whatever is already there stays) and a
   * present score is reset.
   */
  function StartGame(s: SessionState): (r: Result<SessionState>)
    ensures r == Err(GameInProgress) <==> |s.inPlay| >= 2
    ensures r == Err(InsufficientTeams) <==> |s.inPlay| < 2 && |s.teams| < 2
    ensures r.Ok? <==> |s.inPlay| < 2 && |s.teams| >= 2
    ensures r.Ok? ==> && r.value.inPlay == s.inPlay + [s.teams[0], s.teams[1]]
                      && s.teams == [s.teams[0], s.teams[1]] + r.value.teams
                      && |r.value.inPlay| == |s.inPlay| + 2
    ensures r.Ok? ==> && r.value.mode == s.mode
                      && r.value.score == (if s.score.Some? then Some(ZeroScore) else None)
  {
    if |s.inPlay| >= 2 then Err(GameInProgress)
    else if |s.teams| < 2 then Err(InsufficientTeams)
    else
      Ok(s.(teams := s.teams[2..],
            inPlay := s.inPlay + s.teams[..2],
            score := if s.score.Some? then Some(ZeroScore) else None))
  }

  /** The first team of ts whose id is id, as Array.prototype.find returns it. */
  function Find(ts: seq<Team>, id: string): (r: Option<Team>)
    ensures r.Some? <==> exists t :: t in ts && t.id == id
    ensures r.Some? ==> exists i :: 0 <= i < |ts| && ts[i] == r.value && r.value.id == id
                                   && forall j :: 0 <= j < i ==> ts[j].id != id
  {
    if ts == [] then None
    else if ts[0].id == id then Some(ts[0])
    else
      var r := Find(ts[1..], id);
      assert forall t :: t in ts[1..] ==> t in ts;
      assert r.Some? ==> exists i :: 0 < i < |ts| && ts[i] == r.value && r.value.id == id
                                       && forall j :: 0 <= j < i ==> ts[j].id != id by {
        if r.Some? {
          var i :| 0 <= i < |ts[1..]| && ts[1..][i] == r.value && r.value.id == id
                   && forall j :: 0 <= j < i ==> ts[1..][j].id != id;
          assert ts[i + 1] == r.value;
          assert forall j :: 1 <= j < i + 1 ==> ts[j].id != id by {
            forall j | 1 <= j < i + 1 ensures ts[j].id != id { assert ts[j] == ts[1..][j - 1]; }
          }
        }
      }
      r
  }

  /**
   * The refill step of winner-stays-on: while fewer than two teams are in
   * play and the queue is not empty, the front of the queue joins play.
   * Result: (teams in play, queue).
   */
  function Refill(inPlay: seq<Team>, queue: seq<Team>): (r: (seq<Team>, seq<Team>))
    ensures r.0 + r.1 == inPlay + queue
    ensures |r.0| >= |inPlay| && r.0[..|inPlay|] == inPlay
    ensures |r.0| >= 2 || r.1 == []
    ensures |r.0| <= 2 || r.0 == inPlay
    decreases |queue|
  {
    if |inPlay| < 2 && |queue| > 0 then
      var r := Refill(inPlay + [queue[0]], queue[1..]);
      assert (inPlay + [queue[0]]) + queue[1..] == inPlay + queue;
      assert r.0[..|inPlay|] == (r.0[..|inPlay| + 1])[..|inPlay|];
      r
    else (inPlay, queue)
  }

  /** A winner-stays-on outcome: set the queue and play, then refill. */
  function Rotate(s: SessionState, queue: seq<Team>, inPlay: seq<Team>): SessionState
  {
    var (p, q) := Refill(inPlay, queue);
    s.(teams := q, inPlay := p)
  }

  /** True when some team of ts has this id. */
  predicate HasId(ts: seq<Team>, id: string)
  {
    exists t :: t in ts && t.id == id
  }

  /** The record after a winner-stays-on result (mode already checked). */
  function WinnerStaysOnResult(s: SessionState, winner: Option<string>, loser: Option<string>, bothLose: bool): (r: Result<SessionState>)
    ensures bothLose ==> r.Ok? && r.value.inPlay + r.value.teams == s.teams + s.inPlay
    ensures !bothLose ==>
              (r.Ok? <==> Truthy(winner) && Truthy(loser) && HasId(s.inPlay, winner.value) && HasId(s.inPlay, loser.value))
    ensures !bothLose && r.Err? ==>
              r.error == if Truthy(winner) && Truthy(loser) then InvalidTeamIds else InvalidGameResult
    ensures !bothLose && r.Ok? ==>
              r.value.inPlay + r.value.teams
                == [Find(s.inPlay, winner.value).value] + s.teams + [Find(s.inPlay, loser.value).value]
    ensures r.Ok? ==> |r.value.inPlay| <= 2 && (|r.value.inPlay| == 2 || r.value.teams == [])
    ensures r.Ok? ==> r.value.mode == s.mode && r.value.score == s.score
  {
    if bothLose then
      Ok(Rotate(s, s.teams + s.inPlay, []))
    else if Truthy(winner) && Truthy(loser) then
      var w := Find(s.inPlay, winner.value);
      var l := Find(s.inPlay, loser.value);
      if w.None? || l.None? then Err(InvalidTeamIds)
      else
        assert [w.value] + (s.teams + [l.value]) == [w.value] + s.teams + [l.value];
        Ok(Rotate(s, s.teams + [l.value], [w.value]))
    else Err(InvalidGameResult)
  }

  /** The record after a classic result (mode already checked). */
  function ClassicResult(s: SessionState, bothLose: bool): (r: Result<SessionState>)
    ensures r.Ok? <==> bothLose
    ensures r.Err? ==> r.error == InvalidGameResult
    ensures r.Ok? ==> && r.value.teams == s.teams + s.inPlay && r.value.inPlay == []
                      && r.value.mode == s.mode
                      && r.value.score == (if s.score.Some? then Some(ZeroScore) else None)
  {
    if bothLose then
      Ok(s.(teams := s.teams + s.inPlay, inPlay := [],
            score := if s.score.Some? then Some(ZeroScore) else None))
    else Err(InvalidGameResult)
  }

  /**
   * Record a game result. A falsy mode is refused; winner-stays-on and
   * classic apply their rotation; any other mode string succeeds and changes
   * nothing.
   */
  function RecordResult(s: SessionState, winner: Option<string>, loser: Option<string>, bothLose: bool): (r: Result<SessionState>)
    ensures r == Err(ModeNotSet) <==> !Truthy(s.mode)
    ensures Truthy(s.mode) && s.mode.value != WinnerStaysOn && s.mode.value != Classic ==> r == Ok(s)
    ensures s.mode == Some(WinnerStaysOn) ==> r == WinnerStaysOnResult(s, winner, loser, bothLose)
    ensures s.mode == Some(Classic) ==> r == ClassicResult(s, bothLose)
  {
    if !Truthy(s.mode) then Err(ModeNotSet)
    else if s.mode.value == WinnerStaysOn then WinnerStaysOnResult(s, winner, loser, bothLose)
    else if s.mode.value == Classic then ClassicResult(s, bothLose)
    else Ok(s)
  }

  /** The value a score field is set to: Math.max(0, parseInt(v) || 0), or the old value if omitted. */
  function ScoreField(v: ScoreInput, current: int): (r: int)
    ensures v.Omitted? ==> r == current
    ensures !v.Omitted? ==> r >= 0
    ensures v.Numeric? && v.n >= 0 ==> r == v.n
    ensures v.NotNumeric? || (v.Numeric? && v.n <= 0) ==> r == 0
  {
    match v
    case Omitted => current
    case Numeric(n) => if n > 0 then n else 0
    case NotNumeric => 0
  }

  /**
   * Update the score: backfill a missing score with (0, 0), then set each
   * supplied field, clamped to be non-negative. Works in any mode and with
   * any number of teams in play.
   */
  function UpdateScore(s: SessionState, team1: ScoreInput, team2: ScoreInput): (r: SessionState)
    ensures r.mode == s.mode && r.teams == s.teams && r.inPlay == s.inPlay
    ensures r.score.Some?
    ensures var before := if s.score.Some? then s.score.value else ZeroScore;
            && r.score.value.team1 == ScoreField(team1, before.team1)
            && r.score.value.team2 == ScoreField(team2, before.team2)
  {
    var before := if s.score.Some? then s.score.value else ZeroScore;
    s.(score := Some(Score(ScoreField(team1, before.team1), ScoreField(team2, before.team2))))
  }
}
