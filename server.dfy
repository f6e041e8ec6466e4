/**
 * The request handlers of backend/server.js. Each handler reads the store,
 * checks the area, loads the area's record into a Session object, lets one
 * method of that object change its fields in place, and writes the record
 * back; a refused request writes nothing. Each Session method is proved to
 * do what the matching function of module Transitions says.
 */
module Server {
  import opened Types
  import opened Text
  import Transitions

  /** after/err is what a handler that computes r leaves behind, starting from before. */
  predicate Reports(r: Result<SessionState>, err: Option<Error>, after: SessionState, before: SessionState)
  {
    match r
    case Ok(v) => err == None && after == v
    case Err(e) => err == Some(e) && after == before
  }

  /** One area's record, loaded for the duration of one request. */
  class Session {
    var mode: Option<string>
    var teams: seq<Team>
    var inPlay: seq<Team>
    var score: Option<Score>

    function State(): SessionState
      reads this
    {
      SessionState(mode, teams, inPlay, score)
    }

    constructor Load(s: SessionState)
      ensures State() == s
    {
      mode, teams, inPlay, score := s.mode, s.teams, s.inPlay, s.score;
    }

    method Configure(m: Option<string>)
      modifies this
      ensures State() == Transitions.Configure(old(State()), m)
    {
      mode := m;
      if score.None? {
        score := Some(ZeroScore);
      }
    }

    /** name is the trimmed name; the handler has already refused a blank one. */
    method AddTeam(name: string, id: string) returns (err: Option<Error>)
      modifies this
      ensures Reports(Transitions.AddTeam(old(State()), name, id), err, State(), old(State()))
    {
      if exists t :: t in teams && t.name == name {
        return Some(DuplicateName);
      }
      teams := teams + [Team(id, name)];
      err := None;
    }

    method Reorder(newTeams: seq<Team>)
      modifies this
      ensures State() == Transitions.Reorder(old(State()), newTeams)
    {
      teams := newTeams;
    }

    method RemoveTeam(id: string)
      modifies this
      ensures State() == Transitions.RemoveTeam(old(State()), id)
    {
      teams := Transitions.Without(teams, id);
      inPlay := Transitions.Without(inPlay, id);
    }

    method StartGame() returns (err: Option<Error>)
      modifies this
      ensures Reports(Transitions.StartGame(old(State())), err, State(), old(State()))
    {
      if |inPlay| >= 2 {
        return Some(GameInProgress);
      }
      if |teams| < 2 {
        return Some(InsufficientTeams);
      }
      var moved := teams[..2];
      teams := teams[2..];
      inPlay := inPlay + moved;
      if score.Some? {
        score := Some(ZeroScore);
      }
      err := None;
    }

    /** Winner-stays-on refill: move queue fronts into play until two play or the queue is empty. */
    method Refill()
      modifies this
      ensures (inPlay, teams) == Transitions.Refill(old(inPlay), old(teams))
      ensures mode == old(mode) && score == old(score)
    {
      while |inPlay| < 2 && |teams| > 0
        invariant Transitions.Refill(inPlay, teams) == Transitions.Refill(old(inPlay), old(teams))
        invariant mode == old(mode) && score == old(score)
        decreases |teams|
      {
        inPlay := inPlay + [teams[0]];
        teams := teams[1..];
      }
    }

    method RecordResult(winner: Option<string>, loser: Option<string>, bothLose: bool) returns (err: Option<Error>)
      modifies this
      ensures Reports(Transitions.RecordResult(old(State()), winner, loser, bothLose), err, State(), old(State()))
    {
      if !Truthy(mode) {
        return Some(ModeNotSet);
      }
      if mode.value == WinnerStaysOn {
        if bothLose {
          teams := teams + inPlay;
          inPlay := [];
        } else if Truthy(winner) && Truthy(loser) {
          var w := Transitions.Find(inPlay, winner.value);
          var l := Transitions.Find(inPlay, loser.value);
          if w.None? || l.None? {
            return Some(InvalidTeamIds);
          }
          teams := teams + [l.value];
          inPlay := [w.value];
        } else {
          return Some(InvalidGameResult);
        }
        Refill();
      } else if mode.value == Classic {
        if bothLose {
          teams := teams + inPlay;
          inPlay := [];
          if score.Some? {
            score := Some(ZeroScore);
          }
        } else {
          return Some(InvalidGameResult);
        }
      }
      err := None;
    }

    method UpdateScore(team1: ScoreInput, team2: ScoreInput)
      modifies this
      ensures State() == Transitions.UpdateScore(old(State()), team1, team2)
    {
      if score.None? {
        score := Some(ZeroScore);
      }
      if !team1.Omitted? {
        var parsed := if team1.Numeric? then team1.n else 0;
        score := Some(score.value.(team1 := if parsed > 0 then parsed else 0));
      }
      if !team2.Omitted? {
        var parsed := if team2.Numeric? then team2.n else 0;
        score := Some(score.value.(team2 := if parsed > 0 then parsed else 0));
      }
    }
  }

  /** store'/res is what a handler that computed r for area leaves behind. */
  predicate Stored(store: Store, area: string, r: Result<SessionState>, store': Store, res: Result<SessionState>)
  {
    match r
    case Ok(v) => res == Ok(v) && store' == store[area := v]
    case Err(e) => res == Err(e) && store' == store
  }

  /** GET /api/queue/:area — the area's record, created empty when unknown. */
  method GetQueue(store: Store, area: string) returns (store': Store, res: SessionState)
    ensures area in store ==> store' == store && res == store[area]
    ensures area !in store ==> && res.mode == None && res.teams == [] && res.inPlay == []
                               && res.score == Some(ZeroScore)
                               && store' == store[area := res]
  {
    if area !in store {
      store' := store[area := Transitions.NewSession(None)];
    } else {
      store' := store;
    }
    res := store'[area];
  }

  /** POST /api/queue/:area — create the record with the given mode, or overwrite its mode. */
  method PostQueue(store: Store, area: string, mode: Option<string>) returns (store': Store, res: SessionState)
    ensures res.mode == mode && store' == store[area := res]
    ensures area !in store ==> res.teams == [] && res.inPlay == [] && res.score == Some(ZeroScore)
    ensures area in store ==> res == Transitions.Configure(store[area], mode)
  {
    if area !in store {
      res := Transitions.NewSession(mode);
    } else {
      var session := new Session.Load(store[area]);
      session.Configure(mode);
      res := session.State();
    }
    store' := store[area := res];
  }

  /** POST /api/queue/:area/teams — the name is checked before the area is looked up. */
  method PostTeam(store: Store, area: string, name: Option<string>, id: string) returns (store': Store, res: Result<SessionState>)
    ensures Transitions.TeamName(name).None? ==> res == Err(InvalidInput) && store' == store
    ensures Transitions.TeamName(name).Some? && area !in store ==> res == Err(NotFound) && store' == store
    ensures Transitions.TeamName(name).Some? && area in store ==>
              Stored(store, area, Transitions.AddTeam(store[area], Transitions.TeamName(name).value, id), store', res)
  {
    if name.None? || name.value == "" || Trim(name.value) == "" {
      return store, Err(InvalidInput);
    }
    if area !in store {
      return store, Err(NotFound);
    }
    var session := new Session.Load(store[area]);
    var err := session.AddTeam(Trim(name.value), id);
    if err.Some? {
      return store, Err(err.value);
    }
    store' := store[area := session.State()];
    res := Ok(session.State());
  }

  /** POST /api/queue/:area/reorder — teams is None when the payload is not an array; answers with the new queue. */
  method PostReorder(store: Store, area: string, teams: Option<seq<Team>>) returns (store': Store, res: Result<seq<Team>>)
    ensures area !in store ==> res == Err(NotFound) && store' == store
    ensures area in store && teams.None? ==> res == Err(InvalidInput) && store' == store
    ensures area in store && teams.Some? ==>
              && res == Ok(teams.value)
              && store' == store[area := Transitions.Reorder(store[area], teams.value)]
  {
    if area !in store {
      return store, Err(NotFound);
    }
    if teams.None? {
      return store, Err(InvalidInput);
    }
    var session := new Session.Load(store[area]);
    session.Reorder(teams.value);
    store' := store[area := session.State()];
    res := Ok(session.teams);
  }

  /** DELETE /api/queue/:area/teams/:teamId */
  method DeleteTeam(store: Store, area: string, teamId: string) returns (store': Store, res: Result<SessionState>)
    ensures area !in store ==> res == Err(NotFound) && store' == store
    ensures area in store ==> Stored(store, area, Ok(Transitions.RemoveTeam(store[area], teamId)), store', res)
  {
    if area !in store {
      return store, Err(NotFound);
    }
    var session := new Session.Load(store[area]);
    session.RemoveTeam(teamId);
    store' := store[area := session.State()];
    res := Ok(session.State());
  }

  /** POST /api/queue/:area/start-game */
  method PostStartGame(store: Store, area: string) returns (store': Store, res: Result<SessionState>)
    ensures area !in store ==> res == Err(NotFound) && store' == store
    ensures area in store ==> Stored(store, area, Transitions.StartGame(store[area]), store', res)
  {
    if area !in store {
      return store, Err(NotFound);
    }
    var session := new Session.Load(store[area]);
    var err := session.StartGame();
    if err.Some? {
      return store, Err(err.value);
    }
    store' := store[area := session.State()];
    res := Ok(session.State());
  }

  /** POST /api/queue/:area/game-result */
  method PostGameResult(store: Store, area: string, winner: Option<string>, loser: Option<string>, bothLose: bool)
    returns (store': Store, res: Result<SessionState>)
    ensures area !in store ==> res == Err(NotFound) && store' == store
    ensures area in store ==> Stored(store, area, Transitions.RecordResult(store[area], winner, loser, bothLose), store', res)
  {
    if area !in store {
      return store, Err(NotFound);
    }
    var session := new Session.Load(store[area]);
    var err := session.RecordResult(winner, loser, bothLose);
    if err.Some? {
      return store, Err(err.value);
    }
    store' := store[area := session.State()];
    res := Ok(session.State());
  }

  /** POST /api/queue/:area/score */
  method PostScore(store: Store, area: string, team1: ScoreInput, team2: ScoreInput) returns (store': Store, res: Result<SessionState>)
    ensures area !in store ==> res == Err(NotFound) && store' == store
    ensures area in store ==> Stored(store, area, Ok(Transitions.UpdateScore(store[area], team1, team2)), store', res)
  {
    if area !in store {
      return store, Err(NotFound);
    }
    var session := new Session.Load(store[area]);
    session.UpdateScore(team1, team2);
    store' := store[area := session.State()];
    res := Ok(session.State());
  }
}
