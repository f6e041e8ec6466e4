/**
 * The invariant a session record is meant to keep (at most two teams in
 * play, every team id in at most one place, a non-negative score), which
 * transitions keep it and under what hypotheses, and which do not.
 */
module Invariants {
  import opened Types
  import opened Transitions

  /** No two teams of ts share an id. */
  predicate Unique(ts: seq<Team>)
  {
    forall i, j :: 0 <= i < j < |ts| ==> ts[i].id != ts[j].id
  }

  function Ids(ts: seq<Team>): set<string>
  {
    set t | t in ts :: t.id
  }

  predicate ScoreOk(score: Option<Score>)
  {
    score.Some? ==> score.value.team1 >= 0 && score.value.team2 >= 0
  }

  /** The invariant a session record is meant to keep. */
  predicate Valid(s: SessionState)
  {
    && |s.inPlay| <= 2
    && Unique(s.teams + s.inPlay)
    && ScoreOk(s.score)
  }

  // ---------------------------------------------------------------------------
  // Uniqueness of ids over concatenations and rearrangements

  lemma UniqueConcat(a: seq<Team>, b: seq<Team>)
    ensures Unique(a + b) <==> Unique(a) && Unique(b) && Ids(a) !! Ids(b)
  {
    var ab := a + b;
    if Unique(ab) {
      forall i, j | 0 <= i < j < |a| ensures a[i].id != a[j].id {
        assert a[i] == ab[i] && a[j] == ab[j];
      }
      forall i, j | 0 <= i < j < |b| ensures b[i].id != b[j].id {
        assert b[i] == ab[|a| + i] && b[j] == ab[|a| + j];
      }
      forall x | x in Ids(a) ensures x !in Ids(b) {
        var i :| 0 <= i < |a| && a[i].id == x;
        forall j | 0 <= j < |b| ensures b[j].id != x {
          assert ab[i] == a[i] && ab[|a| + j] == b[j];
        }
      }
    }
    if Unique(a) && Unique(b) && Ids(a) !! Ids(b) {
      forall i, j | 0 <= i < j < |ab| ensures ab[i].id != ab[j].id {
        if j < |a| {
          assert ab[i] == a[i] && ab[j] == a[j];
        } else if i >= |a| {
          assert ab[i] == b[i - |a|] && ab[j] == b[j - |a|];
        } else {
          assert ab[i] == a[i] && ab[i].id in Ids(a);
          assert ab[j] == b[j - |a|] && ab[j].id in Ids(b);
        }
      }
    }
  }

  lemma UniqueSwap(a: seq<Team>, b: seq<Team>)
    ensures Unique(a + b) <==> Unique(b + a)
  {
    UniqueConcat(a, b);
    UniqueConcat(b, a);
  }

  /** Helper: ids of a concatenation. */
  lemma IdsConcat(a: seq<Team>, b: seq<Team>)
    ensures Ids(a + b) == Ids(a) + Ids(b)
  {
    assert forall t :: t in a + b <==> t in a || t in b;
  }

  /** Helper: a team occurs at most once in a list with unique ids. */
  lemma {:induction false} UniqueOccursOnce(ts: seq<Team>, t: Team)
    requires Unique(ts)
    ensures multiset(ts)[t] <= 1
  {
    if ts != [] {
      assert ts == [ts[0]] + ts[1..];
      UniqueConcat([ts[0]], ts[1..]);
      UniqueOccursOnce(ts[1..], t);
      if t == ts[0] {
        assert t.id in Ids([ts[0]]);
        assert t !in ts[1..];
      }
    }
  }

  /** Helper: a value at two positions occurs twice. */
  lemma TwoPositions(ts: seq<Team>, i: nat, j: nat)
    requires i < j < |ts| && ts[i] == ts[j]
    ensures multiset(ts)[ts[i]] >= 2
  {
    assert ts == ts[..j] + ts[j..];
    assert ts[i] == ts[..j][i];
    assert ts[j] == ts[j..][0];
  }

  /** Any permutation of a list with unique ids has unique ids. */
  lemma PermutationUnique(a: seq<Team>, b: seq<Team>)
    requires multiset(a) == multiset(b)
    requires Unique(a)
    ensures Unique(b)
  {
    forall i, j | 0 <= i < j < |b| ensures b[i].id != b[j].id {
      if b[i] == b[j] {
        TwoPositions(b, i, j);
        UniqueOccursOnce(a, b[i]);
      } else {
        assert b[i] in multiset(a) && b[j] in multiset(a);
        DistinctMembers(a, b[i], b[j]);
      }
    }
  }

  /** Helper: two different teams of a list with unique ids have different ids. */
  lemma DistinctMembers(a: seq<Team>, u: Team, v: Team)
    requires Unique(a) && u in a && v in a && u != v
    ensures u.id != v.id
  {
    var x :| 0 <= x < |a| && a[x] == u;
    var y :| 0 <= y < |a| && a[y] == v;
    if x < y { assert a[x].id != a[y].id; } else { assert a[y].id != a[x].id; }
  }

  // ---------------------------------------------------------------------------
  // Creating and configuring

  lemma NewSessionValid(mode: Option<string>)
    ensures Valid(NewSession(mode))
  {
  }

  /** Configuring overwrites the mode (last write wins) and keeps the invariant. */
  lemma ConfigureLastWriteWins(s: SessionState, m1: Option<string>, m2: Option<string>)
    ensures Configure(Configure(s, m1), m2) == Configure(s, m2)
    ensures Valid(s) ==> Valid(Configure(s, m2))
  {
  }

  // ---------------------------------------------------------------------------
  // Adding, removing and reordering teams

  /** Adding a team under an id used nowhere in the session keeps the invariant. */
  lemma AddTeamPreservesValid(s: SessionState, name: string, id: string)
    requires Valid(s)
    requires id !in Ids(s.teams + s.inPlay)
    requires AddTeam(s, name, id).Ok?
    ensures Valid(AddTeam(s, name, id).value)
  {
    var t := Team(id, name);
    var r := AddTeam(s, name, id).value;
    assert r.teams == s.teams + [t];
    UniqueConcat(s.teams, s.inPlay);
    IdsConcat(s.teams, s.inPlay);
    UniqueConcat(s.teams, [t]);
    IdsConcat(s.teams, [t]);
    UniqueConcat(r.teams, s.inPlay);
  }

  /**
   * The duplicate check looks only at the queue: a name held by a team in play
   * is accepted again, and the session then has two teams of that name.
   */
  lemma AddTeamAcceptsNameInPlay(s: SessionState, name: string, id: string)
    requires NameTaken(s.inPlay, name) && !NameTaken(s.teams, name)
    ensures AddTeam(s, name, id).Ok?
    ensures var r := AddTeam(s, name, id).value;
            NameTaken(r.teams, name) && NameTaken(r.inPlay, name)
  {
    var r := AddTeam(s, name, id).value;
    assert r.teams[|s.teams|] in r.teams;
  }

  /** Filtering distributes over concatenation, so it keeps the relative order. */
  lemma {:induction false} WithoutAppend(a: seq<Team>, b: seq<Team>, id: string)
    ensures Without(a + b, id) == Without(a, id) + Without(b, id)
  {
    if a == [] {
      assert a + b == b;
    } else {
      assert (a + b)[0] == a[0] && (a + b)[1..] == a[1..] + b;
      WithoutAppend(a[1..], b, id);
    }
  }

  /** Filtering keeps unique ids unique. */
  lemma {:induction false} WithoutUnique(ts: seq<Team>, id: string)
    requires Unique(ts)
    ensures Unique(Without(ts, id))
  {
    if ts != [] {
      assert ts == [ts[0]] + ts[1..];
      UniqueConcat([ts[0]], ts[1..]);
      WithoutUnique(ts[1..], id);
      var rest := Without(ts[1..], id);
      var head: seq<Team> := if ts[0].id == id then [] else [ts[0]];
      assert Ids(head) !! Ids(rest) by {
        WithoutMembers(ts[1..], id);
        assert forall t :: t in rest ==> t in ts[1..];
        assert Ids(rest) <= Ids(ts[1..]);
        assert Ids(head) <= Ids([ts[0]]);
      }
      UniqueConcat(head, rest);
    }
  }

  /** Removing a team keeps the invariant. */
  lemma RemoveTeamPreservesValid(s: SessionState, id: string)
    requires Valid(s)
    ensures Valid(RemoveTeam(s, id))
  {
    var r := RemoveTeam(s, id);
    UniqueConcat(s.teams, s.inPlay);
    WithoutAppend(s.teams, s.inPlay, id);
    WithoutUnique(s.teams + s.inPlay, id);
  }

  /** Removing an id held by no team is a successful no-op; removing twice is removing once. */
  lemma RemoveTeamAbsentIsNoop(s: SessionState, id: string)
    ensures !HasId(s.teams, id) && !HasId(s.inPlay, id) ==> RemoveTeam(s, id) == s
    ensures RemoveTeam(RemoveTeam(s, id), id) == RemoveTeam(s, id)
  {
    WithoutMembers(s.teams, id);
    WithoutMembers(s.inPlay, id);
    WithoutMembers(Without(s.teams, id), id);
    WithoutMembers(Without(s.inPlay, id), id);
  }

  /**
   * Reorder checks nothing, so it keeps the invariant exactly when the new
   * list has unique ids that are not in play.
   */
  lemma ReorderValid(s: SessionState, teams: seq<Team>)
    requires Valid(s)
    ensures Valid(Reorder(s, teams)) <==> Unique(teams) && Ids(teams) !! Ids(s.inPlay)
  {
    UniqueConcat(s.teams, s.inPlay);
    UniqueConcat(teams, s.inPlay);
  }

  /** In particular a permutation of the queue (what the drag-and-drop UI sends) keeps it. */
  lemma ReorderPermutationValid(s: SessionState, teams: seq<Team>)
    requires Valid(s)
    requires multiset(teams) == multiset(s.teams)
    ensures Valid(Reorder(s, teams))
  {
    UniqueConcat(s.teams, s.inPlay);
    PermutationUnique(s.teams, teams);
    assert forall t :: t in teams <==> t in s.teams by {
      forall t ensures t in teams <==> t in s.teams {
        assert t in teams <==> t in multiset(teams);
      }
    }
    assert Ids(teams) == Ids(s.teams);
    ReorderValid(s, teams);
  }

  // ---------------------------------------------------------------------------
  // Starting a game

  /** Starting a game keeps every id in one place and every team accounted for. */
  lemma StartGameConserves(s: SessionState)
    requires StartGame(s).Ok?
    ensures var r := StartGame(s).value;
            multiset(r.teams + r.inPlay) == multiset(s.teams + s.inPlay)
            && (Unique(s.teams + s.inPlay) ==> Unique(r.teams + r.inPlay))
  {
    var r := StartGame(s).value;
    var front := [s.teams[0], s.teams[1]];
    assert s.teams == front + r.teams;
    calc {
      multiset(r.teams + r.inPlay);
      multiset(r.teams) + multiset(s.inPlay) + multiset(front);
      multiset(front + r.teams) + multiset(s.inPlay);
    }
    if Unique(s.teams + s.inPlay) {
      assert s.teams + s.inPlay == front + (r.teams + s.inPlay);
      UniqueSwap(front, r.teams + s.inPlay);
      assert (r.teams + s.inPlay) + front == r.teams + r.inPlay;
    }
  }

  /** From an empty court, starting a game keeps the invariant. */
  lemma StartGamePreservesValid(s: SessionState)
    requires Valid(s) && s.inPlay == []
    requires StartGame(s).Ok?
    ensures Valid(StartGame(s).value)
  {
    StartGameConserves(s);
  }

  /**
   * With one team left in play (after removing the other), start-game passes
   * its guard and puts three teams in play: the bound is not kept.
   */
  lemma StartGameOverfills(s: SessionState)
    requires |s.inPlay| == 1 && |s.teams| >= 2
    ensures StartGame(s).Ok?
    ensures |StartGame(s).value.inPlay| == 3 && !Valid(StartGame(s).value)
  {
  }

  // ---------------------------------------------------------------------------
  // Recording a result

  /** Helper: two teams with distinct ids inside a list of at most two are the whole list. */
  lemma PairIsWhole(ts: seq<Team>, w: Team, l: Team)
    requires |ts| <= 2 && w in ts && l in ts && w.id != l.id
    ensures multiset(ts) == multiset{w, l}
    ensures Ids(ts) == {w.id, l.id}
  {
    assert |ts| == 2;
    assert ts == [ts[0], ts[1]];
  }

  /**
   * Winner-stays-on with a winner and a loser: the session's teams become the
   * queued ones plus the winner and loser found in play. Nothing is lost or
   * duplicated exactly when those two are all the teams in play.
   */
  lemma WinnerStaysOnConservation(s: SessionState, winner: string, loser: string)
    requires s.mode == Some(WinnerStaysOn)
    requires RecordResult(s, Some(winner), Some(loser), false).Ok?
    ensures var r := RecordResult(s, Some(winner), Some(loser), false).value;
            var w := Find(s.inPlay, winner).value;
            var l := Find(s.inPlay, loser).value;
            && multiset(r.teams + r.inPlay) == multiset(s.teams) + multiset{w, l}
            && (multiset(r.teams + r.inPlay) == multiset(s.teams + s.inPlay) <==> multiset(s.inPlay) == multiset{w, l})
  {
    var r := RecordResult(s, Some(winner), Some(loser), false).value;
    var w := Find(s.inPlay, winner).value;
    var l := Find(s.inPlay, loser).value;
    assert r.inPlay + r.teams == [w] + s.teams + [l];
    var after := multiset(r.teams + r.inPlay);
    assert after == multiset(s.teams) + multiset{w, l} by {
      assert after == multiset(r.inPlay) + multiset(r.teams);
      assert multiset(r.inPlay + r.teams) == multiset([w] + s.teams + [l]);
    }
    MultisetCancel(multiset(s.teams), multiset{w, l}, multiset(s.inPlay));
  }

  /** Helper: adding the same multiset on both sides cancels. */
  lemma MultisetCancel(a: multiset<Team>, x: multiset<Team>, y: multiset<Team>)
    ensures a + x == a + y <==> x == y
  {
    if a + x == a + y {
      forall t ensures x[t] == y[t] {
        assert (a + x)[t] == (a + y)[t];
      }
    }
  }

  /**
   * When the winner and loser ids are the same team, that team is requeued
   * and also kept in play, so it occurs twice among queue and play (twice in
   * play when the queue was empty, since the refill takes the copy straight
   * back). Every other team that was in play leaves the session.
   */
  lemma WinnerIsLoserDuplicates(s: SessionState, id: string)
    requires s.mode == Some(WinnerStaysOn)
    requires id != "" && HasId(s.inPlay, id)
    ensures RecordResult(s, Some(id), Some(id), false).Ok?
    ensures var r := RecordResult(s, Some(id), Some(id), false).value;
            var w := Find(s.inPlay, id).value;
            && multiset(r.teams + r.inPlay) == multiset(s.teams) + multiset{w, w}
            && !Unique(r.teams + r.inPlay) && !Valid(r)
  {
    var r := RecordResult(s, Some(id), Some(id), false).value;
    var w := Find(s.inPlay, id).value;
    WinnerStaysOnConservation(s, id, id);
    var all := r.inPlay + r.teams;
    assert all == [w] + s.teams + [w];
    assert all[0] == w && all[|all| - 1] == w;
    UniqueSwap(r.inPlay, r.teams);
  }

  /**
   * Every successful result keeps the invariant, except a winner-stays-on
   * result naming the same team as winner and loser.
   */
  lemma RecordResultPreservesValid(s: SessionState, winner: Option<string>, loser: Option<string>, bothLose: bool)
    requires Valid(s)
    requires RecordResult(s, winner, loser, bothLose).Ok?
    requires s.mode == Some(WinnerStaysOn) && !bothLose ==> winner != loser
    ensures Valid(RecordResult(s, winner, loser, bothLose).value)
  {
    var r := RecordResult(s, winner, loser, bothLose).value;
    if s.mode == Some(WinnerStaysOn) {
      if bothLose {
        UniqueSwap(s.teams, s.inPlay);
        UniqueSwap(r.inPlay, r.teams);
      } else {
        var w := Find(s.inPlay, winner.value).value;
        var l := Find(s.inPlay, loser.value).value;
        PairIsWhole(s.inPlay, w, l);
        UniqueConcat(s.teams, s.inPlay);
        UniqueConcat(s.teams, [l]);
        IdsConcat(s.teams, [l]);
        assert Ids([w]) == {w.id};
        UniqueConcat([w], s.teams + [l]);
        assert [w] + (s.teams + [l]) == r.inPlay + r.teams;
        UniqueSwap(r.inPlay, r.teams);
      }
    } else if s.mode == Some(Classic) {
      assert r.teams + r.inPlay == s.teams + s.inPlay;
    }
  }

  // ---------------------------------------------------------------------------
  // Score

  /** Updating the score keeps the invariant, and repeating an update changes nothing more. */
  lemma UpdateScoreStable(s: SessionState, team1: ScoreInput, team2: ScoreInput)
    ensures Valid(s) ==> Valid(UpdateScore(s, team1, team2))
    ensures UpdateScore(UpdateScore(s, team1, team2), team1, team2) == UpdateScore(s, team1, team2)
  {
  }
}
