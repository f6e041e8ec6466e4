/**
 * Concrete runs of the transitions: the intended rotations, a result whose
 * winner and loser are the same team, and a run from a valid session in which
 * start-game overfills the court and the next winner-stays-on result drops a
 * team from the session altogether.
 */
module Scenarios {
  import opened Types
  import opened Text
  import opened Transitions
  import opened Invariants

  const A := Team("1", "A")
  const B := Team("2", "B")
  const C := Team("3", "C")
  const D := Team("4", "D")
  const E := Team("5", "E")

  /** Winner-stays-on: [A, B, C] queued; start, then A beats B; B waits, C comes on. */
  lemma WinnerStaysOnRotation()
    ensures var s0 := SessionState(Some(WinnerStaysOn), [A, B, C], [], Some(ZeroScore));
            && StartGame(s0) == Ok(s0.(teams := [C], inPlay := [A, B]))
            && RecordResult(StartGame(s0).value, Some("1"), Some("2"), false)
                 == Ok(s0.(teams := [B], inPlay := [A, C]))
  {
    var s0 := SessionState(Some(WinnerStaysOn), [A, B, C], [], Some(ZeroScore));
    var s1 := s0.(teams := [C], inPlay := [A, B]);
    assert StartGame(s0) == Ok(s1) by {
      assert [A, B, C][2..] == [C] && [A, B, C][..2] == [A, B];
      assert [] + [A, B] == [A, B];
    }
    WinnerBeatsLoser(s1, A, B, [C]);
  }

  /** Helper: with [w, l] in play and one team queued, w beats l. */
  lemma WinnerBeatsLoser(s: SessionState, w: Team, l: Team, q: seq<Team>)
    requires s.mode == Some(WinnerStaysOn) && s.inPlay == [w, l] && |q| == 1 && s.teams == q
    requires w.id != "" && l.id != "" && w.id != l.id
    ensures RecordResult(s, Some(w.id), Some(l.id), false) == Ok(s.(teams := [l], inPlay := [w, q[0]]))
  {
    assert Find(s.inPlay, w.id) == Some(w);
    assert Find(s.inPlay, l.id) == Some(l) by {
      assert [w, l][1..] == [l];
    }
    assert Refill([w], q + [l]) == ([w, q[0]], [l]) by {
      assert [w] + [(q + [l])[0]] == [w, q[0]] && (q + [l])[1..] == [l];
      assert Refill([w, q[0]], [l]) == ([w, q[0]], [l]);
    }
  }

  /**
   * Winner and loser both "1" with an empty queue: A is requeued and at once
   * pulled back into play, so A plays twice and B has left the session.
   */
  lemma SameIdEmptyQueue()
    ensures var s := SessionState(Some(WinnerStaysOn), [], [A, B], Some(ZeroScore));
            RecordResult(s, Some("1"), Some("1"), false) == Ok(s.(teams := [], inPlay := [A, A]))
  {
    var s := SessionState(Some(WinnerStaysOn), [], [A, B], Some(ZeroScore));
    assert Find(s.inPlay, "1") == Some(A);
    assert Refill([A], [] + [A]) == ([A, A], []) by {
      assert [] + [A] == [A] && [A][1..] == [] && [A] + [A] == [A, A];
      assert Refill([A, A], []) == ([A, A], []);
    }
  }

  /** Classic: both teams in play go to the back of the queue and the score is reset. */
  lemma ClassicBothLose()
    ensures var s := SessionState(Some(Classic), [C], [A, B], Some(Score(3, 5)));
            RecordResult(s, None, None, true) == Ok(SessionState(Some(Classic), [C, A, B], [], Some(ZeroScore)))
    ensures var s := SessionState(Some(Classic), [C], [A, B], Some(Score(3, 5)));
            RecordResult(s, Some("1"), Some("2"), false) == Err(InvalidGameResult)
  {
    assert Classic != WinnerStaysOn;
    assert [C] + [A, B] == [C, A, B];
  }

  /** " Alpha " trims to "Alpha", which a queued "Alpha" already holds. */
  lemma PaddedDuplicateRejected(s: SessionState, id: string)
    requires Team("7", "Alpha") in s.teams
    ensures TeamName(Some(" Alpha ")) == Some("Alpha")
    ensures AddTeam(s, TeamName(Some(" Alpha ")).value, id) == Err(DuplicateName)
  {
    AlphaTrims();
    assert NameTaken(s.teams, "Alpha");
  }

  /** Helper: the padded name trims to the bare one. */
  lemma AlphaTrims()
    ensures Trim(" Alpha ") == "Alpha"
  {
    TrimPadded("Alpha", " ", " ");
    assert " " + "Alpha" + " " == " Alpha ";
    TrimUnique("Alpha", 0, 5);
  }

  /** A negative score becomes 0; an omitted field keeps its value. */
  lemma ScoreClamp(s: SessionState)
    requires s.score == Some(Score(4, 2))
    ensures UpdateScore(s, Numeric(-5), Omitted).score == Some(Score(0, 2))
    ensures UpdateScore(s, Omitted, Numeric(7)).score == Some(Score(4, 7))
    ensures UpdateScore(s, NotNumeric, Omitted).score == Some(Score(0, 2))
  {
  }

  /**
   * From a valid session: start A-B, remove B, start again (three in play:
   * A, C, D), then A beats C. C waits, E comes on, and D is in neither the
   * queue nor play any more.
   */
  lemma OverfilledCourtLosesTeam()
    ensures var s0 := SessionState(Some(WinnerStaysOn), [A, B, C, D, E], [], Some(ZeroScore));
            var s1 := StartGame(s0).value;
            var s2 := RemoveTeam(s1, "2");
            var s3 := StartGame(s2);
            && Valid(s0)
            && s3 == Ok(s0.(teams := [E], inPlay := [A, C, D]))
            && RecordResult(s3.value, Some("1"), Some("3"), false)
                 == Ok(s0.(teams := [C], inPlay := [A, E]))
  {
    var s0 := SessionState(Some(WinnerStaysOn), [A, B, C, D, E], [], Some(ZeroScore));
    FiveTeamsValid(s0);
    var s1 := s0.(teams := [C, D, E], inPlay := [A, B]);
    StartFromFive(s0);
    var s2 := s0.(teams := [C, D, E], inPlay := [A]);
    RemoveB(s1);
    var s3 := s0.(teams := [E], inPlay := [A, C, D]);
    StartWithOneInPlay(s2);
    ThreeInPlayResult(s3);
  }

  lemma FiveTeamsValid(s: SessionState)
    requires s.teams == [A, B, C, D, E] && s.inPlay == [] && s.score == Some(ZeroScore)
    ensures Valid(s)
  {
    assert s.teams + s.inPlay == [A, B, C, D, E];
  }

  lemma StartFromFive(s: SessionState)
    requires s.teams == [A, B, C, D, E] && s.inPlay == [] && s.score == Some(ZeroScore)
    ensures StartGame(s) == Ok(s.(teams := [C, D, E], inPlay := [A, B]))
  {
    assert [A, B, C, D, E][2..] == [C, D, E] && [A, B, C, D, E][..2] == [A, B];
    assert [] + [A, B] == [A, B];
  }

  lemma RemoveB(s: SessionState)
    requires s.teams == [C, D, E] && s.inPlay == [A, B]
    ensures RemoveTeam(s, "2") == s.(inPlay := [A])
  {
    WithoutMembers([C, D, E], "2");
    assert Without([A, B], "2") == [A] by {
      assert [A, B][1..] == [B] && [B][1..] == [];
      assert Without([], "2") == [];
      assert Without([B], "2") == [] + Without([], "2");
      assert [A] + [] == [A];
    }
  }

  lemma StartWithOneInPlay(s: SessionState)
    requires s.teams == [C, D, E] && s.inPlay == [A] && s.score == Some(ZeroScore)
    ensures StartGame(s) == Ok(s.(teams := [E], inPlay := [A, C, D]))
  {
    assert [C, D, E][2..] == [E] && [C, D, E][..2] == [C, D];
    assert [A] + [C, D] == [A, C, D];
  }

  /** Helper: A, C, D in play and E queued; A beats C. */
  lemma ThreeInPlayResult(s: SessionState)
    requires s.mode == Some(WinnerStaysOn) && s.inPlay == [A, C, D] && s.teams == [E]
    ensures RecordResult(s, Some("1"), Some("3"), false) == Ok(s.(teams := [C], inPlay := [A, E]))
  {
    assert Find(s.inPlay, "1") == Some(A);
    assert Find(s.inPlay, "3") == Some(C) by {
      assert [A, C, D][1..] == [C, D];
    }
    assert Refill([A], [E, C]) == ([A, E], [C]) by {
      assert [A] + [E] == [A, E] && [E, C][1..] == [C];
      assert Refill([A, E], [C]) == ([A, E], [C]);
    }
    assert [E] + [C] == [E, C];
  }
}
