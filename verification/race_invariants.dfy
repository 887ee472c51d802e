/**
 * Properties of the server's event handling across events: the invariant
 * every handler keeps, finish-line atomicity, tap counting and the
 * idempotence of `reset-game`.
 */
module RaceInvariants {
  import opened Options
  import opened StableSort
  import opened Roster
  import opened Settlement
  import opened RaceServer

  /**
   * Ids are unique in each roster (they are `Map` keys), and while a race
   * is on nobody has reached the finish line yet.
   */
  predicate WellFormed(s: State)
  {
    && UniqueIds(s.players, RacerId)
    && UniqueIds(s.bettors, BettorId)
    && (s.phase == Racing ==> forall i :: 0 <= i < |s.players| ==> s.players[i].position < FinishLine)
  }

  lemma InitialWellFormed()
    ensures WellFormed(Initial)
  {
  }

  /** A joining racer starts at 0, so the racers stay short of the line. */
  lemma JoinKeepsWellFormed(s: State, id: Id, name: string, mode: string)
    requires WellFormed(s)
    ensures WellFormed(OnJoin(s, id, name, mode).state)
  {
    var r := OnJoin(s, id, name, mode);
    if mode == "racer" && s.phase == Racing {
      var racer := Racer(id, name, 0, ColorFor(|s.players|));
      assert r.state.players == Upsert(s.players, RacerId, racer);
      forall i | 0 <= i < |r.state.players| ensures r.state.players[i].position < FinishLine {
        if i < |s.players| && r.state.players[i] != s.players[i] {
          assert r.state.players[i] == racer;
        } else if i >= |s.players| {
          assert r.state.players == s.players + [racer];
        }
      }
    }
  }

  /** A tap either keeps the mover short of the line or ends the race. */
  lemma TapKeepsWellFormed(s: State, id: Id)
    requires WellFormed(s)
    ensures WellFormed(OnTap(s, id).state)
  {
    if s.phase == Racing && HasId(s.players, RacerId, id) {
      var i := IndexOf(s.players, RacerId, id).value;
      var a := Accepted(s, i, id);
      assert OnTap(s, id) == a;
      var players := a.state.players;
      assert forall j :: 0 <= j < |players| ==> players[j].id == s.players[j].id;
      if players[i].position < FinishLine {
        forall j | 0 <= j < |players| ensures players[j].position < FinishLine {
          if j != i {
            assert players[j] == s.players[j];
          }
        }
      }
    }
  }

  lemma PlaceBetKeepsWellFormed(s: State, id: Id, bets: Option<Wager>)
    requires WellFormed(s)
    ensures WellFormed(OnPlaceBet(s, id, bets).state)
  {
    var r := OnPlaceBet(s, id, bets);
    assert forall j :: 0 <= j < |r.state.bettors| ==> r.state.bettors[j].id == s.bettors[j].id;
  }

  lemma DisconnectKeepsWellFormed(s: State, id: Id)
    requires WellFormed(s)
    ensures WellFormed(OnDisconnect(s, id).state)
  {
    var r := OnDisconnect(s, id);
    if s.phase == Racing {
      forall i | 0 <= i < |r.state.players| ensures r.state.players[i].position < FinishLine {
        assert r.state.players[i] in s.players;
      }
    }
  }

  /** Every handler keeps the invariant. */
  lemma StepKeepsWellFormed(s: State, e: Input)
    requires WellFormed(s)
    ensures WellFormed(Step(s, e).state)
  {
    match e
    case Join(id, name, mode) => JoinKeepsWellFormed(s, id, name, mode);
    case GetRacers(id) =>
    case PlaceBet(id, bets) => PlaceBetKeepsWellFormed(s, id, bets);
    case Tap(id) => TapKeepsWellFormed(s, id);
    case StartRace =>
      var r := OnStartRace(s);
      assert forall j :: 0 <= j < |r.state.players| ==> r.state.players[j].id == s.players[j].id;
    case LockRacers =>
    case ResetGame =>
      var r := OnResetGame(s);
      assert forall j :: 0 <= j < |r.state.players| ==> r.state.players[j].id == s.players[j].id;
      assert forall j :: 0 <= j < |r.state.bettors| ==> r.state.bettors[j].id == s.bettors[j].id;
    case Disconnect(id) => DisconnectKeepsWellFormed(s, id);
    case CountdownElapsed =>
  }

  /** Invariant across any run of events. */
  lemma {:induction false} RunKeepsWellFormed(s: State, inputs: seq<Input>)
    requires WellFormed(s)
    ensures WellFormed(Run(s, inputs).state)
    decreases |inputs|
  {
    if |inputs| > 0 {
      StepKeepsWellFormed(s, inputs[0]);
      RunKeepsWellFormed(Step(s, inputs[0]).state, inputs[1..]);
    }
  }

  /** How many `race-finished` messages a list of messages holds. */
  function Finishes(out: seq<Message>): nat
    decreases |out|
  {
    if |out| == 0 then 0
    else (if out[0].event.RaceFinished? then 1 else 0) + Finishes(out[1..])
  }

  lemma {:induction false} FinishesAppend(a: seq<Message>, b: seq<Message>)
    ensures Finishes(a + b) == Finishes(a) + Finishes(b)
    decreases |a|
  {
    if |a| > 0 {
      assert (a + b)[1..] == a[1..] + b;
      FinishesAppend(a[1..], b);
    } else {
      assert a + b == b;
    }
  }

  lemma {:induction false} NoFinishes(out: seq<Message>)
    requires forall k :: 0 <= k < |out| ==> !out[k].event.RaceFinished?
    ensures Finishes(out) == 0
    decreases |out|
  {
    if |out| > 0 {
      NoFinishes(out[1..]);
    }
  }

  /** An accepted tap that stays short of the line announces no finish. */
  lemma TapShortOfLine(id: Id, position: nat, players: seq<Racer>)
    ensures Finishes(Progress(id, position, players)) == 0
  {
    NoFinishes(Progress(id, position, players));
  }

  /** An accepted tap that reaches the line announces exactly one finish. */
  lemma TapAtLine(id: Id, position: nat, players: seq<Racer>, bettors: seq<Bettor>)
    requires |players| > 0
    ensures Finishes(Progress(id, position, players) + [Finish(players, bettors)]) == 1
  {
    var live := Progress(id, position, players);
    TapShortOfLine(id, position, players);
    FinishesAppend(live, [Finish(players, bettors)]);
    assert Finishes([Finish(players, bettors)]) == 1 by {
      assert [Finish(players, bettors)][1..] == [];
    }
  }

  /** A tap announces a finish exactly when it moves the phase from `racing` to `finished`. */
  lemma TapFinishes(s: State, id: Id)
    ensures Finishes(OnTap(s, id).out) == (if OnTap(s, id).state.phase == Finished && s.phase == Racing then 1 else 0)
  {
    if s.phase == Racing && HasId(s.players, RacerId, id) {
      var i := IndexOf(s.players, RacerId, id).value;
      var a := Accepted(s, i, id);
      assert OnTap(s, id) == a;
      var moved := a.state.players[i].position;
      if moved >= FinishLine {
        TapAtLine(id, moved, a.state.players, s.bettors);
      } else {
        TapShortOfLine(id, moved, a.state.players);
      }
    } else {
      assert OnTap(s, id).out == [];
    }
  }

  /**
   * One event announces the end of a race at most once, and only the tap
   * that moves the phase from `racing` to `finished` does.
   */
  lemma StepFinishesAtMostOnce(s: State, e: Input)
    ensures Finishes(Step(s, e).out) <= 1
    ensures Finishes(Step(s, e).out) == 1 ==>
              e.Tap? && s.phase == Racing && Step(s, e).state.phase == Finished
  {
    if e.Tap? {
      assert Step(s, e) == OnTap(s, e.sender);
      TapFinishes(s, e.sender);
    } else {
      QuietHandlers(s, e);
    }
  }

  /** Only `tap` can announce a finish. */
  lemma QuietHandlers(s: State, e: Input)
    requires !e.Tap?
    ensures Finishes(Step(s, e).out) == 0
  {
    match e
    case Join(id, name, mode) => JoinQuiet(s, id, name, mode);
    case GetRacers(id) => NoFinishes(OnGetRacers(s, id).out);
    case PlaceBet(id, bets) => NoFinishes(OnPlaceBet(s, id, bets).out);
    case StartRace => NoFinishes(OnStartRace(s).out);
    case LockRacers => NoFinishes(OnLockRacers(s).out);
    case ResetGame => NoFinishes(OnResetGame(s).out);
    case Disconnect(id) => DisconnectQuiet(s, id);
    case CountdownElapsed => NoFinishes(OnCountdownElapsed(s).out);
  }

  /** `join` emits only `joined`, roster updates and `racers-locked`, so no `race-finished`. */
  lemma JoinQuiet(s: State, id: Id, name: string, mode: string)
    ensures var out := OnJoin(s, id, name, mode).out;
            forall k :: 0 <= k < |out| ==>
              out[k].event.Joined? || out[k].event.PlayersUpdate? || out[k].event.BettorsUpdate? || out[k].event.LockedRacers?
    ensures Finishes(OnJoin(s, id, name, mode).out) == 0
  {
    var out := OnJoin(s, id, name, mode).out;
    assert forall k :: 0 <= k < |out| ==> out[k].event.Joined? || out[k].event.PlayersUpdate?
                                          || out[k].event.BettorsUpdate? || out[k].event.LockedRacers?;
    NoFinishes(out);
  }

  /** `disconnect` emits only roster updates, so no `race-finished`. */
  lemma DisconnectQuiet(s: State, id: Id)
    ensures var out := OnDisconnect(s, id).out;
            forall k :: 0 <= k < |out| ==> out[k].event.PlayersUpdate? || out[k].event.BettorsUpdate?
    ensures Finishes(OnDisconnect(s, id).out) == 0
  {
    var out := OnDisconnect(s, id).out;
    assert forall k :: 0 <= k < |out| ==> out[k].event.PlayersUpdate? || out[k].event.BettorsUpdate?;
    NoFinishes(out);
  }

  /** Once finished, only `reset-game` leaves `finished`. */
  lemma FinishedIsSticky(s: State, e: Input)
    requires s.phase == Finished && !e.ResetGame?
    ensures Step(s, e).state.phase == Finished
  {
  }

  /**
   * Between two resets at most one `race-finished` goes out, and none at
   * all once the race is already over.
   */
  lemma {:induction false} AtMostOneFinishPerRace(s: State, inputs: seq<Input>)
    requires forall k :: 0 <= k < |inputs| ==> !inputs[k].ResetGame?
    ensures Finishes(Run(s, inputs).out) <= 1
    ensures s.phase == Finished ==> Finishes(Run(s, inputs).out) == 0
    decreases |inputs|
  {
    if |inputs| > 0 {
      var first := Step(s, inputs[0]);
      StepFinishesAtMostOnce(s, inputs[0]);
      AtMostOneFinishPerRace(first.state, inputs[1..]);
      FinishesAppend(first.out, Run(first.state, inputs[1..]).out);
      if s.phase == Finished {
        FinishedIsSticky(s, inputs[0]);
      }
      if Finishes(first.out) == 1 {
        assert first.state.phase == Finished;
      } else if s.phase != Finished && first.state.phase == Finished {
        assert Finishes(Run(first.state, inputs[1..]).out) == 0;
      }
    }
  }

  /** In a non-increasing ranking nothing is ahead of the head. */
  lemma HeadIsHighest(results: seq<ResultEntry>, k: nat)
    requires SortedDesc(results, EntryPosition) && k < |results|
    ensures results[0].position >= results[k].position
  {
    if k > 0 {
      assert EntryPosition(results[0]) >= EntryPosition(results[k]);
    }
  }

  /** A racer alone at or past the line heads the final ranking. */
  lemma LeaderHeadsResults(players: seq<Racer>, i: nat)
    requires i < |players| && players[i].position >= FinishLine
    requires forall m :: 0 <= m < |players| && m != i ==> players[m].position < FinishLine
    ensures FinalResults(players)[0] == ToEntry(players[i])
  {
    var results := FinalResults(players);
    var entries := MapSeq(players, ToEntry);
    var k := PermutationIndex(entries, results, i);
    HeadIsHighest(results, k);
    var j := PermutationIndex(results, entries, 0);
    assert players[j].position >= FinishLine;
  }

  /** Where an element of one permutation sits in the other. */
  lemma PermutationIndex<T>(a: seq<T>, b: seq<T>, k: nat) returns (j: nat)
    requires multiset(a) == multiset(b) && k < |a|
    ensures j < |b| && b[j] == a[k]
  {
    assert a[k] in multiset(b);
    j :| 0 <= j < |b| && b[j] == a[k];
  }

  /** A tap announces a finish exactly when a known racer one step short of the line taps during a race. */
  lemma FinishIffTapAtLine(s: State, id: Id)
    ensures Finishes(Step(s, Tap(id)).out) == 1 <==>
              s.phase == Racing && HasId(s.players, RacerId, id)
              && Find(s.players, RacerId, id).value.position + 1 >= FinishLine
  {
    assert Step(s, Tap(id)) == OnTap(s, id);
    TapFinishes(s, id);
    if s.phase == Racing && HasId(s.players, RacerId, id) {
      var i := IndexOf(s.players, RacerId, id).value;
      assert Step(s, Tap(id)) == Accepted(s, i, id);
    }
  }

  /**
   * The message that ends a race names the tapping racer as winner, at
   * exactly the finish line, and carries the full ranking and its settlement.
   */
  lemma WinnerIsFinishingTapper(s: State, id: Id, i: nat)
    requires WellFormed(s) && s.phase == Racing
    requires i < |s.players| && s.players[i].id == id && s.players[i].position + 1 >= FinishLine
    ensures var r := Step(s, Tap(id));
            && Finishes(r.out) == 1
            && r.state.phase == Finished
            && |r.out| == 3
            && r.out[2].event.RaceFinished?
            && r.out[2].event.winner == ResultEntry(id, r.out[2].event.winner.name, FinishLine)
            && r.out[2].event.results == FinalResults(r.state.players)
            && r.out[2].event.winner == r.out[2].event.results[0]
            && r.out[2].event.betResults == Settle(s.bettors, r.out[2].event.results)
  {
    IndexOfUnique(s.players, RacerId, id, i);
    var r := Step(s, Tap(id));
    assert r == Accepted(s, i, id);
    var players := r.state.players;
    assert players[i].position == FinishLine;
    TapAtLine(id, FinishLine, players, s.bettors);
    assert forall m :: 0 <= m < |players| && m != i ==> players[m].position < FinishLine by {
      forall m | 0 <= m < |players| && m != i ensures players[m].position < FinishLine {
        assert players[m] == s.players[m];
      }
    }
    LeaderHeadsResults(players, i);
  }

  /** How many taps `inputs` holds from the given racer. */
  function TapsBy(inputs: seq<Input>, id: Id): nat
    decreases |inputs|
  {
    if |inputs| == 0 then 0
    else (if inputs[0] == Tap(id) then 1 else 0) + TapsBy(inputs[1..], id)
  }

  /** One tap during a race that it does not end moves its sender alone, by one. */
  lemma TapMovesOnlySender(s: State, id: Id)
    requires UniqueIds(s.players, RacerId) && s.phase == Racing
    requires forall i :: 0 <= i < |s.players| && s.players[i].id == id ==> s.players[i].position + 1 < FinishLine
    ensures var t := Step(s, Tap(id)).state;
            && t.phase == Racing
            && t.bettors == s.bettors
            && |t.players| == |s.players|
            && forall i :: 0 <= i < |s.players| ==>
                 t.players[i] == s.players[i].(position := s.players[i].position + (if s.players[i].id == id then 1 else 0))
  {
    var t := Step(s, Tap(id)).state;
    if HasId(s.players, RacerId, id) {
      var j := IndexOf(s.players, RacerId, id).value;
      assert Step(s, Tap(id)) == Accepted(s, j, id);
      forall i | 0 <= i < |s.players|
        ensures t.players[i] == s.players[i].(position := s.players[i].position + (if s.players[i].id == id then 1 else 0))
      {
        if i != j {
          assert s.players[i].id != id;
        }
      }
    }
  }

  /**
   * No batching and no loss: during a race that nobody finishes, every racer
   * ends exactly as many steps ahead as the taps it sent, and nothing else
   * in the state moves.
   */
  lemma {:induction false} PositionsCountTaps(s: State, inputs: seq<Input>)
    requires WellFormed(s) && s.phase == Racing
    requires forall k :: 0 <= k < |inputs| ==> inputs[k].Tap?
    requires forall i :: 0 <= i < |s.players| ==> s.players[i].position + TapsBy(inputs, s.players[i].id) < FinishLine
    ensures var t := Run(s, inputs).state;
            && t.phase == Racing
            && t.bettors == s.bettors
            && |t.players| == |s.players|
            && forall i :: 0 <= i < |s.players| ==>
                 t.players[i] == s.players[i].(position := s.players[i].position + TapsBy(inputs, s.players[i].id))
    decreases |inputs|
  {
    if |inputs| > 0 {
      var id := inputs[0].sender;
      var rest := inputs[1..];
      assert inputs[0] == Tap(id);
      var first := Step(s, Tap(id));
      var next := first.state;
      TapsByFirst(inputs, id);
      TapMovesOnlySender(s, id);
      StepKeepsWellFormed(s, Tap(id));
      PositionsCountTaps(next, rest);
      assert Run(s, inputs) == Outcome(Run(next, rest).state, first.out + Run(next, rest).out);
    }
  }

  lemma TapsByFirst(inputs: seq<Input>, id: Id)
    requires |inputs| > 0 && inputs[0] == Tap(id)
    ensures forall x :: TapsBy(inputs, x) == (if x == id then 1 else 0) + TapsBy(inputs[1..], x)
  {
  }

  /** Resetting twice is resetting once, messages included. */
  lemma ResetIsIdempotent(s: State)
    ensures Step(Step(s, ResetGame).state, ResetGame) == Step(s, ResetGame)
  {
    var once := Step(s, ResetGame);
    var twice := Step(once.state, ResetGame);
    assert twice.state.players == once.state.players;
    assert twice.state.bettors == once.state.bettors;
  }
}
