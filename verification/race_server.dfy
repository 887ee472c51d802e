/**
 * The authoritative race-and-wager engine of server/index.js: one state
 * (two rosters and a phase string) and one handler per socket event, each
 * run to completion before the next. A handler is modelled as a pure
 * transition from a state to the next state plus the messages it emits.
 */
module RaceServer {
  import opened Options
  import opened StableSort
  import opened Roster
  import opened Odds
  import opened Settlement

  /** The tap handler's finish line. */
  const FinishLine: nat := 300

  /** `gameState`. There is no countdown phase: `start-race` enters `Racing` at once. */
  datatype Phase = Waiting | RacersLocked | Racing | Finished

  datatype State = State(players: seq<Racer>, bettors: seq<Bettor>, phase: Phase)

  const Initial: State := State([], [], Waiting)

  datatype Role = AsRacer | AsBettor

  /** Outbound socket.io events, by wire name. */
  datatype Event =
    | Joined(playerId: Id, color: Option<string>, role: Role)   // 'joined'
    | PlayersUpdate(racers: seq<Racer>)                          // 'players-update'
    | BettorsUpdate(roster: seq<Bettor>)                         // 'bettors-update'
    | LockedRacers(locked: seq<Racer>)                           // 'racers-locked'
    | RacersList(listed: seq<Racer>)                             // 'racers-list'
    | AllBetsConfirmed                                           // 'all-bets-confirmed'
    | PositionUpdate(racerId: Id, position: nat)                 // 'position-update'
    | OddsUpdate(odds: seq<OddsEntry>)                           // 'odds-update'
    | CountdownStart                                             // 'countdown-start'
    | RaceStarted                                                // 'race-started'
    | RaceFinished(winner: ResultEntry, results: seq<ResultEntry>, betResults: seq<BetResult>)
    | GameReset                                                  // 'game-reset'

  /** `io.emit` reaches everyone, `socket.emit` only the sender. */
  datatype Audience = Everyone | Sender(id: Id)

  datatype Message = Message(to: Audience, event: Event)

  /**
   * Inbound events. The host events carry no sender: the server does not
   * check who sends them. `CountdownElapsed` is the 3-second timer that
   * `start-race` schedules firing.
   */
  datatype Input =
    | Join(sender: Id, name: string, mode: string)
    | GetRacers(sender: Id)
    | PlaceBet(sender: Id, bets: Option<Wager>)
    | Tap(sender: Id)
    | StartRace
    | LockRacers
    | ResetGame
    | Disconnect(sender: Id)
    | CountdownElapsed

  datatype Outcome = Outcome(state: State, out: seq<Message>)

  function RacerPosition(r: Racer): int { r.position }

  function EntryPosition(e: ResultEntry): int { e.position }

  function ToEntry(r: Racer): ResultEntry { ResultEntry(r.id, r.name, r.position) }

  /**
   * The final ranking: the racers stably sorted by non-increasing position,
   * then projected to `{id, name, position}`.
   */
  function FinalResults(players: seq<Racer>): (r: seq<ResultEntry>)
    ensures |r| == |players|
    ensures SortedDesc(r, EntryPosition)
    ensures multiset(r) == multiset(MapSeq(players, ToEntry))
    ensures SameOrderPerKey(r, MapSeq(players, ToEntry), EntryPosition)
  {
    SortCommutesWithMap(players, ToEntry, RacerPosition, EntryPosition);
    MapSeq(SortDesc(players, RacerPosition), ToEntry)
  }

  /** Every racer back at the start line, nothing else touched. */
  function ZeroPositions(players: seq<Racer>): (r: seq<Racer>)
    ensures |r| == |players|
    ensures forall i :: 0 <= i < |r| ==> r[i] == players[i].(position := 0)
  {
    seq(|players|, i requires 0 <= i < |players| => players[i].(position := 0))
  }

  /** Every wager withdrawn and every confirmation cleared. */
  function ClearBets(bettors: seq<Bettor>): (r: seq<Bettor>)
    ensures |r| == |bettors|
    ensures forall i :: 0 <= i < |r| ==> r[i] == bettors[i].(bets := None, confirmed := false)
  {
    seq(|bettors|, i requires 0 <= i < |bettors| => bettors[i].(bets := None, confirmed := false))
  }

  predicate AllConfirmed(bettors: seq<Bettor>)
  {
    forall i :: 0 <= i < |bettors| ==> bettors[i].confirmed
  }

  /**
   * `join`: mode `'racer'` adds (or, for a socket already present, replaces
   * in place) a racer at position 0 coloured by the roster size; any other
   * mode adds a bettor with no wager. A bettor joining while the racers are
   * locked or racing is sent the racer roster.
   */
  function OnJoin(s: State, id: Id, name: string, mode: string): (r: Outcome)
    ensures r.state.phase == s.phase
    ensures mode == "racer" ==>
              && r.state.bettors == s.bettors
              && r.state.players == Upsert(s.players, RacerId, Racer(id, name, 0, ColorFor(|s.players|)))
              && Find(r.state.players, RacerId, id) == Some(Racer(id, name, 0, ColorFor(|s.players|)))
              && |r.state.players| == |s.players| + (if HasId(s.players, RacerId, id) then 0 else 1)
              && r.out == [Message(Sender(id), Joined(id, Some(ColorFor(|s.players|)), AsRacer)),
                           Message(Everyone, PlayersUpdate(r.state.players))]
    ensures mode != "racer" ==>
              && r.state.players == s.players
              && r.state.bettors == Upsert(s.bettors, BettorId, Bettor(id, name, None, false))
              && Find(r.state.bettors, BettorId, id) == Some(Bettor(id, name, None, false))
              && |r.state.bettors| == |s.bettors| + (if HasId(s.bettors, BettorId, id) then 0 else 1)
              && 2 <= |r.out| <= 3
              && r.out[..2] == [Message(Sender(id), Joined(id, None, AsBettor)),
                                Message(Everyone, BettorsUpdate(r.state.bettors))]
              && (|r.out| == 3 <==> s.phase == RacersLocked || s.phase == Racing)
              && (|r.out| == 3 ==> r.out[2] == Message(Sender(id), LockedRacers(s.players)))
    ensures UniqueIds(s.players, RacerId) ==> UniqueIds(r.state.players, RacerId)
    ensures UniqueIds(s.bettors, BettorId) ==> UniqueIds(r.state.bettors, BettorId)
  {
    if mode == "racer" then
      var racer := Racer(id, name, 0, ColorFor(|s.players|));
      var players := Upsert(s.players, RacerId, racer);
      FindAfterUpsert(s.players, RacerId, racer);
      Outcome(s.(players := players),
              [Message(Sender(id), Joined(id, Some(racer.color), AsRacer)), Message(Everyone, PlayersUpdate(players))])
    else
      var bettor := Bettor(id, name, None, false);
      var bettors := Upsert(s.bettors, BettorId, bettor);
      FindAfterUpsert(s.bettors, BettorId, bettor);
      var greeting := [Message(Sender(id), Joined(id, None, AsBettor)), Message(Everyone, BettorsUpdate(bettors))];
      var locked := if s.phase == RacersLocked || s.phase == Racing then [Message(Sender(id), LockedRacers(s.players))] else [];
      Outcome(s.(bettors := bettors), greeting + locked)
  }

  /** `get-racers`: the sender is sent the racer roster. */
  function OnGetRacers(s: State, id: Id): (r: Outcome)
    ensures r.state == s
    ensures r.out == [Message(Sender(id), RacersList(s.players))]
  {
    Outcome(s, [Message(Sender(id), RacersList(s.players))])
  }

  /**
   * `place-bet`: in every phase, a known bettor's payload is stored as it
   * came and the bettor marked confirmed; once every bettor is confirmed
   * everyone hears so. Unknown senders change nothing.
   */
  function OnPlaceBet(s: State, id: Id, bets: Option<Wager>): (r: Outcome)
    ensures r.state.players == s.players && r.state.phase == s.phase
    ensures !HasId(s.bettors, BettorId, id) ==> r == Outcome(s, [])
    ensures HasId(s.bettors, BettorId, id) ==>
              var i := IndexOf(s.bettors, BettorId, id).value;
              && |r.state.bettors| == |s.bettors|
              && r.state.bettors[i] == s.bettors[i].(bets := bets, confirmed := true)
              && (forall j :: 0 <= j < |s.bettors| && j != i ==> r.state.bettors[j] == s.bettors[j])
              && (r.out == [Message(Everyone, AllBetsConfirmed)] <==> AllConfirmed(r.state.bettors))
              && (r.out == [] <==> !AllConfirmed(r.state.bettors))
  {
    match IndexOf(s.bettors, BettorId, id)
    case None => Outcome(s, [])
    case Some(i) =>
      var bettors := s.bettors[i := s.bettors[i].(bets := bets, confirmed := true)];
      var out := if AllConfirmed(bettors) && |bettors| > 0 then [Message(Everyone, AllBetsConfirmed)] else [];
      Outcome(s.(bettors := bettors), out)
  }

  /** What a tap that crosses the finish line announces. */
  function Finish(players: seq<Racer>, bettors: seq<Bettor>): Message
    requires |players| > 0
  {
    var results := FinalResults(players);
    Message(Everyone, RaceFinished(results[0], results, Settle(bettors, results)))
  }

  /** What every accepted tap broadcasts: the racer's new position and the new odds. */
  function Progress(id: Id, position: nat, players: seq<Racer>): seq<Message>
  {
    [Message(Everyone, PositionUpdate(id, position)), Message(Everyone, OddsUpdate(CalculateOdds(players)))]
  }

  /** The roster after racer `i` has stepped forward once. */
  function Advance(players: seq<Racer>, i: nat): (r: seq<Racer>)
    requires i < |players|
    ensures |r| == |players|
    ensures r[i] == players[i].(position := players[i].position + 1)
    ensures forall j :: 0 <= j < |players| && j != i ==> r[j] == players[j]
  {
    players[i := players[i].(position := players[i].position + 1)]
  }

  /** An accepted tap by racer `i`, who is `id`: the step, the broadcasts and, at the line, the end of the race. */
  function Accepted(s: State, i: nat, id: Id): (r: Outcome)
    requires i < |s.players|
    ensures r.state.bettors == s.bettors
    ensures r.state.players == Advance(s.players, i)
    ensures r.state.players[i].position >= FinishLine ==>
              r.state.phase == Finished
              && r.out == Progress(id, r.state.players[i].position, r.state.players) + [Finish(r.state.players, s.bettors)]
    ensures r.state.players[i].position < FinishLine ==>
              r.state.phase == s.phase && r.out == Progress(id, r.state.players[i].position, r.state.players)
  {
    var players := Advance(s.players, i);
    var moved := players[i].position;
    if moved >= FinishLine then
      Outcome(State(players, s.bettors, Finished), Progress(id, moved, players) + [Finish(players, s.bettors)])
    else
      Outcome(s.(players := players), Progress(id, moved, players))
  }

  /**
   * `tap`: only while racing and only from a known racer. That racer moves
   * up by one, the new position and the odds are broadcast, and the first
   * racer to reach the finish line ends the race with the ranking and the
   * settlement in one message.
   */
  function OnTap(s: State, id: Id): (r: Outcome)
    ensures s.phase != Racing || !HasId(s.players, RacerId, id) ==> r == Outcome(s, [])
    ensures s.phase == Racing && HasId(s.players, RacerId, id) ==>
              var i := IndexOf(s.players, RacerId, id).value;
              var moved := s.players[i].position + 1;
              && r.state.bettors == s.bettors
              && r.state.players == Advance(s.players, i)
              && r.state.players[i].position == moved
              && (moved >= FinishLine ==>
                    r.state.phase == Finished
                    && r.out == Progress(id, moved, r.state.players) + [Finish(r.state.players, s.bettors)])
              && (moved < FinishLine ==>
                    r.state.phase == Racing && r.out == Progress(id, moved, r.state.players))
  {
    if s.phase != Racing then Outcome(s, [])
    else
      match IndexOf(s.players, RacerId, id)
      case None => Outcome(s, [])
      case Some(i) => Accepted(s, i, id)
  }

  /**
   * `start-race`: from `waiting` or `racersLocked` with at least one racer,
   * every position goes back to 0, the phase becomes `racing` and the
   * countdown is announced. Otherwise nothing happens.
   */
  function OnStartRace(s: State): (r: Outcome)
    ensures (s.phase == Waiting || s.phase == RacersLocked) && |s.players| > 0 ==>
              && r.state.phase == Racing
              && r.state.bettors == s.bettors
              && |r.state.players| == |s.players|
              && (forall i :: 0 <= i < |s.players| ==> r.state.players[i] == s.players[i].(position := 0))
              && r.out == [Message(Everyone, CountdownStart)]
    ensures !((s.phase == Waiting || s.phase == RacersLocked) && |s.players| > 0) ==> r == Outcome(s, [])
  {
    if (s.phase == Waiting || s.phase == RacersLocked) && |s.players| > 0 then
      Outcome(State(ZeroPositions(s.players), s.bettors, Racing), [Message(Everyone, CountdownStart)])
    else
      Outcome(s, [])
  }

  /** The countdown timer fires: `race-started` goes out whatever the phase is by then. */
  function OnCountdownElapsed(s: State): (r: Outcome)
    ensures r.state == s
    ensures r.out == [Message(Everyone, RaceStarted)]
  {
    Outcome(s, [Message(Everyone, RaceStarted)])
  }

  /** `lock-racers`: only from `waiting`; everyone is sent the racer roster. */
  function OnLockRacers(s: State): (r: Outcome)
    ensures s.phase == Waiting ==>
              r.state == s.(phase := RacersLocked) && r.out == [Message(Everyone, LockedRacers(s.players))]
    ensures s.phase != Waiting ==> r == Outcome(s, [])
  {
    if s.phase == Waiting then
      Outcome(s.(phase := RacersLocked), [Message(Everyone, LockedRacers(s.players))])
    else
      Outcome(s, [])
  }

  /**
   * `reset-game`, from any phase: back to `waiting`, every racer at 0, every
   * wager withdrawn and unconfirmed; rosters keep their members and order.
   */
  function OnResetGame(s: State): (r: Outcome)
    ensures r.state.phase == Waiting
    ensures |r.state.players| == |s.players| && |r.state.bettors| == |s.bettors|
    ensures forall i :: 0 <= i < |s.players| ==> r.state.players[i] == s.players[i].(position := 0)
    ensures forall i :: 0 <= i < |s.bettors| ==> r.state.bettors[i] == s.bettors[i].(bets := None, confirmed := false)
    ensures r.out == [Message(Everyone, GameReset), Message(Everyone, PlayersUpdate(r.state.players))]
  {
    var players := ZeroPositions(s.players);
    Outcome(State(players, ClearBets(s.bettors), Waiting),
            [Message(Everyone, GameReset), Message(Everyone, PlayersUpdate(players))])
  }

  /**
   * `disconnect`: the id leaves both rosters; each roster it actually left
   * is re-broadcast. An unknown id changes nothing and emits nothing.
   */
  function OnDisconnect(s: State, id: Id): (r: Outcome)
    ensures r.state.phase == s.phase
    ensures r.state.players == Remove(s.players, RacerId, id)
    ensures r.state.bettors == Remove(s.bettors, BettorId, id)
    ensures !HasId(s.players, RacerId, id) && !HasId(s.bettors, BettorId, id) ==> r == Outcome(s, [])
    ensures UniqueIds(s.players, RacerId) ==>
              UniqueIds(r.state.players, RacerId) && !HasId(r.state.players, RacerId, id)
    ensures UniqueIds(s.bettors, BettorId) ==>
              UniqueIds(r.state.bettors, BettorId) && !HasId(r.state.bettors, BettorId, id)
    ensures forall x :: x in r.state.players ==> x in s.players
    ensures forall x :: x in r.state.bettors ==> x in s.bettors
    ensures |r.state.players| == |s.players| - (if HasId(s.players, RacerId, id) then 1 else 0)
    ensures |r.state.bettors| == |s.bettors| - (if HasId(s.bettors, BettorId, id) then 1 else 0)
    ensures r.out == (if HasId(s.players, RacerId, id) then [Message(Everyone, PlayersUpdate(r.state.players))] else [])
                     + (if HasId(s.bettors, BettorId, id) then [Message(Everyone, BettorsUpdate(r.state.bettors))] else [])
  {
    var players := Remove(s.players, RacerId, id);
    var bettors := Remove(s.bettors, BettorId, id);
    var racerLeft := if HasId(s.players, RacerId, id) then [Message(Everyone, PlayersUpdate(players))] else [];
    var bettorLeft := if HasId(s.bettors, BettorId, id) then [Message(Everyone, BettorsUpdate(bettors))] else [];
    Outcome(State(players, bettors, s.phase), racerLeft + bettorLeft)
  }

  /** One event, handled to completion. */
  function Step(s: State, e: Input): Outcome
  {
    match e
    case Join(id, name, mode) => OnJoin(s, id, name, mode)
    case GetRacers(id) => OnGetRacers(s, id)
    case PlaceBet(id, bets) => OnPlaceBet(s, id, bets)
    case Tap(id) => OnTap(s, id)
    case StartRace => OnStartRace(s)
    case LockRacers => OnLockRacers(s)
    case ResetGame => OnResetGame(s)
    case Disconnect(id) => OnDisconnect(s, id)
    case CountdownElapsed => OnCountdownElapsed(s)
  }

  /** A sequence of events handled one after the other; the messages in emission order. */
  function Run(s: State, inputs: seq<Input>): Outcome
    decreases |inputs|
  {
    if |inputs| == 0 then Outcome(s, [])
    else
      var first := Step(s, inputs[0]);
      var rest := Run(first.state, inputs[1..]);
      Outcome(rest.state, first.out + rest.out)
  }
}
