/**
 * The bettor's side of public/scripts/mobile.js: choosing up to three
 * racers in order plus an optional last-place racer by tapping cards,
 * building the `place-bet` payload, and marking which picks came true.
 */
module BetSlip {
  import opened Options
  import opened Roster
  import opened Settlement

  /** The racer a betting card shows (`{id, name, color}`). */
  datatype Card = Card(id: Id, name: string, color: string)

  /** Which of the two card grids a tap landed on. */
  datatype Grid = Top3Grid | LastGrid

  /** `selectedTop3` (in pick order) and `selectedLast`. */
  datatype Selection = Selection(top3: seq<Card>, last: Option<Card>)

  const Empty: Selection := Selection([], None)

  function CardId(c: Card): Id { c.id }

  /** A racer is picked when some card of the top-3 list carries its id. */
  predicate Picked(top3: seq<Card>, id: Id)
  {
    HasId(top3, CardId, id)
  }

  /**
   * What the selection rules keep true: at most three ordered picks, no
   * racer twice, and the last-place pick not among them.
   */
  predicate Valid(sel: Selection)
  {
    && |sel.top3| <= 3
    && UniqueIds(sel.top3, CardId)
    && (sel.last.Some? ==> !Picked(sel.top3, sel.last.value.id))
  }

  /** `findIndex(s => s.id === id)`. */
  function FindIndex(top3: seq<Card>, id: Id): (r: Option<nat>)
    ensures r.None? <==> !Picked(top3, id)
    ensures r.Some? ==> r.value < |top3| && top3[r.value].id == id
    ensures r.Some? ==> forall j :: 0 <= j < r.value ==> top3[j].id != id
  {
    IndexOf(top3, CardId, id)
  }

  /**
   * A tap on the top-3 grid: a picked racer is un-picked with the others
   * kept in order; otherwise it is appended unless three are already picked
   * or it is the last-place pick.
   */
  function ChooseTop3(sel: Selection, racer: Card): (r: Selection)
    ensures r.last == sel.last
    ensures Valid(sel) ==> Valid(r)
    ensures Picked(sel.top3, racer.id) ==>
              var i := FindIndex(sel.top3, racer.id).value;
              r.top3 == sel.top3[..i] + sel.top3[i + 1..]
    ensures !Picked(sel.top3, racer.id) ==>
              if |sel.top3| >= 3 || (sel.last.Some? && sel.last.value.id == racer.id) then r == sel
              else r.top3 == sel.top3 + [racer]
  {
    if Picked(sel.top3, racer.id) then
      var rest := Remove(sel.top3, CardId, racer.id);
      assert Valid(sel) ==> Valid(sel.(top3 := rest)) by {
        if Valid(sel) {
          UnpickValid(sel, racer.id);
        }
      }
      sel.(top3 := rest)
    else if |sel.top3| >= 3 then sel
    else if sel.last.Some? && sel.last.value.id == racer.id then sel
    else
      assert Valid(sel) ==> Valid(sel.(top3 := sel.top3 + [racer])) by {
        if Valid(sel) {
          PickValid(sel, racer);
        }
      }
      sel.(top3 := sel.top3 + [racer])
  }

  /** Un-picking keeps the rules. */
  lemma UnpickValid(sel: Selection, id: Id)
    requires Valid(sel)
    ensures Valid(sel.(top3 := Remove(sel.top3, CardId, id)))
  {
    var rest := Remove(sel.top3, CardId, id);
    if sel.last.Some? {
      forall k | 0 <= k < |rest| ensures rest[k].id != sel.last.value.id {
        assert rest[k] in sel.top3;
      }
    }
  }

  /** With room left, picking a racer that is neither picked nor the last pick keeps the rules. */
  lemma PickValid(sel: Selection, racer: Card)
    requires Valid(sel) && |sel.top3| < 3 && !Picked(sel.top3, racer.id)
    requires !(sel.last.Some? && sel.last.value.id == racer.id)
    ensures Valid(sel.(top3 := sel.top3 + [racer]))
  {
    var more := sel.top3 + [racer];
    assert forall k :: 0 <= k < |sel.top3| ==> more[k] == sel.top3[k];
  }

  /**
   * A tap on the last-place grid: the current pick is cleared by tapping it
   * again; another racer replaces it unless it is among the top three.
   */
  function ChooseLast(sel: Selection, racer: Card): (r: Selection)
    ensures r.top3 == sel.top3
    ensures Valid(sel) ==> Valid(r)
    ensures if sel.last.Some? && sel.last.value.id == racer.id then r.last == None
            else if Picked(sel.top3, racer.id) then r == sel
            else r.last == Some(racer)
  {
    if sel.last.Some? && sel.last.value.id == racer.id then sel.(last := None)
    else if Picked(sel.top3, racer.id) then sel
    else sel.(last := Some(racer))
  }

  /**
   * `handleCardSelection(racer, card, type)`: the selection rules (at most
   * three picks, no racer twice, the last pick apart) survive every tap.
   */
  function Choose(sel: Selection, racer: Card, grid: Grid): (r: Selection)
    ensures Valid(sel) ==> Valid(r)
    ensures grid == Top3Grid ==> r == ChooseTop3(sel, racer)
    ensures grid == LastGrid ==> r == ChooseLast(sel, racer)
  {
    match grid
    case Top3Grid => ChooseTop3(sel, racer)
    case LastGrid => ChooseLast(sel, racer)
  }

  /** Tapping a racer onto the top-3 list and tapping it again gives the old selection back. */
  lemma AddThenRemoveTop3(sel: Selection, racer: Card)
    requires Valid(sel)
    requires Choose(sel, racer, Top3Grid).top3 == sel.top3 + [racer]
    ensures Choose(Choose(sel, racer, Top3Grid), racer, Top3Grid) == sel
  {
    var n := |sel.top3|;
    var once := ChooseTop3(sel, racer);
    assert |once.top3| == n + 1;
    assert !Picked(sel.top3, racer.id);
    assert once == sel.(top3 := sel.top3 + [racer]);
    assert forall j :: 0 <= j < n ==> once.top3[j] == sel.top3[j];
    IndexOfFirst(once.top3, CardId, racer.id, n);
    var twice := ChooseTop3(once, racer);
    assert twice.top3 == once.top3[..n] + once.top3[n + 1..];
    assert once.top3[..n] == sel.top3;
  }

  /** Picking a last-place racer and tapping it again gives the old selection back. */
  lemma SetThenClearLast(sel: Selection, racer: Card)
    requires sel.last.None?
    requires Choose(sel, racer, LastGrid) != sel
    ensures Choose(sel, racer, LastGrid).last == Some(racer)
    ensures Choose(Choose(sel, racer, LastGrid), racer, LastGrid) == sel
  {
  }

  /** `updateConfirmButton`: confirming is disabled while nothing at all is picked. */
  predicate ConfirmDisabled(sel: Selection)
  {
    |sel.top3| == 0 && sel.last.None?
  }

  /** The payload of the confirm button: the ids in pick order and the last pick's id or null. */
  function Payload(sel: Selection): (w: Wager)
    ensures |w.top3| == |sel.top3|
    ensures forall k :: 0 <= k < |w.top3| ==> w.top3[k] == sel.top3[k].id
    ensures w.last.Some? <==> sel.last.Some?
    ensures w.last.Some? ==> w.last.value == sel.last.value.id
  {
    var last := match sel.last case Some(c) => Some(c.id) case None => None;
    Wager(seq(|sel.top3|, k requires 0 <= k < |sel.top3| => sel.top3[k].id), last)
  }

  /** A payload obeys the wager shape: at most three distinct picks, the last one apart. */
  predicate WellShaped(w: Wager)
  {
    && |w.top3| <= 3
    && (forall i, j :: 0 <= i < j < |w.top3| ==> w.top3[i] != w.top3[j])
    && (w.last.Some? ==> w.last.value !in w.top3)
  }

  /** Well-shaped picks are a list with unique ids in the roster sense, the last pick not among them. */
  lemma WellShapedIsUniqueIds(w: Wager)
    ensures WellShaped(w) <==>
              && |w.top3| <= 3
              && UniqueIds(w.top3, SameId)
              && (w.last.Some? ==> !HasId(w.top3, SameId, w.last.value))
  {
    if w.last.Some? && HasId(w.top3, SameId, w.last.value) {
      var k :| 0 <= k < |w.top3| && SameId(w.top3[k]) == w.last.value;
      assert w.top3[k] == w.last.value;
    }
  }

  /** An id as its own key. */
  function SameId(x: Id): Id { x }

  /**
   * A selection the rules produced always yields a well-shaped wager, and
   * the button is disabled exactly when the wager would be empty.
   */
  lemma PayloadOfValidSelection(sel: Selection)
    requires Valid(sel)
    ensures WellShaped(Payload(sel))
    ensures ConfirmDisabled(sel) <==> Payload(sel) == Wager([], None)
  {
    var w := Payload(sel);
    if sel.last.Some? {
      forall k | 0 <= k < |w.top3| ensures w.top3[k] != w.last.value {
        assert sel.top3[k].id != sel.last.value.id;
      }
    }
  }

  /**
   * The betting screen: the selection plus the confirm button's `disabled`
   * flag, which is page state of its own and changes only when
   * `updateConfirmButton` runs.
   */
  datatype Slip = Slip(sel: Selection, confirmDisabled: bool)

  /** The button shows what `updateConfirmButton` would compute from the selection. */
  predicate InSync(p: Slip)
  {
    p.confirmDisabled == ConfirmDisabled(p.sel)
  }

  /** The taps `handleCardSelection` turns away with an early `return`, before the button is refreshed. */
  predicate Refused(sel: Selection, racer: Card, grid: Grid)
  {
    match grid
    case Top3Grid =>
      !Picked(sel.top3, racer.id) && (|sel.top3| >= 3 || (sel.last.Some? && sel.last.value.id == racer.id))
    case LastGrid =>
      !(sel.last.Some? && sel.last.value.id == racer.id) && Picked(sel.top3, racer.id)
  }

  /**
   * `handleCardSelection` with its trailing `updateConfirmButton`: a refused
   * tap leaves the screen as it was; any other tap changes the selection and
   * brings the button in step with it.
   */
  function TapCard(p: Slip, racer: Card, grid: Grid): (r: Slip)
    ensures r.sel == Choose(p.sel, racer, grid)
    ensures Refused(p.sel, racer, grid) ==> r == p
    ensures !Refused(p.sel, racer, grid) ==> InSync(r)
    ensures InSync(p) ==> InSync(r)
    ensures Valid(p.sel) ==> Valid(r.sel)
  {
    var sel := Choose(p.sel, racer, grid);
    if Refused(p.sel, racer, grid) then p else Slip(sel, ConfirmDisabled(sel))
  }

  /** A click on the confirm button: nothing while it is disabled, otherwise the `place-bet` payload. */
  function Confirm(p: Slip): (r: Option<Wager>)
    ensures r.None? <==> p.confirmDisabled
    ensures r.Some? ==> r.value == Payload(p.sel)
  {
    if p.confirmDisabled then None else Some(Payload(p.sel))
  }

  /**
   * `game-reset` as the phone handles it: the selection is emptied, but the
   * button is not refreshed and keeps whatever state it had.
   */
  function OnGameReset(p: Slip): (r: Slip)
    ensures r.sel == Empty && Valid(r.sel)
    ensures r.confirmDisabled == p.confirmDisabled
    ensures InSync(r) <==> p.confirmDisabled
  {
    Slip(Empty, p.confirmDisabled)
  }

  /** After any pick, `game-reset` leaves the button enabled and confirming sends an empty wager. */
  lemma ResetLeavesConfirmEnabled(p: Slip)
    requires InSync(p) && !ConfirmDisabled(p.sel)
    ensures !InSync(OnGameReset(p))
    ensures Confirm(OnGameReset(p)) == Some(Wager([], None))
  {
  }

  /** One racer picked on a fresh screen, then `game-reset`: the button is out of step. */
  lemma StaleConfirmAfterReset()
    ensures var picked := TapCard(Slip(Empty, true), Card("r1", "Ann", "#FF6B6B"), Top3Grid);
            && InSync(picked)
            && !InSync(OnGameReset(picked))
            && Confirm(OnGameReset(picked)) == Some(Wager([], None))
  {
    var c := Card("r1", "Ann", "#FF6B6B");
    assert !Picked(Empty.top3, c.id);
    var picked := TapCard(Slip(Empty, true), c, Top3Grid);
    assert picked.sel.top3 == [c];
    ResetLeavesConfirmEnabled(picked);
  }

  /** `game-reset` followed by `updateConfirmButton`: the button is disabled along with the emptied selection. */
  function OnGameResetSynced(p: Slip): (r: Slip)
    ensures r.sel == Empty && Valid(r.sel) && InSync(r)
    ensures Confirm(r) == None
  {
    Slip(Empty, ConfirmDisabled(Empty))
  }

  /** What reaches the betting screen: a card tap or a `game-reset`. */
  datatype PhoneEvent = CardTap(racer: Card, grid: Grid) | GameReset

  function Apply(p: Slip, e: PhoneEvent): Slip
  {
    match e
    case CardTap(racer, grid) => TapCard(p, racer, grid)
    case GameReset => OnGameResetSynced(p)
  }

  function ApplyAll(p: Slip, events: seq<PhoneEvent>): Slip
    decreases |events|
  {
    if |events| == 0 then p else ApplyAll(Apply(p, events[0]), events[1..])
  }

  /**
   * With the button refreshed on `game-reset`, any series of taps and resets
   * keeps the selection rules and the button in step, so a confirm click
   * never sends an empty or ill-shaped wager.
   */
  lemma {:induction false} SlipStaysSound(p: Slip, events: seq<PhoneEvent>)
    requires Valid(p.sel) && InSync(p)
    ensures Valid(ApplyAll(p, events).sel) && InSync(ApplyAll(p, events))
    ensures var w := Confirm(ApplyAll(p, events));
            w.Some? ==> WellShaped(w.value) && w.value != Wager([], None)
    decreases |events|
  {
    if |events| == 0 {
      PayloadOfValidSelection(p.sel);
    } else {
      SlipStaysSound(Apply(p, events[0]), events[1..]);
    }
  }

  /** The rows of the comparison table marked correct. */
  datatype Marks = Marks(slots: seq<bool>, last: bool)

  /**
   * `createComparisonTable(myBets, results)`: no table without a wager.
   * Slot `i` is marked when the pick equals the `i`-th result's id, which
   * also holds when both are missing; last place is marked when the pick is
   * the id of the final entry.
   */
  function ComparisonMarks(myBets: Option<Wager>, results: seq<ResultEntry>): (r: Option<Marks>)
    ensures r.None? <==> myBets.None?
    ensures r.Some? ==> |r.value.slots| == 3
    ensures r.Some? ==> forall i :: 0 <= i < 3 ==>
              (r.value.slots[i] <==>
                 (i < |myBets.value.top3| && i < |results| && myBets.value.top3[i] == results[i].id)
                 || (i >= |myBets.value.top3| && i >= |results|))
    ensures r.Some? ==> (r.value.last <==> |results| > 0 && myBets.value.last == Some(results[|results| - 1].id))
  {
    match myBets
    case None => None
    case Some(w) =>
      var slot := (i: nat) =>
        if i < |w.top3| && i < |results| then w.top3[i] == results[i].id
        else i >= |w.top3| && i >= |results|;
      Some(Marks([slot(0), slot(1), slot(2)], |results| > 0 && w.last == Some(results[|results| - 1].id)))
  }

  /**
   * The table agrees with the server's settlement, except that a slot both
   * the wager and the ranking leave empty is marked without being scored.
   */
  lemma MarksAgreeWithSettlement(w: Wager, results: seq<ResultEntry>)
    ensures var m := ComparisonMarks(Some(w), results).value;
            && (forall i :: 0 <= i < 3 ==> (m.slots[i] <==> SlotHit(w, results, i) || (i >= |w.top3| && i >= |results|)))
            && (m.last <==> LastHit(w, results))
  {
  }
}
