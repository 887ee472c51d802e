# racegame: a Dafny model of the race-and-wager engine

racegame is a party game. Phones join a shared race as racers, who tap to
move a horse toward a finish line 300 taps away, or as bettors, who pick
the top three finishers and the last-placed racer. The server,
`server/index.js`, holds two rosters (racers and bettors, both JavaScript
`Map`s keyed by socket id) and one phase string. It handles every socket
event to completion before the next. It broadcasts live odds while the race
runs and settles a pari-mutuel pot when the first racer crosses the line.
The phone page, `public/scripts/mobile.js`, lets a bettor choose racers by
tapping cards and sends the chosen wager.

This project models both parts as pure functions:

- `RaceServer` (race_server.dfy) turns every socket event into a transition
  `Step(state, input) = Outcome(next state, messages)`. A message is an
  event name with its payload, addressed to everyone (`io.emit`) or to the
  sender (`socket.emit`). The rosters are insertion-ordered sequences.
  `Roster.Upsert` is `Map.set`, which replaces an entry in place, and
  `Roster.Remove` is `Map.delete`.
- `Odds` (odds.dfy) covers the live odds. `Settlement` (settlement.dfy)
  covers the four 25 000-point buckets. `StableSort` (stable_sort.dfy) is
  the stable descending sort both of them rely on, since the ECMAScript
  sort is stable.
- `RaceInvariants` (race_invariants.dfy) states what holds across events:
  - unique ids;
  - no racer at the line during a race;
  - at most one `race-finished` per race;
  - the winner is the tapper who crossed;
  - positions count taps exactly;
  - `reset-game` is idempotent.
- `BetSlip` (bet_slip.dfy) covers the phone's selection rules, the confirm
  button, the `place-bet` payload, the correct-row marks of the result
  table, and the clearing on `game-reset`.

Odds and settlement are computed on exact rationals (`real`). `Math.round`
is `Rounding.RoundHalfUp`, i.e. floor(x + 1/2).

Some behaviour of the code that the model keeps as it is:

- There is no countdown phase: `start-race` sets `racing` at once
  (server/index.js:236), and `countdown-start` is only a message.
- The 3-second timer emits `race-started` without looking at the phase
  (server/index.js:246-249).
- Names, roles and wager shapes are not validated. Any mode other than
  `'racer'` joins as a bettor (server/index.js:56, 70-77).
- `place-bet` has no phase check and is accepted in every phase, `finished`
  included (server/index.js:97-109).
- A `start-race` outside `waiting`/`racersLocked`, or with no racers, does
  nothing and sends nothing (server/index.js:235).
- On the phone, `game-reset` empties the selection but does not refresh the
  confirm button (see "## Findings").

## Model

| member | source | states |
|---|---|---|
| Rounding.RoundHalfUp | server/index.js:155 | `Math.round` gives an integer within half a unit of its argument, rounding halves up |
| Rounding.RoundHalfUpUnique | server/index.js:224 | the rounded value is the only integer within that half-open half-unit window |
| Rounding.RoundHalfUpWithin | server/index.js:155 | a value between two integers rounds to an integer between them |
| StableSort.SortDesc | server/index.js:130-132 | the comparator sort `b.position - a.position`: the output is ordered by non-increasing key and is a permutation of the input; equal keys keep their input order (stable); the key total is unchanged |
| StableSort.SortSortedIsIdentity | server/index.js:130-132 | sorting a list already in non-increasing order returns it unchanged |
| StableSort.MapSeq | server/index.js:132 | `Array.prototype.map` keeps the length and applies the function to each position |
| StableSort.SortCommutesWithMap | server/index.js:130-133 | projecting each racer to `{id, name, position}` after sorting gives the same list as sorting the projections, because the projection keeps the key |
| Roster.ColorFor | server/index.js:293-303 | `generateColor(index)` always yields a palette colour, namely entry `index` for the first 24 indices |
| Roster.ColorCycles | server/index.js:302 | colours repeat with period 24 |
| Roster.PaletteHasDuplicates | server/index.js:295-300 | the palette has 24 entries but repeats colours, so racers 14/21, 15/20 and 16/19 (counting from 1) share a colour |
| Roster.IndexOf | server/index.js:98 | `Map.get` finds the first entry with the id, and finds none exactly when no entry has it |
| Roster.Find | server/index.js:116 | the entry found is in the roster and carries the id, and it exists exactly when the id is present |
| Roster.IndexOfUnique | server/index.js:30-31 | with unique keys, the entry holding an id is the one `Map.get` returns |
| Roster.Upsert | server/index.js:64-77 | `Map.set` replaces an entry with the same key at its original position, or appends; keys stay unique |
| Roster.FindAfterUpsert | server/index.js:64-77 | after `Map.set`, looking the key up yields the value set, and the size grows only for a new key |
| Roster.Remove | server/index.js:279-280 | `Map.delete` on an absent key changes nothing; on a present key it drops exactly that entry, keeps the others in order, and leaves no entry with that key |
| Roster.DropAt | public/scripts/mobile.js:342 | cutting out entry i keeps the earlier entries, shifts the later ones down by one, adds nothing, and keeps keys unique with none left equal to the dropped key |
| Odds.TotalProgressIsKeySum | server/index.js:147 | the `reduce` total of all positions is the position sum that the stable sort keeps |
| Odds.Rounded | server/index.js:153-157 | one entry per racer in roster order, with its name, colour and rounded percentage of total progress |
| Odds.CalculateOdds | server/index.js:145-158 | with zero progress every share is 0 in roster order; otherwise the entries are the rounded shares ordered by non-increasing share, as a permutation that keeps roster order among equal shares |
| Odds.PositionAtMostTotal | server/index.js:147 | no racer's position exceeds the total progress |
| Odds.ExactShareWithin | server/index.js:155 | an exact share lies in [0, 100] |
| Odds.SharesWithinPercent | server/index.js:145-158 | every share in an odds update lies in [0, 100] |
| Odds.ExactSumScaled | server/index.js:147-155 | the unrounded shares times the total equal 100 times the total progress |
| Odds.ExactSumIsHundred | server/index.js:147-155 | the unrounded shares add up to exactly 100 |
| Odds.RoundedSumNear | server/index.js:155 | rounding each share moves the sum by more than -n/2 and at most n/2 for n racers |
| Odds.SharesSumNearHundred | server/index.js:145-158 | the shares are not renormalised: they add up to 100 give or take half a point per racer |
| Settlement.Wagered | server/index.js:193-194 | exactly the bettors holding a wager are settled: every entry holds one and every roster bettor with one is included |
| Settlement.WageredAppend | server/index.js:193-194 | the settled bettors keep roster order: filtering a split roster is filtering each part in turn |
| Settlement.Callers | server/index.js:170-190 | `correctCounts` of a bucket counts at most every bettor |
| Settlement.Record | server/index.js:196-227 | a bettor's record carries their id and name; its points are non-negative, `correctTop3` is at most 3, `correctLast` holds exactly on a last-place hit, and no hit earns 0 points |
| Settlement.SettleFrom | server/index.js:193-228 | one record per wagering bettor, in roster order, each built from the whole roster's counts |
| Settlement.Settle | server/index.js:161-231 | `calculateBettingResults`: one record per bettor with a non-null wager, in roster order; `totalPoints` is the rounded sum of the bucket shares collected, `correctTop3` is the number of matched slots among the first three, and `correctLast` holds iff `last` is the last result's id |
| Settlement.HitCount | server/index.js:198-213 | the three slot increments count exactly the matched slots |
| Settlement.CollectedCountsCallers | server/index.js:201-219 | what the callers of a bucket collect together is one share per caller |
| Settlement.SharesAreProduct | server/index.js:203 | k shares added one by one make the share times k |
| Settlement.BucketPaysExactly | server/index.js:166-219 | a bucket pays out exactly 25 000 when somebody called it and nothing when nobody did: its k callers each collect 25 000/k, and k such shares add up to 25 000 |
| Settlement.AwardedIsBucketSum | server/index.js:193-228 | summing the awards per bettor equals summing them per bucket |
| Settlement.PotNeverExceeded | server/index.js:162-228 | the unrounded payouts of one settlement lie between 0 and the pot of 100 000 |
| RaceServer.FinalResults | server/index.js:130-133 | the final ranking is a permutation of the racers as `{id, name, position}`, in non-increasing position, keeping roster order among equal positions |
| RaceServer.ZeroPositions | server/index.js:240 | every racer goes back to position 0 and nothing else changes |
| RaceServer.ClearBets | server/index.js:268-271 | every wager is withdrawn and every confirmation cleared, nothing else changed |
| RaceServer.OnJoin | server/index.js:55-89 | a racer joins at position 0, coloured by the roster size, replacing any earlier entry of the socket in place; any other mode joins a bettor with no wager; the joiner gets `joined` and everyone the roster; a bettor joining while racers are locked or racing also gets `racers-locked` |
| RaceServer.OnGetRacers | server/index.js:92-94 | the sender is sent the racer roster and nothing changes |
| RaceServer.Advance | server/index.js:118 | the racer's position goes up by exactly 1 and every other racer is untouched |
| RaceServer.Accepted | server/index.js:118-140 | an accepted tap leaves the bettors alone and advances the tapper; at or past 300 it sets `finished` and announces position, odds and the result; short of 300 it keeps the phase and announces position and odds |
| RaceServer.OnPlaceBet | server/index.js:97-110 | a known bettor's payload is stored unvalidated in any phase and the bettor is confirmed, with nothing else changed; `all-bets-confirmed` goes out iff every bettor is confirmed; unknown senders change nothing |
| RaceServer.OnTap | server/index.js:113-142 | a tap counts only while racing and only from a known racer; that racer alone moves up by 1; position and odds are broadcast; reaching 300 sets `finished` and announces the winner, results and bet results in one message |
| RaceServer.OnStartRace | server/index.js:234-251 | from `waiting` or `racersLocked` with at least one racer, all positions go to 0, the phase becomes `racing` and `countdown-start` is broadcast; otherwise nothing happens |
| RaceServer.OnCountdownElapsed | server/index.js:246-249 | the timer emits `race-started` whatever the phase and changes nothing |
| RaceServer.OnLockRacers | server/index.js:254-260 | only from `waiting`: the phase becomes `racersLocked` and the roster is broadcast; otherwise nothing happens |
| RaceServer.OnResetGame | server/index.js:263-275 | from any phase: `waiting`, every position 0, every wager withdrawn and unconfirmed, same members in the same order, then `game-reset` and `players-update` |
| RaceServer.OnDisconnect | server/index.js:278-289 | the id leaves both rosters with the others kept in order; each roster it left is re-broadcast; an unknown id changes nothing and emits nothing |
| RaceInvariants.InitialWellFormed | server/index.js:30-32 | the empty start state satisfies the invariant |
| RaceInvariants.JoinKeepsWellFormed | server/index.js:55-89 | a join keeps ids unique, and a racer joining mid-race starts at 0, short of the line |
| RaceInvariants.TapKeepsWellFormed | server/index.js:113-142 | a tap keeps ids unique and either keeps the tapper short of the line or ends the race |
| RaceInvariants.PlaceBetKeepsWellFormed | server/index.js:97-110 | storing a wager keeps bettor ids unique |
| RaceInvariants.DisconnectKeepsWellFormed | server/index.js:278-289 | a disconnect keeps ids unique and brings no racer closer to the line |
| RaceInvariants.StepKeepsWellFormed | server/index.js:55-289 | every handler keeps ids unique in both rosters and keeps every racer short of the line while racing |
| RaceInvariants.RunKeepsWellFormed | server/index.js:55-289 | so does any sequence of events |
| RaceInvariants.FinishesAppend | server/index.js:139 | `race-finished` messages of two message lists add up |
| RaceInvariants.NoFinishes | server/index.js:139 | a list without `race-finished` counts none |
| RaceInvariants.TapShortOfLine | server/index.js:119-123 | a tap that stays short of the line announces no finish |
| RaceInvariants.TapAtLine | server/index.js:119-139 | a tap that reaches the line announces exactly one finish |
| RaceInvariants.TapFinishes | server/index.js:126-139 | a tap emits one `race-finished` exactly when it moves the phase from `racing` to `finished` |
| RaceInvariants.StepFinishesAtMostOnce | server/index.js:113-142 | one event emits at most one `race-finished`, and only a tap ending a race does |
| RaceInvariants.QuietHandlers | server/index.js:55-289 | no event other than `tap` announces a finish |
| RaceInvariants.JoinQuiet | server/index.js:55-89 | `join` emits only `joined`, roster updates and `racers-locked` |
| RaceInvariants.DisconnectQuiet | server/index.js:278-289 | `disconnect` emits only roster updates |
| RaceInvariants.FinishedIsSticky | server/index.js:114-127 | once finished, only `reset-game` leaves `finished` |
| RaceInvariants.AtMostOneFinishPerRace | server/index.js:126-139 | between resets at most one `race-finished` is emitted, and none once the race is over |
| RaceInvariants.LeaderHeadsResults | server/index.js:130-134 | the only racer at or past the line heads the ranking |
| RaceInvariants.HeadIsHighest | server/index.js:131-134 | in the ranking, nobody's position exceeds `results[0]`'s |
| RaceInvariants.FinishIffTapAtLine | server/index.js:113-127 | a tap announces a finish exactly when the phase is `racing` and a known racer taps one step short of 300 |
| RaceInvariants.WinnerIsFinishingTapper | server/index.js:126-139 | when the racer one step short of the line taps, one message ends the race: it names that racer, at exactly 300, as `results[0]`, with the full ranking and its settlement |
| RaceInvariants.TapMovesOnlySender | server/index.js:113-119 | a tap that ends no race moves its sender alone, by exactly one, and leaves bettors and phase unchanged |
| RaceInvariants.TapsByFirst | server/index.js:113-119 | the leading tap counts for its sender only |
| RaceInvariants.PositionsCountTaps | server/index.js:113-119 | during a race nobody finishes, each racer advances by exactly its number of taps, and bettors and phase stay put |
| RaceInvariants.ResetIsIdempotent | server/index.js:263-275 | resetting twice equals resetting once, messages included |
| BetSlip.FindIndex | public/scripts/mobile.js:338 | `findIndex` returns the first slot holding the racer's id, or reports it unpicked |
| BetSlip.ChooseTop3 | public/scripts/mobile.js:336-353 | the three selection rules stay true and the last pick is untouched; a picked racer is un-picked with the rest in order; a new racer is appended unless three are picked or it is the last pick |
| BetSlip.UnpickValid | public/scripts/mobile.js:338-342 | un-picking keeps the selection rules |
| BetSlip.PickValid | public/scripts/mobile.js:344-352 | appending a racer that is not yet picked and not the last pick, while fewer than three are picked, keeps the selection rules |
| BetSlip.ChooseLast | public/scripts/mobile.js:354-366 | the rules stay true and the top three are untouched; the last pick is cleared by choosing it again, refused for a racer among the top three, and otherwise replaced |
| BetSlip.Choose | public/scripts/mobile.js:335-370 | `handleCardSelection`: whichever grid is tapped, at most three picks, no repeats and the last pick apart stay true |
| BetSlip.AddThenRemoveTop3 | public/scripts/mobile.js:338-351 | picking a racer for the top three and choosing it again restores the selection |
| BetSlip.SetThenClearLast | public/scripts/mobile.js:356-364 | picking a last-place racer and choosing it again restores the selection |
| BetSlip.Payload | public/scripts/mobile.js:410-414 | the wager sent is the picked ids in selection order plus the last pick's id or null |
| BetSlip.WellShapedIsUniqueIds | public/scripts/mobile.js:410-414 | a well-shaped payload is at most three ids, unique in the roster sense, with the last pick not among them |
| BetSlip.PayloadOfValidSelection | public/scripts/mobile.js:405-414 | the payload has at most three distinct ids, none equal to the last pick; confirm is disabled exactly when the payload would be empty |
| BetSlip.TapCard | public/scripts/mobile.js:335-370 | a tap turned away by an early `return` leaves selection and button as they were; any other tap changes the selection and refreshes the button to match it |
| BetSlip.Confirm | public/scripts/mobile.js:405-418 | a click on a disabled button sends nothing; otherwise it sends the payload of the selection |
| BetSlip.OnGameReset | public/scripts/mobile.js:266-275 | `game-reset` empties the selection but leaves the button's `disabled` flag as it was, so the button matches the selection only if it was already disabled |
| BetSlip.ResetLeavesConfirmEnabled | public/scripts/mobile.js:266-275 | after any pick, `game-reset` leaves the button enabled and a click sends `{top3: [], last: null}` |
| BetSlip.StaleConfirmAfterReset | public/scripts/mobile.js:266-275 | one racer picked on a fresh screen, then `game-reset`: the button no longer matches the empty selection |
| BetSlip.OnGameResetSynced | public/scripts/mobile.js:266-275 | corrected reset: the selection is emptied and the button disabled with it, so a click sends nothing |
| BetSlip.SlipStaysSound | public/scripts/mobile.js:266-418 | with the corrected reset, any series of card taps and resets keeps the selection rules and the button in step, so a click never sends an empty or ill-shaped wager |
| BetSlip.ComparisonMarks | public/scripts/mobile.js:176-209 | no table without a wager; slot i is marked iff the pick equals the i-th result's id, including when both are missing; last is marked iff the pick is the final result's id |
| BetSlip.MarksAgreeWithSettlement | public/scripts/mobile.js:195-203 | the marks agree with the server's scoring, except for slots that both the wager and the ranking leave empty |

## Left out

- HTTP and network setup (`express` static files, the `/qr` QR-code endpoint, `getLocalIP`, `server.listen`) are I/O and foreign libraries.
- Socket.io delivery: an emit is a message appended to the handler's output, with no delivery, ordering or reconnection semantics.
- Timer scheduling: the server's 3-second `setTimeout` is the `CountdownElapsed` input, which may arrive at any later point; the phone's countdown display is left out.
- `raceStartTime`, `Date.now()` and `console.log`: no state effect that any handler reads.
- Rendering: DOM screens, HTML strings, card badges, tap debouncing, `public/scripts/main.js` and `public/scripts/confetti.js` are UI.
- Floating point: odds and settlement use exact rationals. The source computes `(p.position / totalProgress) * 100` on doubles (server/index.js:155), which rounds twice: for position 29 of a total of 200 it gives 14.499999999999998, so `Math.round` yields 14 where the exact share 14.5 rounds to 15. A sum of `25000 / k` fractions can likewise land a hair off an exact `.5`.
- Settlement.Settle: the source dereferences `results[0].id` and would throw on an empty ranking; the model is total and treats slot 1 as unmatched then. The only caller always passes at least one racer.
- Wager shape: a payload whose `top3` is missing is the empty list, and `null` and `undefined` for `last` are both `None`. The source's `undefined === undefined` last-place match on an empty ranking therefore never arises.
- BetSlip.ComparisonMarks: takes `myBets` as an input. The phone reads it from a `bettors` variable that `mobile.js` never declares.
- Racer names shown in the comparison table (`getNameById`) are display only.
- The confirm button's state when the page loads comes from the HTML markup, which is not part of this model; the phone's lemmas start from a screen whose button matches its selection.

## Findings

| source | as written | input that shows it | evidently intended | confidence | as-written member | corrected member |
|---|---|---|---|---|---|---|
| public/scripts/mobile.js:266-275 | the `game-reset` handler empties `selectedTop3` and `selectedLast` but never calls `updateConfirmButton`, the only code that sets `confirmBetBtn.disabled` (mobile.js:369, 405-408) | pick one racer, then `game-reset`, then `racers-locked` shows the betting screen again with the button still enabled; a click sends `{top3: [], last: null}`, which the server stores as a confirmed wager (server/index.js:100-101) | the reset refreshes the button too, so confirming needs a pick again | medium, not executed | BetSlip.OnGameReset, BetSlip.StaleConfirmAfterReset | BetSlip.OnGameResetSynced, BetSlip.SlipStaysSound |
