/**
 * The two rosters of the server (server/index.js, `players` and `bettors`):
 * JavaScript `Map`s keyed by socket id, modelled as insertion-ordered
 * sequences. `Map.set` on a present key keeps the entry's position.
 */
module Roster {
  import opened Options

  /** A socket.io connection id. */
  type Id = string

  /**
   * The wager a bettor sends with `place-bet`. The server stores whatever it
   * receives: `top3` may be of any length, hold repeats or overlap `last`.
   * A payload without `top3` behaves as an empty list; `last` of null or
   * undefined is `None`.
   */
  datatype Wager = Wager(top3: seq<Id>, last: Option<Id>)

  datatype Racer = Racer(id: Id, name: string, position: nat, color: string)

  /** `bets` is `None` both before a bet and after `reset-game`. */
  datatype Bettor = Bettor(id: Id, name: string, bets: Option<Wager>, confirmed: bool)

  function RacerId(r: Racer): Id { r.id }

  function BettorId(b: Bettor): Id { b.id }

  /** The 24-entry colour palette of `generateColor`, duplicates included. */
  const Palette: seq<string> := [
    "#FF6B6B", "#4ECDC4", "#45B7D1", "#FFA07A",
    "#98D8C8", "#F7DC6F", "#BB8FCE", "#85C1E2",
    "#F8B739", "#52B788", "#E63946", "#457B9D",
    "#FF8C42", "#6A4C93", "#1982C4", "#8AC926",
    "#FF595E", "#FFCA3A", "#8AC926", "#1982C4",
    "#6A4C93", "#C9ADA7", "#9A8C98", "#4A4E69"
  ]

  /** `generateColor(index)`: the palette entry at `index` modulo its length. */
  function ColorFor(index: nat): (c: string)
    ensures c in Palette
    ensures index < |Palette| ==> c == Palette[index]
  {
    var i := index % |Palette|;
    assert index < |Palette| ==> i == index;
    Palette[i]
  }

  /** Colours cycle through the palette: the racer joining after 24 more gets the same one. */
  lemma ColorCycles(index: nat)
    ensures ColorFor(index + |Palette|) == ColorFor(index)
  {
    var n := |Palette|;
    assert n == 24;
    assert (index + n) % n == index % n by {
      assert index + n == (index / n + 1) * n + index % n;
    }
  }

  /** The palette repeats itself: the 16th and 19th racers share a colour. */
  lemma PaletteHasDuplicates()
    ensures |Palette| == 24
    ensures ColorFor(15) == ColorFor(18) && ColorFor(14) == ColorFor(19) && ColorFor(13) == ColorFor(20)
  {
  }

  /** No two entries share an id, as in a `Map`. */
  predicate UniqueIds<T>(s: seq<T>, idOf: T -> Id)
  {
    forall i, j :: 0 <= i < j < |s| ==> idOf(s[i]) != idOf(s[j])
  }

  predicate HasId<T>(s: seq<T>, idOf: T -> Id, id: Id)
  {
    exists i :: 0 <= i < |s| && idOf(s[i]) == id
  }

  /** `Map.get`: the position of the first entry with this id. */
  function IndexOf<T>(s: seq<T>, idOf: T -> Id, id: Id): (r: Option<nat>)
    ensures r.Some? ==> r.value < |s| && idOf(s[r.value]) == id
    ensures r.Some? ==> forall j :: 0 <= j < r.value ==> idOf(s[j]) != id
    ensures r.None? <==> !HasId(s, idOf, id)
    decreases |s|
  {
    if |s| == 0 then None
    else if idOf(s[0]) == id then Some(0)
    else
      match IndexOf(s[1..], idOf, id)
      case None =>
        assert forall i :: 1 <= i < |s| ==> s[i] == s[1..][i - 1];
        None
      case Some(k) =>
        assert forall j :: 1 <= j < k + 1 ==> s[j] == s[1..][j - 1];
        Some(k + 1)
  }

  /** `Map.get`: the entry with this id, if any. */
  function Find<T(==)>(s: seq<T>, idOf: T -> Id, id: Id): (r: Option<T>)
    ensures r.Some? <==> HasId(s, idOf, id)
    ensures r.Some? ==> r.value in s && idOf(r.value) == id
  {
    match IndexOf(s, idOf, id)
    case None => None
    case Some(i) => Some(s[i])
  }

  /** Under unique ids the entry found is the only one with that id. */
  lemma IndexOfUnique<T>(s: seq<T>, idOf: T -> Id, id: Id, i: nat)
    requires UniqueIds(s, idOf)
    requires i < |s| && idOf(s[i]) == id
    ensures IndexOf(s, idOf, id) == Some(i)
  {
  }

  /** `Map.set`: replace the entry in place when the id is present, else append. */
  function Upsert<T>(s: seq<T>, idOf: T -> Id, x: T): (r: seq<T>)
    ensures IndexOf(s, idOf, idOf(x)).Some? ==>
              var i := IndexOf(s, idOf, idOf(x)).value;
              |r| == |s| && r[i] == x && forall j :: 0 <= j < |s| && j != i ==> r[j] == s[j]
    ensures IndexOf(s, idOf, idOf(x)).None? ==> r == s + [x]
    ensures UniqueIds(s, idOf) ==> UniqueIds(r, idOf)
  {
    match IndexOf(s, idOf, idOf(x))
    case Some(i) => s[i := x]
    case None => s + [x]
  }

  /** `Map.delete`: drop the entry with this id, keeping the order of the rest. */
  function Remove<T>(s: seq<T>, idOf: T -> Id, id: Id): (r: seq<T>)
    ensures !HasId(s, idOf, id) ==> r == s
    ensures HasId(s, idOf, id) ==> |r| == |s| - 1
    ensures UniqueIds(s, idOf) ==> UniqueIds(r, idOf) && !HasId(r, idOf, id)
    ensures IndexOf(s, idOf, id).Some? ==>
              var i := IndexOf(s, idOf, id).value;
              (forall j :: 0 <= j < i ==> r[j] == s[j]) && (forall j :: i <= j < |r| ==> r[j] == s[j + 1])
    ensures forall x :: x in r ==> x in s
  {
    match IndexOf(s, idOf, id)
    case None => s
    case Some(i) =>
      DropAt(s, idOf, i);
      s[..i] + s[i + 1..]
  }

  /** Dropping entry `i` shifts the later entries down by one and keeps keys unique. */
  lemma DropAt<T>(s: seq<T>, idOf: T -> Id, i: nat)
    requires i < |s|
    ensures var r := s[..i] + s[i + 1..];
            && |r| == |s| - 1
            && (forall j :: 0 <= j < i ==> r[j] == s[j])
            && (forall j :: i <= j < |r| ==> r[j] == s[j + 1])
            && (forall x :: x in r ==> x in s)
            && (UniqueIds(s, idOf) ==> UniqueIds(r, idOf) && forall j :: 0 <= j < |r| ==> idOf(r[j]) != idOf(s[i]))
  {
    var r := s[..i] + s[i + 1..];
    assert forall j :: 0 <= j < |r| ==> r[j] == (if j < i then s[j] else s[j + 1]);
  }

  lemma FindAfterUpsert<T>(s: seq<T>, idOf: T -> Id, x: T)
    ensures Find(Upsert(s, idOf, x), idOf, idOf(x)) == Some(x)
    ensures |Upsert(s, idOf, x)| == |s| + (if HasId(s, idOf, idOf(x)) then 0 else 1)
  {
    var r := Upsert(s, idOf, x);
    match IndexOf(s, idOf, idOf(x))
    case Some(i) =>
      assert IndexOf(r, idOf, idOf(x)) == Some(i) by {
        assert forall j :: 0 <= j < i ==> r[j] == s[j];
        IndexOfFirst(r, idOf, idOf(x), i);
      }
    case None =>
      assert r[|s|] == x;
      IndexOfFirst(r, idOf, idOf(x), |s|);
  }

  /** The first entry with an id is the one `IndexOf` finds. */
  lemma {:induction false} IndexOfFirst<T>(s: seq<T>, idOf: T -> Id, id: Id, i: nat)
    requires i < |s| && idOf(s[i]) == id
    requires forall j :: 0 <= j < i ==> idOf(s[j]) != id
    ensures IndexOf(s, idOf, id) == Some(i)
    decreases i
  {
    if i > 0 {
      IndexOfFirst(s[1..], idOf, id, i - 1);
    }
  }
}
