/** The client-only seat-selection panel (`src/components/BuyBody/BuyBody.tsx`):
    the same click toggle with no cap, numeric rows, the map chosen from the
    `location` query value, and the confirmation redirect decided by the stored
    `userType`. */
module DraftBuyBody {
  import opened Wrappers
  import opened Selection
  import OrderBuyBody

  type DraftPick = Pick<int>

  /** The selection after clicking seat `p`: a selected seat is deselected,
      any other seat is appended, whatever the selection's size. */
  function UncappedToggle<R(==)>(s: seq<Pick<R>>, p: Pick<R>): (r: seq<Pick<R>>)
    ensures HasKey(s, KeyOf(p)) ==> !HasKey(r, KeyOf(p)) && |r| < |s|
    ensures !HasKey(s, KeyOf(p)) ==> |r| == |s| + 1 && r[..|s|] == s && r[|s|] == p
    ensures forall i :: 0 <= i < |s| && KeyOf(s[i]) != KeyOf(p) ==> s[i] in r
    ensures forall q :: q in r ==> q in s || q == p
  {
    if HasKey(s, KeyOf(p)) then WithoutShrinks(s, KeyOf(p)); Without(s, KeyOf(p)) else s + [p]
  }

  /** Clicking a selected seat removes exactly that entry and keeps the others
      in order. */
  lemma UncappedDeselects<R>(s: seq<Pick<R>>, i: nat, p: Pick<R>)
    requires NoDupKeys(s) && i < |s| && KeyOf(p) == KeyOf(s[i])
    ensures UncappedToggle(s, p) == s[..i] + s[i + 1..]
  {
    assert HasKey(s, KeyOf(p));
    WithoutRemovesOne(s, i);
  }

  /** Clicking a new seat always appends it: there is no upper bound. */
  lemma UncappedAlwaysAppends<R>(s: seq<Pick<R>>, p: Pick<R>)
    requires !HasKey(s, KeyOf(p))
    ensures UncappedToggle(s, p) == s + [p]
    ensures |UncappedToggle(s, p)| == |s| + 1
  {
  }

  /** The toggle keeps the selection duplicate-free, and clicking an
      unselected seat twice restores the selection. */
  lemma UncappedKeepsNoDupKeys<R>(s: seq<Pick<R>>, p: Pick<R>)
    requires NoDupKeys(s)
    ensures NoDupKeys(UncappedToggle(s, p))
    ensures !HasKey(s, KeyOf(p)) ==> UncappedToggle(UncappedToggle(s, p), p) == s
  {
    if HasKey(s, KeyOf(p)) {
      WithoutKeepsNoDupKeys(s, KeyOf(p));
    } else {
      AppendKeepsNoDupKeys(s, p);
      assert (s + [p])[|s|] == p;
      assert HasKey(s + [p], KeyOf(p));
      WithoutAppendAbsent(s, p);
    }
  }

  /** The two panels' toggles agree except in one case: a new seat clicked when
      five are already selected, which only the client-only panel adds. */
  lemma TogglesDifferOnlyAtCap<R>(s: seq<Pick<R>>, p: Pick<R>)
    ensures OrderBuyBody.Toggle(s, p) == UncappedToggle(s, p)
        <==> HasKey(s, KeyOf(p)) || |s| < OrderBuyBody.MaxSeatsPerOrder
  {
    if !HasKey(s, KeyOf(p)) && |s| >= OrderBuyBody.MaxSeatsPerOrder {
      assert |UncappedToggle(s, p)| != |s|;
    }
  }

  /** The panel's state: the selected seats. */
  class DraftCart {
    var selected: seq<DraftPick>

    ghost predicate Valid()
      reads this
    {
      NoDupKeys(selected)
    }

    constructor ()
      ensures Valid() && selected == []
    {
      selected := [];
    }

    /** `handleSelect(sector, row, seat, price)` */
    method Select(sector: string, row: int, seat: int, price: int)
      requires Valid()
      modifies this
      ensures Valid()
      ensures selected == UncappedToggle(old(selected), Pick(sector, row, seat, price))
    {
      var p := Pick(sector, row, seat, price);
      UncappedKeepsNoDupKeys(selected, p);
      var k := Key(sector, row, seat);
      if HasKey(selected, k) {
        selected := Without(selected, k);
      } else {
        selected := selected + [p];
      }
    }
  }

  /** The button is disabled exactly when nothing is selected; the terms
      checkbox of this panel is not wired to anything. */
  function Disabled(s: seq<DraftPick>): (r: bool)
    ensures r <==> s == []
    ensures r ==> forall p :: UncappedToggle(s, p) == [p]
  {
    |s| == 0
  }

  /** `(router.query.location as string) || "belgrano"`: a missing or empty
      query value falls back to "belgrano". */
  function Location(query: Option<string>): (r: string)
    ensures r != ""
    ensures query.Some? && query.value != "" ==> r == query.value
    ensures query.None? || query.value == "" ==> r == "belgrano"
  {
    match query
    case Some(q) => if q != "" then q else "belgrano"
    case None => "belgrano"
  }

  /** The map to draw, or None for the not-found message. `eventMaps` is a
      map of its own keys: names a JavaScript object inherits (`constructor`,
      `__proto__`) are not found here. */
  function MapFor<M>(eventMaps: map<string, M>, query: Option<string>): (r: Option<M>)
    ensures r.None? <==> Location(query) !in eventMaps
    ensures r.Some? ==> r.value == eventMaps[Location(query)]
  {
    var location := Location(query);
    if location in eventMaps then Some(eventMaps[location]) else None
  }

  /** Without a query value the panel draws the "belgrano" map when there is one. */
  lemma DefaultMap<M>(eventMaps: map<string, M>)
    requires "belgrano" in eventMaps
    ensures MapFor(eventMaps, None) == Some(eventMaps["belgrano"])
    ensures MapFor(eventMaps, Some("")) == Some(eventMaps["belgrano"])
  {
  }

  /** `handleDirectConfirmation`: the page the buyer is sent to. */
  function ConfirmationTarget(userType: Option<string>): (r: string)
    ensures r == "/ConfirmationPage" <==> userType == Some("user")
    ensures r != "/ConfirmationPage" ==> r == "/login"
  {
    if userType == Some("user") then "/ConfirmationPage" else "/login"
  }
}
