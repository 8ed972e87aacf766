/** The seat-selection panel that creates orders
    (`src/components/buydetailsComponent/BuyBody/BuyBody.tsx`): a cart capped at
    five seats, the venue map priced from the event's ticket categories, the
    seat counts shown beside it, and the guards in front of order creation. */
module OrderBuyBody {
  import opened Wrappers
  import opened Selection
  import SeatLabels

  /** At most five tickets per purchase. */
  const MaxSeatsPerOrder: nat := 5

  // ---------------------------------------------------------------------------
  // Event data as the page receives it

  datatype SeatStatus = Available | Reserved | Sold

  datatype SeatRecord = SeatRecord(
    id: string, seatLabel: string, row: Option<string>, number: Option<int>, status: SeatStatus)

  datatype TicketCategory = TicketCategory(
    id: string, title: string, price: int, seats: seq<SeatRecord>)

  datatype EventSession = EventSession(id: string, date: string, venueName: string)

  datatype Event = Event(
    id: string, name: string, eventSessions: seq<EventSession>,
    ticketCategories: seq<TicketCategory>)

  // ---------------------------------------------------------------------------
  // The cart: `handleSelect` with its five-seat cap

  type SeatPick = Pick<string>

  /** The selection after clicking seat `p`: a selected seat is deselected;
      a new seat is appended unless five are already selected. */
  function Toggle<R(==)>(s: seq<Pick<R>>, p: Pick<R>): (r: seq<Pick<R>>)
    ensures HasKey(s, KeyOf(p)) ==> !HasKey(r, KeyOf(p)) && |r| < |s|
    ensures !HasKey(s, KeyOf(p)) && |s| < MaxSeatsPerOrder ==> |r| == |s| + 1 && r[..|s|] == s && r[|s|] == p
    ensures !HasKey(s, KeyOf(p)) && |s| >= MaxSeatsPerOrder ==> r == s
    ensures forall i :: 0 <= i < |s| && KeyOf(s[i]) != KeyOf(p) ==> s[i] in r
    ensures forall q :: q in r ==> q in s || q == p
  {
    if HasKey(s, KeyOf(p)) then WithoutShrinks(s, KeyOf(p)); Without(s, KeyOf(p))
    else if |s| >= MaxSeatsPerOrder then s
    else s + [p]
  }

  /** What the selection must always satisfy. */
  ghost predicate CartInvariant<R>(s: seq<Pick<R>>) {
    NoDupKeys(s) && |s| <= MaxSeatsPerOrder
  }

  /** Clicking a selected seat removes exactly that entry, keeps the rest in
      order and lowers the total by its price. */
  lemma ToggleDeselects<R>(s: seq<Pick<R>>, i: nat, p: Pick<R>)
    requires NoDupKeys(s) && i < |s| && KeyOf(p) == KeyOf(s[i])
    ensures Toggle(s, p) == s[..i] + s[i + 1..]
    ensures Total(Toggle(s, p)) == Total(s) - s[i].price
  {
    assert HasKey(s, KeyOf(p));
    WithoutRemovesOne(s, i);
    TotalWithout(s, i);
  }

  /** Clicking a new seat while fewer than five are selected appends it and
      raises the total by its price. */
  lemma ToggleSelectsNew<R>(s: seq<Pick<R>>, p: Pick<R>)
    requires !HasKey(s, KeyOf(p)) && |s| < MaxSeatsPerOrder
    ensures Toggle(s, p) == s + [p]
    ensures Total(Toggle(s, p)) == Total(s) + p.price
  {
    TotalAppend(s, p);
  }

  /** Clicking a new seat when five are selected changes nothing. */
  lemma ToggleAtCapacity<R>(s: seq<Pick<R>>, p: Pick<R>)
    requires !HasKey(s, KeyOf(p)) && |s| >= MaxSeatsPerOrder
    ensures Toggle(s, p) == s
  {
  }

  /** Every click keeps the selection duplicate-free and at most five long. */
  lemma ToggleKeepsInvariant<R>(s: seq<Pick<R>>, p: Pick<R>)
    requires CartInvariant(s)
    ensures CartInvariant(Toggle(s, p))
  {
    if HasKey(s, KeyOf(p)) {
      WithoutKeepsNoDupKeys(s, KeyOf(p));
    } else if |s| < MaxSeatsPerOrder {
      AppendKeepsNoDupKeys(s, p);
    }
  }

  /** Clicking an unselected seat twice, below the cap, restores the selection. */
  lemma ToggleTwiceRestores<R>(s: seq<Pick<R>>, p: Pick<R>)
    requires !HasKey(s, KeyOf(p)) && |s| < MaxSeatsPerOrder
    ensures Toggle(Toggle(s, p), p) == s
  {
    assert (s + [p])[|s|] == p;
    assert HasKey(s + [p], KeyOf(p));
    WithoutAppendAbsent(s, p);
  }

  /** The panel's state: the selected seats and the terms checkbox. */
  class SeatCart {
    var selected: seq<SeatPick>
    var termsAccepted: bool

    ghost predicate Valid()
      reads this
    {
      CartInvariant(selected)
    }

    constructor ()
      ensures Valid()
      ensures selected == [] && !termsAccepted
    {
      selected := [];
      termsAccepted := false;
    }

    /** `handleSelect(sector, row, seat, price)` */
    method Select(sector: string, row: string, seat: int, price: int)
      requires Valid()
      modifies this
      ensures Valid()
      ensures selected == Toggle(old(selected), Pick(sector, row, seat, price))
      ensures termsAccepted == old(termsAccepted)
    {
      var p := Pick(sector, row, seat, price);
      ToggleKeepsInvariant(selected, p);
      var k := Key(sector, row, seat);
      if HasKey(selected, k) {
        selected := Without(selected, k);
      } else {
        if |selected| >= MaxSeatsPerOrder {
          return;
        }
        selected := selected + [p];
      }
    }

    /** The terms checkbox. */
    method SetTermsAccepted(checked: bool)
      requires Valid()
      modifies this
      ensures Valid()
      ensures termsAccepted == checked && selected == old(selected)
    {
      termsAccepted := checked;
    }
  }

  // ---------------------------------------------------------------------------
  // Values derived from the cart on each render

  /** `totalTickets`: one ticket per selected seat, so never more than five
      under the cart invariant. */
  function TotalTickets(s: seq<SeatPick>): (r: nat)
    ensures r == |s|
    ensures r == 0 <==> s == []
    ensures CartInvariant(s) ==> r <= MaxSeatsPerOrder
  {
    |s|
  }

  /** `disabled || !termsAccepted` on the buy button. */
  function BuyDisabled(s: seq<SeatPick>, termsAccepted: bool): (r: bool)
    ensures r <==> s == [] || !termsAccepted
    ensures forall e :: r <==> Buy(termsAccepted, s, e) == Rejected(TermsOrEmptySelection)
  {
    TotalTickets(s) == 0 || !termsAccepted
  }

  /** `maxReached` handed to the map. */
  function MaxReached(s: seq<SeatPick>): (r: bool)
    ensures r ==> forall p :: !HasKey(s, KeyOf(p)) ==> Toggle(s, p) == s
    ensures !r ==> forall p :: !HasKey(s, KeyOf(p)) ==> Toggle(s, p) == s + [p]
  {
    |s| >= MaxSeatsPerOrder
  }

  /** Under the cart invariant, the map is told the maximum is reached exactly
      when five seats are selected, and while it is not, any click (select or
      deselect) changes the selection. */
  lemma MaxReachedMeansFull(s: seq<SeatPick>, p: SeatPick)
    requires CartInvariant(s)
    ensures MaxReached(s) <==> |s| == MaxSeatsPerOrder
    ensures !MaxReached(s) ==> Toggle(s, p) != s
  {
    if HasKey(s, KeyOf(p)) {
      assert |Toggle(s, p)| < |s|;
    } else if !MaxReached(s) {
      assert |Toggle(s, p)| == |s| + 1;
    }
  }

  // ---------------------------------------------------------------------------
  // The venue map priced from the ticket categories

  datatype Sector<G> = Sector(name: string, rows: seq<string>, pricesByRow: map<string, int>, geometry: G)

  datatype MapConfig<G, L> = MapConfig(sectors: seq<Sector<G>>, layout: L)

  /** ASCII lower-casing. */
  function Lower(s: string): (r: string)
    ensures |r| == |s|
    ensures forall i :: 0 <= i < |s| ==> r[i] == LowerChar(s[i])
  {
    if s == [] then [] else [LowerChar(s[0])] + Lower(s[1..])
  }

  function LowerChar(c: char): char {
    if 'A' <= c <= 'Z' then (c as int + 32) as char else c
  }

  predicate TitleMatches(title: string, sectorName: string) {
    Lower(title) == Lower(sectorName)
  }

  /** `ticketCategories.find(tc => lower(tc.title) === lower(sector.name))` */
  function FindCategory(cats: seq<TicketCategory>, sectorName: string): (r: Option<TicketCategory>)
    ensures r.None? <==> forall i :: 0 <= i < |cats| ==> !TitleMatches(cats[i].title, sectorName)
    ensures r.Some? ==> exists j :: 0 <= j < |cats| && cats[j] == r.value
                           && TitleMatches(cats[j].title, sectorName)
                           && forall i :: 0 <= i < j ==> !TitleMatches(cats[i].title, sectorName)
  {
    if cats == [] then None
    else if TitleMatches(cats[0].title, sectorName) then Some(cats[0])
    else
      var r := FindCategory(cats[1..], sectorName);
      assert forall i :: 1 <= i < |cats| ==> cats[i] == cats[1..][i - 1];
      if r.Some? then
        var j :| 0 <= j < |cats[1..]| && cats[1..][j] == r.value
                 && TitleMatches(cats[1..][j].title, sectorName)
                 && forall i :: 0 <= i < j ==> !TitleMatches(cats[1..][i].title, sectorName);
        assert cats[j + 1] == r.value;
        r
      else r
  }

  /** `ticketCategory?.price ?? 0` */
  function SectorPrice(cats: seq<TicketCategory>, sectorName: string): (r: int)
    ensures (forall i :: 0 <= i < |cats| ==> !TitleMatches(cats[i].title, sectorName)) ==> r == 0
    ensures forall j ::
              (0 <= j < |cats| && TitleMatches(cats[j].title, sectorName)
               && forall i :: 0 <= i < j ==> !TitleMatches(cats[i].title, sectorName))
              ==> r == cats[j].price
  {
    match FindCategory(cats, sectorName)
    case Some(tc) =>
      var j :| 0 <= j < |cats| && cats[j] == tc && TitleMatches(cats[j].title, sectorName)
               && forall i :: 0 <= i < j ==> !TitleMatches(cats[i].title, sectorName);
      tc.price
    case None => 0
  }

  /** Every row of the sector is priced at its category's price; name, rows
      and geometry stay as they were. */
  function PriceSector<G>(sector: Sector<G>, cats: seq<TicketCategory>): (r: Sector<G>)
    ensures r.name == sector.name && r.rows == sector.rows && r.geometry == sector.geometry
    ensures forall row :: row in r.pricesByRow <==> row in sector.rows
    ensures forall row :: row in sector.rows ==> r.pricesByRow[row] == SectorPrice(cats, sector.name)
  {
    sector.(pricesByRow := map row | row in sector.rows :: SectorPrice(cats, sector.name))
  }

  /** `mergeMapWithTicketPrices(mapConfig, ticketCategories)` */
  function MergeMapWithTicketPrices<G, L>(m: MapConfig<G, L>, cats: seq<TicketCategory>): (r: MapConfig<G, L>)
    ensures |r.sectors| == |m.sectors| && r.layout == m.layout
    ensures forall i :: 0 <= i < |m.sectors| ==> r.sectors[i] == PriceSector(m.sectors[i], cats)
  {
    m.(sectors := seq(|m.sectors|, i requires 0 <= i < |m.sectors| => PriceSector(m.sectors[i], cats)))
  }

  /** After merging, every sector keeps its place, name, rows and geometry, its
      price table has exactly its rows as keys, and each row costs the price of
      the first category whose title matches the sector name ignoring case, or
      0 when none matches. */
  lemma MergedRowPrice<G, L>(m: MapConfig<G, L>, cats: seq<TicketCategory>, i: nat, row: string)
    requires i < |m.sectors|
    ensures var s, s' := m.sectors[i], MergeMapWithTicketPrices(m, cats).sectors[i];
      && s'.name == s.name && s'.rows == s.rows && s'.geometry == s.geometry
      && s'.pricesByRow.Keys == set r | r in s.rows
      && (row in s.rows ==>
            (exists j :: 0 <= j < |cats| && TitleMatches(cats[j].title, s.name)
                         && (forall k :: 0 <= k < j ==> !TitleMatches(cats[k].title, s.name))
                         && s'.pricesByRow[row] == cats[j].price)
            || ((forall j :: 0 <= j < |cats| ==> !TitleMatches(cats[j].title, s.name))
                && s'.pricesByRow[row] == 0))
  {
    var s := m.sectors[i];
    var c := FindCategory(cats, s.name);
    if c.Some? {
      var j :| 0 <= j < |cats| && cats[j] == c.value && TitleMatches(cats[j].title, s.name)
               && forall k :: 0 <= k < j ==> !TitleMatches(cats[k].title, s.name);
    }
  }

  /** Merging again with the same categories changes nothing, so re-merging on
      every render is harmless. */
  lemma MergeIdempotent<G, L>(m: MapConfig<G, L>, cats: seq<TicketCategory>)
    ensures MergeMapWithTicketPrices(MergeMapWithTicketPrices(m, cats), cats)
         == MergeMapWithTicketPrices(m, cats)
  {
    var once := MergeMapWithTicketPrices(m, cats);
    var twice := MergeMapWithTicketPrices(once, cats);
    assert |twice.sectors| == |once.sectors|;
    forall i | 0 <= i < |once.sectors| ensures twice.sectors[i] == once.sectors[i] {
      assert once.sectors[i].rows == m.sectors[i].rows && once.sectors[i].name == m.sectors[i].name;
    }
    assert twice.sectors == once.sectors;
  }

  /** The panel renders a map only when the "belgrano" map exists; otherwise it
      shows the not-found message (None). */
  function PanelMap<G, L>(eventMaps: map<string, MapConfig<G, L>>, cats: seq<TicketCategory>): (r: Option<MapConfig<G, L>>)
    ensures r.None? <==> "belgrano" !in eventMaps
    ensures r.Some? ==> r.value == MergeMapWithTicketPrices(eventMaps["belgrano"], cats)
  {
    if "belgrano" in eventMaps then Some(MergeMapWithTicketPrices(eventMaps["belgrano"], cats)) else None
  }

  // ---------------------------------------------------------------------------
  // Seat counts and the seats the map shows as taken

  /** The statuses of all seats of all categories, in order. */
  function Statuses(seats: seq<SeatRecord>): seq<SeatStatus> {
    seq(|seats|, i requires 0 <= i < |seats| => seats[i].status)
  }

  function AllStatuses(cats: seq<TicketCategory>): seq<SeatStatus> {
    if cats == [] then [] else Statuses(cats[0].seats) + AllStatuses(cats[1..])
  }

  /** `cat.seats.filter(s => s.status === status)`: one entry per seat with
      that status. */
  function SeatsWithStatus(seats: seq<SeatRecord>, status: SeatStatus): (r: seq<SeatRecord>)
    ensures forall x :: x in r ==> x in seats && x.status == status
    ensures |r| == multiset(Statuses(seats))[status]
  {
    assert seats != [] ==> Statuses(seats) == [seats[0].status] + Statuses(seats[1..]);
    if seats == [] then []
    else if seats[0].status == status then [seats[0]] + SeatsWithStatus(seats[1..], status)
    else SeatsWithStatus(seats[1..], status)
  }

  /** No seat with the status is dropped by the filter. */
  lemma {:induction false} SeatsWithStatusComplete(seats: seq<SeatRecord>, status: SeatStatus, k: nat)
    requires k < |seats| && seats[k].status == status
    ensures seats[k] in SeatsWithStatus(seats, status)
  {
    if k > 0 {
      assert seats[1..][k - 1] == seats[k];
      SeatsWithStatusComplete(seats[1..], status, k - 1);
    }
  }

  /** `ticketCategories.flatMap(cat => cat.seats.filter(AVAILABLE))` */
  function AvailableSeats(cats: seq<TicketCategory>): (r: seq<SeatRecord>)
    ensures |r| == multiset(AllStatuses(cats))[Available]
  {
    if cats == [] then [] else SeatsWithStatus(cats[0].seats, Available) + AvailableSeats(cats[1..])
  }

  /** `totalAvailableSeats`: the number of seats, over all categories, whose
      status is AVAILABLE. */
  function TotalAvailableSeats(cats: seq<TicketCategory>): (r: nat)
    ensures r == multiset(AllStatuses(cats))[Available]
  {
    |AvailableSeats(cats)|
  }

  datatype TakenSeat = TakenSeat(sector: string, row: string, seat: int)

  predicate IsTaken(s: SeatRecord) {
    s.status == Sold || s.status == Reserved
  }

  /** How a taken seat is handed to the map: a missing row becomes "" and a
      missing number becomes 0. */
  function AsTaken(sector: string, s: SeatRecord): (r: TakenSeat)
    ensures r.sector == sector
    ensures r.row == (if s.row.Some? then s.row.value else "")
    ensures r.seat == (if s.number.Some? then s.number.value else 0)
  {
    TakenSeat(sector, s.row.GetOr(""), s.number.GetOr(0))
  }

  /** One entry per SOLD or RESERVED seat of a category. */
  function TakenInCategory(title: string, seats: seq<SeatRecord>): (r: seq<TakenSeat>)
    ensures |r| == multiset(Statuses(seats))[Sold] + multiset(Statuses(seats))[Reserved]
    ensures forall t :: t in r ==> t.sector == title
  {
    assert seats != [] ==> Statuses(seats) == [seats[0].status] + Statuses(seats[1..]);
    if seats == [] then []
    else if IsTaken(seats[0]) then [AsTaken(title, seats[0])] + TakenInCategory(title, seats[1..])
    else TakenInCategory(title, seats[1..])
  }

  /** The `soldSeats` list handed to the map: one entry per SOLD or RESERVED
      seat over all categories. */
  function TakenSeats(cats: seq<TicketCategory>): (r: seq<TakenSeat>)
    ensures |r| == multiset(AllStatuses(cats))[Sold] + multiset(AllStatuses(cats))[Reserved]
  {
    if cats == [] then [] else TakenInCategory(cats[0].title, cats[0].seats) + TakenSeats(cats[1..])
  }

  /** Every SOLD or RESERVED seat of every category is shown as taken. */
  lemma {:induction false} TakenSeatsComplete(cats: seq<TicketCategory>, c: nat, k: nat)
    requires c < |cats| && k < |cats[c].seats| && IsTaken(cats[c].seats[k])
    ensures AsTaken(cats[c].title, cats[c].seats[k]) in TakenSeats(cats)
  {
    if c == 0 {
      TakenInCategoryComplete(cats[0].title, cats[0].seats, k);
    } else {
      assert cats[1..][c - 1] == cats[c];
      TakenSeatsComplete(cats[1..], c - 1, k);
    }
  }

  lemma {:induction false} TakenInCategoryComplete(title: string, seats: seq<SeatRecord>, k: nat)
    requires k < |seats| && IsTaken(seats[k])
    ensures AsTaken(title, seats[k]) in TakenInCategory(title, seats)
  {
    if k > 0 {
      assert seats[1..][k - 1] == seats[k];
      TakenInCategoryComplete(title, seats[1..], k - 1);
    }
  }

  /** Everything shown as taken is a SOLD or RESERVED seat of some category,
      labelled with that category's title. */
  lemma {:induction false} TakenSeatsSound(cats: seq<TicketCategory>, t: TakenSeat)
    requires t in TakenSeats(cats)
    ensures exists c, k :: 0 <= c < |cats| && 0 <= k < |cats[c].seats|
              && IsTaken(cats[c].seats[k]) && t == AsTaken(cats[c].title, cats[c].seats[k])
  {
    if t in TakenInCategory(cats[0].title, cats[0].seats) {
      var k := TakenInCategorySound(cats[0].title, cats[0].seats, t);
      assert IsTaken(cats[0].seats[k]) && t == AsTaken(cats[0].title, cats[0].seats[k]);
    } else {
      TakenSeatsSound(cats[1..], t);
      var c, k :| 0 <= c < |cats[1..]| && 0 <= k < |cats[1..][c].seats|
              && IsTaken(cats[1..][c].seats[k]) && t == AsTaken(cats[1..][c].title, cats[1..][c].seats[k]);
      assert cats[1..][c] == cats[c + 1];
    }
  }

  lemma {:induction false} TakenInCategorySound(title: string, seats: seq<SeatRecord>, t: TakenSeat) returns (k: nat)
    requires t in TakenInCategory(title, seats)
    ensures k < |seats| && IsTaken(seats[k]) && t == AsTaken(title, seats[k])
  {
    if IsTaken(seats[0]) && t == AsTaken(title, seats[0]) {
      k := 0;
    } else {
      var k' := TakenInCategorySound(title, seats[1..], t);
      k := k' + 1;
    }
  }

  /** Every status is one of the three, so each seat is counted exactly once. */
  lemma {:induction false} StatusesPartition(ss: seq<SeatStatus>)
    ensures multiset(ss)[Available] + multiset(ss)[Sold] + multiset(ss)[Reserved] == |ss|
  {
    if ss != [] {
      StatusesPartition(ss[1..]);
      assert ss == [ss[0]] + ss[1..];
      assert multiset(ss) == multiset{ss[0]} + multiset(ss[1..]);
      match ss[0]
      case Available =>
      case Sold =>
      case Reserved =>
    }
  }

  /** The number of seats of all categories. */
  function SeatCount(cats: seq<TicketCategory>): nat {
    if cats == [] then 0 else |cats[0].seats| + SeatCount(cats[1..])
  }

  lemma {:induction false} AllStatusesLength(cats: seq<TicketCategory>)
    ensures |AllStatuses(cats)| == SeatCount(cats)
  {
    if cats != [] {
      AllStatusesLength(cats[1..]);
    }
  }

  /** Every seat is either counted as available or shown as taken, never both. */
  lemma EverySeatCountedOnce(cats: seq<TicketCategory>)
    ensures TotalAvailableSeats(cats) + |TakenSeats(cats)| == SeatCount(cats)
  {
    StatusesPartition(AllStatuses(cats));
    AllStatusesLength(cats);
  }

  // ---------------------------------------------------------------------------
  // `handleBuy`: the guards in front of order creation and the labels it sends

  datatype BuyRejection =
    | TermsOrEmptySelection   // "accept the terms and select at least one ticket"
    | NoEventSession          // "could not find the event session"

  datatype OrderRequest = OrderRequest(eventId: string, eventSessionId: string, selectedLabels: seq<string>)

  datatype BuyOutcome = Rejected(reason: BuyRejection) | PlaceOrder(request: OrderRequest)

  /** `selectedSeats.map(s => `${s.row}-${s.seat}`)` */
  function SelectedLabels(s: seq<SeatPick>): (r: seq<string>)
    ensures |r| == |s|
    ensures forall i :: 0 <= i < |s| ==> r[i] == SeatLabels.Label(s[i].row, s[i].seat)
  {
    seq(|s|, i requires 0 <= i < |s| => SeatLabels.Label(s[i].row, s[i].seat))
  }

  /** `event.eventSessions?.[0]?.id`, with the empty id read as missing. */
  function FirstSessionId(e: Event): (r: Option<string>)
    ensures r.None? <==> e.eventSessions == [] || e.eventSessions[0].id == ""
    ensures r.Some? ==> r.value == e.eventSessions[0].id && r.value != ""
  {
    if |e.eventSessions| > 0 && e.eventSessions[0].id != "" then Some(e.eventSessions[0].id) else None
  }

  function Buy(termsAccepted: bool, s: seq<SeatPick>, e: Event): (r: BuyOutcome)
    ensures !termsAccepted || s == [] ==> r == Rejected(TermsOrEmptySelection)
    ensures termsAccepted && s != [] && FirstSessionId(e).None? ==> r == Rejected(NoEventSession)
    ensures r.PlaceOrder? <==> termsAccepted && s != [] && FirstSessionId(e).Some?
    ensures r.PlaceOrder? ==>
              && r.request.eventId == e.id
              && r.request.eventSessionId == e.eventSessions[0].id
              && r.request.selectedLabels == SelectedLabels(s)
  {
    if !termsAccepted || |s| == 0 then Rejected(TermsOrEmptySelection)
    else match FirstSessionId(e)
      case None => Rejected(NoEventSession)
      case Some(id) => PlaceOrder(OrderRequest(e.id, id, SelectedLabels(s)))
  }

  /** The buy button is enabled exactly when `handleBuy` gets past its first
      guard. */
  lemma ButtonMatchesFirstGuard(termsAccepted: bool, s: seq<SeatPick>, e: Event)
    ensures !BuyDisabled(s, termsAccepted) ==>
              (Buy(termsAccepted, s, e).PlaceOrder? <==> FirstSessionId(e).Some?)
    ensures !BuyDisabled(s, termsAccepted) && !Buy(termsAccepted, s, e).PlaceOrder? ==>
              Buy(termsAccepted, s, e) == Rejected(NoEventSession)
  {
  }

  /** An order request carries one label per selected seat, in selection
      order, and each label reads back as that seat's row and number when the
      row has no '-'. */
  lemma OrderLabelsReadBack(termsAccepted: bool, s: seq<SeatPick>, e: Event, i: nat)
    requires Buy(termsAccepted, s, e).PlaceOrder? && i < |s| && '-' !in s[i].row
    ensures |Buy(termsAccepted, s, e).request.selectedLabels| == |s|
    ensures SeatLabels.ParseLabel(Buy(termsAccepted, s, e).request.selectedLabels[i]) == Some((s[i].row, s[i].seat))
  {
    SeatLabels.LabelRoundTrip(s[i].row, s[i].seat);
  }

  /** The sector is not part of a label: two seats of different sectors with
      the same row and number are sent as the same label. */
  lemma LabelIgnoresSector(a: SeatPick, b: SeatPick)
    requires a.row == b.row && a.seat == b.seat && a.sector != b.sector
    ensures KeyOf(a) != KeyOf(b)
    ensures SelectedLabels([a, b])[0] == SelectedLabels([a, b])[1]
  {
  }
}
