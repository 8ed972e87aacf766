/** The event-creation form (`src/pages/event/create.tsx`): the validation
    schema, the session and ticket lists edited row by row, and the submit
    handler's early rejections in front of the create mutation. */
module EventForm {
  import opened Wrappers

  const FixedTicketTypes: seq<string> := ["Platea A", "Platea B", "Platea C", "Pullman"]
  const MinCapacity: int := 1
  const MaxCapacity: int := 150
  const MinPrice: int := 1
  const MinQuantity: int := 0

  // ---------------------------------------------------------------------------
  // Form values

  datatype SessionInput = SessionInput(date: string, city: string, venueName: string)

  /** A ticket's price: `Blank` is the empty string a freshly added ticket
      holds in place of a number. */
  datatype PriceValue = Blank | Amount(value: int)

  datatype TicketInput = TicketInput(title: string, price: PriceValue, quantity: int)

  /** The registered inputs read with `getValues()`; `capacity` is read as a
      number and is None when the input gives no number. */
  datatype BasicFields = BasicFields(
    name: string, description: string, slug: string,
    street: string, number: string, neighborhood: string, city: string,
    state: string, zipCode: string, venueName: string, capacity: Option<int>)

  datatype EventPayload = EventPayload(
    basics: BasicFields, categoryId: string, image: Option<string>,
    sessions: seq<SessionInput>, ticketCategories: seq<TicketInput>)

  // ---------------------------------------------------------------------------
  // `eventSchema`

  predicate NonEmpty(s: string) {
    |s| >= 1
  }

  /** `capacity`: a number from 1 to 150; an input with no number fails. */
  function ValidCapacity(c: Option<int>): (r: bool)
    ensures r <==> c.Some? && 1 <= c.value <= 150
    ensures c.None? ==> !r
  {
    c.Some? && MinCapacity <= c.value <= MaxCapacity
  }

  /** A session needs date, city and venue; the blank row added by
      "+ add session" fails. */
  function ValidSession(s: SessionInput): (r: bool)
    ensures r <==> s.date != "" && s.city != "" && s.venueName != ""
    ensures s == EmptySession ==> !r
  {
    NonEmpty(s.date) && NonEmpty(s.city) && NonEmpty(s.venueName)
  }

  /** A ticket has one of the four fixed titles, a price of at least 1 and a
      quantity of at least 0; the row added by "+ add ticket" fails until a
      price is typed. */
  function ValidTicket(t: TicketInput): (r: bool)
    ensures r <==> t.title in {"Platea A", "Platea B", "Platea C", "Pullman"}
                   && t.price.Amount? && t.price.value >= 1 && t.quantity >= 0
    ensures t == NewTicket ==> !r
  {
    && t.title in FixedTicketTypes
    && t.price.Amount? && t.price.value >= MinPrice
    && t.quantity >= MinQuantity
  }

  /** The whole schema: a payload that still holds an untouched new session or
      ticket row cannot pass. */
  function ValidEvent(p: EventPayload): (r: bool)
    ensures r ==> p.basics.capacity.Some? && 1 <= p.basics.capacity.value <= 150
    ensures r ==> p.basics.name != "" && p.basics.description != "" && p.basics.slug != "" && p.categoryId != ""
    ensures r ==> EmptySession !in p.sessions && NewTicket !in p.ticketCategories
    ensures (&& p.basics.name != "" && p.basics.description != "" && p.basics.slug != ""
             && p.categoryId != ""
             && p.basics.capacity.Some? && 1 <= p.basics.capacity.value <= 150
             && (forall s :: s in p.sessions ==> s.date != "" && s.city != "" && s.venueName != "")
             && (forall t :: t in p.ticketCategories ==>
                   && t.title in {"Platea A", "Platea B", "Platea C", "Pullman"}
                   && t.price.Amount? && t.price.value >= 1 && t.quantity >= 0))
            ==> r
  {
    && NonEmpty(p.basics.name) && NonEmpty(p.basics.description) && NonEmpty(p.basics.slug)
    && NonEmpty(p.categoryId)
    && ValidCapacity(p.basics.capacity)
    && (forall i :: 0 <= i < |p.sessions| ==> ValidSession(p.sessions[i]))
    && (forall i :: 0 <= i < |p.ticketCategories| ==> ValidTicket(p.ticketCategories[i]))
  }

  /** A payload that passes the schema has a capacity from 1 to 150, only
      tickets of the four fixed types with price at least 1 and quantity at
      least 0, non-empty name, description, slug and category, and sessions
      with date, city and venue; changing only the capacity of a passing
      payload keeps it passing exactly when the new capacity is in range. */
  lemma SchemaBounds(p: EventPayload, c: Option<int>, i: nat, j: nat)
    requires ValidEvent(p)
    ensures 1 <= p.basics.capacity.value <= 150
    ensures i < |p.ticketCategories| ==>
              && p.ticketCategories[i].title in {"Platea A", "Platea B", "Platea C", "Pullman"}
              && p.ticketCategories[i].price.Amount? && p.ticketCategories[i].price.value >= 1
              && p.ticketCategories[i].quantity >= 0
    ensures j < |p.sessions| ==> p.sessions[j].date != "" && p.sessions[j].city != "" && p.sessions[j].venueName != ""
    ensures p.basics.name != "" && p.basics.description != "" && p.basics.slug != "" && p.categoryId != ""
    ensures ValidEvent(p.(basics := p.basics.(capacity := c))) <==> c.Some? && 1 <= c.value <= 150
  {
    if i < |p.ticketCategories| {
      assert ValidTicket(p.ticketCategories[i]);
    }
    if j < |p.sessions| {
      assert ValidSession(p.sessions[j]);
    }
  }

  // ---------------------------------------------------------------------------
  // Row edits

  datatype SessionField = Date | City | Venue

  /** One session input changed. */
  function WithSessionField(s: SessionInput, f: SessionField, v: string): (r: SessionInput)
    ensures f == Date ==> r == s.(date := v)
    ensures f == City ==> r == s.(city := v)
    ensures f == Venue ==> r == s.(venueName := v)
  {
    match f
    case Date => s.(date := v)
    case City => s.(city := v)
    case Venue => s.(venueName := v)
  }

  const EmptySession := SessionInput("", "", "")

  /** A ticket as "+ add ticket" creates it. */
  const NewTicket := TicketInput("Platea A", Blank, 1)

  /** `Math.max(0, quantity)` */
  function ClampQuantity(q: int): (r: int)
    ensures r >= 0 && r >= q
    ensures r == q || r == 0
  {
    if q < 0 then 0 else q
  }

  /** The price input: an empty field (None) becomes 0. */
  function PriceFromInput(input: Option<int>): (r: PriceValue)
    ensures r.Amount?
    ensures r.value == if input.Some? then input.value else 0
  {
    Amount(input.GetOr(0))
  }

  /** An emptied price field gives a ticket the schema refuses, and so does a
      freshly added ticket until a price of at least 1 is typed. */
  lemma UnpricedTicketsFail(t: TicketInput, typed: int)
    ensures !ValidTicket(t.(price := PriceFromInput(None)))
    ensures !ValidTicket(NewTicket)
    ensures ValidTicket(NewTicket.(price := PriceFromInput(Some(typed)))) <==> typed >= 1
  {
  }

  /** Whatever is typed into the quantity field, the schema's quantity bound
      holds. */
  lemma ClampedQuantityPasses(t: TicketInput, typed: int)
    requires t.title in FixedTicketTypes && t.price.Amount? && t.price.value >= MinPrice
    ensures ValidTicket(t.(quantity := ClampQuantity(typed)))
  {
  }

  // ---------------------------------------------------------------------------
  // The page's state and its handlers

  datatype EventStatus = Open

  datatype CreateRequest = CreateRequest(payload: EventPayload, userId: string, status: EventStatus)

  /** What `uploadImage()` gave: the image URL (or none), or an error. */
  datatype UploadResult = Uploaded(url: Option<string>) | UploadFailed

  datatype SubmitOutcome =
    | NotAuthenticated
    | MissingCategory
    | NoTickets
    | UploadError
    | InvalidForm
    | Created(request: CreateRequest)

  class CreateEventPage {
    var sessions: seq<SessionInput>
    var tickets: seq<TicketInput>
    var categoryId: string

    /** The form opens with one empty session, no tickets and no category. */
    constructor ()
      ensures sessions == [EmptySession] && tickets == [] && categoryId == ""
    {
      sessions := [EmptySession];
      tickets := [];
      categoryId := "";
    }

    /** "+ add session" */
    method AddSession()
      modifies this
      ensures sessions == old(sessions) + [EmptySession]
      ensures tickets == old(tickets) && categoryId == old(categoryId)
    {
      sessions := sessions + [EmptySession];
    }

    /** Typing into field `f` of session `i`. */
    method EditSession(i: nat, f: SessionField, v: string)
      requires i < |sessions|
      modifies this
      ensures sessions == old(sessions)[i := WithSessionField(old(sessions)[i], f, v)]
      ensures tickets == old(tickets) && categoryId == old(categoryId)
    {
      var updated := sessions;
      updated := updated[i := WithSessionField(updated[i], f, v)];
      sessions := updated;
    }

    /** "+ add ticket" */
    method AddTicket()
      modifies this
      ensures tickets == old(tickets) + [NewTicket]
      ensures sessions == old(sessions) && categoryId == old(categoryId)
    {
      tickets := tickets + [NewTicket];
    }

    /** Choosing the type of ticket `i` from the four offered. */
    method EditTicketTitle(i: nat, title: string)
      requires i < |tickets| && title in FixedTicketTypes
      modifies this
      ensures tickets == old(tickets)[i := old(tickets)[i].(title := title)]
      ensures sessions == old(sessions) && categoryId == old(categoryId)
    {
      var updated := tickets;
      updated := updated[i := updated[i].(title := title)];
      tickets := updated;
    }

    /** Typing a quantity for ticket `i`; a negative number is stored as 0. */
    method EditTicketQuantity(i: nat, typed: int)
      requires i < |tickets|
      modifies this
      ensures tickets == old(tickets)[i := old(tickets)[i].(quantity := ClampQuantity(typed))]
      ensures sessions == old(sessions) && categoryId == old(categoryId)
    {
      var updated := tickets;
      updated := updated[i := updated[i].(quantity := ClampQuantity(typed))];
      tickets := updated;
    }

    /** Typing a price for ticket `i`; an emptied field is stored as 0. */
    method EditTicketPrice(i: nat, typed: Option<int>)
      requires i < |tickets|
      modifies this
      ensures tickets == old(tickets)[i := old(tickets)[i].(price := PriceFromInput(typed))]
      ensures sessions == old(sessions) && categoryId == old(categoryId)
    {
      var updated := tickets;
      updated := updated[i := updated[i].(price := PriceFromInput(typed))];
      tickets := updated;
    }

    /** Choosing a category in the select. */
    method SetCategoryId(id: string)
      modifies this
      ensures categoryId == id
      ensures sessions == old(sessions) && tickets == old(tickets)
    {
      categoryId := id;
    }

    /** `handleSubmit`: the signed-in user's id (None or "" when there is none),
        the values of the registered inputs, and what the image upload gave. */
    method Submit(userId: Option<string>, raw: BasicFields, upload: UploadResult) returns (r: SubmitOutcome)
      ensures userId.None? || userId.value == "" ==> r == NotAuthenticated
      ensures userId.Some? && userId.value != "" && categoryId == "" ==> r == MissingCategory
      ensures userId.Some? && userId.value != "" && categoryId != "" && tickets == [] ==> r == NoTickets
      ensures (userId.Some? && userId.value != "" && categoryId != "" && tickets != []
               && upload.UploadFailed?) ==> r == UploadError
      ensures r.Created? <==>
                && userId.Some? && userId.value != "" && categoryId != "" && tickets != []
                && upload.Uploaded?
                && ValidEvent(EventPayload(raw, categoryId, upload.url, sessions, tickets))
      ensures (userId.Some? && userId.value != "" && categoryId != "" && tickets != []
               && upload.Uploaded?
               && !ValidEvent(EventPayload(raw, categoryId, upload.url, sessions, tickets))) ==> r == InvalidForm
      ensures r.Created? ==>
                r.request == CreateRequest(EventPayload(raw, categoryId, upload.url, sessions, tickets), userId.value, Open)
    {
      if userId.None? || userId.value == "" {
        return NotAuthenticated;
      }
      if categoryId == "" {
        return MissingCategory;
      }
      if |tickets| == 0 {
        return NoTickets;
      }
      if upload.UploadFailed? {
        return UploadError;
      }
      var payload := EventPayload(raw, categoryId, upload.url, sessions, tickets);
      if !ValidEvent(payload) {
        return InvalidForm;
      }
      r := Created(CreateRequest(payload, userId.value, Open));
    }
  }
}
