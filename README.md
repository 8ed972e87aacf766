# Ticket sales: seat selection, event creation, event filter and payment payload

This project models in Dafny the deterministic logic of a ticket-sales web
application (events, venue seat maps, checkout through the PagoTIC payment
gateway). It covers five parts of the application:

- **Order-backed seat panel** (`OrderBuyBody`, with the shared `Selection` and
  `SeatLabels` modules):
  - The cart of picked seats. Clicking a seat toggles it by (sector, row,
    seat), and the cart refuses a sixth seat.
  - The venue map priced from the event's ticket categories. A category
    matches a sector when their names are equal ignoring case.
  - The count of available seats, and the list of sold or reserved seats
    shown on the map.
  - The guards in front of order creation, and the `row-seat` labels sent
    with the order.
- **Client-only seat panel** (`DraftBuyBody`):
  - The same toggle with no cap. Its difference from the capped toggle is
    proved.
  - The map location, which defaults to "belgrano".
  - The redirect after "buy", which depends on the stored `userType`.
- **Event creation form** (`EventForm`):
  - The validation schema: capacity from 1 to 150, price at least 1,
    quantity at least 0, one of four fixed ticket types, required strings.
  - The session and ticket rows, edited in place and appended to.
  - The submit handler's ordered early rejections.
- **Event list filter** (`Eventos`): "Todos" shows every card. Any other
  category shows that category's cards, order preserved.
- **Payment payload** (`PagoticPayload`):
  - Three ordered error checks, then the gateway request built from the
    order and the user.
  - Fixed constants, and callback URLs derived from the app URL.

Where the source changes state in place (the cart, the form rows, the
selected category), the model is a class. Its methods state the new state as a
function of the old one, and lemmas prove what that function guarantees.
Expression-only code becomes functions and lemmas.

Prices and quantities are integers. The seat map geometry and the `eventMaps`
data are not part of this model. They are type parameters and inputs.

## Model

| member | source | states |
|---|---|---|
| Selection.HasKey | src/components/buydetailsComponent/BuyBody/BuyBody.tsx:85-87 | `isAlreadySelected` holds exactly when some selected pick has the clicked sector, row and seat, whatever its price |
| Selection.Without | src/components/buydetailsComponent/BuyBody/BuyBody.tsx:90-94 | the filter drops every pick with the clicked key, keeps every other pick, adds nothing and never grows the list |
| Selection.WithoutShrinks | src/components/buydetailsComponent/BuyBody/BuyBody.tsx:90-94 | filtering out a key the selection holds makes it strictly shorter |
| Selection.WithoutAbsent | src/components/buydetailsComponent/BuyBody/BuyBody.tsx:90-94 | filtering out a key the list does not hold returns the list unchanged |
| Selection.WithoutRemovesOne | src/components/buydetailsComponent/BuyBody/BuyBody.tsx:85-94 | on a duplicate-free selection, deselecting the seat at position i yields exactly the selection without position i, others in their order |
| Selection.WithoutKeepsNoDupKeys | src/components/buydetailsComponent/BuyBody/BuyBody.tsx:90-94 | removing seats keeps the selection free of duplicate (sector, row, seat) keys |
| Selection.AppendKeepsNoDupKeys | src/components/buydetailsComponent/BuyBody/BuyBody.tsx:95-97 | appending a seat whose key is not selected keeps the selection duplicate-free |
| Selection.WithoutAppendAbsent | src/components/buydetailsComponent/BuyBody/BuyBody.tsx:90-97 | appending a new seat and then filtering it out gives back the original selection |
| Selection.Total | src/components/buydetailsComponent/BuyBody/BuyBody.tsx:101 | `totalPrice` is the sum of the picks' prices, 0 for no picks; TotalConcat, TotalAppend, TotalWithout and TotalBounds state how it adds up (a single pick costs its price) |
| Selection.TotalConcat | src/components/buydetailsComponent/BuyBody/BuyBody.tsx:101 | the total price of two selections joined is the sum of their totals |
| Selection.TotalWithout | src/components/buydetailsComponent/BuyBody/BuyBody.tsx:101 | removing the seat at position i lowers the total by exactly its price |
| Selection.TotalAppend | src/components/buydetailsComponent/BuyBody/BuyBody.tsx:101 | appending a seat raises the total by exactly its price |
| Selection.TotalBounds | src/components/buydetailsComponent/BuyBody/BuyBody.tsx:101 | with non-negative prices the total is never negative, is at least each seat's price, and a single seat costs its own price |
| OrderBuyBody.Toggle | src/components/buydetailsComponent/BuyBody/BuyBody.tsx:85-97 | a selected seat is removed and the list shrinks; a new seat below 5 becomes the last entry after the old ones; a new seat at 5 changes nothing; other seats stay and nothing but the clicked seat is added |
| OrderBuyBody.ToggleDeselects | src/components/buydetailsComponent/BuyBody/BuyBody.tsx:85-94 | clicking a selected seat removes exactly that entry, keeps the rest in order and lowers the total by its price |
| OrderBuyBody.ToggleSelectsNew | src/components/buydetailsComponent/BuyBody/BuyBody.tsx:95-97 | clicking a new seat with fewer than 5 selected appends it at the end and raises the total by its price |
| OrderBuyBody.ToggleAtCapacity | src/components/buydetailsComponent/BuyBody/BuyBody.tsx:96 | clicking a new seat with 5 selected leaves the selection unchanged |
| OrderBuyBody.ToggleKeepsInvariant | src/components/buydetailsComponent/BuyBody/BuyBody.tsx:85-97 | every click keeps the selection at most 5 long with no two entries sharing (sector, row, seat) |
| OrderBuyBody.ToggleTwiceRestores | src/components/buydetailsComponent/BuyBody/BuyBody.tsx:85-97 | clicking an unselected seat twice below the cap restores the selection |
| OrderBuyBody.SeatCart.constructor | src/components/buydetailsComponent/BuyBody/BuyBody.tsx:76-77 | the panel starts with no seats selected and the terms not accepted |
| OrderBuyBody.SeatCart.Select | src/components/buydetailsComponent/BuyBody/BuyBody.tsx:79-99 | handleSelect replaces the selection by the capped toggle of the old one, keeps the cart invariant and leaves the terms flag alone |
| OrderBuyBody.SeatCart.SetTermsAccepted | src/components/buydetailsComponent/BuyBody/BuyBody.tsx:204-210 | the checkbox sets the terms flag and leaves the selection alone |
| OrderBuyBody.TotalTickets | src/components/buydetailsComponent/BuyBody/BuyBody.tsx:102 | `totalTickets` is the number of selected seats, 0 exactly for an empty selection and at most 5 under the cart invariant |
| OrderBuyBody.BuyDisabled | src/components/buydetailsComponent/BuyBody/BuyBody.tsx:216 | the buy button is disabled exactly when nothing is selected or the terms are unaccepted, which is exactly when handleBuy stops at its first guard, for every event |
| OrderBuyBody.MaxReached | src/components/buydetailsComponent/BuyBody/BuyBody.tsx:159 | when the flag is set a click on a new seat is ignored; when it is clear a click on a new seat appends it |
| OrderBuyBody.MaxReachedMeansFull | src/components/buydetailsComponent/BuyBody/BuyBody.tsx:159 | under the invariant the map's maxReached flag holds exactly when 5 seats are selected, and while it does not, every click changes the selection |
| OrderBuyBody.Lower | src/components/buydetailsComponent/BuyBody/BuyBody.tsx:54 | lower-casing keeps the length and lower-cases each character (ASCII) |
| OrderBuyBody.FindCategory | src/components/buydetailsComponent/BuyBody/BuyBody.tsx:53-55 | the result is the first category whose lower-cased title equals the lower-cased sector name, and none exactly when no title matches |
| OrderBuyBody.SectorPrice | src/components/buydetailsComponent/BuyBody/BuyBody.tsx:53-56 | the sector price is the price of the first category whose title matches the sector name ignoring case, and 0 when none matches |
| OrderBuyBody.PriceSector | src/components/buydetailsComponent/BuyBody/BuyBody.tsx:58-65 | a re-priced sector keeps name, rows and geometry; its price table has exactly its rows as keys, each at the sector price |
| OrderBuyBody.MergeMapWithTicketPrices | src/components/buydetailsComponent/BuyBody/BuyBody.tsx:48-72 | the merged map has the same number and order of sectors and the same other fields, each sector re-priced |
| OrderBuyBody.MergedRowPrice | src/components/buydetailsComponent/BuyBody/BuyBody.tsx:48-72 | a merged sector keeps name, rows and geometry; its price table has exactly its rows as keys; each row costs the first matching category's price, or 0 when none matches |
| OrderBuyBody.MergeIdempotent | src/components/buydetailsComponent/BuyBody/BuyBody.tsx:48-72 | merging the merged map again with the same categories changes nothing |
| OrderBuyBody.PanelMap | src/components/buydetailsComponent/BuyBody/BuyBody.tsx:105-114 | the not-found branch is taken exactly when there is no "belgrano" map; otherwise that map is merged with the categories |
| OrderBuyBody.SeatsWithStatus | src/components/buydetailsComponent/BuyBody/BuyBody.tsx:118 | the filter returns only seats of the category with the requested status, as many entries as there are such seats |
| OrderBuyBody.SeatsWithStatusComplete | src/components/buydetailsComponent/BuyBody/BuyBody.tsx:118 | every seat with the requested status is in the filtered list |
| OrderBuyBody.AvailableSeats | src/components/buydetailsComponent/BuyBody/BuyBody.tsx:117-119 | the flattened list has one entry per AVAILABLE seat over all categories |
| OrderBuyBody.TotalAvailableSeats | src/components/buydetailsComponent/BuyBody/BuyBody.tsx:117-119 | totalAvailableSeats equals the number of AVAILABLE statuses over all seats of all categories |
| OrderBuyBody.AsTaken | src/components/buydetailsComponent/BuyBody/BuyBody.tsx:163-167 | a taken seat is handed on under its category title, its row or "" when it has none, its number or 0 when it has none |
| OrderBuyBody.TakenInCategory | src/components/buydetailsComponent/BuyBody/BuyBody.tsx:161-167 | one category contributes one entry per SOLD or RESERVED seat, each under the category title |
| OrderBuyBody.TakenSeats | src/components/buydetailsComponent/BuyBody/BuyBody.tsx:160-168 | the taken list has as many entries as there are SOLD plus RESERVED seats |
| OrderBuyBody.TakenSeatsComplete | src/components/buydetailsComponent/BuyBody/BuyBody.tsx:160-168 | every SOLD or RESERVED seat is on the taken list, under its category title, a null row as "" and a null number as 0 |
| OrderBuyBody.TakenInCategoryComplete | src/components/buydetailsComponent/BuyBody/BuyBody.tsx:161-167 | within one category, every SOLD or RESERVED seat is projected onto the taken list |
| OrderBuyBody.TakenSeatsSound | src/components/buydetailsComponent/BuyBody/BuyBody.tsx:160-168 | every entry of the taken list is the projection of a SOLD or RESERVED seat of some category |
| OrderBuyBody.TakenInCategorySound | src/components/buydetailsComponent/BuyBody/BuyBody.tsx:161-167 | within one category, each taken entry comes from a SOLD or RESERVED seat at a position the lemma returns |
| OrderBuyBody.StatusesPartition | src/components/buydetailsComponent/BuyBody/BuyBody.tsx:116-168 | each status is AVAILABLE, SOLD or RESERVED, so the three counts add up to the number of statuses |
| OrderBuyBody.AllStatusesLength | src/components/buydetailsComponent/BuyBody/BuyBody.tsx:117-119 | there is one status per seat of every category |
| OrderBuyBody.EverySeatCountedOnce | src/components/buydetailsComponent/BuyBody/BuyBody.tsx:116-168 | the available count plus the length of the taken list is the number of seats: every seat is in exactly one of the two |
| OrderBuyBody.SelectedLabels | src/components/buydetailsComponent/BuyBody/BuyBody.tsx:143 | one label per selected seat, in selection order, each `row-seat` |
| OrderBuyBody.FirstSessionId | src/components/buydetailsComponent/BuyBody/BuyBody.tsx:137-138 | the first session's id, read as missing when there is no session or the id is empty |
| OrderBuyBody.Buy | src/components/buydetailsComponent/BuyBody/BuyBody.tsx:131-149 | no order when terms are unaccepted or nothing is selected, then none without a first session id; otherwise an order for the event and first session with the selection's labels |
| OrderBuyBody.ButtonMatchesFirstGuard | src/components/buydetailsComponent/BuyBody/BuyBody.tsx:131-150 | once the buy button is enabled, a click places an order exactly when the event has a first session id, and is otherwise refused for the missing session |
| OrderBuyBody.OrderLabelsReadBack | src/components/buydetailsComponent/BuyBody/BuyBody.tsx:143-149 | each label in a placed order reads back as its seat's row and number when the row has no '-' |
| OrderBuyBody.LabelIgnoresSector | src/components/buydetailsComponent/BuyBody/BuyBody.tsx:143 | two distinct seats of different sectors with the same row and number are sent as the same label |
| SeatLabels.DigitChar | src/components/buydetailsComponent/BuyBody/BuyBody.tsx:143 | a digit value below 10 is written as a decimal digit character |
| SeatLabels.NatToDecimal | src/components/buydetailsComponent/BuyBody/BuyBody.tsx:143 | a seat number is written as at least one decimal digit with no leading zero |
| SeatLabels.IntToDecimal | src/components/buydetailsComponent/BuyBody/BuyBody.tsx:143 | an integer is written as a minus sign exactly when negative, then its digits with no leading zero |
| SeatLabels.NatRoundTrip | src/components/buydetailsComponent/BuyBody/BuyBody.tsx:143 | reading the digits of a natural number back gives the number |
| SeatLabels.IntRoundTrip | src/components/buydetailsComponent/BuyBody/BuyBody.tsx:143 | reading back the text of any integer seat number gives the number |
| SeatLabels.FirstDash | src/components/buydetailsComponent/BuyBody/BuyBody.tsx:143 | finds the first '-' of a label, or reports that there is none |
| SeatLabels.Label | src/components/buydetailsComponent/BuyBody/BuyBody.tsx:143 | a label is the row, then '-', then the seat number's text |
| SeatLabels.LabelRoundTrip | src/components/buydetailsComponent/BuyBody/BuyBody.tsx:143 | a `row-seat` label splits back into its row and seat when the row has no '-' |
| SeatLabels.LabelInjective | src/components/buydetailsComponent/BuyBody/BuyBody.tsx:143 | for dash-free rows, equal labels mean equal row and seat |
| DraftBuyBody.UncappedToggle | src/components/BuyBody/BuyBody.tsx:23-42 | a selected seat is removed and the list shrinks; any new seat becomes the last entry after the old ones; other seats stay and nothing but the clicked seat is added |
| DraftBuyBody.UncappedDeselects | src/components/BuyBody/BuyBody.tsx:29-38 | clicking a selected seat removes exactly that entry and keeps the others in order |
| DraftBuyBody.UncappedAlwaysAppends | src/components/BuyBody/BuyBody.tsx:39-41 | clicking a new seat always appends it, growing the selection by one with no upper bound |
| DraftBuyBody.UncappedKeepsNoDupKeys | src/components/BuyBody/BuyBody.tsx:29-41 | the toggle keeps the selection duplicate-free, and clicking an absent seat twice restores the selection |
| DraftBuyBody.TogglesDifferOnlyAtCap | src/components/BuyBody/BuyBody.tsx:39-41 | the uncapped and capped toggles agree exactly when the seat is already selected or fewer than 5 are selected |
| DraftBuyBody.DraftCart.constructor | src/components/BuyBody/BuyBody.tsx:21 | the panel starts with no seats selected |
| DraftBuyBody.DraftCart.Select | src/components/BuyBody/BuyBody.tsx:23-42 | handleSelect replaces the selection by the uncapped toggle of the old one and keeps it duplicate-free |
| DraftBuyBody.Disabled | src/components/BuyBody/BuyBody.tsx:45-46 | the button is disabled exactly when nothing is selected, and then any click selects just that seat |
| DraftBuyBody.Location | src/components/BuyBody/BuyBody.tsx:48 | a missing or empty location query falls back to "belgrano"; any other value is used as given |
| DraftBuyBody.MapFor | src/components/BuyBody/BuyBody.tsx:48-57 | with `eventMaps` read as a map of its own keys, the not-found branch is taken exactly when the resolved location has no map; otherwise that map is drawn |
| DraftBuyBody.DefaultMap | src/components/BuyBody/BuyBody.tsx:48-49 | with no location or an empty one, the "belgrano" map is drawn |
| DraftBuyBody.ConfirmationTarget | src/components/BuyBody/BuyBody.tsx:59-67 | the buyer goes to /ConfirmationPage exactly when the stored userType is "user", and otherwise to /login |
| EventForm.ValidCapacity | src/pages/event/create.tsx:34 | a capacity passes exactly when it is a number from 1 to 150 |
| EventForm.ValidSession | src/pages/event/create.tsx:35-41 | a session passes exactly when date, city and venue are non-empty, so the blank new session fails |
| EventForm.ValidTicket | src/pages/event/create.tsx:42-48 | a ticket passes exactly when its title is one of the four fixed types, its price is a number at least 1 and its quantity at least 0, so a fresh ticket fails |
| EventForm.ValidEvent | src/pages/event/create.tsx:21-49 | a payload passes exactly when name, description, slug and category are non-empty, capacity is 1..150, every session has date, city and venue, and every ticket has a fixed type, price at least 1 and quantity at least 0; so no untouched new row passes |
| EventForm.SchemaBounds | src/pages/event/create.tsx:21-49 | a payload passing the schema has capacity 1..150, tickets of the four fixed types with price at least 1 and quantity at least 0, non-empty name, description, slug, category and session fields; with the rest passing, a capacity passes exactly when it is in 1..150 |
| EventForm.WithSessionField | src/pages/event/create.tsx:279-303 | editing field f of a session changes that field only |
| EventForm.ClampQuantity | src/pages/event/create.tsx:350 | a typed quantity is stored as itself when non-negative and as 0 otherwise |
| EventForm.PriceFromInput | src/pages/event/create.tsx:361-362 | an emptied price input is stored as 0, any other as the typed number |
| EventForm.UnpricedTicketsFail | src/pages/event/create.tsx:373-381 | a ticket with an emptied price, or a freshly added one, fails the price rule; a typed price passes exactly when it is at least 1 |
| EventForm.ClampedQuantityPasses | src/pages/event/create.tsx:348-351 | whatever quantity is typed, the stored one passes the quantity rule |
| EventForm.CreateEventPage.constructor | src/pages/event/create.tsx:57-65 | the form starts with exactly one empty session, no tickets and no category |
| EventForm.CreateEventPage.AddSession | src/pages/event/create.tsx:310-315 | appends one empty session and changes nothing else |
| EventForm.CreateEventPage.EditSession | src/pages/event/create.tsx:279-303 | changes only field f of session i |
| EventForm.CreateEventPage.AddTicket | src/pages/event/create.tsx:373-381 | appends a "Platea A" ticket with quantity 1 and no price, and changes nothing else |
| EventForm.CreateEventPage.EditTicketTitle | src/pages/event/create.tsx:330-334 | changes only the title of ticket i |
| EventForm.CreateEventPage.EditTicketQuantity | src/pages/event/create.tsx:348-351 | changes only the quantity of ticket i, clamped at 0 |
| EventForm.CreateEventPage.EditTicketPrice | src/pages/event/create.tsx:359-363 | changes only the price of ticket i, an empty input becoming 0 |
| EventForm.CreateEventPage.SetCategoryId | src/pages/event/create.tsx:229 | the category select sets the category id and nothing else |
| EventForm.CreateEventPage.Submit | src/pages/event/create.tsx:97-139 | rejects, in this order, a missing user id, an empty category and an empty ticket list, whatever the upload gives; then a failed upload, then a schema failure (reported as an invalid form); creates exactly when all pass, sending the payload, the user id and status OPEN |
| Eventos.EventosFiltrados | src/components/principal/eventos/Eventos.tsx:11-14 | "Todos" gives the full list; any other category gives, in order, exactly the cards of that category, one entry per such card |
| Eventos.WithCategory | src/components/principal/eventos/Eventos.tsx:14 | every returned card has the chosen category, comes from the input, and no card of that category is dropped |
| Eventos.WithCategoryIsSubsequence | src/components/principal/eventos/Eventos.tsx:14 | the filtered list is an order-preserving subsequence of the cards |
| Eventos.WithCategoryCount | src/components/principal/eventos/Eventos.tsx:14 | the filtered list has one entry per card of the chosen category |
| Eventos.SubsequenceNoLonger | src/components/principal/eventos/Eventos.tsx:11-14 | a subsequence, hence the filtered list, is never longer than the card list |
| Eventos.CategoryFilter.constructor | src/components/principal/eventos/Eventos.tsx:7 | the selected category starts as "Todos" |
| Eventos.CategoryFilter.Choose | src/components/principal/eventos/Eventos.tsx:24-30 | pressing a category button selects that category |
| PagoticPayload.BuildPagoPayload | src/modules/pagotic/pagotic.payload.ts:5-57 | fails on a missing app URL, else a missing email, else a missing DNI, and builds exactly when all three are present; the payload has type "online", `number` and the single detail's external reference both equal to the order id, concept "woocommerce" described with the order id, the transaction id from the generator, callback URLs from the app URL, ARS, one credit method, payer name defaulting to "Comprador", and DNI identification in AR |
| PagoticPayload.CallbackUrlsDistinct | src/modules/pagotic/pagotic.payload.ts:26-28 | the three callback URLs start with the app URL and are pairwise different |
| PagoticPayload.PayerNameDefault | src/modules/pagotic/pagotic.payload.ts:50 | only a missing name becomes "Comprador"; an empty name is sent as it is |

## Left out

- Seat holds, the order lifecycle and the expiry sweep are not part of this model. They live in the order service and order router, and those files are not part of this model. `src/pages/api/task/expire-orders.ts` only forwards to that service.
- Capping at five seats: the source silently ignores the sixth click and raises no "limit exceeded" error. The model follows the code.
- Both seat panels are modelled. The client-only panel looks like a superseded draft, but its code is still present.
- Rendering, styling, display strings, alerts and navigation after a mutation (`router.push` in onSuccess) are not modelled.
- The tRPC mutations (order creation, event creation) are not called. The model returns the request that would be sent. Their server side is not part of this model.
- Floating point is not modelled. Prices and quantities are integers.
- `toFixed(2)` is not modelled. The gateway `amount` equals the order total, read as an integer amount.
- `Number(...)` parsing is not modelled. Typed numbers arrive already parsed, so a non-numeric quantity (NaN) is not covered.
- `toLowerCase` is ASCII-only in the model. Non-ASCII letters are compared unchanged.
- SeatLabels.IntToDecimal: seat numbers are unbounded integers written in plain decimal; JavaScript writes magnitudes of 10^21 and above in exponent form.
- Selection.Total sums prices from the front rather than as JavaScript's left-to-right `reduce`. On integers the two give the same value.
- Clock, date formatting and the transaction-id generator are parameters: `dueIn(m)` and `transactionId`. The form's `publishedAt` is left out.
- The image upload is a parameter `UploadResult`. File naming and the storage URL are left out.
- `EventMap`, `eventMaps` and the event card data are inputs or type parameters. Sector geometry is opaque.
- DraftBuyBody.MapFor: `eventMaps` is taken as a map of its own keys. JavaScript's `eventMaps[location]` also finds inherited names such as `constructor` or `__proto__`, for which the source does not show the not-found message. The map data file is not part of this model.
- `router.query.location` can also be an array of strings. The model takes it as an optional string.
- create.tsx copies the list and then assigns a field of a shared row object, which also changes the old state's object. The model treats rows as values, so this aliasing is not captured.
- handleSelect reads both the rendered `selectedSeats` and the updater's `prev`. The model assumes one click per render, so the two are the same.
- The client-only panel's terms checkbox is uncontrolled and affects nothing. It is not modelled.
