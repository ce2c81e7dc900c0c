# Hotel reservation and guest folio rules, modelled in Dafny

This project models the business rules of two documents of a hotel
property-management app built on Frappe:

- **Guest Folio** (`Folios`, `guest_folio.dfy`): the naming rule, with its
  company-key sanitiser (drop spaces, keep ten characters, upper-case), the
  validation of master folios and of closing a folio, the guest-balance trigger
  after a save, and the deletion guard.
- **Hotel Reservation** (`Reservations`, `hotel_reservation.dfy`): validation
  (date order, room availability, company of a company guest), making sure a
  company has an Open master folio, finding or creating the company's
  representative Guest, check-in (status, room, folio, nightly room charge) and
  check-out up to the decision to transfer the company's share of the folio to
  the city ledger.

`outcomes.dfy` holds the `Outcome`/`Result` types that stand for the
documents' `frappe.throw` refusals.

The database the hooks read and write is the class `Reservations.Store`: one
`map` per table (folios, guests, customers, rooms, reservations, group
bookings) and the set of Item codes. Its methods are the state-changing
operations; each states its whole new state in terms of pure functions
(`WithMasterFolio`, `CheckInFolios`, `SetRoomStatus`, `SetReservationStatus`,
`CheckOutDecision`), and the properties are proved about those functions.
A refused operation leaves every table as it was, as the framework's
transaction rollback does. `Store.Valid()` is the invariant that no folio
carries two room charges on the same day; every method keeps it. The
invariant that no company has two Open master folios (`UniqueOpenMasters`) is
kept by validation and by `EnsureCompanyFolio`. Check-in is proved to keep it
when the reservation's folio is not itself a company master folio; check-in
reopens whatever folio the reservation links to, so reopening a Closed master
folio could give its company a second Open one.

Conventions: dates are day numbers, with "today" a parameter. Amounts are
integer cents, so "balance > 0.01" becomes "balance > 1 cent"
(`SettledLimit`). An empty string stands for an unset link field. The
reservation being processed (`self`) is a `Reservation` value; `db_set` updates
both that value (returned as the operation's result) and its stored row.

Two details of the code that the model keeps:
- `ensure_company_folio` runs for every reservation whose `company` is set,
  whatever `is_company_guest` says.
- The city-ledger transfer at check-out is keyed on `company`, not on the
  company-guest flag.

Lemma `LateCheckInBlocksCheckOut` records a consequence of the two guards.
Check-in's only date guard is on arrival, so a reservation can be checked in
after its departure date. The check-out guard then refuses it on every later
day, because it demands that departure is today.

## Model

| member | source | states |
|---|---|---|
| Folios.RemoveSpaces | hospitality_core/hospitality_core/doctype/guest_folio/guest_folio.py:14 | the result has no space, is no longer than the input, and holds only characters of the input |
| Folios.RemoveSpacesAppend | hospitality_core/hospitality_core/doctype/guest_folio/guest_folio.py:14 | removing spaces distributes over concatenation, which with the one-character cases characterises `replace(" ", "")` |
| Folios.RemoveSpacesFixpoint | hospitality_core/hospitality_core/doctype/guest_folio/guest_folio.py:14 | removing spaces leaves a string unchanged exactly when it has no space |
| Folios.Take | hospitality_core/hospitality_core/doctype/guest_folio/guest_folio.py:14 | `[:10]` gives the prefix of the input of length ten, or the whole input when it is shorter |
| Folios.UpperChar | hospitality_core/hospitality_core/doctype/guest_folio/guest_folio.py:14 | an ASCII lower-case letter becomes its upper-case letter; every other character is kept |
| Folios.ToUpper | hospitality_core/hospitality_core/doctype/guest_folio/guest_folio.py:14 | `upper()` keeps the length, maps each character, and leaves no lower-case ASCII letter |
| Folios.CompanyKey | hospitality_core/hospitality_core/doctype/guest_folio/guest_folio.py:14 | the company key is the upper-cased first ten non-space characters of the name (all of them if fewer): no spaces, at most ten characters, upper case |
| Folios.ToUpperOfUpperCase | hospitality_core/hospitality_core/doctype/guest_folio/guest_folio.py:14 | upper-casing an upper-case string changes nothing |
| Folios.CompanyKeyIdempotent | hospitality_core/hospitality_core/doctype/guest_folio/guest_folio.py:14 | sanitising a company key again gives the same key |
| Folios.SeriesPrefix | hospitality_core/hospitality_core/doctype/guest_folio/guest_folio.py:11-18 | the series text starts with `MASTER-` for master folios and `FOLIO-` otherwise, so its first character tells the kinds apart; it ends with `-`, has no spaces and is at most eighteen characters |
| Folios.Autoname | hospitality_core/hospitality_core/doctype/guest_folio/guest_folio.py:9-18 | only the name changes; a master folio's name starts with `MASTER-<key>-`, any other folio's with `FOLIO-`, and the name ends with the series counter |
| Folios.NamingSchemesDisjoint | hospitality_core/hospitality_core/doctype/guest_folio/guest_folio.py:11-18 | a master folio name never equals a standard folio name, whatever the counters |
| Folios.ValidateMasterFolio | hospitality_core/hospitality_core/doctype/guest_folio/guest_folio.py:24-30 | refuses exactly a company master folio without a company; a standard folio passes even without a reservation |
| Folios.ValidateStatusChange | hospitality_core/hospitality_core/doctype/guest_folio/guest_folio.py:32-51 | refuses exactly a Closed folio that is not a company guest's (or has no reservation) with a balance above 0.01, reporting that balance |
| Folios.Validate | hospitality_core/hospitality_core/doctype/guest_folio/guest_folio.py:20-22 | passes exactly when both checks pass; a balance refusal is reported first, and otherwise the result is the master-folio check's |
| Folios.SavedFolioInvariant | hospitality_core/hospitality_core/doctype/guest_folio/guest_folio.py:20-51 | a validated folio that is Closed and not a company guest's owes at most 0.01, and a validated master folio has a company |
| Folios.OpenFolioNeverFailsBalance | hospitality_core/hospitality_core/doctype/guest_folio/guest_folio.py:33 | an Open folio passes the balance check whatever its balance |
| Folios.AfterSave | hospitality_core/hospitality_core/doctype/guest_folio/guest_folio.py:53-56 | the guest balance is recorded for the folio if and only if it is Closed after the save |
| Folios.OnTrash | hospitality_core/hospitality_core/doctype/guest_folio/guest_folio.py:62-67 | deletion without the delete permission is refused; with it, deletion passes exactly when the folio has no transactions or the user is Administrator |
| Folios.OnlyAdministratorDeletesUsedFolio | hospitality_core/hospitality_core/doctype/guest_folio/guest_folio.py:66-67 | a folio with transactions can be deleted only by Administrator holding the delete permission |
| Reservations.ValidateDates | hospitality_core/hospitality_core/doctype/hotel_reservation/hotel_reservation.py:34-36 | passes exactly when arrival is before departure |
| Reservations.ValidationGuards | hospitality_core/hospitality_core/doctype/hotel_reservation/hotel_reservation.py:20-29 | passes exactly when the dates are ordered, a room-holding status has an available room, and a company guest has a company; bad dates are reported first, then an unavailable room, then a missing company |
| Reservations.ValidatedDatesOrdered | hospitality_core/hospitality_core/doctype/hotel_reservation/hotel_reservation.py:34-36 | every validated reservation has arrival before departure |
| Reservations.AvailabilityIgnoredUnlessHeld | hospitality_core/hospitality_core/doctype/hotel_reservation/hotel_reservation.py:23-25 | for a status other than Reserved or Checked In the availability answer cannot change the validation result |
| Reservations.CompanyGuestNeedsCompany | hospitality_core/hospitality_core/doctype/hotel_reservation/hotel_reservation.py:28-29 | a company guest without a company always fails validation |
| Reservations.MasterFolioName | hospitality_core/hospitality_core/doctype/guest_folio/guest_folio.py:11-15 | the inserted master folio's name starts with `MASTER-<key>-` |
| Reservations.NewMasterFolio | hospitality_core/hospitality_core/doctype/hotel_reservation/hotel_reservation.py:68-74 | the inserted folio is an Open company master folio of the company, for the representative guest, opened today, with no transactions |
| Reservations.WithMasterFolio | hospitality_core/hospitality_core/doctype/hotel_reservation/hotel_reservation.py:50-78 | afterwards an Open master folio exists for a set company; if one existed, or no company is set, the folios are unchanged; any added folio is the new master folio |
| Reservations.WithMasterFolioKeepsUnique | hospitality_core/hospitality_core/doctype/hotel_reservation/hotel_reservation.py:56-74 | making sure of a master folio never gives a company a second Open master folio |
| Reservations.WithMasterFolioOnlyAdds | hospitality_core/hospitality_core/doctype/hotel_reservation/hotel_reservation.py:65-74 | with a fresh name, exactly one folio is added and every stored folio is kept |
| Reservations.WithMasterFolioIdempotent | hospitality_core/hospitality_core/doctype/hotel_reservation/hotel_reservation.py:56-65 | a second call changes nothing |
| Reservations.NewMasterFolioIsValid | hospitality_core/hospitality_core/doctype/hotel_reservation/hotel_reservation.py:68-74 | the inserted master folio passes the Guest Folio validation |
| Reservations.Store.GetCorporateGuestName | hospitality_core/hospitality_core/doctype/hotel_reservation/hotel_reservation.py:80-98 | returns a Guest linked to the company; if one exists, guests are unchanged; otherwise a missing Customer is an error and a found one yields exactly one new Guest |
| Reservations.Store.EnsureCompanyFolio | hospitality_core/hospitality_core/doctype/hotel_reservation/hotel_reservation.py:50-78 | afterwards an Open master folio exists for the company; unchanged tables if one existed; no second Open master is ever created; it refuses exactly when a master is needed and neither a representative Guest nor the Customer exists, with no change; otherwise the new folios and guests tables are stated |
| Reservations.Store.Validate | hospitality_core/hospitality_core/doctype/hotel_reservation/hotel_reservation.py:20-32 | refuses exactly when the guards refuse (with the guards' error) or the company's master folio cannot be created (with `CustomerNotFound` for the company), with no change; on success the dates are ordered, a set company has an Open master folio, and the new folios and guests tables are stated |
| Reservations.CheckInGuard | hospitality_core/hospitality_core/doctype/hotel_reservation/hotel_reservation.py:102-106 | passes exactly when the status is Reserved and arrival is not after today, reporting which guard refused |
| Reservations.CheckInFolio | hospitality_core/hospitality_core/doctype/hotel_reservation/hotel_reservation.py:112-123 | the folio is reopened; one room charge is added only when none is dated today and the rate is positive; at most one room charge per day is kept |
| Reservations.CheckInFolioIdempotent | hospitality_core/hospitality_core/doctype/hotel_reservation/hotel_reservation.py:115-123 | checking in twice on the same day charges the night once |
| Reservations.CheckInFolios | hospitality_core/hospitality_core/doctype/hotel_reservation/hotel_reservation.py:112-113 | only the reservation's folio changes, and only when it is set and stored |
| Reservations.SetRoomStatus | hospitality_core/hospitality_core/doctype/hotel_reservation/hotel_reservation.py:110 | the room row, when it exists, gets the new status; no other room changes |
| Reservations.SetReservationStatus | hospitality_core/hospitality_core/doctype/hotel_reservation/hotel_reservation.py:108 | only the status of the reservation's stored row changes |
| Reservations.Store.ProcessCheckIn | hospitality_core/hospitality_core/doctype/hotel_reservation/hotel_reservation.py:100-129 | a refusal changes nothing; success makes the reservation Checked In, the room Occupied and the folio Open and charged at most once per day |
| Reservations.LateCheckInBlocksCheckOut | hospitality_core/hospitality_core/doctype/hotel_reservation/hotel_reservation.py:105-139 | a reservation checked in after its departure date is refused check-out on every later day |
| Reservations.CheckOutGuard | hospitality_core/hospitality_core/doctype/hotel_reservation/hotel_reservation.py:133-139 | passes exactly when the status is Checked In and departure is today, reporting which guard refused |
| Reservations.CompanyLiability | hospitality_core/hospitality_core/doctype/hotel_reservation/hotel_reservation.py:176-185 | the sum is 0 when no line is company-billed and non-void, and not positive when no such line is positive |
| Reservations.CompanyLiabilityAppend | hospitality_core/hospitality_core/doctype/hotel_reservation/hotel_reservation.py:176-185 | the liability of concatenated lines is the sum of their liabilities |
| Reservations.CompanyLiabilityPost | hospitality_core/hospitality_core/doctype/hotel_reservation/hotel_reservation.py:176-185 | a new line adds its amount exactly when it is company-billed and not void |
| Reservations.TransferDecision | hospitality_core/hospitality_core/doctype/hotel_reservation/hotel_reservation.py:175-187 | a transfer is decided exactly when a company is set and the liability is positive, for the whole liability |
| Reservations.CheckOutDecision | hospitality_core/hospitality_core/doctype/hotel_reservation/hotel_reservation.py:131-187 | succeeds exactly when the guards pass, the group master folio (if any) is found and settled, and a set folio is found; otherwise it reports the first of: the guard's error, the missing master folio, the master's outstanding balance, the missing folio; on success a set folio's positive company liability is transferred and nothing is transferred otherwise |
| Reservations.GroupCheckOutNeedsSettledMaster | hospitality_core/hospitality_core/doctype/hotel_reservation/hotel_reservation.py:141-168 | a group guest cannot check out while the group master folio owes more than 0.01 |
| Reservations.Store.ProcessCheckOut | hospitality_core/hospitality_core/doctype/hotel_reservation/hotel_reservation.py:131-197 | returns the check-out decision; a refusal changes nothing; success stores the re-synced group master balance and creates the TRANSFER item when a transfer is decided |

## Left out

- Frappe's database calls, `msgprint` and message translation: the tables are
  the maps of `Store`, refusals are `Fail`/`Err` values without message text.
- `after_insert` and its `create_folio` helper, and `on_cancel` (which does
  nothing): the code of `create_folio` is not part of this model.
- `check_availability`: its answer is the `available` parameter of validation.
- `get_rate`: the nightly rate is the `rate` parameter of check-in.
- `already_charged_today` and `post_room_charge`: their code is not part of
  this model. They are read as "the folio carries a room charge dated today"
  and "append one room charge of the rate, dated today". Who the line is
  billed to is the `billTo` parameter.
- Reservations.CheckInFolios: a folio that is set on the reservation but not
  stored is left untouched; the source still calls `already_charged_today`,
  `get_rate` and `post_room_charge` with that name, and what they do then
  (post, or raise) is not part of this model.
- Reservations.CheckInFolio: does not model any change `post_room_charge` may
  make to the folio's outstanding balance.
- `sync_folio_balance`: the balance it stores on the group master folio is the
  `syncedBalance` parameter of check-out.
- `record_guest_balance`: modelled only as appending the folio's name to the
  list of recorded folios.
- Everything after line 206 of `hotel_reservation.py`, which is cut off there:
  the transfer line, closing the folio and releasing the room. Check-out ends
  at the transfer decision and the creation of the TRANSFER item.
- The naming series (`make_autoname` with `.#####`): the counter is the
  `serial` parameter, and the operations require the resulting name to be
  fresh, which the series guarantees.
- Folios.Autoname: the `MASTER-<key>-` prefix assumes the key holds no `.` or
  `#`, which the naming series would treat as part separators or counter
  digits.
- Folios.CompanyKey: the ten-character bound holds for ASCII names only; in
  Python `"ß".upper() == "SS"`, so the source's key for ten `ß` is twenty
  characters long.
- Folios.UpperChar, Folios.ToUpper: cover ASCII only; in Python
  `'é'.upper() == 'É'`, which the model keeps as `'é'`, and Unicode case
  mapping, which can change a string's length, is not modelled.
- The permission engine and the session user: the `canDelete` and `user`
  parameters of `OnTrash`.
- Date parsing: dates are integers and "today" is a parameter.
- Floating-point amounts: balances and amounts are integer cents, and the
  0.01 threshold is one cent.
- `None` and the empty string are both "unset". A master folio whose company
  is `None` would fail in `autoname` before validation runs.
- Reservations.Store.GetCorporateGuestName: when several Guests represent the
  company, which one the query returns is left open.
- The fresh name of a newly created Guest is the `newGuest` parameter.
