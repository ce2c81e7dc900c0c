/** The Hotel Reservation document: its validation, the company master folio it
    makes sure of, and the check-in and check-out operations. The database the
    hooks read and write is the `Store` class; dates are day numbers, amounts
    integer cents, and an empty string stands for an unset link field. */
module Reservations {
  import opened Outcomes
  import opened Folios

  /** A status text other than the three the hooks name. */
  type OtherStatusText = s: string | s != "Reserved" && s != "Checked In" && s != "Checked Out"
    witness "Cancelled"

  datatype ResStatus = Reserved | CheckedIn | CheckedOut | OtherStatus(text: OtherStatusText)

  /** A room status text other than the one check-in sets. */
  type OtherRoomText = s: string | s != "Occupied" witness "Vacant"

  datatype RoomStatus = Occupied | OtherRoomStatus(text: OtherRoomText)

  /** A Hotel Reservation document, as loaded into memory (`self`). */
  datatype Reservation = Reservation(
    name: string,
    room: string,
    arrivalDate: int,
    departureDate: int,
    status: ResStatus,
    isCompanyGuest: bool,
    company: string,
    folio: string,
    isGroupGuest: bool,
    groupBooking: string)

  /** A Guest record: `full_name`, the `customer` it represents, `guest_type`. */
  datatype Guest = Guest(fullName: string, customer: string, guestType: string)

  /** Why a reservation hook or operation refused. */
  datatype ResError =
    | DepartureNotAfterArrival
    | RoomUnavailable
    | CompanyRequired
    | CustomerNotFound(customer: string)
    | NotReserved
    | BeforeArrival
    | NotCheckedIn
    | NotDepartureDay
    | GroupBalanceOutstanding(balance: int)
    | FolioNotFound(folio: string)

  /** What check-out decides about company-billed charges. */
  datatype Transfer = NoTransfer | TransferToCityLedger(amount: int)

  /** The Item that city-ledger transfer lines are posted against. */
  const TransferItem: string := "TRANSFER"

  // ---------------------------------------------------------------------
  // validate
  // ---------------------------------------------------------------------

  /** The statuses under which a reservation holds its room, so that saving it
      consults room availability. */
  predicate HoldsRoom(s: ResStatus) {
    s == Reserved || s == CheckedIn
  }

  /** `validate_dates`: departure must come strictly after arrival. */
  function ValidateDates(r: Reservation): (o: Outcome<ResError>)
    ensures o.Pass? <==> r.arrivalDate < r.departureDate
    ensures o.Fail? ==> o.error == DepartureNotAfterArrival
  {
    if r.arrivalDate >= r.departureDate then Fail(DepartureNotAfterArrival) else Pass
  }

  /** The refusing part of `validate`, in its order: dates, then room
      availability (reported by the availability service as `available`), then
      the company of a company guest. */
  function ValidationGuards(r: Reservation, available: bool): (o: Outcome<ResError>)
    ensures o.Pass? <==>
      r.arrivalDate < r.departureDate
      && (HoldsRoom(r.status) ==> available)
      && !(r.isCompanyGuest && r.company == "")
    ensures r.arrivalDate >= r.departureDate ==> o == Fail(DepartureNotAfterArrival)
    ensures o == Fail(RoomUnavailable) ==> HoldsRoom(r.status) && !available
    ensures r.arrivalDate < r.departureDate && HoldsRoom(r.status) && !available ==> o == Fail(RoomUnavailable)
    ensures r.arrivalDate < r.departureDate && (HoldsRoom(r.status) ==> available)
      && r.isCompanyGuest && r.company == ""
      ==> o == Fail(CompanyRequired)
  {
    var dates := ValidateDates(r);
    if dates.Fail? then dates
    else if HoldsRoom(r.status) && !available then Fail(RoomUnavailable)
    else if r.isCompanyGuest && r.company == "" then Fail(CompanyRequired)
    else Pass
  }

  /** Every reservation that passes validation has arrival before departure. */
  lemma ValidatedDatesOrdered(r: Reservation, available: bool)
    requires ValidationGuards(r, available).Pass?
    ensures r.arrivalDate < r.departureDate
  {
  }

  /** A reservation that does not hold its room is validated without regard to
      what the availability service would say. */
  lemma AvailabilityIgnoredUnlessHeld(r: Reservation, a1: bool, a2: bool)
    requires !HoldsRoom(r.status)
    ensures ValidationGuards(r, a1) == ValidationGuards(r, a2)
  {
  }

  /** A company guest without a company never passes validation. */
  lemma CompanyGuestNeedsCompany(r: Reservation, available: bool)
    requires r.isCompanyGuest && r.company == ""
    ensures ValidationGuards(r, available).Fail?
  {
  }

  // ---------------------------------------------------------------------
  // ensure_company_folio and get_corporate_guest_name
  // ---------------------------------------------------------------------

  /** The filter of the existence query: Open, company master, this company. */
  predicate IsOpenMasterOf(f: Folio, company: string) {
    f.isCompanyMaster && f.status == Open && f.company == company
  }

  predicate HasOpenMaster(folios: map<string, Folio>, company: string) {
    exists n :: n in folios && IsOpenMasterOf(folios[n], company)
  }

  /** No company has two Open master folios. */
  predicate UniqueOpenMasters(folios: map<string, Folio>) {
    forall a, b ::
      (a in folios && b in folios && folios[a].isCompanyMaster && folios[a].status == Open
       && IsOpenMasterOf(folios[b], folios[a].company))
      ==> a == b
  }

  /** The name `autoname` gives a company master folio of `company` when the
      naming series hands out the counter `serial`. */
  function MasterFolioName(company: string, serial: string): (n: string)
    ensures StartsWith(n, MasterPrefix + CompanyKey(company) + "-")
  {
    Autoname(Folio("", "", company, "", true, Open, 0, 0, []), serial).name
  }

  /** The master folio `ensure_company_folio` inserts. */
  function NewMasterFolio(company: string, guest: string, today: int, serial: string): (f: Folio)
    ensures IsOpenMasterOf(f, company)
    ensures f.guest == guest && f.openDate == today && f.transactions == []
    ensures f.name == MasterFolioName(company, serial)
  {
    Autoname(Folio("", guest, company, "", true, Open, today, 0, []), serial)
  }

  /** The folio table after `ensure_company_folio`, with `guest` the
      representative Guest found or created for the company. */
  function WithMasterFolio(folios: map<string, Folio>, company: string, guest: string, today: int, serial: string)
    : (r: map<string, Folio>)
    ensures company != "" ==> HasOpenMaster(r, company)
    ensures company == "" || HasOpenMaster(folios, company) ==> r == folios
    ensures forall n :: n in r && n !in folios ==> r[n] == NewMasterFolio(company, guest, today, serial)
  {
    if company == "" || HasOpenMaster(folios, company) then folios
    else
      var f := NewMasterFolio(company, guest, today, serial);
      assert IsOpenMasterOf(folios[f.name := f][f.name], company);
      folios[f.name := f]
  }

  /** Making sure of a master folio never creates a second Open master folio
      for any company. */
  lemma WithMasterFolioKeepsUnique(folios: map<string, Folio>, company: string, guest: string, today: int, serial: string)
    requires UniqueOpenMasters(folios)
    ensures UniqueOpenMasters(WithMasterFolio(folios, company, guest, today, serial))
  {
  }

  /** When the new name is fresh, every folio already stored is kept as it was
      and exactly one folio is added. */
  lemma WithMasterFolioOnlyAdds(folios: map<string, Folio>, company: string, guest: string, today: int, serial: string)
    requires company != "" && !HasOpenMaster(folios, company)
    requires MasterFolioName(company, serial) !in folios
    ensures var r := WithMasterFolio(folios, company, guest, today, serial);
      r.Keys == folios.Keys + {MasterFolioName(company, serial)}
      && forall n :: n in folios ==> r[n] == folios[n]
  {
  }

  /** Making sure twice is making sure once: the second call finds the master
      folio the first one created and changes nothing. */
  lemma WithMasterFolioIdempotent(
    folios: map<string, Folio>, company: string, g1: string, t1: int, s1: string, g2: string, t2: int, s2: string)
    ensures var once := WithMasterFolio(folios, company, g1, t1, s1);
      WithMasterFolio(once, company, g2, t2, s2) == once
  {
  }

  /** The inserted master folio passes the Guest Folio's own validation. */
  lemma NewMasterFolioIsValid(company: string, guest: string, today: int, serial: string, companyGuest: map<string, bool>)
    requires company != ""
    ensures Folios.Validate(NewMasterFolio(company, guest, today, serial), companyGuest) == Pass
  {
  }

  /** The company has no Open master folio yet, so one must be created. */
  predicate NeedsMaster(folios: map<string, Folio>, company: string) {
    company != "" && !HasOpenMaster(folios, company)
  }

  predicate HasGuestFor(guests: map<string, Guest>, customer: string) {
    exists g :: g in guests && guests[g].customer == customer
  }

  /** The representative Guest created for a company whose Customer record is
      named `customerName`. */
  function CorporateGuest(company: string, customerName: string): Guest {
    Guest(customerName + " (Master Rep)", company, "Corporate")
  }

  // ---------------------------------------------------------------------
  // process_check_in
  // ---------------------------------------------------------------------

  /** The guards of `process_check_in`. */
  function CheckInGuard(r: Reservation, today: int): (o: Outcome<ResError>)
    ensures o.Pass? <==> r.status == Reserved && r.arrivalDate <= today
    ensures r.status != Reserved ==> o == Fail(NotReserved)
    ensures r.status == Reserved && r.arrivalDate > today ==> o == Fail(BeforeArrival)
  {
    if r.status != Reserved then Fail(NotReserved)
    else if r.arrivalDate > today then Fail(BeforeArrival)
    else Pass
  }

  /** `already_charged_today`: the folio carries a room charge dated `day`. */
  predicate ChargedOn(txns: seq<Txn>, day: int) {
    exists i :: 0 <= i < |txns| && txns[i].isRoomCharge && txns[i].postingDate == day
  }

  /** No two room charges of a folio fall on the same day. */
  predicate OneRoomChargePerDay(txns: seq<Txn>) {
    forall i, j ::
      0 <= i < j < |txns| && txns[i].isRoomCharge && txns[j].isRoomCharge
      ==> txns[i].postingDate != txns[j].postingDate
  }

  /** The line `post_room_charge` adds: a room charge of `rate` dated `day`. */
  function RoomChargeTxn(rate: int, day: int, billTo: BillTo): Txn {
    Txn(rate, billTo, false, day, true)
  }

  /** The folio as check-in leaves it: reopened, and charged for the night
      unless it was already charged today or the rate is not positive. */
  function CheckInFolio(f: Folio, today: int, rate: int, billTo: BillTo): (g: Folio)
    ensures g == f.(status := Open, transactions := g.transactions)
    ensures ChargedOn(f.transactions, today) || rate <= 0 ==> g.transactions == f.transactions
    ensures !ChargedOn(f.transactions, today) && rate > 0 ==>
      g.transactions == f.transactions + [RoomChargeTxn(rate, today, billTo)]
    ensures ChargedOn(g.transactions, today) <==> ChargedOn(f.transactions, today) || rate > 0
    ensures OneRoomChargePerDay(f.transactions) ==> OneRoomChargePerDay(g.transactions)
  {
    var reopened := f.(status := Open);
    if !ChargedOn(f.transactions, today) && rate > 0 then
      var txns := f.transactions + [RoomChargeTxn(rate, today, billTo)];
      assert txns[|f.transactions|].isRoomCharge && txns[|f.transactions|].postingDate == today;
      assert OneRoomChargePerDay(f.transactions) ==> OneRoomChargePerDay(txns) by {
        if OneRoomChargePerDay(f.transactions) {
          forall i, j | 0 <= i < j < |txns| && txns[i].isRoomCharge && txns[j].isRoomCharge
            ensures txns[i].postingDate != txns[j].postingDate
          {
            if j == |f.transactions| {
              assert f.transactions[i] == txns[i];
            } else {
              assert f.transactions[i] == txns[i] && f.transactions[j] == txns[j];
            }
          }
        }
      }
      reopened.(transactions := txns)
    else
      reopened
  }

  /** Checking in twice on the same day charges the night once. */
  lemma CheckInFolioIdempotent(f: Folio, today: int, rate: int, b1: BillTo, b2: BillTo)
    ensures var once := CheckInFolio(f, today, rate, b1);
      CheckInFolio(once, today, rate, b2) == once
  {
  }

  /** The folio table after check-in: the reservation's folio, when it is set
      and found, is reopened and possibly charged; nothing else changes. */
  function CheckInFolios(folios: map<string, Folio>, folio: string, today: int, rate: int, billTo: BillTo)
    : (r: map<string, Folio>)
    ensures r.Keys == folios.Keys
    ensures forall n :: n in folios && n != folio ==> r[n] == folios[n]
    ensures folio != "" && folio in folios ==> r[folio] == CheckInFolio(folios[folio], today, rate, billTo)
    ensures folio == "" || folio !in folios ==> r == folios
  {
    if folio != "" && folio in folios then folios[folio := CheckInFolio(folios[folio], today, rate, billTo)]
    else folios
  }

  /** `frappe.db.set_value` on a row: the row changes if it exists. */
  function SetRoomStatus(rooms: map<string, RoomStatus>, room: string, s: RoomStatus): (r: map<string, RoomStatus>)
    ensures r.Keys == rooms.Keys
    ensures room in rooms ==> r[room] == s
    ensures forall n :: n in rooms && n != room ==> r[n] == rooms[n]
  {
    if room in rooms then rooms[room := s] else rooms
  }

  /** `db_set("status", ...)` on the stored reservation row. */
  function SetReservationStatus(rows: map<string, Reservation>, name: string, s: ResStatus)
    : (r: map<string, Reservation>)
    ensures r.Keys == rows.Keys
    ensures name in rows ==> r[name] == rows[name].(status := s)
    ensures forall n :: n in rows && n != name ==> r[n] == rows[n]
  {
    if name in rows then rows[name := rows[name].(status := s)] else rows
  }

  // ---------------------------------------------------------------------
  // process_check_out, up to the decision to transfer to the city ledger
  // ---------------------------------------------------------------------

  /** Check-in only looks at the arrival date, so a reservation checked in
      after its departure date is refused by the check-out guard on that day
      and on every later one. */
  lemma LateCheckInBlocksCheckOut(r: Reservation, checkInDay: int, laterDay: int)
    requires CheckInGuard(r, checkInDay).Pass? && r.departureDate < checkInDay <= laterDay
    ensures CheckOutGuard(r.(status := CheckedIn), laterDay) == Fail(NotDepartureDay)
  {
  }

  /** The guards of `process_check_out` on status and date. */
  function CheckOutGuard(r: Reservation, today: int): (o: Outcome<ResError>)
    ensures o.Pass? <==> r.status == CheckedIn && r.departureDate == today
    ensures r.status != CheckedIn ==> o == Fail(NotCheckedIn)
    ensures r.status == CheckedIn && r.departureDate != today ==> o == Fail(NotDepartureDay)
  {
    if r.status != CheckedIn then Fail(NotCheckedIn)
    else if r.departureDate != today then Fail(NotDepartureDay)
    else Pass
  }

  /** A transaction the company is liable for: billed to the company, not void. */
  predicate CompanyLiable(t: Txn) {
    t.billTo == BillCompany && !t.isVoid
  }

  /** `SUM(amount)` over the folio's company-billed, non-void lines (0 when
      there are none). */
  function CompanyLiability(txns: seq<Txn>): (total: int)
    ensures (forall i :: 0 <= i < |txns| && CompanyLiable(txns[i]) ==> txns[i].amount <= 0) ==> total <= 0
    ensures (forall i :: 0 <= i < |txns| ==> !CompanyLiable(txns[i])) ==> total == 0
  {
    if txns == [] then 0
    else
      assert forall i :: 0 <= i < |txns[1..]| ==> txns[1..][i] == txns[i + 1];
      (if CompanyLiable(txns[0]) then txns[0].amount else 0) + CompanyLiability(txns[1..])
  }

  /** The liability of two runs of lines is the sum of their liabilities. */
  lemma {:induction false} CompanyLiabilityAppend(a: seq<Txn>, b: seq<Txn>)
    ensures CompanyLiability(a + b) == CompanyLiability(a) + CompanyLiability(b)
  {
    if a == [] {
      assert a + b == b;
    } else {
      assert (a + b)[1..] == a[1..] + b;
      CompanyLiabilityAppend(a[1..], b);
    }
  }

  /** Posting a line adds its amount to the liability exactly when the company
      is liable for it; void and guest-billed lines leave the liability alone. */
  lemma CompanyLiabilityPost(txns: seq<Txn>, t: Txn)
    ensures CompanyLiability(txns + [t]) == CompanyLiability(txns) + (if CompanyLiable(t) then t.amount else 0)
  {
    CompanyLiabilityAppend(txns, [t]);
    assert [t][1..] == [];
  }

  /** The group master folio the reservation's group booking names, or "". */
  function GroupMasterFolio(r: Reservation, groupMasters: map<string, string>): string {
    if r.isGroupGuest && r.groupBooking != "" && r.groupBooking in groupMasters then groupMasters[r.groupBooking]
    else ""
  }

  /** The transfer decision for the reservation's folio. */
  function TransferDecision(company: string, liability: int): (t: Transfer)
    ensures t.TransferToCityLedger? <==> company != "" && liability > 0
    ensures t.TransferToCityLedger? ==> t.amount == liability
  {
    if company != "" && liability > 0 then TransferToCityLedger(liability) else NoTransfer
  }

  /** What `process_check_out` decides, given the balance that re-syncing the
      group master folio produces (`syncedBalance`). */
  function CheckOutDecision(
    r: Reservation, today: int, groupMasters: map<string, string>, folios: map<string, Folio>, syncedBalance: int)
    : (d: Result<Transfer, ResError>)
    ensures d.Ok? ==> r.status == CheckedIn && r.departureDate == today
    ensures d.Ok? && GroupMasterFolio(r, groupMasters) != "" ==> syncedBalance <= SettledLimit
    ensures d.Ok? && d.value.TransferToCityLedger? ==>
      r.company != "" && r.folio in folios && d.value.amount > 0
      && d.value.amount == CompanyLiability(folios[r.folio].transactions)
    ensures CheckOutGuard(r, today).Fail? ==> d == Err(CheckOutGuard(r, today).error)
    ensures d.Ok? <==>
      CheckOutGuard(r, today).Pass?
      && (GroupMasterFolio(r, groupMasters) != "" ==>
            GroupMasterFolio(r, groupMasters) in folios && syncedBalance <= SettledLimit)
      && (r.folio != "" ==> r.folio in folios)
    ensures CheckOutGuard(r, today).Pass? && GroupMasterFolio(r, groupMasters) != ""
      && GroupMasterFolio(r, groupMasters) !in folios
      ==> d == Err(FolioNotFound(GroupMasterFolio(r, groupMasters)))
    ensures CheckOutGuard(r, today).Pass? && GroupMasterFolio(r, groupMasters) != ""
      && GroupMasterFolio(r, groupMasters) in folios && syncedBalance > SettledLimit
      ==> d == Err(GroupBalanceOutstanding(syncedBalance))
    ensures CheckOutGuard(r, today).Pass?
      && (GroupMasterFolio(r, groupMasters) != "" ==>
            GroupMasterFolio(r, groupMasters) in folios && syncedBalance <= SettledLimit)
      && r.folio != "" && r.folio !in folios
      ==> d == Err(FolioNotFound(r.folio))
    ensures d.Ok? && r.folio != "" && r.folio in folios ==>
      d.value == TransferDecision(r.company, CompanyLiability(folios[r.folio].transactions))
    ensures d.Ok? && r.folio == "" ==> d.value == NoTransfer
  {
    var guard := CheckOutGuard(r, today);
    var master := GroupMasterFolio(r, groupMasters);
    if guard.Fail? then Err(guard.error)
    else if master != "" && master !in folios then Err(FolioNotFound(master))
    else if master != "" && syncedBalance > SettledLimit then Err(GroupBalanceOutstanding(syncedBalance))
    else if r.folio == "" then Ok(NoTransfer)
    else if r.folio !in folios then Err(FolioNotFound(r.folio))
    else Ok(TransferDecision(r.company, CompanyLiability(folios[r.folio].transactions)))
  }

  /** A group guest cannot check out while the group's master folio owes more
      than one cent. */
  lemma GroupCheckOutNeedsSettledMaster(
    r: Reservation, today: int, groupMasters: map<string, string>, folios: map<string, Folio>, syncedBalance: int)
    requires GroupMasterFolio(r, groupMasters) != "" && syncedBalance > SettledLimit
    ensures CheckOutDecision(r, today, groupMasters, folios, syncedBalance).Err?
  {
  }

  // ---------------------------------------------------------------------
  // The database
  // ---------------------------------------------------------------------

  /** The tables the hooks read and write. */
  class Store {
    var folios: map<string, Folio>
    var guests: map<string, Guest>
    /** Customer name -> its `customer_name`. */
    var customers: map<string, string>
    var rooms: map<string, RoomStatus>
    var reservations: map<string, Reservation>
    /** Hotel Group Booking -> its `master_folio` ("" when unset). */
    var groupMasters: map<string, string>
    var items: set<string>

    /** Every folio carries at most one room charge per day. */
    ghost predicate Valid()
      reads this
    {
      forall n :: n in folios ==> OneRoomChargePerDay(folios[n].transactions)
    }

    constructor ()
      ensures Valid()
      ensures folios == map[] && guests == map[] && customers == map[] && rooms == map[]
      ensures reservations == map[] && groupMasters == map[] && items == {}
    {
      folios, guests, customers, rooms := map[], map[], map[], map[];
      reservations, groupMasters, items := map[], map[], {};
    }

    /** `get_corporate_guest_name`: the Guest that represents the company,
        inserted under the fresh name `newGuest` when there is none yet. */
    method GetCorporateGuestName(r: Reservation, newGuest: string) returns (res: Result<string, ResError>)
      requires newGuest !in guests
      modifies this`guests
      ensures res.Ok? ==> res.value in guests && guests[res.value].customer == r.company
      ensures HasGuestFor(old(guests), r.company) ==> res.Ok? && guests == old(guests)
      ensures !HasGuestFor(old(guests), r.company) && r.company !in customers ==>
        res == Err(CustomerNotFound(r.company)) && guests == old(guests)
      ensures !HasGuestFor(old(guests), r.company) && r.company in customers ==>
        res == Ok(newGuest) && guests == old(guests)[newGuest := CorporateGuest(r.company, customers[r.company])]
    {
      if HasGuestFor(guests, r.company) {
        var g :| g in guests && guests[g].customer == r.company;
        res := Ok(g);
      } else if r.company !in customers {
        res := Err(CustomerNotFound(r.company));
      } else {
        guests := guests[newGuest := CorporateGuest(r.company, customers[r.company])];
        res := Ok(newGuest);
      }
    }

    /** `ensure_company_folio`: afterwards an Open master folio exists for the
        reservation's company; if one existed, nothing changed. */
    method EnsureCompanyFolio(r: Reservation, today: int, serial: string, newGuest: string)
      returns (res: Outcome<ResError>)
      requires Valid()
      requires newGuest !in guests
      requires MasterFolioName(r.company, serial) !in folios
      modifies this`folios, this`guests
      ensures Valid()
      ensures UniqueOpenMasters(old(folios)) ==> UniqueOpenMasters(folios)
      ensures r.company == "" || HasOpenMaster(old(folios), r.company) ==>
        res == Pass && folios == old(folios) && guests == old(guests)
      ensures res.Pass? && r.company != "" ==> HasOpenMaster(folios, r.company)
      ensures res.Fail? <==>
        NeedsMaster(old(folios), r.company) && !HasGuestFor(old(guests), r.company) && r.company !in customers
      ensures res.Fail? ==>
        res.error == CustomerNotFound(r.company) && folios == old(folios) && guests == old(guests)
      ensures res.Pass? && NeedsMaster(old(folios), r.company) ==>
        exists g :: g in guests && guests[g].customer == r.company
          && folios == WithMasterFolio(old(folios), r.company, g, today, serial)
      ensures NeedsMaster(old(folios), r.company) && HasGuestFor(old(guests), r.company) ==>
        guests == old(guests)
      ensures NeedsMaster(old(folios), r.company) && !HasGuestFor(old(guests), r.company) && r.company in customers ==>
        guests == old(guests)[newGuest := CorporateGuest(r.company, customers[r.company])]
        && folios == WithMasterFolio(old(folios), r.company, newGuest, today, serial)
    {
      if r.company == "" {
        return Pass;
      }
      if !HasOpenMaster(folios, r.company) {
        var oldGuests := guests;
        var guest := GetCorporateGuestName(r, newGuest);
        if guest.Err? {
          return Fail(guest.error);
        }
        ghost var before := folios;
        if UniqueOpenMasters(before) {
          WithMasterFolioKeepsUnique(before, r.company, guest.value, today, serial);
        }
        folios := WithMasterFolio(folios, r.company, guest.value, today, serial);
        assert guest.value in guests && guests[guest.value].customer == r.company;
      }
      res := Pass;
    }

    /** `validate`: the guards, then, for a reservation with a company,
        `ensure_company_folio`. */
    method Validate(r: Reservation, available: bool, today: int, serial: string, newGuest: string)
      returns (res: Outcome<ResError>)
      requires Valid()
      requires newGuest !in guests
      requires MasterFolioName(r.company, serial) !in folios
      modifies this`folios, this`guests
      ensures Valid()
      ensures UniqueOpenMasters(old(folios)) ==> UniqueOpenMasters(folios)
      ensures ValidationGuards(r, available).Fail? ==>
        res == ValidationGuards(r, available) && folios == old(folios) && guests == old(guests)
      ensures res.Pass? ==> ValidationGuards(r, available).Pass? && r.arrivalDate < r.departureDate
      ensures res.Pass? && r.company != "" ==> HasOpenMaster(folios, r.company)
      ensures res.Fail? ==> folios == old(folios) && guests == old(guests)
      ensures ValidationGuards(r, available).Pass? && (r.company == "" || HasOpenMaster(old(folios), r.company)) ==>
        res == Pass && folios == old(folios) && guests == old(guests)
      ensures res.Fail? <==>
        ValidationGuards(r, available).Fail?
        || (NeedsMaster(old(folios), r.company) && !HasGuestFor(old(guests), r.company) && r.company !in customers)
      ensures (ValidationGuards(r, available).Pass? && NeedsMaster(old(folios), r.company)
               && !HasGuestFor(old(guests), r.company) && r.company !in customers) ==>
        res == Fail(CustomerNotFound(r.company))
      ensures res.Pass? && NeedsMaster(old(folios), r.company) ==>
        exists g :: g in guests && guests[g].customer == r.company
          && folios == WithMasterFolio(old(folios), r.company, g, today, serial)
      ensures (ValidationGuards(r, available).Pass? && NeedsMaster(old(folios), r.company)
               && HasGuestFor(old(guests), r.company)) ==>
        guests == old(guests)
      ensures (ValidationGuards(r, available).Pass? && NeedsMaster(old(folios), r.company)
               && !HasGuestFor(old(guests), r.company) && r.company in customers) ==>
        guests == old(guests)[newGuest := CorporateGuest(r.company, customers[r.company])]
        && folios == WithMasterFolio(old(folios), r.company, newGuest, today, serial)
    {
      res := ValidationGuards(r, available);
      if res.Pass? && r.company != "" {
        res := EnsureCompanyFolio(r, today, serial, newGuest);
      }
    }

    /** `process_check_in`: from Reserved and not before arrival, the
        reservation becomes Checked In, its room Occupied and its folio Open,
        and the night is charged at most once per day. */
    method ProcessCheckIn(r: Reservation, today: int, rate: int, billTo: BillTo)
      returns (res: Result<Reservation, ResError>)
      requires Valid()
      modifies this`reservations, this`rooms, this`folios
      ensures Valid()
      ensures CheckInGuard(r, today).Fail? ==>
        res == Err(CheckInGuard(r, today).error)
        && reservations == old(reservations) && rooms == old(rooms) && folios == old(folios)
      ensures CheckInGuard(r, today).Pass? ==>
        res == Ok(r.(status := CheckedIn))
        && reservations == SetReservationStatus(old(reservations), r.name, CheckedIn)
        && rooms == SetRoomStatus(old(rooms), r.room, Occupied)
        && folios == CheckInFolios(old(folios), r.folio, today, rate, billTo)
      ensures UniqueOpenMasters(old(folios)) && (r.folio in old(folios) ==> !old(folios)[r.folio].isCompanyMaster) ==>
        UniqueOpenMasters(folios)
    {
      var guard := CheckInGuard(r, today);
      if guard.Fail? {
        return Err(guard.error);
      }
      reservations := SetReservationStatus(reservations, r.name, CheckedIn);
      rooms := SetRoomStatus(rooms, r.room, Occupied);
      folios := CheckInFolios(folios, r.folio, today, rate, billTo);
      res := Ok(r.(status := CheckedIn));
    }

    /** `process_check_out` up to the transfer decision: the group master folio
        is re-synced to `syncedBalance` and must be settled, and a transfer of
        the company's liability is decided, creating the TRANSFER item if
        missing. A refusal leaves every table as it was. */
    method ProcessCheckOut(r: Reservation, today: int, syncedBalance: int)
      returns (res: Result<Transfer, ResError>)
      requires Valid()
      modifies this`folios, this`items
      ensures Valid()
      ensures res == CheckOutDecision(r, today, groupMasters, old(folios), syncedBalance)
      ensures res.Err? ==> folios == old(folios) && items == old(items)
      ensures res.Ok? && GroupMasterFolio(r, groupMasters) == "" ==> folios == old(folios)
      ensures res.Ok? && GroupMasterFolio(r, groupMasters) != "" ==>
        var m := GroupMasterFolio(r, groupMasters);
        m in old(folios) && folios == old(folios)[m := old(folios)[m].(outstandingBalance := syncedBalance)]
      ensures res.Ok? && res.value.TransferToCityLedger? ==> items == old(items) + {TransferItem}
      ensures res.Ok? && res.value.NoTransfer? ==> items == old(items)
    {
      var guard := CheckOutGuard(r, today);
      if guard.Fail? {
        return Err(guard.error);
      }
      var master := GroupMasterFolio(r, groupMasters);
      var stored := folios;
      if master != "" {
        if master !in folios {
          return Err(FolioNotFound(master));
        }
        if syncedBalance > SettledLimit {
          return Err(GroupBalanceOutstanding(syncedBalance));
        }
        folios := folios[master := folios[master].(outstandingBalance := syncedBalance)];
      }
      if r.folio == "" {
        return Ok(NoTransfer);
      }
      if r.folio !in folios {
        folios := stored;
        return Err(FolioNotFound(r.folio));
      }
      var decision := TransferDecision(r.company, CompanyLiability(folios[r.folio].transactions));
      if decision.TransferToCityLedger? && TransferItem !in items {
        items := items + {TransferItem};
      }
      res := Ok(decision);
    }
  }
}
