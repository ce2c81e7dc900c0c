/** The Guest Folio document: its records, its naming rule and the guards that
    run when a folio is validated, saved or deleted. Amounts are integer cents. */
module Folios {
  import opened Outcomes

  /** Who a Folio Transaction line is billed to (`bill_to`). */
  datatype BillTo = BillGuest | BillCompany

  /** One Folio Transaction row of a folio. */
  datatype Txn = Txn(
    amount: int,
    billTo: BillTo,
    isVoid: bool,
    postingDate: int,
    isRoomCharge: bool)

  datatype FolioStatus = Open | Closed

  /** A Guest Folio record; an empty string stands for an unset link field. */
  datatype Folio = Folio(
    name: string,
    guest: string,
    company: string,
    reservation: string,
    isCompanyMaster: bool,
    status: FolioStatus,
    openDate: int,
    outstandingBalance: int,
    transactions: seq<Txn>)

  /** Why a folio hook refused. */
  datatype FolioError =
    | MasterNeedsCompany
    | UnsettledBalance(balance: int)
    | DeleteNotPermitted
    | AdministratorOnlyDelete

  /** The account allowed to delete folios that carry transactions. */
  const Administrator: string := "Administrator"

  /** A balance of at most 0.01, i.e. one cent, counts as settled. */
  const SettledLimit: int := 1

  /** How many characters of the company name the master-folio key keeps. */
  const CompanyKeyLength: nat := 10

  const MasterPrefix: string := "MASTER-"
  const FolioPrefix: string := "FOLIO-"

  predicate StartsWith(s: string, p: string) {
    |p| <= |s| && s[..|p|] == p
  }

  predicate NoSpaces(s: string) {
    forall i :: 0 <= i < |s| ==> s[i] != ' '
  }

  predicate IsLowerAscii(c: char) {
    'a' <= c <= 'z'
  }

  /** No character of `s` is an ASCII lower-case letter `a`-`z`. */
  predicate IsUpperCase(s: string) {
    forall i :: 0 <= i < |s| ==> !IsLowerAscii(s[i])
  }

  // ---------------------------------------------------------------------
  // The company-key sanitiser of `autoname`: replace(" ", ""), [:10], upper()
  // ---------------------------------------------------------------------

  /** `s` with every space character removed, the rest kept in order. */
  function RemoveSpaces(s: string): (r: string)
    ensures NoSpaces(r)
    ensures |r| <= |s|
    ensures forall c :: c in r ==> c in s
  {
    if s == [] then []
    else if s[0] == ' ' then RemoveSpaces(s[1..])
    else [s[0]] + RemoveSpaces(s[1..])
  }

  /** Removing spaces distributes over concatenation; with the one-character
      cases this pins down `RemoveSpaces` completely. */
  lemma {:induction false} RemoveSpacesAppend(a: string, b: string)
    ensures RemoveSpaces(a + b) == RemoveSpaces(a) + RemoveSpaces(b)
  {
    if a == [] {
      assert a + b == b;
    } else {
      assert (a + b)[1..] == a[1..] + b;
      RemoveSpacesAppend(a[1..], b);
    }
  }

  /** A string without spaces is left as it is, and only such a string is. */
  lemma {:induction false} RemoveSpacesFixpoint(s: string)
    ensures RemoveSpaces(s) == s <==> NoSpaces(s)
  {
    if s != [] {
      RemoveSpacesFixpoint(s[1..]);
      if s[0] == ' ' {
        assert |RemoveSpaces(s)| < |s|;
      } else {
        assert NoSpaces(s) ==> NoSpaces(s[1..]);
        assert RemoveSpaces(s) == [s[0]] + RemoveSpaces(s[1..]);
        if RemoveSpaces(s) == s {
          assert RemoveSpaces(s[1..]) == s[1..];
        }
      }
    }
  }

  /** Python's `[:n]`: the first `n` characters, or all of them if fewer. */
  function Take(s: string, n: nat): (r: string)
    ensures |r| == if |s| <= n then |s| else n
    ensures |s| <= n ==> r == s
    ensures StartsWith(s, r)
  {
    if |s| <= n then s else s[..n]
  }

  /** `str.upper()` on one ASCII character. */
  function UpperChar(c: char): (u: char)
    ensures !IsLowerAscii(u)
    ensures !IsLowerAscii(c) ==> u == c
    ensures IsLowerAscii(c) ==> u as int == c as int - 32
  {
    if IsLowerAscii(c) then (c as int - 32) as char else c
  }

  /** `str.upper()` character by character. */
  function ToUpper(s: string): (r: string)
    ensures |r| == |s|
    ensures forall i :: 0 <= i < |s| ==> r[i] == UpperChar(s[i])
    ensures IsUpperCase(r)
  {
    if s == [] then [] else [UpperChar(s[0])] + ToUpper(s[1..])
  }

  /** The key that identifies a company inside master-folio names: at most ten
      characters, no spaces, upper case. */
  function CompanyKey(company: string): (k: string)
    ensures NoSpaces(k)
    ensures |k| <= CompanyKeyLength
    ensures IsUpperCase(k)
    ensures |k| == if |RemoveSpaces(company)| <= CompanyKeyLength then |RemoveSpaces(company)| else CompanyKeyLength
    ensures forall i :: 0 <= i < |k| ==> k[i] == UpperChar(RemoveSpaces(company)[i])
  {
    var key := ToUpper(Take(RemoveSpaces(company), CompanyKeyLength));
    assert forall i :: 0 <= i < |key| ==> key[i] != ' ' by {
      forall i | 0 <= i < |key| ensures key[i] != ' ' {
        var t := Take(RemoveSpaces(company), CompanyKeyLength);
        assert t[i] in RemoveSpaces(company);
      }
    }
    key
  }

  /** Upper-casing an upper-case string changes nothing. */
  lemma ToUpperOfUpperCase(s: string)
    requires IsUpperCase(s)
    ensures ToUpper(s) == s
  {
  }

  /** Sanitising a key again yields the same key: the key is a normal form. */
  lemma CompanyKeyIdempotent(company: string)
    ensures CompanyKey(CompanyKey(company)) == CompanyKey(company)
  {
    var k := CompanyKey(company);
    RemoveSpacesFixpoint(k);
    ToUpperOfUpperCase(k);
  }

  // ---------------------------------------------------------------------
  // autoname
  // ---------------------------------------------------------------------

  /** The text handed to the naming series: `MASTER-<key>-` for company
      master folios and `FOLIO-` for all others. It ends with the separator
      `-`, has no spaces, is never longer than eighteen characters, and its
      first character tells the two kinds apart. */
  function SeriesPrefix(isCompanyMaster: bool, company: string): (p: string)
    ensures StartsWith(p, if isCompanyMaster then MasterPrefix else FolioPrefix)
    ensures p[0] == if isCompanyMaster then 'M' else 'F'
    ensures p[|p| - 1] == '-'
    ensures NoSpaces(p)
    ensures |p| <= |MasterPrefix| + CompanyKeyLength + 1
  {
    if isCompanyMaster then MasterPrefix + CompanyKey(company) + "-" else FolioPrefix
  }

  /** `autoname`: only the name changes, and it is the series prefix followed
      by the counter `serial` that the naming series hands out. */
  function Autoname(f: Folio, serial: string): (r: Folio)
    ensures r == f.(name := r.name)
    ensures f.isCompanyMaster ==> StartsWith(r.name, MasterPrefix + CompanyKey(f.company) + "-")
    ensures !f.isCompanyMaster ==> StartsWith(r.name, FolioPrefix)
    ensures |serial| <= |r.name| && r.name[|r.name| - |serial|..] == serial
  {
    var p := SeriesPrefix(f.isCompanyMaster, f.company);
    assert (p + serial)[..|p|] == p;
    f.(name := p + serial)
  }

  /** A master-folio name and a standard folio name never coincide, whatever
      the counters: the two naming schemes are disjoint. */
  lemma NamingSchemesDisjoint(master: Folio, standard: Folio, s1: string, s2: string)
    requires master.isCompanyMaster && !standard.isCompanyMaster
    ensures Autoname(master, s1).name != Autoname(standard, s2).name
  {
  }

  // ---------------------------------------------------------------------
  // validate: validate_status_change, then validate_master_folio
  // ---------------------------------------------------------------------

  /** `validate_master_folio`: a company master folio must name its company.
      A standard folio without a reservation is accepted (that branch does
      nothing). */
  function ValidateMasterFolio(f: Folio): (o: Outcome<FolioError>)
    ensures o.Fail? <==> f.isCompanyMaster && f.company == ""
    ensures o.Fail? ==> o.error == MasterNeedsCompany
    ensures !f.isCompanyMaster ==> o == Pass
  {
    if f.isCompanyMaster && f.company == "" then Fail(MasterNeedsCompany) else Pass
  }

  /** Whether the folio's reservation is a company guest: the
      `is_company_guest` flag looked up in `companyGuest`, a folio without a
      reservation, or with a reservation that is not found, is not. */
  predicate BelongsToCompanyGuest(f: Folio, companyGuest: map<string, bool>) {
    f.reservation != "" && f.reservation in companyGuest && companyGuest[f.reservation]
  }

  /** `validate_status_change`: a folio may be Closed only once its balance is
      settled, unless its reservation is billed to a company. */
  function ValidateStatusChange(f: Folio, companyGuest: map<string, bool>): (o: Outcome<FolioError>)
    ensures o.Fail? <==>
      f.status == Closed && !BelongsToCompanyGuest(f, companyGuest) && f.outstandingBalance > SettledLimit
    ensures o.Fail? ==> o.error == UnsettledBalance(f.outstandingBalance)
  {
    if f.status == Closed then
      var isCompanyGuest := BelongsToCompanyGuest(f, companyGuest);
      if !isCompanyGuest && f.outstandingBalance > SettledLimit then
        Fail(UnsettledBalance(f.outstandingBalance))
      else
        Pass
    else
      Pass
  }

  /** `validate`: the status check runs first, then the master-folio check. */
  function Validate(f: Folio, companyGuest: map<string, bool>): (o: Outcome<FolioError>)
    ensures o.Pass? <==> ValidateStatusChange(f, companyGuest).Pass? && ValidateMasterFolio(f).Pass?
    ensures ValidateStatusChange(f, companyGuest).Fail? ==> o == ValidateStatusChange(f, companyGuest)
    ensures ValidateStatusChange(f, companyGuest).Pass? ==> o == ValidateMasterFolio(f)
  {
    var status := ValidateStatusChange(f, companyGuest);
    if status.Fail? then status else ValidateMasterFolio(f)
  }

  /** The settlement invariant of a saved folio: a Closed folio that is not a
      company guest's has a balance of at most one cent, and a master folio has
      a company. */
  lemma SavedFolioInvariant(f: Folio, companyGuest: map<string, bool>)
    requires Validate(f, companyGuest).Pass?
    ensures f.status == Closed && !BelongsToCompanyGuest(f, companyGuest) ==> f.outstandingBalance <= SettledLimit
    ensures f.isCompanyMaster ==> f.company != ""
  {
  }

  /** An Open folio passes the balance check whatever its balance. */
  lemma OpenFolioNeverFailsBalance(f: Folio, companyGuest: map<string, bool>, balance: int)
    requires f.status == Open
    ensures ValidateStatusChange(f.(outstandingBalance := balance), companyGuest) == Pass
  {
  }

  // ---------------------------------------------------------------------
  // after_save and on_trash
  // ---------------------------------------------------------------------

  /** `after_save`: `recorded` lists the folios passed to the guest-balance
      recorder; the saved folio is appended to it exactly when it is Closed. */
  function AfterSave(f: Folio, recorded: seq<string>): (r: seq<string>)
    ensures |r| == |recorded| + 1 <==> f.status == Closed
    ensures f.status != Closed ==> r == recorded
    ensures r[..|recorded|] == recorded
    ensures f.status == Closed ==> r[|recorded|] == f.name
  {
    if f.status == Closed then recorded + [f.name] else recorded
  }

  /** `on_trash`: deletion needs the delete permission, and a folio with
      transactions may only be deleted by the Administrator. */
  function OnTrash(f: Folio, canDelete: bool, user: string): (o: Outcome<FolioError>)
    ensures !canDelete ==> o == Fail(DeleteNotPermitted)
    ensures canDelete ==> (o.Pass? <==> f.transactions == [] || user == Administrator)
    ensures canDelete && o.Fail? ==> o.error == AdministratorOnlyDelete
  {
    if !canDelete then Fail(DeleteNotPermitted)
    else if f.transactions != [] && user != Administrator then Fail(AdministratorOnlyDelete)
    else Pass
  }

  /** A folio with transactions can be deleted by exactly one account. */
  lemma OnlyAdministratorDeletesUsedFolio(f: Folio, canDelete: bool, user: string)
    requires f.transactions != []
    ensures OnTrash(f, canDelete, user).Pass? <==> canDelete && user == Administrator
  {
  }
}
