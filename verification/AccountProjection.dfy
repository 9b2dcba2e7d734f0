/**
 The field projection of cached account rows (app/bss/adapters/portaswitch/adapter.py,
 `_project_account`), next to the two readers it must not disturb: the contact builder
 (serializer.py, `get_contact_info_by_account`, `_parse_sms_numbers`) and the local filter
 (`_passes_filter` inside `retrieve_contacts_v2`).

 A row is a JSON object. Its two nested lists are kept apart from its other fields; each is
 absent, null, or a list whose items need not be objects. A reader answers None where the
 original raises.
 */
module AccountProjection {
  import opened Prelude

  datatype Value = Null | Text(s: string) | Number(n: int)
  {
    /** Python truth. */
    predicate Truthy() {
      match this
      case Null => false
      case Text(s) => s != ""
      case Number(n) => n != 0
    }
  }

  type Fields = map<string, Value>

  datatype Item = Object(fields: Fields) | NotAnObject

  datatype Nested = NullList | Items(items: seq<Item>)

  datatype Account = Account(fields: Fields, lists: map<string, Nested>)

  const CACHE_FIELDS: set<string> := {
    "i_account", "i_customer", "id", "firstname", "lastname", "companyname", "email", "extension_id",
    "extension_name", "sip_status", "status", "dual_version_system", "did_number", "i_master_account",
    "billing_model"}

  const ALIASES := "alias_list"
  const ALIAS_KEY := "id"
  const DIDS := "alias_did_number_list"
  const DID_KEY := "did_number"

  /** account.get(field, default) */
  function Get(f: Fields, field: string, default: Value): Value {
    if field in f then f[field] else default
  }

  // ---- the projection ----

  /** The nested rows that have the key, reduced to it. */
  function Kept(items: seq<Item>, key: string): seq<Item> {
    if items == [] then []
    else
      (if items[0].Object? && key in items[0].fields then [Object(map[key := items[0].fields[key]])] else [])
      + Kept(items[1..], key)
  }

  function ProjectList(a: Account, list: string, key: string): Nested {
    Items(if list in a.lists && a.lists[list].Items? then Kept(a.lists[list].items, key) else [])
  }

  function Project(a: Account): Account {
    Account(map k | k in a.fields && k in CACHE_FIELDS :: a.fields[k],
            map[ALIASES := ProjectList(a, ALIASES, ALIAS_KEY), DIDS := ProjectList(a, DIDS, DID_KEY)])
  }

  // ---- the readers ----

  /** [row[key] for row in rows], or None where that raises. */
  function ReadEach(items: seq<Item>, key: string): Option<seq<Value>> {
    if items == [] then Some([])
    else if !items[0].Object? || key !in items[0].fields then None
    else
      match ReadEach(items[1..], key)
      case None => None
      case Some(vs) => Some([items[0].fields[key]] + vs)
  }

  /** [row[key] for row in account.get(list, [])] */
  function ReadList(a: Account, list: string, key: string): Option<seq<Value>> {
    if list !in a.lists then Some([])
    else if a.lists[list].NullList? then None
    else ReadEach(a.lists[list].items, key)
  }

  function SmsNumbers(a: Account): Option<seq<Value>> {
    var did := Get(a.fields, DID_KEY, Null);
    match ReadList(a, DIDS, DID_KEY)
    case None => None
    case Some(numbers) => Some(if did.Truthy() then numbers + [did] else numbers)
  }

  /** The parts of ContactInfo; `email` is the field its first address is taken from. */
  datatype Contact = Contact(
    userId: Value, isCurrentUser: bool, aliasName: Value, companyName: Value, email: Value,
    firstName: Value, lastName: Value, additional: seq<Value>, ext: Value, main: Value, sms: seq<Value>,
    registered: bool)

  predicate HasRequired(f: Fields) {
    "i_account" in f && "id" in f && "sip_status" in f
  }

  function ContactOf(a: Account, currentUser: int): Option<Contact> {
    var f := a.fields;
    var additional, sms := ReadList(a, ALIASES, ALIAS_KEY), SmsNumbers(a);
    if !HasRequired(f) || additional == None || sms == None then None
    else Some(Contact(
      f["i_account"], f["i_account"] == Number(currentUser), Get(f, "extension_name", Null),
      Get(f, "companyname", Text("")), Get(f, "email", Null), Get(f, "firstname", Text("")),
      Get(f, "lastname", Text("")), additional.value, Get(f, "extension_id", Text("")), f["id"], sms.value,
      f["sip_status"] == Number(1)))
  }

  /** The settings and the hierarchy's extension list, as the filter sees them. */
  datatype FilterConfig = FilterConfig(skipWithoutExtension: bool, isHierarchy: bool, extensionAccounts: set<int>, currentUser: int)

  function PassesFilter(c: FilterConfig, a: Account): Option<bool> {
    var f := a.fields;
    var extension := Get(f, "extension_id", Null);
    if Get(f, "status", Null) == Text("blocked") then Some(false)
    else if Get(f, "dual_version_system", Null) == Text("source") then Some(false)
    else if !extension.Truthy() && c.isHierarchy && "i_account" !in f then None
    else
      var hasExtension := extension.Truthy() ||
        (c.isHierarchy && f["i_account"].Number? && f["i_account"].n in c.extensionAccounts);
      if c.skipWithoutExtension && !hasExtension then Some(false)
      else if "i_account" !in f then None
      else Some(f["i_account"] != Number(c.currentUser))
  }

  // ---- what the readers show ----

  /** A well-formed list is read item by item. */
  lemma {:induction false} ReadEachIs(items: seq<Item>, key: string)
    ensures ReadEach(items, key).Some? <==> forall i :: 0 <= i < |items| ==> items[i].Object? && key in items[i].fields
    ensures ReadEach(items, key).Some? ==>
      |ReadEach(items, key).value| == |items|
      && forall i :: 0 <= i < |items| ==> ReadEach(items, key).value[i] == items[i].fields[key]
  {
    if items != [] {
      ReadEachIs(items[1..], key);
    }
  }

  /** The numbers under a key of a nested list; none when the list is absent. */
  ghost predicate NumbersOf(a: Account, list: string, key: string, numbers: seq<Value>) {
    if list !in a.lists then numbers == []
    else
      a.lists[list].Items? && |numbers| == |a.lists[list].items| &&
      forall i :: 0 <= i < |numbers| ==>
        a.lists[list].items[i].Object? && key in a.lists[list].items[i].fields
        && numbers[i] == a.lists[list].items[i].fields[key]
  }

  /** The contact of a row that has one, field by field. Its SMS numbers are the additional DIDs and behind
      them the row's own DID, if it is not empty. */
  lemma ContactShows(a: Account, currentUser: int)
    ensures ContactOf(a, currentUser).Some? <==> HasRequired(a.fields) && WellFormed(a)
    ensures ContactOf(a, currentUser).Some? ==>
      var c, f := ContactOf(a, currentUser).value, a.fields;
      && "i_account" in f && c.userId == f["i_account"] && (c.isCurrentUser <==> f["i_account"] == Number(currentUser))
      && "id" in f && c.main == f["id"]
      && "sip_status" in f && (c.registered <==> f["sip_status"] == Number(1))
      && c.aliasName == (if "extension_name" in f then f["extension_name"] else Null)
      && c.companyName == (if "companyname" in f then f["companyname"] else Text(""))
      && c.email == (if "email" in f then f["email"] else Null)
      && c.firstName == (if "firstname" in f then f["firstname"] else Text(""))
      && c.lastName == (if "lastname" in f then f["lastname"] else Text(""))
      && c.ext == (if "extension_id" in f then f["extension_id"] else Text(""))
      && NumbersOf(a, "alias_list", "id", c.additional)
      && exists numbers :: NumbersOf(a, "alias_did_number_list", "did_number", numbers)
           && c.sms == numbers + (if "did_number" in f && f["did_number"] != Null && f["did_number"] != Text("")
                                     && f["did_number"] != Number(0) then [f["did_number"]] else [])
  {
    if ALIASES in a.lists && a.lists[ALIASES].Items? { ReadEachIs(a.lists[ALIASES].items, ALIAS_KEY); }
    if DIDS in a.lists && a.lists[DIDS].Items? { ReadEachIs(a.lists[DIDS].items, DID_KEY); }
    var numbers := ReadList(a, DIDS, DID_KEY);
    if numbers.Some? {
      assert NumbersOf(a, "alias_did_number_list", "did_number", numbers.value);
      assert numbers.value + [] == numbers.value;
    }
  }

  /** Exactly which accounts the filter shows: not blocked, not the source of a dual-version pair, with an
      extension where one is asked for (its own, or in a hierarchy one of the main office), and not the
      caller's own. */
  lemma PassesIff(c: FilterConfig, a: Account)
    ensures PassesFilter(c, a) == Some(true) <==>
      var f := a.fields;
      && !("status" in f && f["status"] == Text("blocked"))
      && !("dual_version_system" in f && f["dual_version_system"] == Text("source"))
      && "i_account" in f && f["i_account"] != Number(c.currentUser)
      && (c.skipWithoutExtension ==>
            || ("extension_id" in f && f["extension_id"] != Null && f["extension_id"] != Text("") && f["extension_id"] != Number(0))
            || (c.isHierarchy && f["i_account"].Number? && f["i_account"].n in c.extensionAccounts))
  {
  }

  // ---- what the projection keeps ----

  /** Every item of a nested list has the key that is read from it. */
  predicate WellFormedList(a: Account, list: string, key: string) {
    list in a.lists ==>
      a.lists[list].Items? &&
      forall i :: 0 <= i < |a.lists[list].items| ==> a.lists[list].items[i].Object? && key in a.lists[list].items[i].fields
  }

  predicate WellFormed(a: Account) {
    WellFormedList(a, ALIASES, ALIAS_KEY) && WellFormedList(a, DIDS, DID_KEY)
  }

  lemma {:induction false} KeptIsReadable(items: seq<Item>, key: string)
    ensures ReadEach(Kept(items, key), key).Some?
    ensures ReadEach(items, key).Some? <==> forall i :: 0 <= i < |items| ==> items[i].Object? && key in items[i].fields
    ensures ReadEach(items, key).Some? ==> ReadEach(Kept(items, key), key) == ReadEach(items, key)
  {
    if items != [] {
      KeptIsReadable(items[1..], key);
      var rest := Kept(items[1..], key);
      if items[0].Object? && key in items[0].fields {
        assert ([Object(map[key := items[0].fields[key]])] + rest)[1..] == rest;
      } else {
        assert Kept(items, key) == rest;
      }
    }
  }

  /** One list: the projected row is always readable, the full row only when well-formed, and then
      they read the same. */
  lemma ListSurvives(a: Account, list: string, key: string)
    requires (list == ALIASES && key == ALIAS_KEY) || (list == DIDS && key == DID_KEY)
    ensures ReadList(Project(a), list, key).Some?
    ensures ReadList(a, list, key).Some? <==> WellFormedList(a, list, key)
    ensures WellFormedList(a, list, key) ==> ReadList(Project(a), list, key) == ReadList(a, list, key)
  {
    assert ALIASES[6] == 'l' && DIDS[6] == 'd';
    assert Project(a).lists[list] == ProjectList(a, list, key);
    if list in a.lists && a.lists[list].Items? {
      KeptIsReadable(a.lists[list].items, key);
    }
  }

  /** Exactly when a cached row and a live row serialise alike: their nested rows are well-formed,
      or neither serialises because a required field is missing. */
  lemma ContactSurvivesIff(a: Account, currentUser: int)
    ensures ContactOf(Project(a), currentUser) == ContactOf(a, currentUser) <==> WellFormed(a) || !HasRequired(a.fields)
    ensures HasRequired(a.fields) ==> ContactOf(Project(a), currentUser).Some?
    ensures WellFormed(a) ==> SmsNumbers(Project(a)) == SmsNumbers(a)
  {
    FieldsSurvive(a);
    ListSurvives(a, ALIASES, ALIAS_KEY);
    ListSurvives(a, DIDS, DID_KEY);
  }

  lemma FieldsSurvive(a: Account)
    ensures forall k :: k in CACHE_FIELDS ==>
      (k in Project(a).fields <==> k in a.fields) && (k in a.fields ==> Project(a).fields[k] == a.fields[k])
    ensures HasRequired(Project(a).fields) == HasRequired(a.fields)
  {
    assert "i_account" in CACHE_FIELDS && "id" in CACHE_FIELDS && "sip_status" in CACHE_FIELDS;
  }

  /** Every field that a consumer of cached rows reads is kept. */
  lemma ConsumedFieldsSurvive(a: Account, field: string)
    requires field in ["i_account", "i_customer", "id", "firstname", "lastname", "companyname", "email", "extension_id",
                       "extension_name", "sip_status", "status", "dual_version_system", "did_number", "i_master_account",
                       "billing_model"]
    ensures Get(Project(a).fields, field, Null) == Get(a.fields, field, Null)
    ensures field in Project(a).fields <==> field in a.fields
  {
    FieldsSurvive(a);
  }

  /** The filter's verdict on a row never depends on whether it was projected. */
  lemma FilterSurvives(c: FilterConfig, a: Account)
    ensures PassesFilter(c, Project(a)) == PassesFilter(c, a)
  {
    FieldsSurvive(a);
    assert "status" in CACHE_FIELDS && "dual_version_system" in CACHE_FIELDS;
    assert "extension_id" in CACHE_FIELDS && "i_account" in CACHE_FIELDS;
  }

  /** Projecting again changes nothing. */
  lemma ProjectTwice(a: Account)
    ensures Project(Project(a)) == Project(a)
  {
    KeptTwice(if ALIASES in a.lists && a.lists[ALIASES].Items? then a.lists[ALIASES].items else [], ALIAS_KEY);
    KeptTwice(if DIDS in a.lists && a.lists[DIDS].Items? then a.lists[DIDS].items else [], DID_KEY);
    assert ALIASES[6] == 'l' && DIDS[6] == 'd';
    var p := Project(a);
    assert p.lists[ALIASES] == ProjectList(a, ALIASES, ALIAS_KEY) && p.lists[DIDS] == ProjectList(a, DIDS, DID_KEY);
    assert Project(p).fields == p.fields;
    assert Project(p).lists == p.lists;
  }

  lemma {:induction false} KeptTwice(items: seq<Item>, key: string)
    ensures Kept(Kept(items, key), key) == Kept(items, key)
  {
    if items != [] {
      KeptTwice(items[1..], key);
      var rest := Kept(items[1..], key);
      if items[0].Object? && key in items[0].fields {
        assert ([Object(map[key := items[0].fields[key]])] + rest)[1..] == rest;
      } else {
        assert Kept(items, key) == rest;
      }
    }
  }
}
