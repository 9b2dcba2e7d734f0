/**
 The bounded contact search in ACCOUNTS mode
 (app/bss/adapters/portaswitch/adapter.py:1473-1535, 1614-1654): field queries capped at the
 rows a page needs, one wider round when the filters leave the page short, extra accounts
 found by extension and by alias number, and a total that is an estimate while truncated.
 */
module ContactSearch {
  import opened Prelude
  import opened AccountProjection
  import opened Directory

  const MAX_API_LIMIT: nat := 1000
  const FILTER_BUFFER: nat := 10

  /** One field query's answer: the rows served, and the switch's count of matches. */
  datatype FieldAnswer = FieldAnswer(rows: seq<Row>, total: nat)

  /** What the rounds have merged so far: accounts by i_account in insertion order, and the
      largest count any field has reported. */
  datatype Merged = Merged(accounts: seq<Row>, totalFromApi: nat)

  function MergeRound(m: Merged, answers: seq<FieldAnswer>): Merged
    decreases |answers|
  {
    if answers == [] then m
    else
      var a := answers[0];
      MergeRound(Merged(PutAll(m.accounts, a.rows), Max(m.totalFromApi, a.total)), answers[1..])
  }

  /** Some field had more matches than it was asked for. */
  predicate Truncated(answers: seq<FieldAnswer>, limit: nat) {
    exists i :: 0 <= i < |answers| && (|answers[i].rows| >= limit || answers[i].total > |answers[i].rows|)
  }

  method RunFieldQueries(m: Merged, answers: seq<FieldAnswer>, limit: nat) returns (r: Merged, truncated: bool)
    ensures r == MergeRound(m, answers) && truncated == Truncated(answers, limit)
  {
    r, truncated := m, false;
    var i := 0;
    while i < |answers|
      invariant 0 <= i <= |answers|
      invariant MergeRound(r, answers[i..]) == MergeRound(m, answers)
      invariant truncated == Truncated(answers[..i], limit)
    {
      var a := answers[i];
      assert answers[i..][0] == a && answers[i..][1..] == answers[i + 1..];
      var accounts := BuildDict(r.accounts, a.rows);
      r := Merged(accounts, if a.total > r.totalFromApi then a.total else r.totalFromApi);
      TruncatedNext(answers, i, limit);
      if |a.rows| >= limit || a.total > |a.rows| {
        truncated := true;
      }
      i := i + 1;
    }
    assert answers[..i] == answers;
  }

  lemma TruncatedNext(answers: seq<FieldAnswer>, i: nat, limit: nat)
    requires i < |answers|
    ensures Truncated(answers[..i + 1], limit) <==>
      Truncated(answers[..i], limit) || |answers[i].rows| >= limit || answers[i].total > |answers[i].rows|
  {
    var a, b := answers[..i], answers[..i + 1];
    assert b == a + [answers[i]];
    if Truncated(a, limit) {
      var k :| 0 <= k < |a| && (|a[k].rows| >= limit || a[k].total > |a[k].rows|);
      assert b[k] == a[k];
    }
    if |answers[i].rows| >= limit || answers[i].total > |answers[i].rows| {
      assert b[i] == answers[i];
    }
  }

  /** Everything a search request depends on. `field(limit)` are the answers to one round of field
      queries; `byExtension` the accounts of the extensions that match, `byAlias` the one behind a
      matching alias number; `custom` the custom contacts that match. */
  datatype Query = Query(
    field: nat -> seq<FieldAnswer>,
    byExtension: seq<Row>,
    byAlias: Option<Row>,
    passes: Row -> bool,
    contact: Row -> Contact,
    custom: seq<Contact>,
    smsOnly: bool)

  predicate Usable(q: Query, r: Row) {
    q.passes(r) && (q.smsOnly ==> q.contact(r).sms != [])
  }

  function Usables(q: Query, rows: seq<Row>): seq<Row> {
    Filter(rows, (r: Row) => Usable(q, r))
  }

  predicate HasId(dict: seq<Row>, id: int) {
    exists i :: 0 <= i < |dict| && dict[i].id == id
  }

  /** The extension and alias lookups add the accounts the field queries did not find. */
  function AddMissing(q: Query, dict: seq<Row>): seq<Row> {
    var more := PutAll(dict, Filter(q.byExtension, (r: Row) => !HasId(dict, r.id)));
    if q.byAlias.Some? && !HasId(more, q.byAlias.value.id) then more + [q.byAlias.value] else more
  }

  function SmsFilter(q: Query, contacts: seq<Contact>): seq<Contact> {
    if q.smsOnly then Filter(contacts, (c: Contact) => c.sms != []) else contacts
  }

  datatype Found = Found(accounts: seq<Row>, totalFromApi: nat, truncated: bool, limit: nat)

  function FirstLimit(page: nat, size: nat): nat {
    Min(page * size + FILTER_BUFFER, MAX_API_LIMIT)
  }

  /** The rounds: the second one only when the first was cut short and leaves the page unfilled. */
  function Rounds(q: Query, page: nat, size: nat): Found {
    var limit := FirstLimit(page, size);
    var one := MergeRound(Merged([], 0), q.field(limit));
    var cut := Truncated(q.field(limit), limit);
    if cut && limit < MAX_API_LIMIT && |Usables(q, one.accounts)| <= page * size then
      var two := MergeRound(one, q.field(MAX_API_LIMIT));
      Found(two.accounts, two.totalFromApi, Truncated(q.field(MAX_API_LIMIT), MAX_API_LIMIT), MAX_API_LIMIT)
    else Found(one.accounts, one.totalFromApi, cut, limit)
  }

  /** The contacts in hand, before the page is cut. */
  function InHand(q: Query, accounts: seq<Row>): seq<Contact> {
    SmsFilter(q, Map(Filter(accounts, q.passes), q.contact) + q.custom)
  }

  function Total(q: Query, f: Found, accounts: seq<Row>): int {
    var n := |InHand(q, accounts)|;
    if f.truncated && f.limit < MAX_API_LIMIT then
      var dropped := |accounts| + |q.custom| - n;
      Max(Min(f.totalFromApi, MAX_API_LIMIT) + |q.custom| - dropped, n)
    else n
  }

  method Search(q: Query, page: nat, size: nat) returns (contacts: seq<Contact>, total: int)
    requires page >= 1 && size >= 1
    ensures var f := Rounds(q, page, size);
      var accounts := AddMissing(q, f.accounts);
      contacts == Page(InHand(q, accounts), page, size) && total == Total(q, f, accounts)
    ensures FullOrExact(q, page, size, contacts, total)
  {
    var limit := if page * size + FILTER_BUFFER < MAX_API_LIMIT then page * size + FILTER_BUFFER else MAX_API_LIMIT;
    var merged, truncated := RunFieldQueries(Merged([], 0), q.field(limit), limit);
    if truncated && limit < MAX_API_LIMIT {
      var usable := |Usables(q, merged.accounts)|;
      if usable <= page * size {
        limit := MAX_API_LIMIT;
        merged, truncated := RunFieldQueries(merged, q.field(limit), limit);
      }
    }
    var accounts := AddMissing(q, merged.accounts);
    var all := InHand(q, accounts);
    if truncated && limit < MAX_API_LIMIT {
      var dropped := |accounts| + |q.custom| - |all|;
      total := Max(Min(merged.totalFromApi, MAX_API_LIMIT) + |q.custom| - dropped, |all|);
    } else {
      total := |all|;
    }
    contacts := Page(all, page, size);
    TruncatedPageIsFull(q, page, size);
  }

  /** The promise: the total is the number of contacts in hand; or else a field was cut short below
      the API maximum, and then the page is full, the total says there is more, and it adds to
      the contacts in hand exactly what the largest field can still deliver. */
  predicate FullOrExact(q: Query, page: nat, size: nat, contacts: seq<Contact>, total: int)
    requires page >= 1 && size >= 1
  {
    var f := Rounds(q, page, size);
    var accounts := AddMissing(q, f.accounts);
    var n := |InHand(q, accounts)|;
    if f.truncated && f.limit < 1000 then
      && |contacts| == size && total > page * size
      && total == n + Max(0, Min(f.totalFromApi, 1000) - |accounts|)
    else total == n
  }

  lemma {:induction false} FilterConcat<T>(a: seq<T>, b: seq<T>, keep: T -> bool)
    ensures Filter(a + b, keep) == Filter(a, keep) + Filter(b, keep)
  {
    if a == [] {
      assert a + b == b;
    } else {
      var head := if keep(a[0]) then [a[0]] else [];
      assert (a + b)[0] == a[0] && (a + b)[1..] == a[1..] + b;
      FilterConcat(a[1..], b, keep);
      assert Filter(a + b, keep) == head + (Filter(a[1..], keep) + Filter(b, keep));
      assert Filter(a, keep) == head + Filter(a[1..], keep);
    }
  }

  lemma {:induction false} PutBehind(dict: seq<Row>, tail: seq<Row>, row: Row)
    requires !HasId(dict, row.id)
    ensures Put(dict + tail, row) == dict + Put(tail, row)
  {
    if dict == [] {
      assert dict + tail == tail;
    } else {
      assert dict[0].id != row.id;
      assert (dict + tail)[1..] == dict[1..] + tail;
      assert forall i :: 0 <= i < |dict[1..]| ==> dict[1..][i] == dict[i + 1];
      PutBehind(dict[1..], tail, row);
      assert [dict[0]] + (dict[1..] + Put(tail, row)) == dict + Put(tail, row);
    }
  }

  lemma {:induction false} PutAllBehind(dict: seq<Row>, tail: seq<Row>, rows: seq<Row>)
    requires forall r :: r in rows ==> !HasId(dict, r.id)
    ensures PutAll(dict + tail, rows) == dict + PutAll(tail, rows)
    decreases |rows|
  {
    if rows != [] {
      PutBehind(dict, tail, rows[0]);
      PutAllBehind(dict, Put(tail, rows[0]), rows[1..]);
    }
  }

  lemma {:induction false} FilterKeeps(rows: seq<Row>, keep: Row -> bool)
    ensures forall r :: r in Filter(rows, keep) ==> keep(r)
  {
    if rows != [] { FilterKeeps(rows[1..], keep); }
  }

  /** They never replace or move one that was found. */
  lemma AddMissingExtends(q: Query, dict: seq<Row>)
    ensures dict <= AddMissing(q, dict)
  {
    var missing := Filter(q.byExtension, (r: Row) => !HasId(dict, r.id));
    FilterKeeps(q.byExtension, (r: Row) => !HasId(dict, r.id));
    PutAllBehind(dict, [], missing);
    assert dict + [] == dict;
  }

  /** The usable accounts are what is left of them among the contacts. */
  lemma {:induction false} UsablesBecomeContacts(q: Query, rows: seq<Row>)
    ensures |SmsFilter(q, Map(Filter(rows, q.passes), q.contact))| == |Usables(q, rows)|
  {
    if rows != [] {
      UsablesBecomeContacts(q, rows[1..]);
      var rest := Filter(rows[1..], q.passes);
      assert [] + rest == rest && [] + Usables(q, rows[1..]) == Usables(q, rows[1..]);
      if q.passes(rows[0]) {
        assert Filter(rows, q.passes) == [rows[0]] + rest;
        assert Map([rows[0]] + rest, q.contact) == [q.contact(rows[0])] + Map(rest, q.contact);
        assert ([q.contact(rows[0])] + Map(rest, q.contact))[1..] == Map(rest, q.contact);
      }
    }
  }

  lemma InHandCount(q: Query, accounts: seq<Row>)
    ensures |InHand(q, accounts)| == |Usables(q, accounts)| + |SmsFilter(q, q.custom)|
  {
    UsablesBecomeContacts(q, accounts);
    FilterConcat(Map(Filter(accounts, q.passes), q.contact), q.custom, (c: Contact) => c.sms != []);
  }

  /** A truncated search never under-fills its page. */
  lemma TruncatedPageIsFull(q: Query, page: nat, size: nat)
    requires page >= 1 && size >= 1
    ensures var f := Rounds(q, page, size);
      var accounts := AddMissing(q, f.accounts);
      FullOrExact(q, page, size, Page(InHand(q, accounts), page, size), Total(q, f, accounts))
  {
    var f := Rounds(q, page, size);
    var accounts := AddMissing(q, f.accounts);
    if f.truncated && f.limit < MAX_API_LIMIT {
      AddMissingExtends(q, f.accounts);
      assert accounts == f.accounts + accounts[|f.accounts|..];
      FilterConcat(f.accounts, accounts[|f.accounts|..], (r: Row) => Usable(q, r));
      InHandCount(q, accounts);
      assert |InHand(q, accounts)| > page * size;
      assert (page - 1) * size + size == page * size;
    }
  }
}
