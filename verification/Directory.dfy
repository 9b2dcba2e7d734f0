/**
 The contact directory in ACCOUNTS mode
 (app/bss/adapters/portaswitch/adapter.py: `_fetch_accounts_by_customer`, and the non-search
 branch of `retrieve_contacts_v2`): chunked reads of every office, de-duplication, sorting,
 filtering, custom contacts behind, and a slice per page.

 get_account_list is never sent an ORDER BY, so the switch may return the rows of an office in
 any order, and in another one to the next request. A row order in force is an input.
 */
module Directory {
  import opened Prelude
  import opened AccountProjection

  datatype Row = Row(id: int, account: Account)

  const LIMIT: nat := 1000

  // ---- the chunked fetch ----

  /** LIMIT/OFFSET, and Python's slice: what is there of rows [offset, offset + limit). */
  function Window<T>(rows: seq<T>, offset: nat, limit: nat): seq<T> {
    rows[Min(offset, |rows|)..Min(offset + limit, |rows|)]
  }

  /** The answers for offset, offset + LIMIT, ... below `total`; `order(o)` is the row order in
      force when the request for offset `o` is answered. */
  function Chunks(order: nat -> seq<Row>, offset: nat, total: int): seq<Row>
    decreases total - offset
  {
    if offset >= total then [] else Window(order(offset), offset, LIMIT) + Chunks(order, offset + LIMIT, total)
  }

  /** Assignment to an insertion-ordered dictionary keyed by i_account. */
  function Put(dict: seq<Row>, row: Row): seq<Row> {
    if dict == [] then [row]
    else if dict[0].id == row.id then [row] + dict[1..]
    else [dict[0]] + Put(dict[1..], row)
  }

  function PutAll(dict: seq<Row>, rows: seq<Row>): seq<Row>
    decreases |rows|
  {
    if rows == [] then dict else PutAll(Put(dict, rows[0]), rows[1..])
  }

  /** A total of zero reads as no total. */
  function Fetch(order: nat -> seq<Row>, total: Option<int>): seq<Row> {
    var first := Window(order(0), 0, LIMIT);
    if first == [] || |first| < LIMIT || total == None || total.value == 0 || |first| >= total.value then first
    else PutAll([], first + Chunks(order, LIMIT, total.value))
  }

  method BuildDict(dict: seq<Row>, rows: seq<Row>) returns (r: seq<Row>)
    ensures r == PutAll(dict, rows)
  {
    r := dict;
    var i := 0;
    while i < |rows|
      invariant 0 <= i <= |rows|
      invariant PutAll(r, rows[i..]) == PutAll(dict, rows)
    {
      assert rows[i..][1..] == rows[i + 1..];
      r := Put(r, rows[i]);
      i := i + 1;
    }
  }

  // ---- distinct accounts ----

  predicate InOrder(rows: seq<Row>) {
    forall i, j :: 0 <= i < j < |rows| ==> rows[i].id <= rows[j].id
  }

  /** No account twice, said about the rows regardless of their order. */
  ghost predicate Distinct(rows: multiset<Row>) {
    && (forall r :: r in rows ==> rows[r] == 1)
    && (forall r, q :: r in rows && q in rows && r.id == q.id ==> r == q)
  }

  lemma DistinctPositions(rows: seq<Row>, i: nat, j: nat)
    requires Distinct(multiset(rows)) && i < j < |rows|
    ensures rows[i].id != rows[j].id
  {
    assert rows == rows[..j] + rows[j..];
    assert rows[i] in rows[..j] && rows[j] in rows[j..];
  }

  lemma DistinctPart(part: multiset<Row>, rows: multiset<Row>)
    requires Distinct(rows) && part <= rows
    ensures Distinct(part)
  {
    forall r | r in part ensures part[r] == 1 && r in rows {
      assert part[r] <= rows[r];
    }
  }

  lemma {:induction false} PutNew(dict: seq<Row>, row: Row)
    requires forall i :: 0 <= i < |dict| ==> dict[i].id != row.id
    ensures Put(dict, row) == dict + [row]
  {
    if dict != [] {
      PutNew(dict[1..], row);
    }
  }

  lemma {:induction false} PutAllDistinct(dict: seq<Row>, rows: seq<Row>)
    requires Distinct(multiset(dict + rows))
    ensures PutAll(dict, rows) == dict + rows
    decreases |rows|
  {
    if rows == [] {
      assert dict + rows == dict;
    } else {
      forall i | 0 <= i < |dict| ensures dict[i].id != rows[0].id {
        DistinctPositions(dict + rows, i, |dict|);
      }
      PutNew(dict, rows[0]);
      assert dict + [rows[0]] + rows[1..] == dict + rows;
      PutAllDistinct(dict + [rows[0]], rows[1..]);
    }
  }

  lemma {:induction false} ChunksAreTheRest(order: nat -> seq<Row>, rows: seq<Row>, offset: nat)
    requires forall o :: o >= offset ==> order(o) == rows
    ensures Chunks(order, offset, |rows|) == rows[Min(offset, |rows|)..]
    decreases |rows| - offset
  {
    if offset < |rows| {
      ChunksAreTheRest(order, rows, offset + LIMIT);
      assert rows[offset..] == Window(rows, offset, LIMIT) + rows[Min(offset + LIMIT, |rows|)..];
    }
  }

  /** With one row order throughout, the fetch returns the office's list exactly when the total is
      reported or there is nothing beyond the first chunk. */
  lemma FetchIsCompleteIff(order: nat -> seq<Row>, rows: seq<Row>, total: Option<int>)
    requires (forall o :: order(o) == rows) && Distinct(multiset(rows)) && (total == None || total == Some(|rows|))
    ensures Fetch(order, total) == rows <==> total.Some? || |rows| <= LIMIT
  {
    var first := Window(order(0), 0, LIMIT);
    if |rows| > LIMIT && total.Some? {
      ChunksAreTheRest(order, rows, LIMIT);
      assert first + rows[LIMIT..] == rows && [] + rows == rows;
      PutAllDistinct([], rows);
    } else if |rows| > LIMIT {
      assert |first| == LIMIT;
    } else {
      assert first == rows;
    }
  }

  // ---- when the row order changes between the chunks ----

  /** The office's rows in some order, another one for every chunk. */
  ghost predicate Orders(order: nat -> seq<Row>, rows: seq<Row>) {
    forall o :: multiset(order(o)) == multiset(rows)
  }

  /** Everything the switch answered, before the de-duplication. */
  function Served(order: nat -> seq<Row>, total: nat): seq<Row> {
    Window(order(0), 0, LIMIT) + Chunks(order, LIMIT, total)
  }

  /** No account was answered twice. */
  predicate NoRepeat(rows: seq<Row>) {
    forall i, j :: 0 <= i < j < |rows| ==> rows[i].id != rows[j].id
  }

  lemma SameRows(a: seq<Row>, b: seq<Row>)
    requires multiset(a) == multiset(b)
    ensures |a| == |b| && forall r :: r in a ==> r in b
  {
    SameLength(a, b);
    forall r | r in a ensures r in b { assert r in multiset(b); }
  }

  /** The chunks bring as many rows as were announced, all of them the office's. */
  lemma {:induction false} ChunksAreRows(order: nat -> seq<Row>, rows: seq<Row>, offset: nat)
    requires Orders(order, rows)
    ensures |Chunks(order, offset, |rows|)| == Max(0, |rows| - offset)
    ensures forall r :: r in Chunks(order, offset, |rows|) ==> r in rows
    decreases |rows| - offset
  {
    if offset < |rows| {
      SameRows(order(offset), rows);
      ChunksAreRows(order, rows, offset + LIMIT);
    }
  }

  lemma ServedAreRows(order: nat -> seq<Row>, rows: seq<Row>)
    requires Orders(order, rows) && |rows| > LIMIT
    ensures |Served(order, |rows|)| == |rows| && forall r :: r in Served(order, |rows|) ==> r in rows
  {
    SameRows(order(0), rows);
    ChunksAreRows(order, rows, LIMIT);
  }

  lemma {:induction false} PutOld(dict: seq<Row>, row: Row)
    requires exists i :: 0 <= i < |dict| && dict[i].id == row.id
    ensures |Put(dict, row)| == |dict|
  {
    if dict[0].id != row.id {
      var i :| 0 <= i < |dict| && dict[i].id == row.id;
      assert dict[1..][i - 1].id == row.id;
      PutOld(dict[1..], row);
    }
  }

  lemma PutCount(dict: seq<Row>, row: Row)
    ensures |dict| <= |Put(dict, row)| <= |dict| + 1
    ensures |Put(dict, row)| == |dict| + 1 <==> forall i :: 0 <= i < |dict| ==> dict[i].id != row.id
  {
    if forall i :: 0 <= i < |dict| ==> dict[i].id != row.id { PutNew(dict, row); } else { PutOld(dict, row); }
  }

  lemma {:induction false} PutAllCount(dict: seq<Row>, rows: seq<Row>)
    ensures |PutAll(dict, rows)| <= |dict| + |rows|
    decreases |rows|
  {
    if rows != [] {
      PutCount(dict, rows[0]);
      PutAllCount(Put(dict, rows[0]), rows[1..]);
    }
  }

  lemma NoRepeatNext(dict: seq<Row>, row: Row)
    requires NoRepeat(dict)
    ensures NoRepeat(dict + [row]) <==> forall i :: 0 <= i < |dict| ==> dict[i].id != row.id
  {
    if NoRepeat(dict + [row]) {
      forall i | 0 <= i < |dict| ensures dict[i].id != row.id {
        assert (dict + [row])[i].id != (dict + [row])[|dict|].id;
      }
    }
  }

  /** De-duplication keeps the full number exactly when nothing repeats, and then changes nothing. */
  lemma {:induction false} PutAllKeepsIff(dict: seq<Row>, rows: seq<Row>)
    requires NoRepeat(dict)
    ensures |PutAll(dict, rows)| == |dict| + |rows| <==> NoRepeat(dict + rows)
    ensures NoRepeat(dict + rows) ==> PutAll(dict, rows) == dict + rows
    decreases |rows|
  {
    if rows == [] {
      assert dict + rows == dict;
    } else {
      var more := dict + [rows[0]];
      assert more + rows[1..] == dict + rows;
      NoRepeatNext(dict, rows[0]);
      if NoRepeat(more) {
        PutNew(dict, rows[0]);
        PutAllKeepsIff(more, rows[1..]);
      } else {
        PutCount(dict, rows[0]);
        PutAllCount(Put(dict, rows[0]), rows[1..]);
        assert !NoRepeat(dict + rows) by {
          var i :| 0 <= i < |dict| && dict[i].id == rows[0].id;
          assert (dict + rows)[i].id == (dict + rows)[|dict|].id;
        }
      }
    }
  }

  lemma OnceEach(rows: seq<Row>, r: Row)
    requires NoRepeat(rows) && r in rows
    ensures multiset(rows)[r] == 1
  {
    var i :| 0 <= i < |rows| && rows[i] == r;
    var before, behind := rows[..i], rows[i + 1..];
    assert rows == before + [r] + behind;
    forall j | 0 <= j < |before| ensures before[j] != r { assert rows[j].id != rows[i].id; }
    forall j | 0 <= j < |behind| ensures behind[j] != r { assert rows[i].id != rows[i + 1 + j].id; }
    assert multiset(rows) == multiset(before) + multiset{r} + multiset(behind);
  }

  /** As many rows of a list as it has, none twice, are all of them. */
  lemma NoneIsMissing(some: seq<Row>, rows: seq<Row>)
    requires NoRepeat(some) && |some| == |rows| && forall r :: r in some ==> r in rows
    ensures multiset(some) == multiset(rows)
  {
    var a, b := multiset(some), multiset(rows);
    forall r | r in a ensures a[r] <= b[r] { OnceEach(some, r); }
    assert b == a + (b - a);
    assert |b - a| == |b| - |a| == 0;
    assert b - a == multiset{};
  }

  /** Exactly when a fetch of distinct accounts brings the whole list, whatever order the switch chooses
      for every chunk: one chunk holds it; or the total is reported and no account is answered twice. A
      loss always shows as fewer accounts than there are. */
  lemma FetchKeepsAllIff(order: nat -> seq<Row>, rows: seq<Row>, total: Option<int>)
    requires Orders(order, rows) && (total == None || total == Some(|rows|))
    ensures multiset(Fetch(order, total)) == multiset(rows)
            <==> |rows| <= LIMIT || (total.Some? && NoRepeat(Served(order, |rows|)))
    ensures multiset(Fetch(order, total)) == multiset(rows) <==> |Fetch(order, total)| == |rows|
  {
    SameRows(order(0), rows);
    if |rows| <= LIMIT {
      assert Window(order(0), 0, LIMIT) == order(0);
      assert Fetch(order, total) == order(0);
    } else if total.Some? {
      ServedAreRows(order, rows);
      FetchServed(order, rows);
    } else {
      assert |Fetch(order, total)| == LIMIT;
      if multiset(Fetch(order, total)) == multiset(rows) { SameLength(Fetch(order, total), rows); }
    }
  }

  lemma FetchServed(order: nat -> seq<Row>, rows: seq<Row>)
    requires Orders(order, rows) && |rows| > LIMIT
    ensures var fetched := Fetch(order, Some(|rows|));
      && fetched == PutAll([], Served(order, |rows|))
      && (NoRepeat(Served(order, |rows|)) <==> |fetched| == |rows|)
      && (NoRepeat(Served(order, |rows|)) <==> multiset(fetched) == multiset(rows))
  {
    var served := Served(order, |rows|);
    SameRows(order(0), rows);
    ServedAreRows(order, rows);
    PutAllKeepsIff([], served);
    assert [] + served == served;
    if NoRepeat(served) { NoneIsMissing(served, rows); }
    if multiset(PutAll([], served)) == multiset(rows) { SameLength(PutAll([], served), rows); }
  }

  /** For every longer list there are orders that lose a row. */
  lemma UnstableOrderLosesARow(rows: seq<Row>)
    requires |rows| > LIMIT && Distinct(multiset(rows))
    ensures exists order: nat -> seq<Row> ::
      Orders(order, rows) && rows[LIMIT] !in Fetch(order, Some(|rows|))
  {
    var other := rows[0 := rows[LIMIT]][LIMIT := rows[0]];
    var order := (o: nat) => if o == 0 then rows else other;
    Exchanged(rows, other);
    ChunksAreTheRest(order, other, LIMIT);
    var served := Served(order, |rows|);
    assert served == rows[..LIMIT] + other[LIMIT..];
    Overlooked(rows, other);
    FetchServed(order, rows);
    PutAllIsFrom([], served);
    assert Orders(order, rows) && rows[LIMIT] !in Fetch(order, Some(|rows|));
  }

  lemma Overlooked(rows: seq<Row>, other: seq<Row>)
    requires |rows| > LIMIT && Distinct(multiset(rows)) && other == rows[0 := rows[LIMIT]][LIMIT := rows[0]]
    ensures rows[LIMIT] !in rows[..LIMIT] + other[LIMIT..]
  {
    forall i | 0 <= i < LIMIT ensures rows[..LIMIT][i] != rows[LIMIT] {
      DistinctPositions(rows, i, LIMIT);
    }
    forall i | 0 <= i < |other| - LIMIT ensures other[LIMIT..][i] != rows[LIMIT] {
      if i == 0 { DistinctPositions(rows, 0, LIMIT); } else { DistinctPositions(rows, LIMIT, LIMIT + i); }
    }
  }

  lemma Exchanged(rows: seq<Row>, other: seq<Row>)
    requires |rows| > LIMIT && other == rows[0 := rows[LIMIT]][LIMIT := rows[0]]
    ensures multiset(other) == multiset(rows)
  {
    var mid, end := rows[1..LIMIT], rows[LIMIT + 1..];
    assert rows == [rows[0]] + mid + [rows[LIMIT]] + end;
    assert other == [rows[LIMIT]] + mid + [rows[0]] + end;
  }

  lemma {:induction false} PutIsFrom(dict: seq<Row>, row: Row)
    ensures forall r :: r in Put(dict, row) ==> r in dict || r == row
  {
    if dict != [] { PutIsFrom(dict[1..], row); }
  }

  lemma {:induction false} PutAllIsFrom(dict: seq<Row>, rows: seq<Row>)
    ensures forall r :: r in PutAll(dict, rows) ==> r in dict || r in rows
    decreases |rows|
  {
    if rows != [] {
      PutIsFrom(dict, rows[0]);
      PutAllIsFrom(Put(dict, rows[0]), rows[1..]);
    }
  }

  // ---- sorting ----

  /** Where a row goes in a sorted list, behind its equals. */
  function Insert(rows: seq<Row>, row: Row): seq<Row> {
    if rows != [] && row.id < rows[|rows| - 1].id
    then Insert(rows[..|rows| - 1], row) + [rows[|rows| - 1]]
    else rows + [row]
  }

  /** sorted(rows, key=i_account): stable. */
  function SortById(rows: seq<Row>): seq<Row> {
    if rows == [] then [] else Insert(SortById(rows[..|rows| - 1]), rows[|rows| - 1])
  }

  lemma Appended(before: seq<Row>, last: Row)
    requires InOrder(before) && forall r :: r in before ==> r.id <= last.id
    ensures InOrder(before + [last]) && multiset(before + [last]) == multiset(before) + multiset{last}
  {
  }

  lemma InOrderEnds(rows: seq<Row>)
    requires InOrder(rows) && rows != []
    ensures InOrder(rows[..|rows| - 1]) && forall r :: r in rows ==> r.id <= rows[|rows| - 1].id
  {
  }

  lemma {:induction false} InsertSorts(rows: seq<Row>, row: Row)
    requires InOrder(rows)
    ensures InOrder(Insert(rows, row)) && multiset(Insert(rows, row)) == multiset(rows) + multiset{row}
  {
    if rows != [] && row.id < rows[|rows| - 1].id {
      var before, last := rows[..|rows| - 1], rows[|rows| - 1];
      assert rows == before + [last];
      InOrderEnds(rows);
      InsertSorts(before, row);
      var placed := Insert(before, row);
      forall r | r in placed ensures r.id <= last.id {
        assert r in multiset(placed);
        assert r in before || r == row;
      }
      Appended(placed, last);
    } else {
      if rows != [] { InOrderEnds(rows); }
      Appended(rows, row);
    }
  }

  lemma {:induction false} SortSorts(rows: seq<Row>)
    ensures InOrder(SortById(rows)) && multiset(SortById(rows)) == multiset(rows)
  {
    if rows != [] {
      SortSorts(rows[..|rows| - 1]);
      InsertSorts(SortById(rows[..|rows| - 1]), rows[|rows| - 1]);
      assert rows == rows[..|rows| - 1] + [rows[|rows| - 1]];
    }
  }

  /** Distinct accounts have one sorted list. */
  lemma {:induction false} SortedListIsUnique(a: seq<Row>, b: seq<Row>)
    requires multiset(a) == multiset(b) && Distinct(multiset(a)) && InOrder(a) && InOrder(b)
    ensures a == b
    decreases |a|
  {
    SameLength(a, b);
    if a != [] {
      SortedHeadsAgree(a, b);
      TailsStillMatch(a, b);
      SortedListIsUnique(a[1..], b[1..]);
      SameHeadAndTail(a, b);
    }
  }

  lemma SameLength(a: seq<Row>, b: seq<Row>)
    requires multiset(a) == multiset(b)
    ensures |a| == |b|
  {
    assert |multiset(a)| == |a| && |multiset(b)| == |b|;
  }

  lemma SameHeadAndTail(a: seq<Row>, b: seq<Row>)
    requires a != [] && b != [] && a[0] == b[0] && a[1..] == b[1..]
    ensures a == b
  {
    assert a == [a[0]] + a[1..] && b == [b[0]] + b[1..];
  }

  lemma TailsStillMatch(a: seq<Row>, b: seq<Row>)
    requires multiset(a) == multiset(b) && Distinct(multiset(a)) && InOrder(a) && InOrder(b) && a != [] && b != []
    requires a[0] == b[0]
    ensures multiset(a[1..]) == multiset(b[1..]) && Distinct(multiset(a[1..])) && InOrder(a[1..]) && InOrder(b[1..])
  {
    TailMultiset(a);
    TailMultiset(b);
    DistinctPart(multiset(a[1..]), multiset(a));
  }

  lemma TailMultiset(a: seq<Row>)
    requires a != []
    ensures multiset(a[1..]) == multiset(a) - multiset{a[0]}
  {
    assert a == [a[0]] + a[1..];
  }

  lemma SortedHeadsAgree(a: seq<Row>, b: seq<Row>)
    requires multiset(a) == multiset(b) && Distinct(multiset(a)) && InOrder(a) && InOrder(b) && a != [] && b != []
    ensures a[0] == b[0]
  {
    assert a[0] in multiset(b) && b[0] in multiset(a);
    var i :| 0 <= i < |b| && b[i] == a[0];
    var j :| 0 <= j < |a| && a[j] == b[0];
    assert b[0].id <= b[i].id && a[0].id <= a[j].id;
  }

  // ---- the directory of all offices ----

  function Flatten(lists: seq<seq<Row>>): seq<Row> {
    if lists == [] then [] else lists[0] + Flatten(lists[1..])
  }

  function Filter<T>(items: seq<T>, keep: T -> bool): seq<T> {
    if items == [] then []
    else (if keep(items[0]) then [items[0]] else []) + Filter(items[1..], keep)
  }

  function Map<T, U>(items: seq<T>, f: T -> U): (r: seq<U>)
    ensures |r| == |items|
  {
    seq(|items|, i requires 0 <= i < |items| => f(items[i]))
  }

  /** One request's view of the offices: the row order of each, and whether totals are reported. */
  function FetchOffices(orders: seq<seq<Row>>, totals: bool): seq<seq<Row>> {
    if orders == [] then []
    else [Fetch((o: nat) => orders[0], if totals then Some(|orders[0]|) else None)] + FetchOffices(orders[1..], totals)
  }

  function Accounts(orders: seq<seq<Row>>, totals: bool, passes: Row -> bool): seq<Row> {
    Filter(SortById(Flatten(FetchOffices(orders, totals))), passes)
  }

  /** The contacts of a request: the accounts, then the custom ones; with `smsOnly` only those with
      an SMS number. */
  function Contacts(orders: seq<seq<Row>>, totals: bool, passes: Row -> bool, contact: Row -> Contact,
                    custom: seq<Contact>, smsOnly: bool): seq<Contact> {
    var all := Map(Accounts(orders, totals, passes), contact) + custom;
    if smsOnly then Filter(all, (c: Contact) => c.sms != []) else all
  }

  /** The offices' rows in some other order. */
  ghost predicate Reorders(offices: seq<seq<Row>>, orders: seq<seq<Row>>) {
    |orders| == |offices| && forall i :: 0 <= i < |offices| ==> multiset(orders[i]) == multiset(offices[i])
  }

  lemma {:induction false} FlattenReordered(offices: seq<seq<Row>>, orders: seq<seq<Row>>)
    requires Reorders(offices, orders)
    ensures multiset(Flatten(orders)) == multiset(Flatten(offices))
  {
    if offices != [] {
      FlattenReordered(offices[1..], orders[1..]);
      assert multiset(orders[0]) == multiset(offices[0]);
    }
  }

  lemma {:induction false} FetchOfficesComplete(orders: seq<seq<Row>>)
    requires Distinct(multiset(Flatten(orders)))
    ensures FetchOffices(orders, true) == orders
  {
    if orders != [] {
      var rest := Flatten(orders[1..]);
      assert multiset(Flatten(orders)) == multiset(orders[0]) + multiset(rest);
      DistinctPart(multiset(orders[0]), multiset(Flatten(orders)));
      DistinctPart(multiset(rest), multiset(Flatten(orders)));
      FetchIsCompleteIff((o: nat) => orders[0], orders[0], Some(|orders[0]|));
      FetchOfficesComplete(orders[1..]);
      assert [orders[0]] + orders[1..] == orders;
    }
  }

  /** The list depends on which accounts there are, not on the order the switch returns them in. */
  lemma DirectoryIgnoresRowOrder(offices: seq<seq<Row>>, orders: seq<seq<Row>>, passes: Row -> bool,
                                 contact: Row -> Contact, custom: seq<Contact>, smsOnly: bool)
    requires Distinct(multiset(Flatten(offices))) && Reorders(offices, orders)
    ensures Contacts(orders, true, passes, contact, custom, smsOnly) == Contacts(offices, true, passes, contact, custom, smsOnly)
    ensures Accounts(orders, true, passes) == Filter(SortById(Flatten(offices)), passes)
  {
    FlattenReordered(offices, orders);
    FetchOfficesComplete(orders);
    FetchOfficesComplete(offices);
    SortSorts(Flatten(orders));
    SortSorts(Flatten(offices));
    SortedListIsUnique(SortById(Flatten(orders)), SortById(Flatten(offices)));
  }

  // ---- pages ----

  /** contacts[(page - 1) * size : page * size] */
  function Page<T>(items: seq<T>, page: nat, size: nat): seq<T>
    requires page >= 1
  {
    Window(items, (page - 1) * size, size)
  }

  function PageCount(total: nat, size: nat): nat
    requires size >= 1
  {
    (total + size - 1) / size
  }

  /** The pages 1..n as a client walks them. */
  function Walk<T>(pages: nat -> seq<T>, n: nat): seq<T> {
    if n == 0 then [] else Walk(pages, n - 1) + pages(n)
  }

  lemma PageBounds(total: nat, size: nat, page: nat)
    requires size >= 1 && page >= 1
    ensures page <= PageCount(total, size) <==> (page - 1) * size < total
    ensures page < PageCount(total, size) <==> page * size < total
  {
    PageBound(total, size, page - 1);
    PageBound(total, size, page);
  }

  lemma PageBound(total: nat, size: nat, page: nat)
    requires size >= 1
    ensures page < PageCount(total, size) <==> page * size < total
  {
    var n := PageCount(total, size);
    var k := n * size;
    assert k <= total + size - 1 < k + size;
    assert (n - 1) * size == k - size;
    if page < n {
      Times(page, n - 1, size);
    } else {
      Times(n, page, size);
    }
  }

  lemma Times(a: int, b: int, size: nat)
    requires a <= b
    ensures a * size <= b * size
  {
  }

  lemma {:induction false} WalkIsPrefix<T>(items: seq<T>, size: nat, pages: nat -> seq<T>, n: nat)
    requires size >= 1 && forall p :: 1 <= p <= n ==> pages(p) == Page(items, p, size)
    ensures Walk(pages, n) == items[..Min(n * size, |items|)]
  {
    if n > 0 {
      WalkIsPrefix(items, size, pages, n - 1);
      assert (n - 1) * size + size == n * size;
      var a, b := Min((n - 1) * size, |items|), Min(n * size, |items|);
      assert items[..b] == items[..a] + items[a..b];
    } else {
      assert Min(0, |items|) == 0;
    }
  }

  /** Walking the pages the total announces yields the list, each item once and in order; every page
      but the last is full, the last is not empty, and a page beyond them is. */
  lemma PagesPartitionTheList<T>(items: seq<T>, size: nat, pages: nat -> seq<T>)
    requires size >= 1 && forall p :: 1 <= p ==> pages(p) == Page(items, p, size)
    ensures Walk(pages, PageCount(|items|, size)) == items
    ensures forall p :: 1 <= p ==> PageFits(pages(p), p, PageCount(|items|, size), size)
  {
    var n := PageCount(|items|, size);
    WalkIsPrefix(items, size, pages, n);
    assert n * size >= |items| by {
      if n >= 1 { PageBounds(|items|, size, n); } else { PageBounds(|items|, size, 1); }
    }
    assert items[..|items|] == items;
    forall p: nat | 1 <= p ensures PageFits(pages(p), p, n, size) {
      PageSize(items, size, p);
    }
  }

  /** Full before the last page, not empty on it, empty beyond. */
  predicate PageFits<T>(page: seq<T>, p: nat, last: nat, size: nat) {
    if p < last then |page| == size else if p == last then 1 <= |page| <= size else page == []
  }

  lemma PageSize<T>(items: seq<T>, size: nat, p: nat)
    requires size >= 1 && p >= 1
    ensures PageFits(Page(items, p, size), p, PageCount(|items|, size), size)
  {
    PageBounds(|items|, size, p);
    assert (p - 1) * size + size == p * size;
  }

  /** The theorem. Every page may be computed from another row order, as separate requests are; the
      pages still concatenate to the one list, and each request reports its length. */
  lemma PagesPartitionTheDirectory(offices: seq<seq<Row>>, orders: nat -> seq<seq<Row>>, passes: Row -> bool,
                                   contact: Row -> Contact, custom: seq<Contact>, smsOnly: bool, size: nat)
    requires size >= 1 && Distinct(multiset(Flatten(offices)))
    requires forall p :: Reorders(offices, orders(p))
    ensures var list := Contacts(offices, true, passes, contact, custom, smsOnly);
      var pages := (p: nat) => if p == 0 then [] else Page(Contacts(orders(p), true, passes, contact, custom, smsOnly), p, size);
      && Walk(pages, PageCount(|list|, size)) == list
      && (forall p :: 1 <= p ==> PageFits(pages(p), p, PageCount(|list|, size), size))
      && (forall p :: |Contacts(orders(p), true, passes, contact, custom, smsOnly)| == |list|)
  {
    var list := Contacts(offices, true, passes, contact, custom, smsOnly);
    var pages := (p: nat) => if p == 0 then [] else Page(Contacts(orders(p), true, passes, contact, custom, smsOnly), p, size);
    forall p ensures Contacts(orders(p), true, passes, contact, custom, smsOnly) == list {
      DirectoryIgnoresRowOrder(offices, orders(p), passes, contact, custom, smsOnly);
    }
    PagesPartitionTheList(list, size, pages);
  }
}
