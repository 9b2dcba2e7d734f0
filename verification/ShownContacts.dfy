/**
 Which contacts a request shows, and in which order
 (app/bss/adapters/portaswitch/adapter.py:1488-1654): of the accounts at hand exactly those that pass
 the filter, once each, and behind them the custom contacts.
 */
module ShownContacts {
  import opened Prelude
  import opened AccountProjection
  import opened Directory
  import opened ContactSearch
  import CachedDirectory

  // ---- selection, said by positions ----

  /** `picked` are the items at the positions `at`, in order: all of those that are kept, and no others. */
  ghost predicate PicksAt<T(!new)>(picked: seq<T>, items: seq<T>, keep: T -> bool, at: seq<nat>) {
    && |at| == |picked|
    && (forall i :: 0 <= i < |at| ==> at[i] < |items| && picked[i] == items[at[i]] && keep(picked[i]))
    && (forall i, j :: 0 <= i < j < |at| ==> at[i] < at[j])
    && (forall k :: 0 <= k < |items| && keep(items[k]) ==> k in at)
  }

  ghost predicate Selected<T(!new)>(picked: seq<T>, items: seq<T>, keep: T -> bool) {
    exists at :: PicksAt(picked, items, keep, at)
  }

  lemma {:induction false} FilterPicks<T(!new)>(items: seq<T>, keep: T -> bool) returns (at: seq<nat>)
    ensures PicksAt(Filter(items, keep), items, keep, at)
  {
    if items == [] {
      at := [];
    } else {
      var n := |items| - 1;
      var before, last := items[..n], items[n];
      var start := FilterPicks(before, keep);
      assert items == before + [last] && [last][1..] == [];
      FilterConcat(before, [last], keep);
      assert Filter([last], keep) == if keep(last) then [last] else [];
      PicksOneMore(Filter(before, keep), before, last, keep, start);
      at := if keep(last) then start + [n] else start;
    }
  }

  lemma PicksOneMore<T(!new)>(picked: seq<T>, items: seq<T>, last: T, keep: T -> bool, at: seq<nat>)
    requires PicksAt(picked, items, keep, at)
    ensures keep(last) ==> PicksAt(picked + [last], items + [last], keep, at + [|items|])
    ensures !keep(last) ==> PicksAt(picked + [], items + [last], keep, at)
  {
    var all := items + [last];
    assert picked + [] == picked;
    forall k | 0 <= k < |all| && keep(all[k]) ensures if k < |items| then k in at else keep(last) {
      if k < |items| { assert all[k] == items[k]; }
    }
    if keep(last) {
      var more := at + [|items|];
      forall k | 0 <= k < |all| && keep(all[k]) ensures k in more {
        assert more[|at|] == |items|;
        if k < |items| { assert k in at; }
      }
    }
  }

  lemma FilterSelects<T(!new)>(items: seq<T>, keep: T -> bool)
    ensures Selected(Filter(items, keep), items, keep)
  {
    var at := FilterPicks(items, keep);
  }

  lemma {:induction false} FilterCounts(items: seq<Row>, keep: Row -> bool, r: Row)
    ensures multiset(Filter(items, keep))[r] == if keep(r) then multiset(items)[r] else 0
  {
    if items != [] {
      FilterCounts(items[1..], keep, r);
      assert items == [items[0]] + items[1..];
    }
  }

  lemma {:induction false} OrderSurvives(items: seq<Row>, keep: Row -> bool)
    requires InOrder(items)
    ensures InOrder(Filter(items, keep))
  {
    var at := FilterPicks(items, keep);
    var picked := Filter(items, keep);
    forall i, j | 0 <= i < j < |picked| ensures picked[i].id <= picked[j].id {
      assert at[i] < at[j];
    }
  }

  // ---- the directory ----

  lemma {:induction false} FlattenHolds(lists: seq<seq<Row>>, r: Row)
    ensures r in Flatten(lists) <==> exists i :: 0 <= i < |lists| && r in lists[i]
  {
    if lists != [] {
      FlattenHolds(lists[1..], r);
      if r in Flatten(lists[1..]) {
        var i :| 0 <= i < |lists[1..]| && r in lists[1..][i];
        assert r in lists[i + 1];
      }
      if i :| 0 <= i < |lists| && r in lists[i] {
        if i > 0 { assert r in lists[1..][i - 1]; }
      }
    }
  }

  /** Of distinct accounts the directory shows exactly those of some office that pass the filter, each
      once, in the order of their ids. */
  lemma AccountsShown(orders: seq<seq<Row>>, passes: Row -> bool)
    requires Distinct(multiset(Flatten(orders)))
    ensures InOrder(Accounts(orders, true, passes))
    ensures forall r :: r in Accounts(orders, true, passes) <==>
      passes(r) && exists i :: 0 <= i < |orders| && r in orders[i]
    ensures forall r :: multiset(Accounts(orders, true, passes))[r] == (if passes(r) then multiset(Flatten(orders))[r] else 0)
  {
    var all := Flatten(orders);
    FetchOfficesComplete(orders);
    SortSorts(all);
    OrderSurvives(SortById(all), passes);
    forall r
      ensures multiset(Accounts(orders, true, passes))[r] == if passes(r) then multiset(all)[r] else 0
      ensures r in Accounts(orders, true, passes) <==> passes(r) && exists i :: 0 <= i < |orders| && r in orders[i]
    {
      FilterCounts(SortById(all), passes, r);
      FlattenHolds(orders, r);
      assert r in Accounts(orders, true, passes) <==> multiset(Accounts(orders, true, passes))[r] > 0;
      assert r in all <==> multiset(all)[r] > 0;
    }
  }

  /** The contacts of these accounts in that order, and behind them the custom ones. */
  ghost predicate AccountsThenCustom(all: seq<Contact>, accounts: seq<Row>, contact: Row -> Contact, custom: seq<Contact>) {
    && |all| == |accounts| + |custom|
    && (forall i :: 0 <= i < |accounts| ==> all[i] == contact(accounts[i]))
    && (forall i :: 0 <= i < |custom| ==> all[|accounts| + i] == custom[i])
  }

  /** Such a list, or what of it has an SMS number when only those are asked for. */
  ghost predicate Shows(shown: seq<Contact>, accounts: seq<Row>, contact: Row -> Contact, custom: seq<Contact>, smsOnly: bool) {
    exists all :: AccountsThenCustom(all, accounts, contact, custom) &&
      (if smsOnly then Selected(shown, all, (c: Contact) => c.sms != []) else shown == all)
  }

  lemma MapIsPointwise<T, U>(items: seq<T>, f: T -> U)
    ensures |Map(items, f)| == |items| && forall i :: 0 <= i < |items| ==> Map(items, f)[i] == f(items[i])
  {
  }

  lemma ContactsAreShown(orders: seq<seq<Row>>, passes: Row -> bool, contact: Row -> Contact, custom: seq<Contact>, smsOnly: bool)
    ensures Shows(Contacts(orders, true, passes, contact, custom, smsOnly), Accounts(orders, true, passes), contact, custom, smsOnly)
  {
    var accounts := Accounts(orders, true, passes);
    var all := Map(accounts, contact) + custom;
    MapIsPointwise(accounts, contact);
    assert AccountsThenCustom(all, accounts, contact, custom);
    FilterSelects(all, (c: Contact) => c.sms != []);
  }

  // ---- the list served from the cache ----

  /** The rows of a cached list that are shown: a sorted permutation of the offices' rows, those of it
      whose verdict is to show, and what serialising each gives. */
  lemma ListedAreShown(c: FilterConfig, lists: seq<seq<Row>>)
    ensures exists sorted: seq<Row>, picked: seq<Row> ::
      && InOrder(sorted) && multiset(sorted) == multiset(Flatten(lists))
      && Selected(picked, sorted, (r: Row) => PassesFilter(c, r.account) == Some(true))
      && |CachedDirectory.Listed(c, lists)| == |picked|
      && forall i :: 0 <= i < |picked| ==> CachedDirectory.Listed(c, lists)[i] == ContactOf(picked[i].account, c.currentUser)
  {
    var sorted := SortById(Flatten(lists));
    var keep := (r: Row) => PassesFilter(c, r.account) == Some(true);
    var picked := Filter(sorted, CachedDirectory.Passes(c));
    SortSorts(Flatten(lists));
    var at := FilterPicks(sorted, CachedDirectory.Passes(c));
    assert PicksAt(picked, sorted, keep, at);
    MapIsPointwise(picked, (r: Row) => ContactOf(r.account, c.currentUser));
    assert Selected(picked, sorted, keep);
  }

  // ---- the search ----

  /** The contacts in hand: of the merged accounts those that pass, in the order in which they were found,
      and behind them the custom contacts; with SMS numbers only, those of them that have one. */
  lemma InHandIsShown(q: Query, accounts: seq<Row>)
    ensures exists picked :: Selected(picked, accounts, q.passes) && Shows(InHand(q, accounts), picked, q.contact, q.custom, q.smsOnly)
  {
    var picked := Filter(accounts, q.passes);
    var all := Map(picked, q.contact) + q.custom;
    FilterSelects(accounts, q.passes);
    MapIsPointwise(picked, q.contact);
    assert AccountsThenCustom(all, picked, q.contact, q.custom);
    FilterSelects(all, (c: Contact) => c.sms != []);
    assert Shows(InHand(q, accounts), picked, q.contact, q.custom, q.smsOnly);
  }

  /** Contact `k` of a page, and how many there are. */
  lemma PageShows<T>(items: seq<T>, page: nat, size: nat)
    requires page >= 1
    ensures (page - 1) * size >= 0
    ensures |Page(items, page, size)| == Max(0, Min(size, |items| - (page - 1) * size))
    ensures forall k :: 0 <= k < |Page(items, page, size)| ==> Page(items, page, size)[k] == items[(page - 1) * size + k]
  {
  }

  // ---- what the rounds and lookups have found ----

  /** Putting a row: it is there, in place of one with its id; the others stay. */
  lemma {:induction false} PutHolds(dict: seq<Row>, row: Row)
    ensures row in Put(dict, row)
    ensures forall r :: r in dict && r.id != row.id ==> r in Put(dict, row)
    ensures forall id :: HasId(Put(dict, row), id) <==> HasId(dict, id) || id == row.id
  {
    var put := Put(dict, row);
    if dict == [] {
      assert put == [row] && put[0] == row;
    } else if dict[0].id == row.id {
      assert put[0] == row && put[1..] == dict[1..];
      forall r | r in dict && r.id != row.id ensures r in put {
        var k :| 0 <= k < |dict| && dict[k] == r;
        assert put[k] == r;
      }
      SameIds(put, dict);
    } else {
      var rest := Put(dict[1..], row);
      PutHolds(dict[1..], row);
      assert put == [dict[0]] + rest && dict == [dict[0]] + dict[1..];
      forall id ensures HasId(put, id) <==> HasId(dict, id) || id == row.id {
        HeadId(put, id);
        HeadId(dict, id);
        assert put[1..] == rest;
      }
    }
  }

  lemma HeadId(dict: seq<Row>, id: int)
    requires dict != []
    ensures HasId(dict, id) <==> dict[0].id == id || HasId(dict[1..], id)
  {
    if HasId(dict, id) {
      var i :| 0 <= i < |dict| && dict[i].id == id;
      if i > 0 { assert dict[1..][i - 1].id == id; }
    }
    if HasId(dict[1..], id) {
      var i :| 0 <= i < |dict[1..]| && dict[1..][i].id == id;
      assert dict[i + 1].id == id;
    }
  }

  lemma SameIds(a: seq<Row>, b: seq<Row>)
    requires |a| == |b| && forall i :: 0 <= i < |a| ==> a[i].id == b[i].id
    ensures forall id :: HasId(a, id) <==> HasId(b, id)
  {
    forall id ensures HasId(a, id) <==> HasId(b, id) {
      if HasId(a, id) { var i :| 0 <= i < |a| && a[i].id == id; assert b[i].id == id; }
      if HasId(b, id) { var i :| 0 <= i < |b| && b[i].id == id; assert a[i].id == id; }
    }
  }

  lemma {:induction false} PutAllHolds(dict: seq<Row>, rows: seq<Row>, id: int)
    ensures HasId(PutAll(dict, rows), id) <==> HasId(dict, id) || HasId(rows, id)
    decreases |rows|
  {
    if rows != [] {
      PutHolds(dict, rows[0]);
      PutAllHolds(Put(dict, rows[0]), rows[1..], id);
      HeadId(rows, id);
    }
  }

  /** An account is found by a round exactly when it was before or some field's answer has it; and the
      count kept is the largest of all. */
  lemma {:induction false} RoundFinds(m: Merged, answers: seq<FieldAnswer>, id: int)
    ensures HasId(MergeRound(m, answers).accounts, id) <==>
      HasId(m.accounts, id) || exists i :: 0 <= i < |answers| && HasId(answers[i].rows, id)
    ensures MergeRound(m, answers).totalFromApi >= m.totalFromApi
    ensures forall i :: 0 <= i < |answers| ==> MergeRound(m, answers).totalFromApi >= answers[i].total
    ensures MergeRound(m, answers).totalFromApi == m.totalFromApi
            || exists i :: 0 <= i < |answers| && MergeRound(m, answers).totalFromApi == answers[i].total
    decreases |answers|
  {
    if answers != [] {
      var a := answers[0];
      var next := Merged(PutAll(m.accounts, a.rows), Max(m.totalFromApi, a.total));
      var rest := answers[1..];
      PutAllHolds(m.accounts, a.rows, id);
      RoundFinds(next, rest, id);
      assert forall i :: 0 <= i < |rest| ==> rest[i] == answers[i + 1];
      forall i | 0 <= i < |answers| ensures MergeRound(m, answers).totalFromApi >= answers[i].total {
        if i > 0 { assert rest[i - 1] == answers[i]; }
      }
      if i :| 0 <= i < |answers| && HasId(answers[i].rows, id) {
        if i > 0 { assert HasId(rest[i - 1].rows, id); }
      }
      if i :| 0 <= i < |rest| && HasId(rest[i].rows, id) { assert HasId(answers[i + 1].rows, id); }
      if i :| 0 <= i < |rest| && MergeRound(next, rest).totalFromApi == rest[i].total {
        assert MergeRound(m, answers).totalFromApi == answers[i + 1].total;
      }
    }
  }

  /** Behind the lookups the accounts at hand are those found by the rounds, as they were, and exactly the
      missing ones that an extension or the alias number leads to. */
  lemma LookupsAddTheMissing(q: Query, dict: seq<Row>, id: int)
    ensures dict <= AddMissing(q, dict)
    ensures HasId(AddMissing(q, dict), id) <==>
      HasId(dict, id) || HasId(q.byExtension, id) || (q.byAlias.Some? && q.byAlias.value.id == id)
  {
    AddMissingExtends(q, dict);
    var missing := Filter(q.byExtension, (r: Row) => !HasId(dict, r.id));
    MissingIds(q.byExtension, dict, id);
    PutAllHolds(dict, missing, id);
    var more := PutAll(dict, missing);
    if q.byAlias.Some? && !HasId(more, q.byAlias.value.id) { LastId(more, q.byAlias.value, id); }
  }

  lemma LastId(dict: seq<Row>, row: Row, id: int)
    ensures HasId(dict + [row], id) <==> HasId(dict, id) || row.id == id
  {
    var all := dict + [row];
    if HasId(dict, id) { var i :| 0 <= i < |dict| && dict[i].id == id; assert all[i].id == id; }
    assert all[|dict|] == row;
  }

  lemma MissingIds(rows: seq<Row>, dict: seq<Row>, id: int)
    ensures HasId(Filter(rows, (r: Row) => !HasId(dict, r.id)), id) <==> HasId(rows, id) && !HasId(dict, id)
  {
    var keep := (r: Row) => !HasId(dict, r.id);
    var at := FilterPicks(rows, keep);
    var picked := Filter(rows, keep);
    if HasId(picked, id) {
      var i :| 0 <= i < |picked| && picked[i].id == id;
      assert rows[at[i]].id == id;
    }
    if HasId(rows, id) && !HasId(dict, id) {
      var k :| 0 <= k < |rows| && rows[k].id == id;
      assert keep(rows[k]) && k in at;
      var i :| 0 <= i < |at| && at[i] == k;
      assert picked[i].id == id;
    }
  }

  /** The field served as many rows as it was asked for, or says that there are more than it served. */
  predicate HasMore(a: FieldAnswer, limit: nat) {
    |a.rows| >= limit || a.total > |a.rows|
  }

  /** How many rows each field is asked for, and exactly when it is asked a second time: when some field
      had more below the maximum, and no more than a page of what was found is usable. */
  lemma SecondRoundIff(q: Query, page: nat, size: nat)
    requires page >= 1 && size >= 1
    ensures var limit := Min(page * size + 10, 1000);
      var one := MergeRound(Merged([], 0), q.field(limit));
      var more := exists i :: 0 <= i < |q.field(limit)| && HasMore(q.field(limit)[i], limit);
      var f := Rounds(q, page, size);
      if limit < 1000 && more && |Usables(q, one.accounts)| <= page * size
      then f.limit == 1000 && f.accounts == MergeRound(one, q.field(1000)).accounts
           && f.totalFromApi == MergeRound(one, q.field(1000)).totalFromApi
      else f.limit == limit && f.accounts == one.accounts && f.totalFromApi == one.totalFromApi && f.truncated == more
  {
  }

  /** The usable ones are those that pass, and with SMS numbers only those whose contact has one. */
  lemma UsableIff(q: Query, rows: seq<Row>)
    ensures Selected(Usables(q, rows), rows, (r: Row) => q.passes(r) && (q.smsOnly ==> q.contact(r).sms != []))
  {
    var keep := (r: Row) => Usable(q, r);
    var said := (r: Row) => q.passes(r) && (q.smsOnly ==> q.contact(r).sms != []);
    var at := FilterPicks(rows, keep);
    assert PicksAt(Usables(q, rows), rows, said, at);
  }
}
