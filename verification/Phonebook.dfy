/**
 The contact list in PHONEBOOK mode with the switch's own paging
 (app/bss/adapters/portaswitch/adapter.py:1661-1681, 1717-1742; api/account.py:270-273): custom
 contacts take the first places of page 1, and the phonebook's offset and limit are shifted.
 */
module Phonebook {
  import opened Prelude
  import opened Directory

  /** A phonebook record, resolved: the contact it becomes, and whether that is the caller. */
  datatype Record<C> = Record(contact: C, own: bool)

  datatype Offset = Offset(offset: int, limit: int)

  /** The window asked of the switch for one page, with `cc` custom contacts. */
  function Asked(cc: nat, page: nat, size: nat): Offset
    requires page >= 1
  {
    if cc > 0 then
      if page == 1 then Offset(0, Max(1, size - cc)) else Offset((page - 1) * size - cc, size)
    else Offset(size * (page - 1), size)
  }

  /** How the switch answers an offset below zero: some records, or an error. Nothing says which. */
  type Below<C> = Offset -> Option<seq<Record<C>>>

  function Answered<C>(book: seq<Record<C>>, below: Below<C>, o: Offset): Option<seq<Record<C>>> {
    if o.offset < 0 || o.limit < 0 then below(o) else Some(Window(book, o.offset, o.limit))
  }

  /** Own records are left out. */
  function Contacts<C>(records: seq<Record<C>>): seq<C> {
    if records == [] then []
    else (if records[0].own then [] else [records[0].contact]) + Contacts(records[1..])
  }

  /** What an answer shows. */
  function Shows<C>(answer: Option<seq<Record<C>>>): Option<seq<C>> {
    if answer.Some? then Some(Contacts(answer.value)) else None
  }

  /** Two parts of a walk, if both were answered. */
  function Then<C>(before: Option<seq<C>>, page: Option<seq<C>>): Option<seq<C>> {
    if before.Some? && page.Some? then Some(before.value + page.value) else None
  }

  function PageOf<C>(custom: seq<C>, book: seq<Record<C>>, below: Below<C>, page: nat, size: nat): Option<seq<C>>
    requires page >= 1
  {
    var shown := Shows(Answered(book, below, Asked(|custom|, page, size)));
    if page == 1 then Then(Some(custom), shown) else shown
  }

  function Total<C>(custom: seq<C>, book: seq<Record<C>>): nat {
    |book| + |custom|
  }

  /** Walking pages 1..n; None as soon as one of them is not answered. */
  function Walked<C>(custom: seq<C>, book: seq<Record<C>>, below: Below<C>, size: nat, n: nat): Option<seq<C>> {
    if n == 0 then Some([]) else Then(Walked(custom, book, below, size, n - 1), PageOf(custom, book, below, n, size))
  }

  lemma {:induction false} ContactsConcat<C>(a: seq<Record<C>>, b: seq<Record<C>>)
    ensures Contacts(a + b) == Contacts(a) + Contacts(b)
  {
    if a == [] {
      assert a + b == b;
    } else {
      assert (a + b)[1..] == a[1..] + b;
      ContactsConcat(a[1..], b);
    }
  }

  lemma {:induction false} ContactCount<C>(book: seq<Record<C>>)
    ensures |Contacts(book)| <= |book|
    ensures |Contacts(book)| == |book| <==> forall i :: 0 <= i < |book| ==> !book[i].own
  {
    if book != [] {
      ContactCount(book[1..]);
      assert forall i :: 0 <= i < |book[1..]| ==> book[1..][i] == book[i + 1];
    }
  }

  /** How much of the phonebook pages 1..n have passed. */
  function Passed(cc: nat, count: nat, size: nat, n: nat): int {
    Min(n * size - cc, count)
  }

  lemma PassedGrows(cc: nat, count: nat, size: nat, n: nat)
    requires size >= 1 && n >= 2 && (n - 1) * size >= cc
    ensures (n - 1) * size == size * (n - 1)
    ensures (n - 1) * size - cc + size == n * size - cc
    ensures 0 <= Passed(cc, count, size, n - 1) <= Passed(cc, count, size, n) <= count
  {
  }

  /** Page n >= 2 shows the phonebook from where page n - 1 stopped, once that is not below zero. */
  lemma LaterPage<C>(custom: seq<C>, book: seq<Record<C>>, below: Below<C>, size: nat, n: nat)
    requires size >= 1 && n >= 2 && (n - 1) * size >= |custom|
    ensures var a, b := Passed(|custom|, |book|, size, n - 1), Passed(|custom|, |book|, size, n);
      0 <= a <= b <= |book| && PageOf(custom, book, below, n, size) == Some(Contacts(book[a..b]))
  {
    var a, b := Passed(|custom|, |book|, size, n - 1), Passed(|custom|, |book|, size, n);
    PassedGrows(|custom|, |book|, size, n);
    var o := Asked(|custom|, n, size);
    assert o == Offset((n - 1) * size - |custom|, size);
    assert Window(book, o.offset, o.limit) == book[a..b];
  }

  lemma Joined<C>(start: seq<C>, book: seq<Record<C>>, from: nat, a: nat, b: nat)
    requires from <= a <= b <= |book|
    ensures (start + Contacts(book[from..a])) + Contacts(book[a..b]) == start + Contacts(book[from..b])
  {
    assert book[from..b] == book[from..a] + book[a..b];
    ContactsConcat(book[from..a], book[a..b]);
  }

  lemma FirstPage<C>(custom: seq<C>, book: seq<Record<C>>, below: Below<C>, size: nat)
    requires size >= 1
    ensures Walked(custom, book, below, size, 1) == PageOf(custom, book, below, 1, size)
    ensures |custom| == 0 || size > |custom| ==>
      PageOf(custom, book, below, 1, size) == Some(custom + Contacts(book[..Min(size - |custom|, |book|)]))
    ensures 0 < |custom| && size <= |custom| ==>
      PageOf(custom, book, below, 1, size) == Some(custom + Contacts(book[..Min(1, |book|)]))
  {
    assert Walked(custom, book, below, size, 0) == Some([]);
    var page := PageOf(custom, book, below, 1, size).value;
    assert [] + page == page;
  }

  /** Pages 1..n have shown `start` and then the phonebook from `from` up to where page n ends. */
  ghost predicate Shown<C>(custom: seq<C>, book: seq<Record<C>>, below: Below<C>, size: nat, n: nat, start: seq<C>, from: nat) {
    var b := Passed(|custom|, |book|, size, n);
    from <= b && Walked(custom, book, below, size, n) == Some(start + Contacts(book[from..b]))
  }

  lemma ShownOn<C>(custom: seq<C>, book: seq<Record<C>>, below: Below<C>, size: nat, n: nat, start: seq<C>, from: nat)
    requires size >= 1 && n >= 2 && (n - 1) * size >= |custom|
    requires Shown(custom, book, below, size, n - 1, start, from)
    ensures Shown(custom, book, below, size, n, start, from)
  {
    var a, b := Passed(|custom|, |book|, size, n - 1), Passed(|custom|, |book|, size, n);
    PassedGrows(|custom|, |book|, size, n);
    LaterPage(custom, book, below, size, n);
    Joined(start, book, from, a, b);
  }

  // ---- page sizes above the number of custom contacts ----

  lemma {:induction false} WalkedIsPrefix<C>(custom: seq<C>, book: seq<Record<C>>, below: Below<C>, size: nat, n: nat)
    requires size >= 1 && n >= 1 && (|custom| == 0 || size > |custom|)
    ensures Shown(custom, book, below, size, n, custom, 0)
  {
    if n == 1 {
      FirstPage(custom, book, below, size);
      var b := Min(size - |custom|, |book|);
      assert book[0..b] == book[..b];
    } else {
      WalkedIsPrefix(custom, book, below, size, n - 1);
      Times(1, n - 1, size);
      ShownOn(custom, book, below, size, n, custom, 0);
    }
  }

  /** For page sizes above the number of custom contacts, the pages the total announces concatenate
      to the custom contacts followed by the whole phonebook without the caller's own records; and
      the total is its length exactly when there are none of those. */
  lemma PagesCoverThePhonebook<C>(custom: seq<C>, book: seq<Record<C>>, below: Below<C>, size: nat)
    requires size >= 1 && (|custom| == 0 || size > |custom|)
    ensures Covers(custom, book, below, size)
    ensures Total(custom, book) == |custom + Contacts(book)| <==> forall i :: 0 <= i < |book| ==> !book[i].own
  {
    var n := PageCount(Total(custom, book), size);
    if n == 0 {
      PageBounds(Total(custom, book), size, 1);
      assert custom == [] && book == [] && Contacts(book) == [];
      assert Walked(custom, book, below, size, 0) == Some([]) && custom + Contacts(book) == [];
    } else {
      LastPagePasses(Total(custom, book), size);
      WalkedIsPrefix(custom, book, below, size, n);
      assert book[0..|book|] == book;
    }
    ContactCount(book);
  }

  lemma LastPagePasses(total: nat, size: nat)
    requires size >= 1
    ensures PageCount(total, size) * size >= total
  {
    PageBound(total, size, PageCount(total, size));
  }

  /** Walking the pages that the total announces shows exactly what there is. */
  ghost predicate Covers<C>(custom: seq<C>, book: seq<Record<C>>, below: Below<C>, size: nat)
    requires size >= 1
  {
    Walked(custom, book, below, size, PageCount(Total(custom, book), size)) == Some(custom + Contacts(book))
  }

  /** Every page but the last then is full too, when no record is the caller's own. */
  lemma PagesAreFull<C>(custom: seq<C>, book: seq<Record<C>>, below: Below<C>, size: nat, page: nat)
    requires size >= 1 && (|custom| == 0 || size > |custom|) && 1 <= page < PageCount(Total(custom, book), size)
    requires forall i :: 0 <= i < |book| ==> !book[i].own
    ensures var p := PageOf(custom, book, below, page, size); p.Some? && |p.value| == size
  {
    PageBounds(Total(custom, book), size, page);
    assert (page - 1) * size + size == page * size;
    if page > 1 { assert (page - 1) * size >= size; }
    assert size * (page - 1) == (page - 1) * size;
    var o := Asked(|custom|, page, size);
    ContactCount(Window(book, o.offset, o.limit));
  }

  // ---- as many custom contacts as places, or more ----

  /** Page 1 then holds more than a page when the phonebook's first record is shown behind them, or
      when the custom contacts alone are more; and with more, page 2 is asked for below zero. */
  lemma FirstPageOverflows<C>(custom: seq<C>, book: seq<Record<C>>, below: Below<C>, size: nat)
    requires 1 <= size <= |custom|
    ensures var p := PageOf(custom, book, below, 1, size);
      && p.Some? && custom <= p.value
      && (|p.value| > size <==> size < |custom| || (book != [] && !book[0].own))
    ensures Asked(|custom|, 2, size).offset < 0 <==> size < |custom|
  {
    FirstPage(custom, book, below, size);
    FirstRecord(book);
  }

  /** What pages 2..n show, all of them asked for below zero. */
  function BelowPages<C>(cc: nat, below: Below<C>, size: nat, n: nat): Option<seq<C>> {
    if n <= 1 then Some([]) else Then(BelowPages(cc, below, size, n - 1), Shows(below(Asked(cc, n, size))))
  }

  /** The pages up to the last one that is asked for below zero. */
  lemma {:induction false} WalkedBelow<C>(custom: seq<C>, book: seq<Record<C>>, below: Below<C>, size: nat, n: nat)
    requires 1 <= size <= |custom| && 1 <= n <= PageCount(|custom|, size)
    ensures Walked(custom, book, below, size, n)
            == Then(Some(custom + Contacts(book[..Min(1, |book|)])), BelowPages(|custom|, below, size, n))
  {
    var start := Some(custom + Contacts(book[..Min(1, |book|)]));
    if n == 1 {
      FirstPage(custom, book, below, size);
      assert start.value + [] == start.value;
    } else {
      WalkedBelow(custom, book, below, size, n - 1);
      PageBelow(custom, book, below, size, n);
      ThenAssociates(start, BelowPages(|custom|, below, size, n - 1), PageOf(custom, book, below, n, size));
    }
  }

  lemma PageBelow<C>(custom: seq<C>, book: seq<Record<C>>, below: Below<C>, size: nat, n: nat)
    requires 1 <= size && 2 <= n <= PageCount(|custom|, size)
    ensures PageOf(custom, book, below, n, size) == Shows(below(Asked(|custom|, n, size)))
  {
    PageBounds(|custom|, size, n);
    assert Asked(|custom|, n, size).offset < 0;
  }

  lemma ThenAssociates<C>(a: Option<seq<C>>, b: Option<seq<C>>, c: Option<seq<C>>)
    ensures Then(Then(a, b), c) == Then(a, Then(b, c))
  {
    if a.Some? && b.Some? && c.Some? {
      assert (a.value + b.value) + c.value == a.value + (b.value + c.value);
    }
  }

  lemma {:induction false} WalkedBehindBelow<C>(custom: seq<C>, book: seq<Record<C>>, below: Below<C>, size: nat, n: nat, start: seq<C>)
    requires 1 <= size <= |custom| && n >= PageCount(|custom|, size) >= 1
    requires Walked(custom, book, below, size, PageCount(|custom|, size)) == Some(start)
    ensures 0 <= Resumed(|custom|, |book|, size) <= |book|
    ensures Shown(custom, book, below, size, n, start, Resumed(|custom|, |book|, size))
  {
    var last, from := PageCount(|custom|, size), Resumed(|custom|, |book|, size);
    LastPagePasses(|custom|, size);
    if n == last {
      assert book[from..from] == [] && start + [] == start;
    } else {
      WalkedBehindBelow(custom, book, below, size, n - 1, start);
      Times(last, n - 1, size);
      ShownOn(custom, book, below, size, n, start, from);
    }
  }

  /** Where the first page at an offset of zero or more begins. */
  function Resumed(cc: nat, count: nat, size: nat): int
    requires size >= 1
  {
    Passed(cc, count, size, PageCount(cc, size))
  }

  lemma {:induction false} WalkedIsRefused<C>(custom: seq<C>, book: seq<Record<C>>, below: Below<C>, size: nat, m: nat, n: nat)
    requires m <= n && Walked(custom, book, below, size, m) == None
    ensures Walked(custom, book, below, size, n) == None
  {
    if m < n {
      WalkedIsRefused(custom, book, below, size, m, n - 1);
    }
  }

  /** What the below-zero answers must make up for: together with the record that page 1 shows beyond
      its size, they are the contacts in front of where the phonebook is resumed. */
  ghost predicate MakesUp<C>(custom: seq<C>, book: seq<Record<C>>, below: Below<C>, size: nat)
    requires 1 <= size <= |custom|
  {
    LastPagePasses(|custom|, size);
    var m := BelowPages(|custom|, below, size, PageCount(|custom|, size));
    m.Some? && Contacts(book[..Min(1, |book|)]) + m.value == Contacts(book[..Resumed(|custom|, |book|, size)])
  }

  lemma EnoughCustom<C>(custom: seq<C>, book: seq<Record<C>>, size: nat)
    requires 1 <= size <= |custom|
    ensures 1 <= PageCount(|custom|, size) <= PageCount(Total(custom, book), size)
  {
    PageBounds(|custom|, size, 1);
    PageBounds(|custom|, size, PageCount(|custom|, size));
    PageBounds(Total(custom, book), size, PageCount(|custom|, size));
  }

  lemma AllPagesBehindBelow<C>(custom: seq<C>, book: seq<Record<C>>, below: Below<C>, size: nat, start: seq<C>)
    requires 1 <= size <= |custom|
    requires Walked(custom, book, below, size, PageCount(|custom|, size)) == Some(start)
    ensures 0 <= Resumed(|custom|, |book|, size) <= |book|
    ensures Walked(custom, book, below, size, PageCount(Total(custom, book), size))
            == Some(start + Contacts(book[Resumed(|custom|, |book|, size)..]))
  {
    var n, from := PageCount(Total(custom, book), size), Resumed(|custom|, |book|, size);
    EnoughCustom(custom, book, size);
    WalkedBehindBelow(custom, book, below, size, n, start);
    LastPagePasses(Total(custom, book), size);
    assert book[from..|book|] == book[from..];
  }

  lemma Cancelled<C>(a: seq<C>, x: seq<C>, y: seq<C>, b: seq<C>)
    ensures a + x + b == a + (y + b) <==> x == y
  {
    assert a + (y + b) == a + y + b;
    if a + x + b == a + y + b {
      assert |x| == |y|;
      assert x == (a + x + b)[|a|..|a| + |x|];
      assert y == (a + y + b)[|a|..|a| + |y|];
    }
  }

  /** Exactly when paging covers the phonebook, for every phonebook, every page size and whatever the
      switch answers below zero: fewer custom contacts than places, or answers that make up. */
  lemma PagesCoverIff<C>(custom: seq<C>, book: seq<Record<C>>, below: Below<C>, size: nat)
    requires size >= 1
    ensures Covers(custom, book, below, size) <==> custom == [] || size > |custom| || MakesUp(custom, book, below, size)
  {
    if custom == [] || size > |custom| {
      PagesCoverThePhonebook(custom, book, below, size);
    } else {
      var last, from := PageCount(|custom|, size), Resumed(|custom|, |book|, size);
      EnoughCustom(custom, book, size);
      WalkedBelow(custom, book, below, size, last);
      var first, m := Contacts(book[..Min(1, |book|)]), BelowPages(|custom|, below, size, last);
      if m == None {
        WalkedIsRefused(custom, book, below, size, last, PageCount(Total(custom, book), size));
      } else {
        LastPagePasses(|custom|, size);
        AllPagesBehindBelow(custom, book, below, size, custom + first + m.value);
        assert custom + first + m.value == custom + (first + m.value);
        SplitContacts(book, from);
        Cancelled(custom, first + m.value, Contacts(book[..from]), Contacts(book[from..]));
      }
    }
  }

  lemma SplitContacts<C>(book: seq<Record<C>>, k: nat)
    requires k <= |book|
    ensures Contacts(book) == Contacts(book[..k]) + Contacts(book[k..])
  {
    assert book == book[..k] + book[k..];
    ContactsConcat(book[..k], book[k..]);
  }

  /** With exactly as many custom contacts as places nothing is asked below zero, and page 2 starts the
      phonebook over: paging covers it exactly when its first record is absent or the caller's own. */
  lemma WalkedStartsOver<C>(custom: seq<C>, book: seq<Record<C>>, below: Below<C>, size: nat)
    requires size == |custom| >= 1
    ensures Walked(custom, book, below, size, PageCount(Total(custom, book), size))
            == Some(custom + Contacts(book[..Min(1, |book|)]) + Contacts(book))
    ensures Covers(custom, book, below, size) <==> book == [] || book[0].own
  {
    assert PageCount(|custom|, size) == 1;
    var start := custom + Contacts(book[..Min(1, |book|)]);
    FirstPage(custom, book, below, size);
    AllPagesBehindBelow(custom, book, below, size, start);
    assert book[0..] == book;
    FirstRecord(book);
    AddedInFront(custom, Contacts(book[..Min(1, |book|)]), Contacts(book));
  }

  /** When the switch answers below zero with no records, and none is the caller's own, more custom
      contacts than places are covered exactly when the phonebook resumes behind its first record. */
  lemma EmptyBelowCoversIff<C>(custom: seq<C>, book: seq<Record<C>>, below: Below<C>, size: nat)
    requires 1 <= size <= |custom|
    requires forall o: Offset :: below(o) == Some([])
    requires forall i :: 0 <= i < |book| ==> !book[i].own
    ensures Covers(custom, book, below, size) <==> Resumed(|custom|, |book|, size) == Min(1, |book|)
  {
    var last, from := PageCount(|custom|, size), Resumed(|custom|, |book|, size);
    LastPagePasses(|custom|, size);
    PagesCoverIff(custom, book, below, size);
    NothingBelow(|custom|, below, size, last);
    ContactCount(book[..Min(1, |book|)]);
    ContactCount(book[..from]);
    var first := Contacts(book[..Min(1, |book|)]);
    assert first + [] == first;
  }

  lemma {:induction false} NothingBelow<C>(cc: nat, below: Below<C>, size: nat, n: nat)
    requires forall o: Offset :: below(o) == Some([])
    ensures BelowPages(cc, below, size, n) == Some([])
  {
    if n > 1 {
      NothingBelow(cc, below, size, n - 1);
      assert Shows(below(Asked(cc, n, size))) == Some([]);
      assert [] + [] == Contacts<C>([]);
    }
  }

  lemma FirstRecord<C>(book: seq<Record<C>>)
    ensures Contacts(book[..Min(1, |book|)]) == [] <==> book == [] || book[0].own
  {
    var first := book[..Min(1, |book|)];
    if book != [] {
      assert first == [book[0]] && first[1..] == [];
      assert Contacts(first) == (if first[0].own then [] else [first[0].contact]) + Contacts(first[1..]);
    }
  }

  lemma AddedInFront<C>(a: seq<C>, extra: seq<C>, b: seq<C>)
    ensures a + extra + b == a + b <==> extra == []
  {
    if extra == [] {
      assert a + extra == a;
    } else {
      assert |a + extra + b| > |a + b|;
    }
  }
}
