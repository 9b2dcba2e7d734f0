/**
 The sign-in lookup by e-mail address (app/bss/adapters/portaswitch/adapter.py:229-230, 732-757):
 candidate rows are read page by page and an account is picked only when exactly one of all the
 candidates carries the address.
 */
module EmailLookup {
  import opened Prelude
  import opened Directory

  const PAGE: nat := 1000
  const MAX_ROWS: nat := 10000

  /** A candidate row: its account, and whether its e-mail field really holds the address. */
  datatype Candidate = Candidate(account: int, hasEmail: bool)

  datatype Answer = NoAccount | Account(account: int) | Refused

  /** The accounts that carry the address. */
  function Matching(rows: seq<Candidate>): set<int> {
    set i | 0 <= i < |rows| && rows[i].hasEmail :: rows[i].account
  }

  /** Those among the first `n` candidates. */
  function MatchingIn(rows: seq<Candidate>, n: nat): set<int>
    requires n <= |rows|
  {
    Matching(rows[..n])
  }

  /** The list was read to its limit and nothing said that it ends there. */
  predicate MayContinue(rows: seq<Candidate>, hasTotal: nat -> bool) {
    |rows| > MAX_ROWS || (|rows| == MAX_ROWS && !hasTotal(MAX_ROWS - PAGE))
  }

  /** The answer rests on the whole list of candidates, or is a refusal. */
  predicate Decided(rows: seq<Candidate>, hasTotal: nat -> bool, answer: Answer) {
    && (answer == Refused <==> TwoMatch(rows) || MayContinue(rows, hasTotal))
    && (answer == NoAccount ==> forall i :: 0 <= i < |rows| ==> !rows[i].hasEmail)
    && (answer.Account? ==>
          && (exists i :: 0 <= i < |rows| && rows[i].hasEmail)
          && (forall i :: 0 <= i < |rows| && rows[i].hasEmail ==> rows[i].account == answer.account))
  }

  /** Two different accounts carry the address. */
  predicate TwoMatch(rows: seq<Candidate>) {
    exists i, j :: 0 <= i < |rows| && 0 <= j < |rows| && rows[i].hasEmail && rows[j].hasEmail && rows[i].account != rows[j].account
  }

  /** The same in terms of the set of accounts that match. */
  predicate DecidedBySet(rows: seq<Candidate>, hasTotal: nat -> bool, answer: Answer) {
    && (answer == Refused <==> |Matching(rows)| > 1 || MayContinue(rows, hasTotal))
    && (answer == NoAccount ==> Matching(rows) == {})
    && (answer.Account? ==> Matching(rows) == {answer.account})
  }

  lemma DecidedIff(rows: seq<Candidate>, hasTotal: nat -> bool, answer: Answer)
    ensures Decided(rows, hasTotal, answer) <==> DecidedBySet(rows, hasTotal, answer)
  {
    TwoMatchIff(rows);
    if answer.Account? && Matching(rows) == {answer.account} {
      assert answer.account in Matching(rows);
      forall i | 0 <= i < |rows| && rows[i].hasEmail ensures rows[i].account == answer.account {
        assert rows[i].account in Matching(rows);
      }
    }
    if answer == NoAccount && Matching(rows) == {} {
      forall i | 0 <= i < |rows| ensures !rows[i].hasEmail {
        Matches(rows, i);
      }
    }
  }

  lemma Matches(rows: seq<Candidate>, i: nat)
    requires i < |rows|
    ensures rows[i].hasEmail ==> rows[i].account in Matching(rows)
  {
  }

  lemma TwoMatchIff(rows: seq<Candidate>)
    ensures TwoMatch(rows) <==> |Matching(rows)| > 1
  {
    var s := Matching(rows);
    if TwoMatch(rows) {
      var i, j :| 0 <= i < |rows| && 0 <= j < |rows| && rows[i].hasEmail && rows[j].hasEmail && rows[i].account != rows[j].account;
      SubsetIsSmaller({rows[i].account, rows[j].account}, s);
    }
    if |s| > 1 {
      var a := Pick(s);
      assert |s - {a}| >= 1;
      var b := Pick(s - {a});
      var i :| 0 <= i < |rows| && rows[i].hasEmail && rows[i].account == a;
      var j :| 0 <= j < |rows| && rows[j].hasEmail && rows[j].account == b;
    }
  }

  /** The lookup, decided by the accounts that match (`DecidedIff` says what that means row by row). `rows` are the switch's candidates, a list that stays the same while it is read;
      `hasTotal(offset)` tells whether the page at that offset reports the number of them. */
  method FindAccountByEmail(isAddress: bool, rows: seq<Candidate>, hasTotal: nat -> bool)
      returns (answer: Answer, pages: nat)
    ensures if isAddress then DecidedBySet(rows, hasTotal, answer) else answer == NoAccount
    ensures pages <= MAX_ROWS / PAGE
    ensures isAddress && answer != Refused ==> pages * PAGE >= |rows|
  {
    pages := 0;
    if !isAddress {
      return NoAccount, pages;
    }
    var matches: set<int> := {};
    var offset := 0;
    while true
      invariant offset == pages * PAGE <= |rows|
      invariant pages < MAX_ROWS / PAGE
      invariant matches == MatchingIn(rows, offset) && |matches| <= 1
      decreases MAX_ROWS - offset
    {
      var page := Window(rows, offset, PAGE);
      NextPage(rows, offset);
      matches := matches + Matching(page);
      pages := pages + 1;
      if |matches| > 1 {
        MatchingGrows(rows, offset + |page|);
        return Refused, pages;
      }
      offset := offset + |page|;
      if |page| < PAGE || (hasTotal(offset - |page|) && offset >= |rows|) {
        break;
      }
      if offset >= MAX_ROWS {
        return Refused, pages;
      }
    }
    assert rows[..|rows|] == rows;
    if matches == {} {
      return NoAccount, pages;
    }
    var account :| account in matches;
    Single(matches, account);
    return Account(account), pages;
  }

  lemma NextPage(rows: seq<Candidate>, offset: nat)
    requires offset <= |rows|
    ensures var page := Window(rows, offset, PAGE);
      && |page| == Min(PAGE, |rows| - offset)
      && MatchingIn(rows, offset) + Matching(page) == MatchingIn(rows, offset + |page|)
  {
    var page := Window(rows, offset, PAGE);
    assert page == rows[offset..offset + |page|];
    MatchingNext(rows, offset, offset + |page|);
  }

  lemma MatchingNext(rows: seq<Candidate>, a: nat, b: nat)
    requires a <= b <= |rows|
    ensures Matching(rows[..b]) == Matching(rows[..a]) + Matching(rows[a..b])
  {
    forall account | account in Matching(rows[..b])
      ensures account in Matching(rows[..a]) || account in Matching(rows[a..b])
    {
      var i :| 0 <= i < b && rows[..b][i].hasEmail && rows[..b][i].account == account;
      if i < a {
        assert rows[..a][i] == rows[i];
      } else {
        assert rows[a..b][i - a] == rows[i];
      }
    }
    forall account | account in Matching(rows[..a]) ensures account in Matching(rows[..b]) {
      var i :| 0 <= i < a && rows[..a][i].hasEmail && rows[..a][i].account == account;
      assert rows[..b][i] == rows[i];
    }
    forall account | account in Matching(rows[a..b]) ensures account in Matching(rows[..b]) {
      var i :| 0 <= i < b - a && rows[a..b][i].hasEmail && rows[a..b][i].account == account;
      assert rows[..b][i + a] == rows[a..b][i];
    }
  }

  lemma MatchingGrows(rows: seq<Candidate>, b: nat)
    requires b <= |rows|
    ensures |Matching(rows)| >= |MatchingIn(rows, b)|
  {
    MatchingNext(rows, b, |rows|);
    assert rows[..|rows|] == rows;
    SubsetIsSmaller(Matching(rows[..b]), Matching(rows));
  }

  lemma {:induction false} SubsetIsSmaller(a: set<int>, b: set<int>)
    requires a <= b
    ensures |a| <= |b|
  {
    if a != {} {
      var some := Pick(a);
      SubsetIsSmaller(a - {some}, b - {some});
    }
  }

  lemma Single(s: set<int>, x: int)
    requires x in s && |s| <= 1
    ensures s == {x}
  {
    assert |s - {x}| == |s| - 1;
    assert s - {x} == {};
  }

  /** The order in which the switch lists the candidates never matters, not even past the limit. */
  lemma AnswerIgnoresOrder(a: seq<Candidate>, b: seq<Candidate>, hasTotal: nat -> bool, x: Answer, y: Answer)
    requires multiset(a) == multiset(b)
    requires Decided(a, hasTotal, x) && Decided(b, hasTotal, y)
    ensures x == y
  {
    assert |a| == |multiset(a)| == |multiset(b)| == |b|;
    DecidedIff(a, hasTotal, x);
    DecidedIff(b, hasTotal, y);
    SameRowsMatch(a, b);
    SameRowsMatch(b, a);
    assert Matching(a) == Matching(b);
    if x.Account? && y.Account? {
      assert x.account in Matching(b);
    }
  }

  lemma SameRowsMatch(a: seq<Candidate>, b: seq<Candidate>)
    requires multiset(a) == multiset(b)
    ensures Matching(a) <= Matching(b)
  {
    forall account | account in Matching(a) ensures account in Matching(b) {
      var i :| 0 <= i < |a| && a[i].hasEmail && a[i].account == account;
      assert a[i] in multiset(b);
      var j :| 0 <= j < |b| && b[j] == a[i];
    }
  }

  /** Further candidates, whatever their addresses, never
      make the lookup pick a different account: it picks the same one or refuses. */
  lemma PickSurvivesOtherCandidates(rows: seq<Candidate>, more: seq<Candidate>, hasTotal: nat -> bool, x: Answer, y: Answer)
    requires Decided(rows, hasTotal, x) && Decided(rows + more, hasTotal, y)
    requires x.Account?
    ensures y == x || y == Refused
    ensures y == x ==> Matching(more) <= {x.account}
  {
    var all := rows + more;
    DecidedIff(rows, hasTotal, x);
    DecidedIff(all, hasTotal, y);
    MatchingNext(all, |rows|, |all|);
    assert all[..|all|] == all && all[..|rows|] == rows && all[|rows|..|all|] == more;
    assert x.account in Matching(all);
    if y.Account? {
      assert x.account in {y.account};
    }
  }
}
