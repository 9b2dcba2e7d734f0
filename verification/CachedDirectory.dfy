/**
 The directory computed from cached rows is the directory computed from live ones
 (app/bss/adapters/portaswitch/adapter.py: the projection of `_read_accounts_into_cache` under
 the non-search branch of `retrieve_contacts_v2`).
 */
module CachedDirectory {
  import opened Prelude
  import opened AccountProjection
  import opened Directory

  function ProjectRow(r: Row): Row {
    Row(r.id, Project(r.account))
  }

  function ProjectRows(rows: seq<Row>): seq<Row> {
    Map(rows, ProjectRow)
  }

  function Passes(c: FilterConfig): Row -> bool {
    (r: Row) => PassesFilter(c, r.account) == Some(true)
  }

  /** What a request makes of the offices' lists: None is a row that cannot be serialised. */
  function Listed(c: FilterConfig, lists: seq<seq<Row>>): seq<Option<Contact>> {
    Map(Filter(SortById(Flatten(lists)), Passes(c)), (r: Row) => ContactOf(r.account, c.currentUser))
  }

  lemma {:induction false} FlattenProjected(lists: seq<seq<Row>>)
    ensures Flatten(Map(lists, ProjectRows)) == ProjectRows(Flatten(lists))
  {
    if lists != [] {
      assert Map(lists, ProjectRows)[1..] == Map(lists[1..], ProjectRows);
      FlattenProjected(lists[1..]);
    }
  }

  lemma {:induction false} InsertProjected(rows: seq<Row>, row: Row)
    ensures Insert(ProjectRows(rows), ProjectRow(row)) == ProjectRows(Insert(rows, row))
  {
    if rows != [] {
      assert ProjectRows(rows)[|rows| - 1] == ProjectRow(rows[|rows| - 1]);
    }
    if rows != [] && row.id < rows[|rows| - 1].id {
      var n := |rows| - 1;
      assert ProjectRows(rows)[..n] == ProjectRows(rows[..n]);
      InsertProjected(rows[..n], row);
      assert ProjectRows(Insert(rows[..n], row) + [rows[n]]) == ProjectRows(Insert(rows[..n], row)) + [ProjectRow(rows[n])];
    } else {
      assert ProjectRows(rows + [row]) == ProjectRows(rows) + [ProjectRow(row)];
    }
  }

  lemma {:induction false} SortProjected(rows: seq<Row>)
    ensures SortById(ProjectRows(rows)) == ProjectRows(SortById(rows))
  {
    if rows != [] {
      var n := |rows| - 1;
      assert ProjectRows(rows)[..n] == ProjectRows(rows[..n]);
      SortProjected(rows[..n]);
      InsertProjected(SortById(rows[..n]), rows[n]);
    }
  }

  lemma {:induction false} FilterProjected(c: FilterConfig, rows: seq<Row>)
    ensures Filter(ProjectRows(rows), Passes(c)) == ProjectRows(Filter(rows, Passes(c)))
  {
    if rows != [] {
      assert ProjectRows(rows)[1..] == ProjectRows(rows[1..]);
      FilterProjected(c, rows[1..]);
      FilterSurvives(c, rows[0].account);
      assert ProjectRows([rows[0]] + Filter(rows[1..], Passes(c)))
          == [ProjectRow(rows[0])] + ProjectRows(Filter(rows[1..], Passes(c)));
    }
  }

  lemma {:induction false} FilterKeepsFrom(rows: seq<Row>, keep: Row -> bool)
    ensures forall r :: r in Filter(rows, keep) ==> r in rows && keep(r)
  {
    if rows != [] { FilterKeepsFrom(rows[1..], keep); }
  }

  lemma ContactsProjected(rows: seq<Row>, currentUser: int)
    requires forall r :: r in rows ==> WellFormed(r.account)
    ensures var contact := (r: Row) => ContactOf(r.account, currentUser);
      Map(ProjectRows(rows), contact) == Map(rows, contact)
  {
    forall i | 0 <= i < |rows|
      ensures ContactOf(ProjectRows(rows)[i].account, currentUser) == ContactOf(rows[i].account, currentUser)
    {
      assert rows[i] in rows && ProjectRows(rows)[i] == ProjectRow(rows[i]);
      ContactSurvivesIff(rows[i].account, currentUser);
    }
  }

  lemma KeptRowsAreWellFormed(c: FilterConfig, rows: seq<Row>)
    requires forall r :: r in rows ==> WellFormed(r.account)
    ensures forall r :: r in Filter(SortById(rows), Passes(c)) ==> WellFormed(r.account)
  {
    SortSorts(rows);
    FilterKeepsFrom(SortById(rows), Passes(c));
    forall r | r in SortById(rows) ensures r in rows {
      assert r in multiset(SortById(rows));
    }
  }

  /** For well-formed rows a request is answered alike from the cache and from the switch. */
  lemma CachedListIsTheLiveList(c: FilterConfig, lists: seq<seq<Row>>)
    requires forall r :: r in Flatten(lists) ==> WellFormed(r.account)
    ensures Listed(c, Map(lists, ProjectRows)) == Listed(c, lists)
  {
    var rows := Flatten(lists);
    FlattenProjected(lists);
    SortProjected(rows);
    FilterProjected(c, SortById(rows));
    KeptRowsAreWellFormed(c, rows);
    ContactsProjected(Filter(SortById(rows), Passes(c)), c.currentUser);
  }
}
