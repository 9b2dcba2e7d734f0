/**
 The session store and the rotation of tokens
 (app/bss/sessions.py, class SessionStorage; app/bss/adapters/session_management.py).

 Access and refresh records share one key space: an access record is kept under its access
 token, a refresh record under "R" followed by its refresh token. Tokens are generated as
 strings of hexadecimal digits; the generated pair is an input here, assumed never used
 before. `still_active` compares with a timestamp fixed when the class is defined
 (app/bss/types.py:213), so the clock it reads is a constant of the store.
 */
module TokenStore {
  import opened Prelude

  type Token = string

  datatype Record = Record(userId: string, access: Token, refresh: Token, expiresAt: int)

  type Store = map<string, Record>

  const ACCESS_EXPIRED := "access_token_expired"
  const ACCESS_INVALID := "access_token_invalid"
  const REFRESH_INVALID := "refresh_token_invalid"
  const REFRESH_EXPIRED := "refresh_token_expired"
  const CLOSE_FAILED := ""

  /** A 401 with its extra error code. */
  datatype Answer<T> = Granted(value: T) | Refused(code: string)

  function RefreshKey(t: Token): string {
    "R" + t
  }

  /** A string the generator could have produced: lower-case hexadecimal, not empty. */
  predicate Hex(t: Token) {
    t != "" && forall i :: 0 <= i < |t| ==> ('0' <= t[i] <= '9' || 'a' <= t[i] <= 'f')
  }

  predicate Active(r: Record, epoch: int) {
    r.expiresAt > epoch
  }

  // ---- the store as a value ----

  /** Lookup by the refresh token when there is one, by the access token otherwise. */
  function Lookup(db: Store, access: Token, refresh: Token): Option<Record> {
    var key := if refresh != "" then RefreshKey(refresh) else access;
    if key in db then Some(db[key]) else None
  }

  function Stored(db: Store, r: Record, refreshExpiresAt: int): Store {
    db[r.access := r][RefreshKey(r.refresh) := r.(expiresAt := refreshExpiresAt)]
  }

  function Deleted(db: Store, access: Token, refresh: Token): Store {
    (if refresh != "" then db - {RefreshKey(refresh)} else db) - {access}
  }

  function AfterValidate(db: Store, epoch: int, access: Token): (Store, Answer<Record>) {
    if access !in db then (db, Refused(ACCESS_INVALID))
    else if !Active(db[access], epoch) then (Deleted(db, access, ""), Refused(ACCESS_EXPIRED))
    else (db, Granted(db[access]))
  }

  function AfterRefresh(db: Store, epoch: int, refresh: Token, minted: Record, refreshExpiresAt: int): (Store, Answer<Record>) {
    match Lookup(db, "", refresh)
    case None => (db, Refused(REFRESH_INVALID))
    case Some(prior) =>
      if !Active(prior, epoch) then (Deleted(db, prior.access, refresh), Refused(REFRESH_EXPIRED))
      else
        var session := minted.(userId := prior.userId);
        (Deleted(Stored(db, session, refreshExpiresAt), prior.access, refresh), Granted(session))
  }

  function AfterClose(db: Store, access: Token): (Store, Answer<bool>) {
    if access !in db then (db, Refused(CLOSE_FAILED))
    else
      var r := db[access];
      (Deleted(db, access, r.refresh),
       Granted(access in (if r.refresh != "" then db - {RefreshKey(r.refresh)} else db)))
  }

  // ---- the objects ----

  class SessionStorage {
    var db: Store

    constructor ()
      ensures db == map[]
    {
      db := map[];
    }

    method GetSession(access: Token, refresh: Token) returns (r: Option<Record>)
      ensures r == Lookup(db, access, refresh)
    {
      if refresh != "" {
        var key := RefreshKey(refresh);
        return if key in db then Some(db[key]) else None;
      }
      return if access in db then Some(db[access]) else None;
    }

    method StoreSession(session: Record, refreshExpiresAt: int)
      modifies this
      ensures db == Stored(old(db), session, refreshExpiresAt)
    {
      db := db[session.access := session];
      var copy := session.(expiresAt := refreshExpiresAt);
      db := db[RefreshKey(session.refresh) := copy];
    }

    method Pop(key: string) returns (found: bool)
      modifies this
      ensures db == old(db) - {key} && found == (key in old(db))
    {
      found := key in db;
      db := db - {key};
    }

    method DeleteSession(access: Token, refresh: Token) returns (found: bool)
      modifies this
      ensures db == Deleted(old(db), access, refresh)
      ensures found == (access in (if refresh != "" then old(db) - {RefreshKey(refresh)} else old(db)))
    {
      if refresh != "" {
        var _ := Pop(RefreshKey(refresh));
      }
      found := Pop(access);
    }
  }

  class SessionManagement {
    const sessions: SessionStorage
    /** The moment `still_active` compares with. */
    const epoch: int

    constructor (sessions: SessionStorage, epoch: int)
      ensures this.sessions == sessions && this.epoch == epoch
    {
      this.sessions, this.epoch := sessions, epoch;
    }

    method ValidateSession(access: Token) returns (a: Answer<Record>)
      modifies sessions
      ensures (sessions.db, a) == AfterValidate(old(sessions.db), epoch, access)
    {
      var session := sessions.GetSession(access, "");
      if session.Some? {
        if !Active(session.value, epoch) {
          var _ := sessions.DeleteSession(access, "");
          return Refused(ACCESS_EXPIRED);
        }
        return Granted(session.value);
      }
      return Refused(ACCESS_INVALID);
    }

    /** `minted` is the record create_session builds: new tokens, a new expiry. */
    method RefreshSession(refresh: Token, minted: Record, refreshExpiresAt: int) returns (a: Answer<Record>)
      modifies sessions
      ensures (sessions.db, a) == AfterRefresh(old(sessions.db), epoch, refresh, minted, refreshExpiresAt)
    {
      var session := sessions.GetSession("", refresh);
      if session == None {
        return Refused(REFRESH_INVALID);
      }
      var access := session.value.access;
      if !Active(session.value, epoch) {
        var _ := sessions.DeleteSession(access, refresh);
        return Refused(REFRESH_EXPIRED);
      }
      var created := minted.(userId := session.value.userId);
      sessions.StoreSession(created, refreshExpiresAt);
      var _ := sessions.DeleteSession(access, refresh);
      return Granted(created);
    }

    method CloseSession(access: Token) returns (a: Answer<bool>)
      modifies sessions
      ensures (sessions.db, a) == AfterClose(old(sessions.db), access)
    {
      var session := sessions.GetSession(access, "");
      if session.Some? {
        var found := sessions.DeleteSession(access, session.value.refresh);
        return Granted(found);
      }
      return Refused(CLOSE_FAILED);
    }
  }

  // ---- runs ----

  /** A login stores a new pair; the other events are the calls above. */
  datatype Event =
    | Login(minted: Record, refreshExpiresAt: int)
    | Validate(access: Token)
    | Refresh(refresh: Token, minted: Record, refreshExpiresAt: int)
    | Close(access: Token)

  /** The store; every pair of tokens ever issued, as a map from the refresh token to the access
      token; the refresh tokens exchanged so far; and the tokens that an exchange, a close or an
      expiry has retired. */
  datatype State = State(db: Store, pairs: map<Token, Token>, exchanged: seq<Token>, retired: set<Token>)

  const EMPTY := State(map[], map[], [], {})

  predicate Issued(pairs: map<Token, Token>, t: Token) {
    t in pairs.Keys || t in pairs.Values
  }

  predicate FreshPair(s: State, r: Record) {
    && Hex(r.access) && Hex(r.refresh) && r.access != r.refresh
    && !Issued(s.pairs, r.access) && !Issued(s.pairs, r.refresh)
  }

  /** Generated tokens are new; callers present any strings. */
  predicate Legal(s: State, e: Event) {
    match e
    case Login(minted, _) => FreshPair(s, minted)
    case Validate(_) => true
    case Refresh(_, minted, _) => FreshPair(s, minted)
    case Close(_) => true
  }

  /** The token that a key of the store stands for. */
  function TokenAt(db: Store, key: string): Token
    requires key in db
  {
    if key == db[key].access then key else db[key].refresh
  }

  /** The tokens an event retires. */
  function Retires(epoch: int, db: Store, e: Event): set<Token> {
    match e
    case Login(_, _) => {}
    case Validate(access) => if access in db && !Active(db[access], epoch) then {TokenAt(db, access)} else {}
    case Refresh(refresh, _, _) =>
      var prior := Lookup(db, "", refresh);
      if prior.Some? then {prior.value.refresh, prior.value.access} else {}
    case Close(access) => if access in db then {db[access].refresh, TokenAt(db, access)} else {}
  }

  function DbAfter(epoch: int, db: Store, e: Event): Store {
    match e
    case Login(minted, rx) => Stored(db, minted, rx)
    case Validate(access) => AfterValidate(db, epoch, access).0
    case Refresh(refresh, minted, rx) => AfterRefresh(db, epoch, refresh, minted, rx).0
    case Close(access) => AfterClose(db, access).0
  }

  /** The event is a refresh that was answered with a new session. */
  predicate Exchanges(epoch: int, db: Store, e: Event) {
    e.Refresh? && AfterRefresh(db, epoch, e.refresh, e.minted, e.refreshExpiresAt).1.Granted?
  }

  /** The event generates a new pair of tokens. */
  predicate Mints(epoch: int, db: Store, e: Event) {
    e.Login? || Exchanges(epoch, db, e)
  }

  function Step(epoch: int, s: State, e: Event): State {
    State(DbAfter(epoch, s.db, e),
          if Mints(epoch, s.db, e) then s.pairs[e.minted.refresh := e.minted.access] else s.pairs,
          if Exchanges(epoch, s.db, e) then s.exchanged + [e.refresh] else s.exchanged,
          s.retired + Retires(epoch, s.db, e))
  }

  function Run(epoch: int, es: seq<Event>): State {
    if es == [] then EMPTY else Step(epoch, Run(epoch, es[..|es| - 1]), es[|es| - 1])
  }

  predicate LegalRun(epoch: int, es: seq<Event>) {
    es == [] || (LegalRun(epoch, es[..|es| - 1]) && Legal(Run(epoch, es[..|es| - 1]), es[|es| - 1]))
  }

  // ---- what every step keeps, whatever strings are presented ----

  /** Issued tokens are of the generator's alphabet, and no token was issued twice. */
  ghost predicate GoodPairs(pairs: map<Token, Token>) {
    && (forall t :: t in pairs ==> Hex(t) && Hex(pairs[t]) && pairs[t] !in pairs)
    && (forall t, u :: t in pairs && u in pairs && pairs[t] == pairs[u] ==> t == u)
  }

  /** Every record sits under one of its two keys, and holds an issued pair. */
  ghost predicate WellKeyed(db: Store, pairs: map<Token, Token>) {
    forall k :: k in db ==>
      && (k == db[k].access || k == RefreshKey(db[k].refresh))
      && db[k].refresh in pairs && pairs[db[k].refresh] == db[k].access
  }

  /** The two records of a pair, if both are there, are of one user. */
  ghost predicate SameUsers(db: Store) {
    forall k :: k in db && k == db[k].access && RefreshKey(db[k].refresh) in db ==>
      db[RefreshKey(db[k].refresh)].userId == db[k].userId
  }

  /** An issued token has its record exactly until it is retired. */
  ghost predicate Accounted(db: Store, pairs: map<Token, Token>, retired: set<Token>) {
    forall r :: r in pairs ==>
      (RefreshKey(r) in db <==> r !in retired) && (pairs[r] in db <==> pairs[r] !in retired)
  }

  ghost predicate RetiredWereIssued(pairs: map<Token, Token>, retired: set<Token>) {
    forall t :: t in retired ==> Issued(pairs, t)
  }

  ghost predicate ExchangedOnce(s: State) {
    && (forall i :: 0 <= i < |s.exchanged| ==> s.exchanged[i] in s.retired && s.exchanged[i] in s.pairs)
    && (forall i, j :: 0 <= i < j < |s.exchanged| ==> s.exchanged[i] != s.exchanged[j])
  }

  ghost predicate Inv(s: State) {
    && GoodPairs(s.pairs) && WellKeyed(s.db, s.pairs) && SameUsers(s.db)
    && Accounted(s.db, s.pairs, s.retired) && RetiredWereIssued(s.pairs, s.retired) && ExchangedOnce(s)
  }

  /** The two kinds of keys never collide. */
  lemma KeysAreDistinct(a: Token, r: Token)
    requires Hex(a)
    ensures a != RefreshKey(r)
  {
    assert RefreshKey(r)[0] == 'R';
  }

  lemma RefreshKeyInjective(a: Token, b: Token)
    requires RefreshKey(a) == RefreshKey(b)
    ensures a == b
  {
    assert RefreshKey(a)[1..] == a && RefreshKey(b)[1..] == b;
  }

  // ---- a new pair ----

  lemma MintKeepsPairs(pairs: map<Token, Token>, r: Record)
    requires GoodPairs(pairs) && FreshPair(State(map[], pairs, [], {}), r)
    ensures GoodPairs(pairs[r.refresh := r.access])
  {
    forall t | t in pairs ensures pairs[t] != r.access && pairs[t] != r.refresh {
      assert pairs[t] in pairs.Values;
    }
  }

  lemma MintKeepsRecords(db: Store, pairs: map<Token, Token>, r: Record, rx: int)
    requires GoodPairs(pairs) && FreshPair(State(db, pairs, [], {}), r)
    requires WellKeyed(db, pairs) && SameUsers(db)
    ensures WellKeyed(Stored(db, r, rx), pairs[r.refresh := r.access]) && SameUsers(Stored(db, r, rx))
  {
    var after := Stored(db, r, rx);
    KeysAreDistinct(r.access, r.refresh);
    forall k | k in db ensures db[k].refresh != r.refresh && db[k].access != r.access && db[k].access != r.refresh {
      assert pairs[db[k].refresh] in pairs.Values;
    }
    forall k | k in after && k == after[k].access && RefreshKey(after[k].refresh) in after
      ensures after[RefreshKey(after[k].refresh)].userId == after[k].userId
    {
      if k != r.access {
        KeysAreDistinct(k, r.refresh);
        KeysAreDistinct(r.access, db[k].refresh);
        if RefreshKey(db[k].refresh) == RefreshKey(r.refresh) { RefreshKeyInjective(db[k].refresh, r.refresh); }
      }
    }
  }

  /** The keys of another issued pair are not those of the new one. */
  lemma OtherKeys(pairs: map<Token, Token>, r: Record, t: Token)
    requires GoodPairs(pairs) && FreshPair(State(map[], pairs, [], {}), r) && t in pairs
    ensures RefreshKey(t) != RefreshKey(r.refresh) && RefreshKey(t) != r.access
    ensures pairs[t] != r.access && pairs[t] != RefreshKey(r.refresh)
  {
    assert pairs[t] in pairs.Values;
    KeysAreDistinct(r.access, t);
    KeysAreDistinct(pairs[t], r.refresh);
    if RefreshKey(t) == RefreshKey(r.refresh) { RefreshKeyInjective(t, r.refresh); }
  }

  lemma MintKeepsAccounts(db: Store, pairs: map<Token, Token>, retired: set<Token>, r: Record, rx: int)
    requires GoodPairs(pairs) && FreshPair(State(db, pairs, [], {}), r)
    requires Accounted(db, pairs, retired) && RetiredWereIssued(pairs, retired)
    ensures Accounted(Stored(db, r, rx), pairs[r.refresh := r.access], retired)
    ensures RetiredWereIssued(pairs[r.refresh := r.access], retired)
  {
    var more, after := pairs[r.refresh := r.access], Stored(db, r, rx);
    KeysAreDistinct(r.access, r.refresh);
    assert r.refresh !in retired && r.access !in retired;
    forall t | t in more
      ensures (RefreshKey(t) in after <==> t !in retired) && (more[t] in after <==> more[t] !in retired)
    {
      if t != r.refresh { OtherKeys(pairs, r, t); }
    }
    forall t | t in retired ensures Issued(more, t) {
      if t in pairs {
        assert t in more;
      } else {
        var u :| u in pairs && pairs[u] == t;
        assert more[u] == t;
      }
    }
  }

  lemma MintKeepsInv(s: State, r: Record, rx: int)
    requires Inv(s) && FreshPair(s, r)
    ensures Inv(s.(db := Stored(s.db, r, rx), pairs := s.pairs[r.refresh := r.access]))
  {
    MintKeepsPairs(s.pairs, r);
    MintKeepsRecords(s.db, s.pairs, r, rx);
    MintKeepsAccounts(s.db, s.pairs, s.retired, r, rx);
  }

  // ---- a record removed ----

  /** The key under which a record of an issued token is kept. */
  ghost predicate IsKeyOf(pairs: map<Token, Token>, key: string, t: Token) {
    (t in pairs && key == RefreshKey(t)) || (t in pairs.Values && key == t)
  }

  lemma DropKeepsAccounts(db: Store, pairs: map<Token, Token>, retired: set<Token>, key: string, t: Token)
    requires GoodPairs(pairs) && Accounted(db, pairs, retired) && IsKeyOf(pairs, key, t)
    ensures Accounted(db - {key}, pairs, retired + {t})
  {
    forall r | r in pairs
      ensures RefreshKey(r) == key <==> r == t
      ensures pairs[r] == key <==> pairs[r] == t
    {
      KeysAreDistinct(pairs[r], t);
      if RefreshKey(r) == RefreshKey(t) { RefreshKeyInjective(r, t); }
      if t in pairs.Values { KeysAreDistinct(t, r); }
    }
  }

  lemma DropKeepsInv(s: State, key: string, t: Token)
    requires Inv(s) && IsKeyOf(s.pairs, key, t)
    ensures Inv(s.(db := s.db - {key}, retired := s.retired + {t}))
  {
    DropKeepsAccounts(s.db, s.pairs, s.retired, key, t);
  }

  /** A record under a key of the store, and the token the key stands for. */
  lemma HeldUnder(s: State, key: string)
    requires Inv(s) && key in s.db
    ensures var r := s.db[key];
      && IsKeyOf(s.pairs, key, TokenAt(s.db, key)) && IsKeyOf(s.pairs, r.access, r.access)
      && IsKeyOf(s.pairs, RefreshKey(r.refresh), r.refresh) && r.refresh != "" && key != ""
      && (key == r.access <==> key != RefreshKey(r.refresh))
  {
    var r := s.db[key];
    assert s.pairs[r.refresh] in s.pairs.Values;
    KeysAreDistinct(r.access, r.refresh);
  }

  /** A record under a refresh key is the one of that refresh token. */
  lemma HeldRecord(db: Store, pairs: map<Token, Token>, refresh: Token)
    requires GoodPairs(pairs) && WellKeyed(db, pairs) && RefreshKey(refresh) in db
    ensures var prior := db[RefreshKey(refresh)];
      prior.refresh == refresh && refresh in pairs && pairs[refresh] == prior.access && Hex(prior.access) && Hex(refresh)
  {
    var prior := db[RefreshKey(refresh)];
    KeysAreDistinct(prior.access, refresh);
    RefreshKeyInjective(prior.refresh, refresh);
  }

  lemma DropPairKeepsInv(s: State, access: Token, refresh: Token)
    requires Inv(s) && refresh in s.pairs && s.pairs[refresh] == access
    ensures refresh != ""
    ensures Inv(s.(db := Deleted(s.db, access, refresh), retired := s.retired + {refresh, access}))
  {
    assert s.pairs[refresh] in s.pairs.Values;
    DropTwoKeepsInv(s, access, access, refresh);
  }

  lemma RefreshKeepsInv(epoch: int, s: State, refresh: Token, minted: Record, rx: int)
    requires Inv(s) && FreshPair(s, minted)
    ensures Inv(Step(epoch, s, Refresh(refresh, minted, rx)))
  {
    if Lookup(s.db, "", refresh) == None {
      assert s.retired + {} == s.retired;
    } else if refresh == "" {
      HeldUnder(s, "");
    } else {
      var prior := s.db[RefreshKey(refresh)];
      HeldRecord(s.db, s.pairs, refresh);
      if Active(prior, epoch) {
        ExchangeKeepsInv(s, minted.(userId := prior.userId), rx, prior.access, refresh);
      } else {
        DropPairKeepsInv(s, prior.access, refresh);
      }
    }
  }

  lemma ExchangeKeepsInv(s: State, session: Record, rx: int, access: Token, refresh: Token)
    requires Inv(s) && FreshPair(s, session) && RefreshKey(refresh) in s.db
    requires refresh in s.pairs && s.pairs[refresh] == access
    ensures Inv(State(Deleted(Stored(s.db, session, rx), access, refresh), s.pairs[session.refresh := session.access],
                      s.exchanged + [refresh], s.retired + {refresh, access}))
  {
    assert refresh !in s.retired;
    MintKeepsInv(s, session, rx);
    var t := s.(db := Stored(s.db, session, rx), pairs := s.pairs[session.refresh := session.access]);
    DropPairKeepsInv(t, access, refresh);
    NewExchange(t.(db := Deleted(t.db, access, refresh), retired := t.retired + {refresh, access}), refresh);
  }

  lemma NewExchange(s: State, refresh: Token)
    requires Inv(s) && refresh in s.retired && refresh in s.pairs && refresh !in s.exchanged
    ensures Inv(s.(exchanged := s.exchanged + [refresh]))
  {
  }

  /** Removing two records, as `Deleted` does. */
  lemma DropTwoKeepsInv(s: State, key: string, t: Token, refresh: Token)
    requires Inv(s) && IsKeyOf(s.pairs, RefreshKey(refresh), refresh) && IsKeyOf(s.pairs, key, t) && refresh != ""
    ensures Inv(s.(db := Deleted(s.db, key, refresh), retired := s.retired + {refresh, t}))
  {
    DropKeepsInv(s, RefreshKey(refresh), refresh);
    var u := s.(db := s.db - {RefreshKey(refresh)}, retired := s.retired + {refresh});
    DropKeepsInv(u, key, t);
    assert u.retired + {t} == s.retired + {refresh, t};
  }

  lemma CloseKeepsInv(epoch: int, s: State, access: string)
    requires Inv(s)
    ensures Inv(Step(epoch, s, Close(access)))
  {
    if access in s.db {
      HeldUnder(s, access);
      DropTwoKeepsInv(s, access, TokenAt(s.db, access), s.db[access].refresh);
    } else {
      assert s.retired + {} == s.retired;
    }
  }

  lemma ValidateKeepsInv(epoch: int, s: State, access: string)
    requires Inv(s)
    ensures Inv(Step(epoch, s, Validate(access)))
  {
    if access in s.db && !Active(s.db[access], epoch) {
      HeldUnder(s, access);
      DropKeepsInv(s, access, TokenAt(s.db, access));
    } else {
      assert s.retired + {} == s.retired;
    }
  }

  lemma StepKeepsInv(epoch: int, s: State, e: Event)
    requires Inv(s) && Legal(s, e)
    ensures Inv(Step(epoch, s, e))
  {
    match e
    case Login(minted, rx) =>
      MintKeepsInv(s, minted, rx);
      assert s.retired + {} == s.retired;
    case Validate(access) => ValidateKeepsInv(epoch, s, access);
    case Refresh(refresh, minted, rx) => RefreshKeepsInv(epoch, s, refresh, minted, rx);
    case Close(access) => CloseKeepsInv(epoch, s, access);
  }

  lemma {:induction false} RunKeepsInv(epoch: int, es: seq<Event>)
    requires LegalRun(epoch, es)
    ensures Inv(Run(epoch, es))
  {
    if es != [] {
      RunKeepsInv(epoch, es[..|es| - 1]);
      StepKeepsInv(epoch, Run(epoch, es[..|es| - 1]), es[|es| - 1]);
    }
  }

  // ---- which presented strings resolve ----

  ghost predicate LiveAccess(s: State, t: string) {
    t in s.pairs.Values && t !in s.retired
  }

  ghost predicate LiveRefresh(s: State, t: string) {
    t in s.pairs && t !in s.retired
  }

  /** In every reachable store: where a refresh token is expected, a string resolves if and only if it
      is an issued refresh token not yet retired. Where an access token is expected, the issued and not
      retired access tokens resolve, and so do such refresh tokens behind an "R". */
  lemma ResolvesIff(epoch: int, es: seq<Event>, x: string)
    requires LegalRun(epoch, es)
    ensures var s := Run(epoch, es);
      && (Lookup(s.db, "", x).Some? <==> LiveRefresh(s, x))
      && (Lookup(s.db, x, "").Some? <==> LiveAccess(s, x) || exists r :: LiveRefresh(s, r) && x == RefreshKey(r))
  {
    RunKeepsInv(epoch, es);
    var s := Run(epoch, es);
    if Lookup(s.db, x, "").Some? {
      HeldUnder(s, x);
      var r := s.db[x].refresh;
      assert x == s.pairs[r] ==> LiveAccess(s, x);
      assert x == RefreshKey(r) ==> LiveRefresh(s, r);
    }
    if LiveAccess(s, x) {
      var u :| u in s.pairs && s.pairs[u] == x;
      assert x in s.db;
    }
    if x == "" {
      if "" in s.db { HeldUnder(s, ""); }
      assert !Hex("");
    } else if Lookup(s.db, "", x).Some? {
      HeldRecord(s.db, s.pairs, x);
    }
  }

  /** So the "R" in front does not keep a refresh token from being read as an access token: presented
      with it, a live one is accepted as its session while its record is active, and closing with it
      removes the refresh record alone and reports that nothing was closed. */
  lemma PrefixedRefreshTokenPasses(epoch: int, es: seq<Event>, r: Token)
    requires LegalRun(epoch, es) && LiveRefresh(Run(epoch, es), r)
    ensures var db, x := Run(epoch, es).db, RefreshKey(r);
      && x in db && db[x].refresh == r
      && AfterValidate(db, epoch, x)
         == (if Active(db[x], epoch) then (db, Granted(db[x])) else (db - {x}, Refused(ACCESS_EXPIRED)))
      && AfterClose(db, x) == (db - {x}, Granted(false))
  {
    RunKeepsInv(epoch, es);
    var db := Run(epoch, es).db;
    HeldRecord(db, Run(epoch, es).pairs, r);
    assert db - {RefreshKey(r)} - {RefreshKey(r)} == db - {RefreshKey(r)};
  }

  // ---- access records and their refresh records ----

  /** Every access record has its refresh record. */
  ghost predicate Paired(db: Store) {
    forall k :: k in db && k == db[k].access ==> RefreshKey(db[k].refresh) in db
  }

  /** In every reachable store a live access token has its refresh record, with the same user and the
      same pair, if and only if that refresh token has not been retired before it. */
  lemma EveryAccessHasItsRefresh(epoch: int, es: seq<Event>, access: Token)
    requires LegalRun(epoch, es) && LiveAccess(Run(epoch, es), access)
    ensures Lookup(Run(epoch, es).db, access, "").Some?
    ensures var s := Run(epoch, es);
      var r := Lookup(s.db, access, "").value;
      var m := Lookup(s.db, "", r.refresh);
      && r.access == access && r.refresh in s.pairs && s.pairs[r.refresh] == access
      && (m.Some? <==> r.refresh !in s.retired)
      && (m.Some? ==> m.value.userId == r.userId && m.value.access == access && m.value.refresh == r.refresh)
  {
    RunKeepsInv(epoch, es);
    ResolvesIff(epoch, es, access);
    var s := Run(epoch, es);
    HeldUnder(s, access);
    var u :| u in s.pairs && s.pairs[u] == access;
    KeysAreDistinct(access, s.db[access].refresh);
    var refresh := s.db[access].refresh;
    ResolvesIff(epoch, es, refresh);
    if RefreshKey(refresh) in s.db { HeldRecord(s.db, s.pairs, refresh); }
  }

  /** A close, or the validation of an expired record, by a prefixed refresh token whose access token
      is still live. */
  predicate BreaksPair(epoch: int, db: Store, e: Event) {
    && (e.Close? || e.Validate?)
    && e.access in db && e.access != db[e.access].access && db[e.access].access in db
    && (e.Validate? ==> !Active(db[e.access], epoch))
  }

  /** Removing records of one pair, as long as the access record does not outlive its refresh record. */
  lemma RemovalKeepsPaired(db: Store, pairs: map<Token, Token>, gone: set<string>, access: Token, refresh: Token)
    requires GoodPairs(pairs) && WellKeyed(db, pairs) && Paired(db) && refresh in pairs && pairs[refresh] == access
    requires gone <= {access, RefreshKey(refresh)}
    requires access in gone || access !in db
    ensures Paired(db - gone)
  {
    var after := db - gone;
    forall k | k in after && k == after[k].access ensures RefreshKey(after[k].refresh) in after {
      StaysPaired(db, pairs, gone, access, refresh, k);
    }
  }

  lemma StaysPaired(db: Store, pairs: map<Token, Token>, gone: set<string>, access: Token, refresh: Token, k: string)
    requires GoodPairs(pairs) && WellKeyed(db, pairs) && refresh in pairs && pairs[refresh] == access
    requires gone <= {access, RefreshKey(refresh)} && k in db && k == db[k].access && k != access
    ensures RefreshKey(db[k].refresh) !in gone
  {
    AnotherPairsKey(pairs, access, refresh, db[k].refresh);
  }

  lemma AnotherPairsKey(pairs: map<Token, Token>, access: Token, refresh: Token, r: Token)
    requires GoodPairs(pairs) && refresh in pairs && r in pairs && pairs[refresh] == access && pairs[r] != access
    ensures RefreshKey(r) !in {access, RefreshKey(refresh)}
  {
    KeysAreDistinct(access, r);
    if RefreshKey(r) == RefreshKey(refresh) { RefreshKeyInjective(r, refresh); }
  }

  lemma RemovalBreaksPaired(s: State, access: Token, refresh: Token)
    requires Inv(s) && access in s.db && refresh in s.pairs && s.pairs[refresh] == access
    ensures !Paired(s.db - {RefreshKey(refresh)})
  {
    var after := s.db - {RefreshKey(refresh)};
    HeldUnder(s, access);
    KeysAreDistinct(access, s.db[access].refresh);
    KeysAreDistinct(access, refresh);
    assert access in after && access == after[access].access && after[access].refresh == refresh;
  }

  /** Removing the record under a presented string, as a failed validation does, or the pair it leads
      to, as a close does. */
  lemma RemovalKeepsPairedIff(s: State, x: string)
    requires Inv(s) && Paired(s.db) && x in s.db
    ensures Paired(s.db - {x}) <==> !(x != s.db[x].access && s.db[x].access in s.db)
    ensures Paired(Deleted(s.db, x, s.db[x].refresh)) <==> !(x != s.db[x].access && s.db[x].access in s.db)
  {
    var access, refresh := s.db[x].access, s.db[x].refresh;
    HeldUnder(s, x);
    DeletedBoth(s.db, x, refresh);
    if x == access || access !in s.db {
      RemovalKeepsPaired(s.db, s.pairs, {x}, access, refresh);
      RemovalKeepsPaired(s.db, s.pairs, {x, RefreshKey(refresh)}, access, refresh);
    } else {
      assert {x, RefreshKey(refresh)} == {x};
      RemovalBreaksPaired(s, access, refresh);
    }
  }

  lemma DeletedBoth(db: Store, access: string, refresh: Token)
    requires refresh != ""
    ensures Deleted(db, access, refresh) == db - {access, RefreshKey(refresh)}
  {
  }

  /** Exactly when a step keeps every live access token paired. */
  lemma KeepsPairedIff(epoch: int, es: seq<Event>, e: Event)
    requires LegalRun(epoch, es + [e]) && Paired(Run(epoch, es).db)
    ensures Paired(Run(epoch, es + [e]).db) <==> !BreaksPair(epoch, Run(epoch, es).db, e)
  {
    assert (es + [e])[..|es|] == es;
    RunKeepsInv(epoch, es);
    var s := Run(epoch, es);
    match e
    case Login(minted, rx) => MintKeepsPaired(s, minted, rx);
    case Validate(x) =>
      if x in s.db { RemovalKeepsPairedIff(s, x); }
    case Close(x) =>
      if x in s.db { HeldUnder(s, x); RemovalKeepsPairedIff(s, x); }
    case Refresh(refresh, minted, rx) =>
      RefreshKeepsPaired(epoch, s, refresh, minted, rx);
  }

  lemma MintKeepsPaired(s: State, r: Record, rx: int)
    requires Inv(s) && FreshPair(s, r) && Paired(s.db)
    ensures Paired(Stored(s.db, r, rx))
  {
    KeysAreDistinct(r.access, r.refresh);
    forall k | k in s.db && k != r.access && k != RefreshKey(r.refresh) && k == s.db[k].access
      ensures RefreshKey(s.db[k].refresh) in Stored(s.db, r, rx)
    {
    }
  }

  lemma DropPairKeepsPaired(s: State, access: Token, refresh: Token)
    requires Inv(s) && Paired(s.db) && refresh in s.pairs && s.pairs[refresh] == access
    ensures Paired(Deleted(s.db, access, refresh))
  {
    RemovalKeepsPaired(s.db, s.pairs, {access, RefreshKey(refresh)}, access, refresh);
    assert Deleted(s.db, access, refresh) == s.db - {access, RefreshKey(refresh)};
  }

  lemma RefreshKeepsPaired(epoch: int, s: State, refresh: Token, minted: Record, rx: int)
    requires Inv(s) && FreshPair(s, minted) && Paired(s.db)
    ensures Paired(Step(epoch, s, Refresh(refresh, minted, rx)).db)
  {
    if Lookup(s.db, "", refresh).Some? {
      if refresh == "" { HeldUnder(s, ""); }
      var prior := s.db[RefreshKey(refresh)];
      HeldRecord(s.db, s.pairs, refresh);
      if Active(prior, epoch) {
        var session := minted.(userId := prior.userId);
        MintKeepsInv(s, session, rx);
        MintKeepsPaired(s, session, rx);
        DropPairKeepsPaired(s.(db := Stored(s.db, session, rx), pairs := s.pairs[session.refresh := session.access]),
          prior.access, refresh);
      } else {
        DropPairKeepsPaired(s, prior.access, refresh);
      }
    }
  }

  predicate NoPairBroken(epoch: int, es: seq<Event>) {
    es == [] ||
    (NoPairBroken(epoch, es[..|es| - 1]) && !BreaksPair(epoch, Run(epoch, es[..|es| - 1]).db, es[|es| - 1]))
  }

  /** No access token is presented with the store's prefix. */
  predicate Unprefixed(es: seq<Event>) {
    forall i :: 0 <= i < |es| && (es[i].Validate? || es[i].Close?) ==> es[i].access == "" || es[i].access[0] != 'R'
  }

  lemma BreakingIsPrefixed(epoch: int, s: State, e: Event)
    requires Inv(s) && BreaksPair(epoch, s.db, e)
    ensures e.access != "" && e.access[0] == 'R'
  {
    HeldUnder(s, e.access);
  }

  /** In every run whose callers present no prefixed token, every access record has its refresh record. */
  lemma {:induction false} UnprefixedRunsStayPaired(epoch: int, es: seq<Event>)
    requires LegalRun(epoch, es) && (NoPairBroken(epoch, es) || Unprefixed(es))
    ensures Paired(Run(epoch, es).db)
  {
    if es != [] {
      var before, e := es[..|es| - 1], es[|es| - 1];
      assert before + [e] == es;
      UnprefixedRunsStayPaired(epoch, before);
      RunKeepsInv(epoch, before);
      if BreaksPair(epoch, Run(epoch, before).db, e) { BreakingIsPrefixed(epoch, Run(epoch, before), e); }
      KeepsPairedIff(epoch, before, e);
    }
  }

  // ---- rotation ----

  /** No refresh token is ever exchanged twice. */
  lemma EachRefreshTokenIsExchangedOnce(epoch: int, es: seq<Event>, e: Event)
    requires LegalRun(epoch, es) && Legal(Run(epoch, es), e)
    requires e.Refresh? && e.refresh in Run(epoch, es).exchanged
    ensures AfterRefresh(Run(epoch, es).db, epoch, e.refresh, e.minted, e.refreshExpiresAt)
            == (Run(epoch, es).db, Refused(REFRESH_INVALID))
  {
    RunKeepsInv(epoch, es);
    ResolvesIff(epoch, es, e.refresh);
  }

  lemma {:induction false} RetiredGrows(epoch: int, es: seq<Event>, more: seq<Event>)
    ensures Run(epoch, es).retired <= Run(epoch, es + more).retired
  {
    if more == [] {
      assert es + more == es;
    } else {
      var all := es + more;
      assert all[..|all| - 1] == es + more[..|more| - 1];
      RetiredGrows(epoch, es, more[..|more| - 1]);
    }
  }

  /** A token that an exchange, a close or an expiry has retired never resolves again, however the run
      goes on: presented as either token, with the prefix or without. */
  lemma RetiredTokensNeverResolve(epoch: int, es: seq<Event>, e: Event, more: seq<Event>, t: Token)
    requires LegalRun(epoch, es + [e] + more)
    requires t in Retires(epoch, Run(epoch, es).db, e)
    ensures Lookup(Run(epoch, es + [e] + more).db, t, "") == None
    ensures Lookup(Run(epoch, es + [e] + more).db, "", t) == None
    ensures Lookup(Run(epoch, es + [e] + more).db, RefreshKey(t), "") == None
  {
    var all := es + [e] + more;
    assert (es + [e])[..|es|] == es;
    assert t in Run(epoch, es + [e]).retired;
    RetiredGrows(epoch, es + [e], more);
    RunKeepsInv(epoch, all);
    RetiredIsOut(Run(epoch, all), t);
  }

  lemma RetiredIsOut(s: State, t: Token)
    requires Inv(s) && t in s.retired
    ensures t != "" && t !in s.db && RefreshKey(t) !in s.db
  {
    assert Hex(t);
    if t in s.db {
      HeldUnder(s, t);
      KeysAreDistinct(t, s.db[t].refresh);
    }
    if RefreshKey(t) in s.db { HeldRecord(s.db, s.pairs, t); }
  }

  /** What the two calls retire, whatever is presented: a successful exchange retires the pair it was
      asked with. A close retires the pair of the access token it closes, or the refresh token alone
      when that was presented behind its prefix, and tells them apart. */
  lemma ExchangeAndCloseRetireThePair(epoch: int, es: seq<Event>, refresh: Token, minted: Record, rx: int, access: Token)
    requires LegalRun(epoch, es)
    ensures Exchanges(epoch, Run(epoch, es).db, Refresh(refresh, minted, rx)) ==>
      var prior := Lookup(Run(epoch, es).db, "", refresh).value;
      var answer := AfterRefresh(Run(epoch, es).db, epoch, refresh, minted, rx).1;
      && Retires(epoch, Run(epoch, es).db, Refresh(refresh, minted, rx)) == {prior.access, refresh}
      && answer.value.userId == prior.userId
      && answer.value.access == minted.access && answer.value.refresh == minted.refresh
    ensures AfterClose(Run(epoch, es).db, access).1.Granted? ==>
      var s := Run(epoch, es);
      var r, closed := s.db[access], AfterClose(s.db, access).1.value;
      && (closed <==> access == r.access) && (!closed <==> access == RefreshKey(r.refresh))
      && Retires(epoch, s.db, Close(access)) == if closed then {access, r.refresh} else {r.refresh}
  {
    RunKeepsInv(epoch, es);
    ExchangeRetires(epoch, Run(epoch, es), refresh, minted, rx);
    CloseRetires(epoch, Run(epoch, es), access);
  }

  lemma ExchangeRetires(epoch: int, s: State, refresh: Token, minted: Record, rx: int)
    requires Inv(s)
    ensures Exchanges(epoch, s.db, Refresh(refresh, minted, rx)) ==>
      var prior := Lookup(s.db, "", refresh).value;
      var answer := AfterRefresh(s.db, epoch, refresh, minted, rx).1;
      && Retires(epoch, s.db, Refresh(refresh, minted, rx)) == {prior.access, refresh}
      && answer.value.userId == prior.userId
      && answer.value.access == minted.access && answer.value.refresh == minted.refresh
  {
    if Lookup(s.db, "", refresh).Some? {
      if refresh == "" { HeldUnder(s, ""); }
      HeldRecord(s.db, s.pairs, refresh);
    }
  }

  lemma CloseRetires(epoch: int, s: State, access: string)
    requires Inv(s)
    ensures AfterClose(s.db, access).1.Granted? ==>
      var r, closed := s.db[access], AfterClose(s.db, access).1.value;
      && (closed <==> access == r.access) && (!closed <==> access == RefreshKey(r.refresh))
      && Retires(epoch, s.db, Close(access)) == if closed then {access, r.refresh} else {r.refresh}
  {
    if access in s.db { HeldUnder(s, access); }
  }

  /** Rotation hands the session over: after a login or an exchange the new pair resolves, for the
      user who logged in or who held the old pair. */
  lemma MintedPairResolves(epoch: int, es: seq<Event>, e: Event)
    requires LegalRun(epoch, es) && Legal(Run(epoch, es), e) && Mints(epoch, Run(epoch, es).db, e)
    ensures var user := if e.Login? then e.minted.userId else Lookup(Run(epoch, es).db, "", e.refresh).value.userId;
      var after := Step(epoch, Run(epoch, es), e).db;
      && Lookup(after, e.minted.access, "") == Some(e.minted.(userId := user))
      && Lookup(after, "", e.minted.refresh) == Some(e.minted.(userId := user, expiresAt := e.refreshExpiresAt))
  {
    RunKeepsInv(epoch, es);
    var s := Run(epoch, es);
    if e.Refresh? {
      if e.refresh == "" { HeldUnder(s, ""); }
      var prior := s.db[RefreshKey(e.refresh)];
      HeldRecord(s.db, s.pairs, e.refresh);
      assert s.pairs[prior.refresh] in s.pairs.Values;
      RotatedPairResolves(s.db, prior, e.refresh, e.minted.(userId := prior.userId), e.refreshExpiresAt);
    } else {
      StoredPairResolves(s.db, e.minted, e.refreshExpiresAt);
    }
  }

  lemma StoredPairResolves(db: Store, r: Record, refreshExpiresAt: int)
    requires Hex(r.access) && Hex(r.refresh)
    ensures Lookup(Stored(db, r, refreshExpiresAt), r.access, "") == Some(r)
    ensures Lookup(Stored(db, r, refreshExpiresAt), "", r.refresh) == Some(r.(expiresAt := refreshExpiresAt))
  {
    KeysAreDistinct(r.access, r.refresh);
  }

  lemma RotatedPairResolves(db: Store, prior: Record, refresh: Token, r: Record, refreshExpiresAt: int)
    requires Hex(r.access) && Hex(r.refresh) && Hex(prior.access)
    requires refresh != r.refresh && prior.access != r.access
    ensures var after := Deleted(Stored(db, r, refreshExpiresAt), prior.access, refresh);
      && Lookup(after, r.access, "") == Some(r)
      && Lookup(after, "", r.refresh) == Some(r.(expiresAt := refreshExpiresAt))
  {
    StoredPairResolves(db, r, refreshExpiresAt);
    KeysAreDistinct(r.access, refresh);
    KeysAreDistinct(prior.access, r.refresh);
    if RefreshKey(refresh) == RefreshKey(r.refresh) { RefreshKeyInjective(refresh, r.refresh); }
  }
}
