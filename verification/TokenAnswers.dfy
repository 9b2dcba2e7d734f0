/**
 What the session calls answer, in every run and whatever is presented
 (app/bss/adapters/session_management.py:15-87): decided by which tokens were issued, which are
 retired, and the expiries of the event that issued them.
 */
module TokenAnswers {
  import opened Prelude
  import opened TokenStore

  /** The event issued the refresh token `r`, together with its access token. */
  ghost predicate Issues(epoch: int, before: seq<Event>, e: Event, r: Token) {
    (e.Login? || e.Refresh?) && e.minted.refresh == r
    && r !in Run(epoch, before).pairs && r in Run(epoch, before + [e]).pairs
  }

  /** The event that issued the refresh token. */
  ghost function IssuedBy(epoch: int, es: seq<Event>, r: Token): Option<Event> {
    if es == [] then None
    else if Issues(epoch, es[..|es| - 1], es[|es| - 1], r) then Some(es[|es| - 1])
    else IssuedBy(epoch, es[..|es| - 1], r)
  }

  /** The records of an issued pair, as far as they are there, carry its expiries. */
  ghost predicate RecordsOf(s: State, r: Token, e: Event) {
    && (e.Login? || e.Refresh?) && r in s.pairs
    && e.minted.refresh == r && e.minted.access == s.pairs[r]
    && (RefreshKey(r) in s.db ==> s.db[RefreshKey(r)].expiresAt == e.refreshExpiresAt)
    && (s.pairs[r] in s.db ==> s.db[s.pairs[r]].expiresAt == e.minted.expiresAt)
  }

  lemma NewRecords(epoch: int, s: State, e: Event)
    requires Inv(s) && Legal(s, e) && Mints(epoch, s.db, e)
    ensures RecordsOf(Step(epoch, s, e), e.minted.refresh, e)
  {
    KeysAreDistinct(e.minted.access, e.minted.refresh);
  }

  lemma OldRecords(epoch: int, s: State, e: Event, r: Token, origin: Event)
    requires Inv(s) && Legal(s, e) && Inv(Step(epoch, s, e)) && r in s.pairs && RecordsOf(s, r, origin)
    ensures RecordsOf(Step(epoch, s, e), r, origin)
  {
    var t := Step(epoch, s, e);
    assert s.pairs[r] in s.pairs.Values;
    if Mints(epoch, s.db, e) { OtherKeys(s.pairs, e.minted, r); }
    assert r in t.pairs && t.pairs[r] == s.pairs[r];
    OldRecord(epoch, s, e, RefreshKey(r));
    OldRecord(epoch, s, e, s.pairs[r]);
  }

  /** Records are written when their pair is issued, and never changed. */
  lemma OldRecord(epoch: int, s: State, e: Event, key: string)
    requires Mints(epoch, s.db, e) ==> key != e.minted.access && key != RefreshKey(e.minted.refresh)
    ensures key in Step(epoch, s, e).db ==> key in s.db && Step(epoch, s, e).db[key] == s.db[key]
  {
  }

  lemma {:induction false} RunKeepsRecords(epoch: int, es: seq<Event>, r: Token)
    requires LegalRun(epoch, es) && r in Run(epoch, es).pairs
    ensures IssuedBy(epoch, es, r).Some? && RecordsOf(Run(epoch, es), r, IssuedBy(epoch, es, r).value)
  {
    assert es != [];
    var before, e := es[..|es| - 1], es[|es| - 1];
    assert before + [e] == es;
    var s := Run(epoch, before);
    RunKeepsInv(epoch, before);
    RunKeepsInv(epoch, es);
    if r in s.pairs {
      RunKeepsRecords(epoch, before, r);
      OldRecords(epoch, s, e, r, IssuedBy(epoch, before, r).value);
    } else {
      NewRecords(epoch, s, e);
    }
  }

  // ---- the three calls ----

  /** Presenting a refresh token: an issued one that is not retired is exchanged if and only if the
      expiry it was issued with lies behind the store's timestamp, and then its pair is retired and the new
      one issued for the same user; otherwise it is refused as expired, and the pair is retired all the
      same. Any other string is refused as invalid and changes nothing. */
  lemma RefreshAnswers(epoch: int, es: seq<Event>, refresh: string, minted: Record, rx: int)
    requires LegalRun(epoch, es + [Refresh(refresh, minted, rx)]) && LegalRun(epoch, es)
    ensures var s, t := Run(epoch, es), Run(epoch, es + [Refresh(refresh, minted, rx)]);
      var answer := AfterRefresh(s.db, epoch, refresh, minted, rx).1;
      if refresh in s.pairs && refresh !in s.retired then
        && IssuedBy(epoch, es, refresh).Some?
        && t.retired == s.retired + {refresh, s.pairs[refresh]}
        && (if ExpiryOf(epoch, es, refresh) > epoch
            then answer.Granted? && t.exchanged == s.exchanged + [refresh]
                 && answer.value.access == minted.access && answer.value.refresh == minted.refresh
                 && answer.value.expiresAt == minted.expiresAt
                 && t.pairs == s.pairs[minted.refresh := minted.access]
            else answer == Refused("refresh_token_expired") && t.exchanged == s.exchanged && t.pairs == s.pairs)
      else answer == Refused("refresh_token_invalid") && t == s
  {
    var e := Refresh(refresh, minted, rx);
    assert (es + [e])[..|es|] == es;
    RunKeepsInv(epoch, es);
    if refresh in Run(epoch, es).pairs && refresh !in Run(epoch, es).retired {
      RunKeepsRecords(epoch, es, refresh);
      LiveRefreshAnswers(epoch, Run(epoch, es), refresh, minted, rx, ExpiryOf(epoch, es, refresh));
    } else {
      ResolvesIff(epoch, es, refresh);
      OtherRefreshIsRefused(epoch, Run(epoch, es), refresh, minted, rx);
    }
  }

  lemma LiveRefreshAnswers(epoch: int, s: State, refresh: string, minted: Record, rx: int, expiry: int)
    requires Inv(s) && refresh in s.pairs && refresh !in s.retired && s.db[RefreshKey(refresh)].expiresAt == expiry
    ensures var t := Step(epoch, s, Refresh(refresh, minted, rx));
      var answer := AfterRefresh(s.db, epoch, refresh, minted, rx).1;
      && t.retired == s.retired + {refresh, s.pairs[refresh]}
      && (if expiry > epoch
          then answer.Granted? && t.exchanged == s.exchanged + [refresh]
               && answer.value.access == minted.access && answer.value.refresh == minted.refresh
               && answer.value.expiresAt == minted.expiresAt
               && t.pairs == s.pairs[minted.refresh := minted.access]
          else answer == Refused("refresh_token_expired") && t.exchanged == s.exchanged && t.pairs == s.pairs)
  {
    HeldRecord(s.db, s.pairs, refresh);
  }

  lemma OtherRefreshIsRefused(epoch: int, s: State, refresh: string, minted: Record, rx: int)
    requires Lookup(s.db, "", refresh) == None
    ensures AfterRefresh(s.db, epoch, refresh, minted, rx).1 == Refused("refresh_token_invalid")
    ensures Step(epoch, s, Refresh(refresh, minted, rx)) == s
  {
    assert s.retired + {} == s.retired;
  }

  /** The expiry a refresh token was issued with. */
  ghost function ExpiryOf(epoch: int, es: seq<Event>, refresh: Token): int
    requires IssuedBy(epoch, es, refresh).Some?
  {
    var origin := IssuedBy(epoch, es, refresh).value;
    if origin.Login? || origin.Refresh? then origin.refreshExpiresAt else 0
  }

  ghost function AccessExpiryOf(epoch: int, es: seq<Event>, refresh: Token): int
    requires IssuedBy(epoch, es, refresh).Some?
  {
    var origin := IssuedBy(epoch, es, refresh).value;
    if origin.Login? || origin.Refresh? then origin.minted.expiresAt else 0
  }

  /** Validating the access token of an issued pair that is not retired: granted, and nothing changes, if
      and only if its expiry lies behind the timestamp; otherwise refused as expired, and that token alone
      is retired. */
  lemma ValidateAnswers(epoch: int, es: seq<Event>, r: Token)
    requires LegalRun(epoch, es) && r in Run(epoch, es).pairs && Run(epoch, es).pairs[r] !in Run(epoch, es).retired
    ensures IssuedBy(epoch, es, r).Some?
    ensures var s := Run(epoch, es);
      var access := s.pairs[r];
      var t := Run(epoch, es + [Validate(access)]);
      var answer := AfterValidate(s.db, epoch, access).1;
      if AccessExpiryOf(epoch, es, r) > epoch
      then access in s.db && answer == Granted(s.db[access]) && s.db[access].access == access && s.db[access].refresh == r && t == s
      else answer == Refused("access_token_expired") && t == s.(db := s.db - {access}, retired := s.retired + {access})
  {
    var s := Run(epoch, es);
    var access := s.pairs[r];
    assert (es + [Validate(access)])[..|es|] == es;
    RunKeepsInv(epoch, es);
    RunKeepsRecords(epoch, es, r);
    assert access in s.pairs.Values && access in s.db;
    HeldUnder(s, access);
    KeysAreDistinct(access, s.db[access].refresh);
    assert s.retired + {} == s.retired;
  }

  /** A refresh token behind its prefix is validated likewise, by the expiry of its own record. */
  lemma ValidateAnswersPrefixed(epoch: int, es: seq<Event>, r: Token)
    requires LegalRun(epoch, es) && r in Run(epoch, es).pairs && r !in Run(epoch, es).retired
    ensures IssuedBy(epoch, es, r).Some?
    ensures var s := Run(epoch, es);
      var t := Run(epoch, es + [Validate("R" + r)]);
      var answer := AfterValidate(s.db, epoch, "R" + r).1;
      if ExpiryOf(epoch, es, r) > epoch
      then "R" + r in s.db && answer == Granted(s.db["R" + r]) && t == s
      else answer == Refused("access_token_expired") && t == s.(db := s.db - {"R" + r}, retired := s.retired + {r})
  {
    var s, x := Run(epoch, es), "R" + r;
    assert x == RefreshKey(r);
    assert (es + [Validate(x)])[..|es|] == es;
    RunKeepsInv(epoch, es);
    RunKeepsRecords(epoch, es, r);
    HeldUnder(s, x);
    HeldRecord(s.db, s.pairs, r);
    assert s.retired + {} == s.retired;
  }

  /** Closing: the pair of an access token is retired; a refresh token behind its prefix is retired alone
      and the answer is false. */
  lemma CloseAnswers(epoch: int, es: seq<Event>, r: Token)
    requires LegalRun(epoch, es) && r in Run(epoch, es).pairs
    ensures var s := Run(epoch, es);
      var access := s.pairs[r];
      access !in s.retired ==>
        AfterClose(s.db, access).1 == Granted(true)
        && Run(epoch, es + [Close(access)]).retired == s.retired + {access, r}
    ensures var s := Run(epoch, es);
      r !in s.retired ==>
        AfterClose(s.db, "R" + r).1 == Granted(false)
        && Run(epoch, es + [Close("R" + r)]).retired == s.retired + {r}
  {
    var s := Run(epoch, es);
    var access, x := s.pairs[r], "R" + r;
    assert x == RefreshKey(r);
    assert (es + [Close(access)])[..|es|] == es && (es + [Close(x)])[..|es|] == es;
    RunKeepsInv(epoch, es);
    assert access in s.pairs.Values;
    if access !in s.retired { HeldUnder(s, access); KeysAreDistinct(access, s.db[access].refresh); }
    if r !in s.retired { HeldUnder(s, x); HeldRecord(s.db, s.pairs, r); }
  }

  /** Any other string: both calls refuse it and change nothing. */
  lemma UnknownIsRefused(epoch: int, es: seq<Event>, x: string)
    requires LegalRun(epoch, es)
    requires var s := Run(epoch, es);
      forall r :: r in s.pairs ==> (x == s.pairs[r] ==> x in s.retired) && (x == "R" + r ==> r in s.retired)
    ensures var s := Run(epoch, es);
      && AfterValidate(s.db, epoch, x) == (s.db, Refused("access_token_invalid")) && Run(epoch, es + [Validate(x)]) == s
      && AfterClose(s.db, x) == (s.db, Refused("")) && Run(epoch, es + [Close(x)]) == s
  {
    var s := Run(epoch, es);
    assert (es + [Validate(x)])[..|es|] == es && (es + [Close(x)])[..|es|] == es;
    RunKeepsInv(epoch, es);
    if x in s.db {
      HeldUnder(s, x);
    }
    assert s.retired + {} == s.retired;
  }
}
