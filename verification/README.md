# PortaSwitch adapter: verified model

This project models the parts of the WebTrit BSS adapter whose correctness depends on state that
lives across requests, and on interleavings of coroutines: the disaster-recovery site tracker and
the request routing that consults it, the account-list cache, admission control and the
single-flight login of the outbound connector, the session store with token rotation, the two
recording codecs, the paged searches, and the call-history range. `dafny verify dfyconfig.toml`
checks all of it.

## How it is laid out

| file | what it models |
|---|---|
| `SiteTracker.dfy` | the tracker object, each method against a function on `State` values |
| `SiteRuns.dfy` | whole runs of one tracker: streaks, earned switches, left-over probes |
| `SiteSteps.dfy` | every event's effect on one tracker, written out over the answers |
| `EarnedReturns.dfy` | which mode-aware trackers return to the main site only when ticks earn it |
| `Replicas.dfy` | two trackers that see the same ticks: self-stabilisation, and which ticks cause it |
| `RequestRouting.dfy` | the loop over targets, with tracker events during every attempt |
| `OutboundConnector.dfy` | permits, connections, the login lock and the stored session |
| `AccountProjection.dfy` | the field projection of cached rows and its two readers |
| `CacheEviction.dfy` | the row budget |
| `CacheRuns.dfy`, `CacheAnswers.dfy`, `CacheFlight.dfy`, `CacheReads.dfy` | the cache under concurrency: staleness; what each section answers; single flight; one read per time to live |
| `Directory.dfy`, `CachedDirectory.dfy` | chunked fetch, sorting, paging; the same over cached rows |
| `ContactSearch.dfy`, `Phonebook.dfy`, `EmailLookup.dfy` | the three bounded or shifted paged reads |
| `ShownContacts.dfy` | which contacts the directory and the search show, and in which order |
| `CallHistory.dfy` | the time range of a call-history request |
| `TokenStore.dfy`, `TokenAnswers.dfy` | access and refresh records in one key space, rotation, runs; what the session calls answer |
| `Base64Url.dfy`, `Spellings.dfy`, `Utf8.dfy`, `RecordingId.dfy`, `RecordingLink.dfy` | the two codecs on their encodings |

Objects that the adapter mutates are classes whose methods are proved against functions on values;
theorems over whole runs are about those functions. Coroutines are runs of atomic sections, each
from one await to the next. What comes from outside (probe answers, HTTP outcomes, row orders of the
switch, clocks, generated tokens, the MAC) is an input. `order`, `hasTotal`, `below`, `passes`,
`contact` and `digest` are unknown functions.

## What the code does not keep

These were found false as stated in the code's own comments, or hold only under a condition. Each is
proved with its exact condition, for all inputs or runs; some also with a run that shows it.

- A switch-back probe started before the sites reported modes does not look at the mode when it
  answers. It can move a mode-aware tracker itself (`OffTickMoveIff`, `LeftOverProbeReturnsEarly`), or
  be counted so that a later tick does. Every return is earned by ticks if and only if no such probe is
  in flight and none has been counted on the standby site (`ReturnsAreEarnedIff`), which at the tick
  that starts the regime is: no probe in flight (`CleanHandoverIff`).
- A failed request is judged by the regime in force when it fails, not when it was routed. So a
  mode-aware request can move the tracker (`ModeAwareRequestMovesIff`, `RegimeLostMidRequest`), and a
  request routed reactively reaches for both sites although modes decide by then
  (`StraddlingRequestTouchesBothSites`).
- An expired session without a refresh token is replaced by a login that is never stored, so two
  requests cost two logins (`OneLoginIff`).
- `asyncio.Lock.locked()` is false between a release and its waiter's wake-up. An eviction in that
  moment drops the lock, and two reads of one customer can run at once. Single flight is kept exactly by
  the events that drop no such lock (`SingleFlightIff`, `SecondReadHappens`).
- A customer is read once per time to live exactly as long as no eviction takes its entry while that is
  fresh (`OneReadPerTtl`, `OncePerTtlIff`).
- When the switch changes its row order between two chunks, a row can be lost: exactly when an account
  is answered twice, and then the fetch has fewer accounts than the total says (`FetchKeepsAllIff`,
  `UnstableOrderLosesARow`).
- With at least as many custom contacts as places on a page, page 1 can overflow; with more it does
  (`FirstPageOverflows`), and page 2 is asked for at a negative offset. Paging then covers the phonebook
  only if the answers to negative offsets happen to make up for it (`PagesCoverIff`); with exactly as
  many, only if the first record is absent or the caller's own (`WalkedStartsOver`).
- A nested row without its key is dropped from a cached account and raises for a live one
  (`ContactSurvivesIff`), as the code's own comment says.
- A floor inside the last second of the datetime type is truncated below itself when it is sent
  (`SentRespectsTheFloorIff`). If the switch serves calls up to the upper bound exclusively, that and the
  early empty answer change nothing; if inclusively, `FloorFiltersExactly` names the call that differs.
- A recording id or link id is not the only string that is read as it: unused bits are ignored,
  characters outside the alphabets skipped, and padding that completes a group ends the reading. For
  every string, `SpellingsIff` says whether it is read as a given id; `JunkIff` says which numbers of
  skipped characters an id can take.
- The prefix of the refresh keys does not keep refresh tokens from being read as access tokens: a live
  one presented with it is accepted, and closing with it removes the refresh record alone
  (`ResolvesIff`, `PrefixedRefreshTokenPasses`). That, or its expiry, is the only way in which a live
  access token loses its refresh record (`KeepsPairedIff`). Rotation, single exchange and retirement
  hold for every presented string.

## Model

| member | source | states |
|---|---|---|
| SiteTracker.SiteState.constructor | app/bss/adapters/portaswitch/failover.py:119-158 | a new tracker is on the main site, reactive, nothing in flight; both thresholds are at least one |
| SiteTracker.SiteState.SetProbe | app/bss/adapters/portaswitch/failover.py:169-170 | sets the main probe and leaves the tracker's state alone |
| SiteTracker.SiteState.SetStandbyProbe | app/bss/adapters/portaswitch/failover.py:172-173 | sets the standby probe and leaves the tracker's state alone |
| SiteTracker.SiteState.EnsureMonitor | app/bss/adapters/portaswitch/failover.py:243-251 | the monitor starts once, and only with both probes set |
| SiteTracker.SiteState.NextTargets | app/bss/adapters/portaswitch/failover.py:175-191 | mode-aware: the active site alone; reactive on main: main then standby; reactive on standby: standby, and a due switch-back probe starts |
| SiteTracker.SiteState.MaybeScheduleProbe | app/bss/adapters/portaswitch/failover.py:327-342 | a probe starts when one is configured, none is running and the recheck interval has passed; the start time is remembered |
| SiteTracker.SiteState.ReportUnreachable | app/bss/adapters/portaswitch/failover.py:193-205 | reactive: on the standby site with the return streak cleared; mode-aware: nothing changes |
| SiteTracker.SiteState.ReportSlow | app/bss/adapters/portaswitch/failover.py:207-226 | nothing while mode-aware, on standby or already checking; without a probe an outage; otherwise one check is started |
| SiteTracker.SiteState.ConfirmOutage | app/bss/adapters/portaswitch/failover.py:228-241 | silence or `secondary` counts as an outage, any other answer does not; the check is over |
| SiteTracker.SiteState.Switch | app/bss/adapters/portaswitch/failover.py:321-325 | the site changes and both streaks are cleared, the regime stays |
| SiteTracker.SiteState.FollowModes | app/bss/adapters/portaswitch/failover.py:280-293 | one reported mode makes the tracker mode-aware, answers without any make it reactive, silence decides nothing; a change of regime clears both streaks |
| SiteTracker.SiteState.DecideOnMain | app/bss/adapters/portaswitch/failover.py:295-312 | standalone moves at once; a down tick counts and the threshold moves; anything else clears the count |
| SiteTracker.SiteState.DecideOnStandby | app/bss/adapters/portaswitch/failover.py:314-319 | a normal main site next to a standby that is not standalone counts and the threshold moves; anything else clears the count |
| SiteTracker.SiteState.PollOnce | app/bss/adapters/portaswitch/failover.py:269-319 | one tick: first the regime, then, mode-aware only, the decision on the active site |
| SiteTracker.SiteState.RunProbe | app/bss/adapters/portaswitch/failover.py:344-365 | `normal` counts towards the return and the threshold moves, in either regime; any other answer clears the count |
| SiteSteps.RegimeIsReported | app/bss/adapters/portaswitch/failover.py:280-293 | in every run the tracker is mode-aware exactly when the latest tick that was answered reported one of the four modes |
| SiteSteps.ChecksComeFromSlowRequests | app/bss/adapters/portaswitch/failover.py:207-241 | in every run a check is under way exactly when a slow request on the main site started one, reactively and with a probe, that has not answered |
| SiteSteps.ReactiveMoveIff | app/bss/adapters/portaswitch/failover.py:193-241 | exactly when a reactive tracker leaves the main site, in every run: a connect failure, a slow request with no probe to check with, or a check that a slow request started answered by silence or `secondary` |
| SiteSteps.OtherwiseTheCheckChangesNothing | app/bss/adapters/portaswitch/failover.py:235-241 | any other answer of a check, and every one while modes decide, leaves site, streaks and regime alone |
| SiteSteps.MovesToStandbyIff | app/bss/adapters/portaswitch/failover.py:193-312 | for every event and answer: exactly when the site becomes the standby one |
| SiteSteps.MovesToMainIff | app/bss/adapters/portaswitch/failover.py:314-361 | and exactly when it becomes the main one again |
| SiteSteps.ReturnStreakAfter | app/bss/adapters/portaswitch/failover.py:314-365 | what the return streak is behind every event that leaves the site |
| SiteSteps.DownStreakAfter | app/bss/adapters/portaswitch/failover.py:299-312 | what the down streak is behind every event |
| SiteSteps.ProbeRunsIff | app/bss/adapters/portaswitch/failover.py:327-365 | exactly when the switch-back probe, the check and the monitor start and end |
| SiteSteps.RegimeAfter | app/bss/adapters/portaswitch/failover.py:280-293 | only ticks change the regime, and a routed request decides nothing |
| SiteSteps.TargetsAre | app/bss/adapters/portaswitch/failover.py:183-191 | the sites of a request in each of the three situations |
| SiteRuns.StreaksStayBelowThresholds | app/bss/adapters/portaswitch/failover.py:295-325 | between any two steps of any run both streaks are below their thresholds, and a down streak exists only while modes decide on the main site |
| SiteRuns.ModesNeedTheMonitor | app/bss/adapters/portaswitch/failover.py:243-251 | in every run the monitor is on exactly when both probes are set and a request was routed, and modes decide only then |
| SiteRuns.DownStreakCountsTicks | app/bss/adapters/portaswitch/failover.py:303-311 | in every run the down streak is a number of latest ticks that all counted as down |
| SiteRuns.EveryMoveToStandbyIsEarned | app/bss/adapters/portaswitch/failover.py:295-312 | while modes decide, a move to standby is a tick on which the standby said standalone, or the last `main_down_threshold` ticks all counted as down |
| SiteRuns.NormalStreakCountsObservations | app/bss/adapters/portaswitch/failover.py:314-319 | in every run the return streak is a number of latest counted observations that were all in favour |
| SiteRuns.EveryReturnToMainIsEarned | app/bss/adapters/portaswitch/failover.py:344-361 | in either regime a return needs `switch_back_threshold` favourable observations in a row |
| SiteRuns.NoProbeStartsWhileModeAware | app/bss/adapters/portaswitch/failover.py:183-191 | no switch-back probe is in flight while modes decide, unless one was left over when they began to |
| SiteRuns.NormalStreakCountsTicks | app/bss/adapters/portaswitch/failover.py:314-319 | without a left-over probe, the return streak of a mode-aware tracker is a number of latest return ticks |
| SiteRuns.EveryModeAwareReturnIsEarned | app/bss/adapters/portaswitch/failover.py:314-319 | without a left-over probe, a mode-aware return needs the last `switch_back_threshold` ticks to be normal on main and not standalone on standby |
| SiteRuns.OffTickMoveIff | app/bss/adapters/portaswitch/failover.py:353-361 | something other than a tick can move a mode-aware tracker exactly when a left-over probe is in flight, it is on standby and one answer short of the threshold |
| SiteRuns.LeftOverProbeReturnsEarly | app/bss/adapters/portaswitch/failover.py:344-361 | such a run exists with the default thresholds: back on main after one good tick instead of two |
| EarnedReturns.RunKeepsEarning | app/bss/adapters/portaswitch/failover.py:314-319 | without a probe in flight, a mode-aware streak on standby keeps counting nothing but return ticks, in every continuation |
| EarnedReturns.ReturnsAreEarnedIff | app/bss/adapters/portaswitch/failover.py:344-365 | every return in every mode-keeping continuation of a mode-aware tracker is earned by ticks if and only if no probe is in flight and its streak on standby counts ticks; with an empty streak, if and only if no probe is in flight |
| EarnedReturns.CleanHandoverIff | app/bss/adapters/portaswitch/failover.py:280-293 | for every run up to the tick that makes the tracker mode-aware: all later returns are earned if and only if no probe was in flight at that tick |
| Replicas.OnlyTicksDecide | app/bss/adapters/portaswitch/failover.py:183-216 | from the first reporting tick on, without a probe in flight, requests and failures of a replica have no influence on its decision |
| Replicas.StepKeepsInStep | app/bss/adapters/portaswitch/failover.py:280-325 | two mode-aware trackers on one site with the same relevant streak stay so over any tick that keeps modes reported |
| Replicas.ReturnsBringToMain | app/bss/adapters/portaswitch/failover.py:314-319 | after return ticks any tracker is on main, or on standby with all of them counted |
| Replicas.DownBringsToStandby | app/bss/adapters/portaswitch/failover.py:303-311 | after down ticks any tracker is on standby, or on main with all of them counted |
| Replicas.DecisiveWindowAgrees | app/bss/adapters/portaswitch/failover.py:295-325 | a decisive window puts any two trackers on the same site with an empty streak, and says which site |
| Replicas.InStepForever | app/bss/adapters/portaswitch/failover.py:269-325 | and they stay in step on all further ticks |
| Replicas.ReplicasSelfStabilise | app/bss/adapters/portaswitch/failover.py:269-325 | two replicas in arbitrary states, each with its own requests and failures, answer every request with the same targets once their common ticks began with a decisive window |
| Replicas.AlwaysAgreeIff | app/bss/adapters/portaswitch/failover.py:269-365 | two replicas whose monitors run agree behind every decisive window and continuation if and only if neither has a reactive probe in flight |
| Replicas.SynchronisesIff | app/bss/adapters/portaswitch/failover.py:295-325 | a sequence of reporting ticks brings every two mode-aware trackers together if and only if a decisive window occurs in it |
| RequestRouting.Interleave | app/bss/adapters/portaswitch/failover.py:269-365 | the tracker object follows any sequence of events as the run semantics says |
| RequestRouting.Connector.RequestTargets | app/bss/async_http_api.py:399-406 | an explicit server disables failover and leaves the tracker alone; otherwise the tracker decides; one or two targets |
| RequestRouting.Connector.NoteFailure | app/bss/async_http_api.py:337-354 | only failures of the main server are reported: a connect failure as unreachable, a read or write timeout as slow, a pool timeout not at all |
| RequestRouting.Connector.SendToTargets | app/bss/async_http_api.py:294-397 | the loop over targets is the recursive exchange, attempt by attempt, with the tracker events in between |
| RequestRouting.Connector.SendRestRequest | app/bss/async_http_api.py:273-397 | a request ends in a reply or a raise after one or two attempts: routed by the tracker when failover is configured, otherwise one attempt on the given or the only server, and the tracker is told as the exchange says |
| RequestRouting.AlwaysEnds | app/bss/async_http_api.py:296-353 | the loop never runs off its end and attempts each target at most once, in order |
| RequestRouting.EndsAsItsLastAttempt | app/bss/async_http_api.py:337-397 | every attempt but the last could not connect; how the exchange ends is read off the outcome of the last one, outcome by outcome |
| RequestRouting.ExchangeIsARun | app/bss/async_http_api.py:294-414 | to the tracker an exchange is the run of the request, what happened meanwhile, and one reported event per failed attempt on the main server |
| RequestRouting.ModeAwareRequestStaysOnOneSite | app/bss/async_http_api.py:294-353 | a request routed mode-aware makes exactly one attempt, on the active site, and leaves the tracker as it found it if modes still decide when it fails |
| RequestRouting.ReportMovesIff | app/bss/async_http_api.py:408-414 | exactly when the report of a failed attempt changes the decision |
| RequestRouting.ModeAwareRequestMovesIff | app/bss/async_http_api.py:337-353 | exactly when a request routed mode-aware moves the tracker: its attempt on the main server failed to connect, or was slow with nothing to ask, after modes had stopped deciding |
| RequestRouting.RegimeLostMidRequest | app/bss/adapters/portaswitch/failover.py:193-205 | a reachable mode-aware tracker is moved by the request it routed, because a tick during the attempt ended the regime |
| RequestRouting.ReactiveRequestFailsOverOnce | app/bss/async_http_api.py:343-353 | a reactive request makes a second attempt exactly when it started on main and could not connect; it goes to standby and is the last |
| RequestRouting.StraddlingRequestTouchesBothSites | app/bss/async_http_api.py:343-353 | that holds even when modes began to decide during the first attempt |
| OutboundConnector.InflightLimit | app/bss/async_http_api.py:103-108 | between one permit and the pool's capacity (`InflightLimitIff` says exactly how many) |
| OutboundConnector.InflightLimitIff | app/bss/async_http_api.py:93-108 | the largest number of permits that leaves two connections and a tenth of the pool free; one for pools below three |
| OutboundConnector.HeadroomIff | app/bss/async_http_api.py:93-108 | the minimum headroom is really left exactly for pools of three connections or more |
| OutboundConnector.StepConserves | app/bss/async_http_api.py:266-271 | every section keeps permits plus holders constant and the login lock with its one holder |
| OutboundConnector.RunConserves | app/bss/async_http_api.py:241-271 | so in every reachable state free permits plus holders are the limit |
| OutboundConnector.ConnectionsFitThePool | app/bss/async_http_api.py:257-260 | connections of both clients together are at most the permits plus the open streams; each client's fit its pool while streams are within the headroom |
| OutboundConnector.OverfullIff | app/bss/async_http_api.py:257-260 | for every number of open streams: some run from the start overfills a client's pool if and only if they are more than the headroom |
| OutboundConnector.SomeoneCanMove | app/bss/async_http_api.py:251-256 | no deadlock of login lock and permits: while a request is unfinished some unfinished request can go on |
| OutboundConnector.GoesPastTheLoginIff | app/bss/async_http_api.py:478-508 | exactly which requests go on at once, with which token, and which wait for the login lock |
| OutboundConnector.UnderTheLock | app/bss/async_http_api.py:508-555 | under the lock a usable session is taken; otherwise a login starts, with exactly when its session is stored and when the expired token is cleared |
| OutboundConnector.LoginIs | app/bss/async_http_api.py:516-532 | a login's session is stored if it is to be, its token goes to the request, lock and permit are given back |
| OutboundConnector.SendingIs | app/bss/async_http_api.py:257-271 | when permits are taken and given back, and which token a request keeps |
| OutboundConnector.RunKeepsSingleLogin | app/bss/async_http_api.py:494-532 | every lasting run from a session whose renewal is stored is before its one login or after it |
| OutboundConnector.OneLoginServesAll | app/bss/async_http_api.py:506-523 | from such a session any interleaving of requests logs in at most once while the token lasts; every request that needs a login and is past it has that token, and one sent without a login has what was stored when it started |
| OutboundConnector.OneLoginIff | app/bss/async_http_api.py:539-555 | exactly when one login is enough: no session, no access token in it, or an expired one with a refresh token and a `refresh` that stores |
| OutboundConnector.TokenStorage.HasValidSession | app/bss/async_http_api.py:478-492 | the fast path's test: a token that is not expired and not due for a proactive refresh |
| OutboundConnector.TokenStorage.SessionInProgress | app/bss/async_http_api.py:534-555 | an expired token is cleared in place; which of login, refresh and re-login follows, and hence whether it is stored |
| OutboundConnector.TokenStorage.LoggedIn | app/bss/async_http_api.py:512-523 | a plain login is stored by the request, a refresh by itself if it stores, a re-login by nobody |
| AccountProjection.ListSurvives | app/bss/adapters/portaswitch/adapter.py:279-284 | a projected nested list is always readable, a full one only when well-formed, and then they read the same |
| AccountProjection.ContactSurvivesIff | app/bss/adapters/portaswitch/adapter.py:265-285 | a projected and a full row give the same contact if and only if the nested rows are well-formed or a required field is missing from both |
| AccountProjection.FilterSurvives | app/bss/adapters/portaswitch/adapter.py:1421-1431 | the filter's verdict is the same on the projected row, for every row |
| AccountProjection.ConsumedFieldsSurvive | app/bss/adapters/portaswitch/adapter.py:195-199 | the fifteen fields that consumers read keep their values |
| AccountProjection.ContactShows | app/bss/adapters/portaswitch/serializer.py:113-147 | the contact of a row, field by field, with its additional and SMS numbers in order; exactly which rows have one |
| AccountProjection.PassesIff | app/bss/adapters/portaswitch/adapter.py:1421-1431 | exactly which accounts the filter shows |
| AccountProjection.ProjectTwice | app/bss/adapters/portaswitch/adapter.py:265-285 | projecting a projected row changes nothing |
| CacheRuns.RowsAreProjected | app/bss/adapters/portaswitch/adapter.py:3302-3309 | in every interleaving, no cached or served row holds anything beyond the projected fields |
| CacheEviction.AccountsCache.CountRows | app/bss/adapters/portaswitch/adapter.py:3370 | the sum of cached rows |
| CacheEviction.AccountsCache.FindOldest | app/bss/adapters/portaswitch/adapter.py:3372-3376 | an oldest entry other than the one just stored, if there is another |
| CacheEviction.AccountsCache.EvictAccountsOverLimit | app/bss/adapters/portaswitch/adapter.py:3363-3396 | ends within budget, with the new entry alone, or at an empty oldest entry; the evicted are oldest, non-empty and no more than needed, the new entry stays, locks go with entries unless locked |
| CacheEviction.AccountsCache.RemoveEntry | app/bss/adapters/portaswitch/adapter.py:3385-3390 | an entry goes with its lock, unless that is locked |
| CacheEviction.AccountsCache.StoreAccounts | app/bss/adapters/portaswitch/adapter.py:3359-3361 | the new entry is stored and the budget enforced |
| CacheEviction.OversizedEntryStays | app/bss/adapters/portaswitch/adapter.py:3366-3368 | a customer larger than the whole budget keeps its entry |
| CacheEviction.EvictsWhenOverBudget | app/bss/adapters/portaswitch/adapter.py:3371-3384 | a cache within budget loses nothing; one over it loses something unless there is nothing worth evicting |
| CacheRuns.RunKeepsStale | app/bss/adapters/portaswitch/adapter.py:3256-3309 | in every interleaving every entry and every served list stems from one complete read of its customer |
| CacheRuns.ServedListsAreRecent | app/bss/adapters/portaswitch/adapter.py:3271-3285 | whatever list a request was served is the projection of one complete read of its customer, completed less than ten times the ttl before |
| CacheRuns.OnlyReadsChangeTheCache | app/bss/adapters/portaswitch/adapter.py:3342-3357 | nothing but a successful read changes any entry; a failed or cancelled refresh keeps them all |
| CacheRuns.AccountsFront.GetAllAccounts | app/bss/adapters/portaswitch/adapter.py:3267-3285 | a fresh entry is served; a stale one within the factor is served and re-read behind; otherwise the request has to wait |
| CacheRuns.AccountsFront.ScheduleAccountsRefresh | app/bss/adapters/portaswitch/adapter.py:3311-3330 | a refresh is started unless the customer's is still alive |
| CacheRuns.AccountsFront.ForgetRefresh | app/bss/adapters/portaswitch/adapter.py:3332-3340 | a finished refresh is forgotten only if it is still the current one |
| CacheAnswers.FreshEntryIsServed | app/bss/adapters/portaswitch/adapter.py:3271-3276 | in every run, an entry younger than the ttl is served and nothing else happens |
| CacheAnswers.StaleEntryIsServedAndRefreshed | app/bss/adapters/portaswitch/adapter.py:3277-3330 | in every run, an entry between one and ten ttl old is served, and behind the request the customer's live refresh is the one held: the one already alive, or else the new one |
| CacheAnswers.MissReadsOrWaits | app/bss/adapters/portaswitch/adapter.py:3285-3304 | in every run, without such an entry a request reads when the customer's lock is free and waits for it otherwise |
| CacheAnswers.RefreshReadsOrWaits | app/bss/adapters/portaswitch/adapter.py:3342-3353 | the same for a refresh that starts, unless somebody else has renewed the entry |
| CacheAnswers.WokenServesOrReads | app/bss/adapters/portaswitch/adapter.py:3293-3309 | a waiter that gets the lock is served from a fresh entry, which lets the next one go, or reads |
| CacheAnswers.ReadIsStoredAndServed | app/bss/adapters/portaswitch/adapter.py:3303-3309 | a completed read leaves the projection of its rows as the entry, serves it, and passes the lock on |
| CacheAnswers.FailedReadEnds | app/bss/adapters/portaswitch/adapter.py:3342-3357 | a failed one leaves the cache, and passes the lock on |
| CacheAnswers.CancelledEnds | app/bss/adapters/portaswitch/adapter.py:3293-3309 | a cancelled job ends with nothing; if it held the lock or was woken for it, the next waiter is woken |
| CacheAnswers.FinishedRefreshIsForgotten | app/bss/adapters/portaswitch/adapter.py:3332-3340 | the callback of a finished refresh removes that one from the dictionary, and nothing else |
| CacheFlight.StepKeepsLocks | app/bss/adapters/portaswitch/adapter.py:3293-3309 | every section keeps the lock discipline unless it drops a lock that has just been released to a waiter |
| CacheFlight.OneReadPerCustomer | app/bss/adapters/portaswitch/adapter.py:3287-3309 | in every interleaving without such a drop, at most one read per customer is in progress |
| CacheFlight.DroppedWokenLockCostsASecondRead | app/bss/adapters/portaswitch/adapter.py:3386-3390 | after any such drop, the woken waiter and the next request read the customer at once |
| CacheFlight.SecondReadHappens | app/bss/adapters/portaswitch/adapter.py:3386-3390 | and a run from the empty cache gets there |
| CacheReads.SingleFlightIff | app/bss/adapters/portaswitch/adapter.py:3287-3309 | behind any run without such a drop, the next event leaves every drop-free continuation at one read per customer if and only if it drops no woken lock |
| CacheReads.OneReadPerTtl | app/bss/adapters/portaswitch/adapter.py:3256-3264 | in every interleaving without such a drop or the eviction of a fresh entry, the completed reads of a customer are at least a ttl apart, and so is every one in progress from those before it |
| CacheReads.OncePerTtlIff | app/bss/adapters/portaswitch/adapter.py:3363-3390 | behind any such run, the next event leaves every such continuation at due reads if and only if it does not evict the customer's fresh entry |
| CacheFlight.StepKeepsRefresh | app/bss/adapters/portaswitch/adapter.py:3311-3340 | every section keeps a live refresh referenced by the dictionary |
| CacheFlight.OneRefreshPerCustomer | app/bss/adapters/portaswitch/adapter.py:3318-3340 | in every interleaving a customer has at most one live refresh, the dictionary holds it, and the late callback of a finished one does not drop it |
| Directory.BuildDict | app/bss/adapters/portaswitch/adapter.py:3433-3437 | de-duplication by i_account: the insertion-ordered dictionary of the rows |
| Directory.FetchIsCompleteIff | app/bss/adapters/portaswitch/adapter.py:3409-3437 | with one row order the chunked fetch returns the whole list exactly when the total is reported or one chunk holds it |
| Directory.FetchKeepsAllIff | app/bss/adapters/portaswitch/adapter.py:3409-3437 | whatever order the switch chooses for every chunk: the fetch keeps all rows exactly when one chunk holds them, or the total is reported and no account is answered twice; and exactly when it has as many as there are |
| Directory.UnstableOrderLosesARow | app/bss/adapters/portaswitch/adapter.py:3427-3432 | for every list longer than a chunk some change of order between the chunks loses a row |
| Directory.SortSorts | app/bss/adapters/portaswitch/adapter.py:1606-1609 | sorting by i_account gives an ordered permutation |
| Directory.SortedListIsUnique | app/bss/adapters/portaswitch/adapter.py:1600-1605 | distinct accounts have one sorted list, whatever order they came in |
| Directory.DirectoryIgnoresRowOrder | app/bss/adapters/portaswitch/adapter.py:1597-1631 | the contact list depends on which accounts exist, not on the order in which the switch returns the offices' rows |
| Directory.PagesPartitionTheList | app/bss/adapters/portaswitch/adapter.py:1652-1654 | pages 1..ceil(total/size) concatenate to the list; all but the last are full, the last is not empty, later ones are |
| Directory.PagesPartitionTheDirectory | app/bss/adapters/portaswitch/adapter.py:1588-1654 | the pages partition the directory even when every page's request saw another row order, and every request reports its length |
| ShownContacts.AccountsShown | app/bss/adapters/portaswitch/adapter.py:1597-1615 | of distinct accounts exactly those of some office that pass the filter are shown, each once, in the order of their ids |
| ShownContacts.ContactsAreShown | app/bss/adapters/portaswitch/adapter.py:1617-1635 | the contacts of these accounts in that order and the custom ones behind, or those of them with an SMS number |
| ShownContacts.ListedAreShown | app/bss/adapters/portaswitch/adapter.py:1597-1619 | the same for the list made from cached rows |
| ShownContacts.PageShows | app/bss/adapters/portaswitch/adapter.py:1652-1654 | how many contacts a page has, and which is at each place |
| CachedDirectory.CachedListIsTheLiveList | app/bss/adapters/portaswitch/adapter.py:3302-3309 | for well-formed rows the list computed from cached rows is the list computed from live ones |
| ContactSearch.RunFieldQueries | app/bss/adapters/portaswitch/adapter.py:1506-1520 | one round merges all answers, keeps the largest total, and is truncated exactly when some field had more than it served |
| ContactSearch.Search | app/bss/adapters/portaswitch/adapter.py:1482-1535 | the search request: its rounds, its page and its total, with the promise `FullOrExact` |
| ContactSearch.TruncatedPageIsFull | app/bss/adapters/portaswitch/adapter.py:1640-1654 | the total is exact; or the page is full, the total says there is more, and it adds to the contacts in hand exactly what the largest field can still deliver |
| ContactSearch.AddMissingExtends | app/bss/adapters/portaswitch/adapter.py:1536-1586 | the extension and alias lookups neither replace nor move an account that was found |
| ShownContacts.InHandIsShown | app/bss/adapters/portaswitch/adapter.py:1614-1635 | of the merged accounts exactly those that pass, in the order found, and the custom contacts behind; or those of them with an SMS number |
| ShownContacts.RoundFinds | app/bss/adapters/portaswitch/adapter.py:1506-1520 | an account is found by a round exactly when it was before or some answer has it; the count kept is the largest |
| ShownContacts.PutHolds | app/bss/adapters/portaswitch/adapter.py:1514 | a row is put in place of one with its id, and the others stay |
| ShownContacts.LookupsAddTheMissing | app/bss/adapters/portaswitch/adapter.py:1536-1586 | behind the lookups the accounts at hand are those found and exactly the missing ones of an extension or the alias number |
| ShownContacts.SecondRoundIff | app/bss/adapters/portaswitch/adapter.py:1482-1535 | how many rows each field is asked for, and exactly when it is asked again for the maximum |
| Phonebook.LaterPage | app/bss/adapters/portaswitch/adapter.py:1728-1730 | page n shows the phonebook from where page n - 1 stopped, once that is not below zero |
| Phonebook.PagesCoverThePhonebook | app/bss/adapters/portaswitch/adapter.py:1717-1742 | for page sizes above the number of custom contacts, the pages concatenate to the custom contacts and the whole phonebook; the total is their number exactly when no record is the caller's own |
| Phonebook.PagesAreFull | app/bss/adapters/portaswitch/adapter.py:1723-1741 | and every page but the last is full |
| Phonebook.FirstPageOverflows | app/bss/adapters/portaswitch/adapter.py:1724-1741 | with at least as many custom contacts as places page 1 starts with all of them, and exceeds its size exactly when they are more or a record is shown behind them; page 2 is asked for below zero exactly when they are more |
| Phonebook.EmptyBelowCoversIff | app/bss/adapters/portaswitch/adapter.py:1724-1730 | if the switch answers below zero with nothing, paging covers a phonebook without own records exactly when it resumes behind the first record |
| Phonebook.WalkedStartsOver | app/bss/adapters/portaswitch/adapter.py:1724-1730 | with as many custom contacts as places page 2 starts the phonebook over, so paging covers it exactly when its first record is absent or the caller's own |
| Phonebook.WalkedIsRefused | app/bss/adapters/portaswitch/adapter.py:1728-1729 | once a page below zero is refused, the walk has no result |
| Phonebook.PagesCoverIff | app/bss/adapters/portaswitch/adapter.py:1717-1742 | for every phonebook, page size and answers below zero: paging covers the phonebook exactly when there are no custom contacts, a page holds more than those, or those answers are the contacts missing in front of where the phonebook resumes |
| EmailLookup.FindAccountByEmail | app/bss/adapters/portaswitch/adapter.py:732-757 | an account is picked only when it is the only one of the whole list with the address, none is reported only when none has it, a refusal means two or a list that may go on past 10 000 rows; at most ten pages are read |
| EmailLookup.DecidedIff | app/bss/adapters/portaswitch/adapter.py:740-757 | what the decision means row by row: one account has all the matches, no row matches, or two accounts do |
| EmailLookup.AnswerIgnoresOrder | app/bss/adapters/portaswitch/adapter.py:732-757 | the answer does not depend on the order in which the switch lists the candidates |
| EmailLookup.PickSurvivesOtherCandidates | app/bss/adapters/portaswitch/adapter.py:740-744 | further candidates never make the lookup pick a different account |
| CallHistory.FloorOnlyNarrows | app/bss/adapters/portaswitch/adapter.py:1905-1911 | the floor never widens the range or moves its end; explicit bounds are otherwise the ones given |
| CallHistory.UtcIs | app/bss/adapters/portaswitch/adapter.py:1937-1956 | a zoned bound lies its distance from UTC before its wall clock, unless that leaves the type |
| CallHistory.StartIs | app/bss/adapters/portaswitch/adapter.py:1902-1911 | the start: the bound given or the default window's, or the raised floor where that is later |
| CallHistory.EndIs | app/bss/adapters/portaswitch/adapter.py:1892-1900 | the end: the bound given, now, or the year 9000 with the window off |
| CallHistory.QueryIs | app/bss/adapters/portaswitch/adapter.py:1989-1992 | what is asked of the switch, and exactly when nothing is |
| CallHistory.SentRespectsTheFloorIff | app/bss/adapters/portaswitch/adapter.py:1906-1909 | the lower bound sent is never before the floor exactly when the floor is a whole second or before the type's last one |
| CallHistory.FloorFiltersExactly | app/bss/adapters/portaswitch/adapter.py:1989-1992 | for every floor, the calls served are those served without it and not before it; with an inclusive upper bound, exactly the call that is lost or let through |
| CallHistory.DefaultWindow | app/bss/adapters/portaswitch/adapter.py:1913-1935 | the default window stays inside the type, spans the configured hours unless cut at 1970, and is the fixed pair when switched off |
| Base64Url.TokenRoundTrip | app/bss/adapters/portaswitch/serializer.py:606-607 | every byte string survives stripping and restoring the padding, in ceil(4n/3) characters |
| Base64Url.AlphabetIs | app/bss/adapters/portaswitch/serializer.py:607-624 | the table of RFC 4648 section 5 for encoding; for decoding the same and `+` and `/`, and no other character |
| Base64Url.TokenIsUrlSafe | app/bss/adapters/portaswitch/serializer.py:607 | a token is made of that table alone |
| Base64Url.SextetsCarryTheBits | app/bss/adapters/portaswitch/serializer.py:606-607 | every three bytes and their four characters have the same bits, and so has the rest but for zero bits |
| Base64Url.LenientDecoding | app/bss/adapters/portaswitch/serializer.py:622-624 | two strings of the alphabets carry the same bytes if and only if they have one length and the same values up to the unused bits of the last |
| Base64Url.JunkIsSkipped | app/bss/adapters/portaswitch/serializer.py:622-624 | four characters outside the alphabets, anywhere in any string, padded or not, change nothing |
| Spellings.Decodes | app/bss/adapters/portaswitch/serializer.py:622-624 | what any string decodes to: its letters up to where padding completes a group, if they come in whole groups or padding ended them |
| Spellings.SpellingsOfToken | app/bss/adapters/portaswitch/serializer.py:622-624 | exactly which strings, of all, decode to the bytes of a token |
| Spellings.PlainDecodes | app/bss/adapters/portaswitch/serializer.py:622-624 | for strings without padding: accepted exactly when what is added fits the number of letters, and then all letters are read |
| Spellings.JunkIff | app/bss/adapters/portaswitch/serializer.py:622-624 | skipped characters in any number and place: the string stays what it was exactly when the padding for the new length fits, and is refused otherwise |
| Utf8.RoundTrip | app/bss/adapters/portaswitch/serializer.py:606-624 | decoding gives back every encoded text |
| Utf8.Reencodes | app/bss/adapters/portaswitch/serializer.py:624 | and what is decoded encodes to exactly the bytes it came from |
| Utf8.ScalarIs | app/bss/adapters/portaswitch/serializer.py:606 | the bytes of a character as in section 3 of RFC 3629 |
| RecordingId.PartitionSplits | app/bss/adapters/portaswitch/serializer.py:628 | the text splits at its first separator, whatever the second key contains |
| RecordingId.ComposedIsNeverANumber | app/bss/adapters/portaswitch/serializer.py:606-620 | a composed token starts with M, N or O and is never taken for a bare number |
| RecordingId.ComposedCarries | app/bss/adapters/portaswitch/serializer.py:596-607 | what an id carries: the number, a vertical bar and the second key; without one, the bare number |
| RecordingId.RoundTrip | app/bss/adapters/portaswitch/serializer.py:596-632 | parsing a composed id gives back both keys |
| RecordingId.ParsesIff | app/bss/adapters/portaswitch/serializer.py:619-632 | exactly what every string is parsed to |
| RecordingId.Injective | app/bss/adapters/portaswitch/serializer.py:596-607 | no two recordings share an id, bare or composed |
| RecordingId.AcceptedTokenCarriesItsKeys | app/bss/adapters/portaswitch/serializer.py:609-632 | an accepted string is a bare number, or carries exactly the bytes that composing its keys encodes |
| RecordingId.JunkChangesNothing | app/bss/adapters/portaswitch/serializer.py:619-626 | and the same holds for every id but a bare number |
| RecordingId.JunkIff | app/bss/adapters/portaswitch/serializer.py:609-632 | a composed id with any number of skipped characters is read as before, or refused, exactly as the padding fits |
| RecordingId.SpellingsIff | app/bss/adapters/portaswitch/serializer.py:609-632 | for every string: it is read as the two keys of a composed id if and only if it is accepted and its letters have that id's length and values up to the unused bits |
| RecordingLink.PayloadFields | app/bss/adapters/portaswitch/recording_link.py:25-25 | the packed header is 13 bytes and its three numbers read back |
| RecordingLink.PayloadOfFields | app/bss/adapters/portaswitch/recording_link.py:76-83 | and re-packing what is read gives the payload |
| RecordingLink.SignsIff | app/bss/adapters/portaswitch/recording_link.py:59-64 | exactly when a link can be signed: a legal ttl, a 64-bit number, an expiry that fits 32 bits |
| RecordingLink.SignedCarriesDigest | app/bss/adapters/portaswitch/recording_link.py:59-64 | what a signed id carries, byte by byte: version, expiry, number, key, and the first sixteen bytes of the digest of these |
| RecordingLink.EveryLegalTtlFits | app/bss/adapters/portaswitch/recording_link.py:30-31 | every legal ttl fits while the clock is ten years short of the 32-bit limit |
| RecordingLink.SignedLinkVerifies | app/bss/adapters/portaswitch/recording_link.py:59-83 | a signed link verifies to its triple up to its expiry and is expired after it |
| RecordingLink.VerdictIff | app/bss/adapters/portaswitch/recording_link.py:66-86 | exactly what verifying answers for every string: invalid unless its tail is the first sixteen bytes of the digest of what is before; otherwise expired, or what it carries |
| RecordingLink.LinkLength | app/bss/adapters/portaswitch/recording_link.py:62-64 | an id has ceil(4 (29 + n) / 3) characters for an n-byte key: at most 90 exactly for n <= 38 |
| RecordingLink.VerifiedLinkIsAuthentic | app/bss/adapters/portaswitch/recording_link.py:66-83 | whatever string verifies carries the payload of its triple and the first sixteen bytes of that payload's digest, unexpired |
| RecordingLink.JunkChangesNothing | app/bss/adapters/portaswitch/recording_link.py:66-70 | four skipped characters, anywhere, change no verdict |
| RecordingLink.JunkIff | app/bss/adapters/portaswitch/recording_link.py:66-83 | a signed link with any number of skipped characters has the same verdict, or is invalid, exactly as the padding fits |
| RecordingLink.SpellingsIff | app/bss/adapters/portaswitch/recording_link.py:66-83 | for every string: it verifies like an unexpired signed link if and only if it is accepted and its letters have that id's length and values up to the unused bits |
| TokenStore.SessionStorage.GetSession | app/bss/sessions.py:94-104 | by the refresh key when there is a refresh token, by the access token otherwise |
| TokenStore.SessionStorage.StoreSession | app/bss/sessions.py:123-136 | both records are written, the second with its own expiry |
| TokenStore.SessionStorage.DeleteSession | app/bss/sessions.py:145-152 | both records go; the answer is whether the access record was there |
| TokenStore.SessionManagement.ValidateSession | app/bss/adapters/session_management.py:15-35 | an active session is returned; an expired access record is removed and its refresh record kept; errors |
| TokenStore.SessionManagement.RefreshSession | app/bss/adapters/session_management.py:37-74 | the prior user gets the new pair and the old pair is removed; an expired one is removed; errors |
| TokenStore.SessionManagement.CloseSession | app/bss/adapters/session_management.py:76-85 | both records of the session are removed; error without one |
| TokenStore.KeysAreDistinct | app/bss/sessions.py:84-92 | access keys and refresh keys never collide |
| TokenStore.RunKeepsInv | app/bss/adapters/session_management.py:15-85 | every run, whatever strings are presented, keeps: records under their keys, one user per pair, an issued token's record present exactly until it is retired, exchanges distinct |
| TokenStore.ResolvesIff | app/bss/sessions.py:84-104 | in every run: exactly which strings resolve as a refresh token (issued and not retired ones) and as an access token (those of the access tokens, and such refresh tokens behind "R") |
| TokenStore.PrefixedRefreshTokenPasses | app/bss/adapters/session_management.py:15-35 | a live refresh token presented with its prefix is validated as its session, and closing with it removes the refresh record alone and answers false |
| TokenStore.KeepsPairedIff | app/bss/adapters/session_management.py:15-85 | exactly when a call keeps every access record paired: unless it closes, or finds expired, a prefixed refresh token whose access token is live |
| TokenStore.UnprefixedRunsStayPaired | app/bss/adapters/session_management.py:15-85 | in every run whose callers present no prefixed token, every access record has its refresh record |
| TokenStore.EveryAccessHasItsRefresh | app/bss/sessions.py:123-132 | in every run, a live access token has its refresh record, with the same user and pair, if and only if that refresh token was not retired before it |
| TokenStore.EachRefreshTokenIsExchangedOnce | app/bss/adapters/session_management.py:37-74 | a refresh token that was exchanged is refused and changes nothing |
| TokenStore.RetiredTokensNeverResolve | app/bss/adapters/session_management.py:71-74 | a retired token never resolves again, with the prefix or without, however the run goes on |
| TokenStore.ExchangeAndCloseRetireThePair | app/bss/adapters/session_management.py:63-82 | an exchange retires exactly the pair it was asked with and hands the user over; a close retires the pair of an access token, or a prefixed refresh token alone, and its answer tells which |
| TokenStore.MintedPairResolves | app/bss/adapters/session_management.py:63-74 | the new pair resolves at once, for the right user |
| TokenAnswers.RunKeepsRecords | app/bss/sessions.py:106-132 | in every run a pair's records carry the expiries of the event that issued it |
| TokenAnswers.RefreshAnswers | app/bss/adapters/session_management.py:37-74 | for every run and string: an issued, unretired refresh token is exchanged if and only if the expiry it was issued with lies behind the timestamp, and refused as expired otherwise, its pair retired either way; any other is invalid and changes nothing |
| TokenAnswers.ValidateAnswers | app/bss/adapters/session_management.py:15-30 | an issued, unretired access token is granted if and only if its own expiry lies behind the timestamp; otherwise it alone is retired |
| TokenAnswers.ValidateAnswersPrefixed | app/bss/adapters/session_management.py:15-30 | the same for a refresh token behind its prefix |
| TokenAnswers.CloseAnswers | app/bss/adapters/session_management.py:76-82 | a close retires an access token's pair and answers true, or a prefixed refresh token alone and answers false |
| TokenAnswers.UnknownIsRefused | app/bss/adapters/session_management.py:32-85 | every other string is refused by both and changes nothing |

## Left out

- RequestRouting.ModeAwareRequestStaysOnOneSite: claims the unchanged tracker only while modes still decide when the attempt fails, because otherwise it is false (`ModeAwareRequestMovesIff` has the exact condition).
- SiteRuns.EveryModeAwareReturnIsEarned: for runs in which no reactive probe was in flight when modes began to decide; `EarnedReturns.CleanHandoverIff` shows that at each such tick this is exactly what the later returns take.
- CacheFlight.OneReadPerCustomer: for runs in which no eviction drops a lock between its release and its waiter's wake-up; `CacheReads.SingleFlightIff` shows that this is exactly what it takes.
- CacheReads.OneReadPerTtl: for such runs in which the customer's fresh entry is not evicted; `CacheReads.OncePerTtlIff` shows that this is exactly what it takes.
- OutboundConnector.OneLoginServesAll: for sessions whose renewal is stored, and while the token stays valid (`OneLoginIff` shows the first is needed); "at most one", since every login may also fail. A request of a connector that never logs in carries its caller's own token, which is not part of the model; its permit and connection are those of a request sent without a login.
- Directory.PagesPartitionTheDirectory: within one request each office has one row order and reports its total; orders may differ between requests. `FetchKeepsAllIff` has the exact condition for orders that change within one.
- EmailLookup.FindAccountByEmail: for a candidate list that does not change while it is read; whether a row's field holds the address (the address patterns) is an input.
- CallHistory.SentRespectsTheFloorIff: about the floor as normalised; one whose move to UTC leaves the type keeps its wall clock, as in the code.
- CallHistory.FloorFiltersExactly: how the switch treats a call exactly on the upper bound is not known, so both cases are stated.
- Phonebook.PagesCoverIff: what the switch answers at a negative offset is not known, so the condition is in terms of that answer.
- TokenStore.RunKeepsInv: generated tokens are new and hexadecimal, presented ones are any strings; each call is one step, so overlapping calls on a threaded server are not covered.
- Expiry of sessions against the current time: the timestamp `still_active` compares with is fixed when the class is defined (app/bss/types.py:213), so it is a constant here.
- Records of an older format in the session store, and Firestore, shelve and the record serializers.
- The tracker outside a running event loop, where probes, checks and the monitor cannot be started.
- An operating mode that is none of the four known strings: all are one value, as the code treats them.
- The main-site probe is itself a request that may fail to connect and report so; that is an event of the run, at any moment, rather than part of the probe.
- Wall-clock alignment of the monitor, and that it keeps ticking: ticks are inputs.
- Connectors with different main verification settings: they would have separate permit pools. Shutting the shared clients down is not modelled either.
- The repetition of an admin call after a session fault (app/bss/adapters/portaswitch/api/admin.py:583-596): it recurses on remote answers and has no measure of its own.
- Sessions given by a fixed API key, users whose password is gone, and a login answer without a token (the admin realm raises for those; here a failed login).
- A time to live of zero or less, where every read goes to the switch, and searches over the cached directory.
- The first address of an e-mail field: the contact keeps the field it is taken from.
- The other contact modes, the phonebook searched in memory, and resolving phonebook records to accounts: each record is its resulting contact.
- The `%Y` of years below 1000, which some platforms write with fewer digits.
- Text that cannot be encoded (lone surrogates): strings hold Unicode scalar values.
- Strength of HMAC and SHA-256, and timing of the comparison: the digest is an unknown function.
- HTTP, TLS, httpx, routes, metrics and logging; FreePBX, NetSapiens, 3CX and example adapters; the other time-based caches, which repeat the account cache with less concurrency.
