/** Refresh rows over whole runs: rotation chains, spent tokens, and the count of open sessions. */
module AuthSessions {
  import opened Wrappers
  import opened Models
  import opened AuthModel
  import opened AuthSteps
  import opened AuthRuns
  import opened AuthChanges
  import opened AuthInvariants

  // ---------- chains ----------

  /** The chains a history leaves: a new one per opened session, each rotation added behind its row. */
  function Chains(log: seq<Event>): seq<seq<Id>> {
    if log == [] then []
    else
      var before := Chains(log[..|log| - 1]);
      match log[|log| - 1]
      case Opened(id, _) => before + [[id]]
      case Rotated(old_, new_) => Lengthened(before, old_, new_)
  }

  function Lengthened(cs: seq<seq<Id>>, old_: Id, new_: Id): seq<seq<Id>> {
    seq(|cs|, k requires 0 <= k < |cs| =>
      if cs[k] != [] && cs[k][|cs[k]| - 1] == old_ then cs[k] + [new_] else cs[k])
  }

  ghost predicate At(cs: seq<seq<Id>>, k: int, i: int) {
    0 <= k < |cs| && 0 <= i < |cs[k]|
  }

  /** The row is the same user's as the first of its chain, and revoked unless it is the last. */
  ghost predicate LinkOk(chain: seq<Id>, i: nat, refresh: map<Id, RefreshRow>)
    requires i < |chain|
  {
    && chain[0] in refresh && chain[i] in refresh
    && refresh[chain[i]].userId == refresh[chain[0]].userId
    && (i < |chain| - 1 ==> refresh[chain[i]].revokedAt.Some?)
  }

  ghost predicate LinksOk(cs: seq<seq<Id>>, refresh: map<Id, RefreshRow>) {
    forall k, i | At(cs, k, i) :: LinkOk(cs[k], i, refresh)
  }

  /** No row is two links. */
  ghost predicate Apart(cs: seq<seq<Id>>) {
    forall k, i, l, j | At(cs, k, i) && At(cs, l, j) && cs[k][i] == cs[l][j] :: k == l && i == j
  }

  /** Every row is a link. */
  ghost predicate Covers(cs: seq<seq<Id>>, refresh: map<Id, RefreshRow>) {
    forall id | id in refresh :: exists k, i :: At(cs, k, i) && cs[k][i] == id
  }

  /** Each row is one link of one chain; a chain is one user's; every link but the last is revoked. */
  ghost predicate ChainsOk(cs: seq<seq<Id>>, refresh: map<Id, RefreshRow>) {
    LinksOk(cs, refresh) && Apart(cs) && Covers(cs, refresh)
  }

  lemma OpenKeepsLinks(cs: seq<seq<Id>>, refresh: map<Id, RefreshRow>, id: Id, row: RefreshRow)
    requires LinksOk(cs, refresh) && Apart(cs) && id !in refresh
    ensures LinksOk(cs + [[id]], refresh[id := row]) && Apart(cs + [[id]])
  {
    var cs' := cs + [[id]];
    forall k, i | At(cs', k, i)
      ensures LinkOk(cs'[k], i, refresh[id := row])
      ensures k < |cs| ==> At(cs, k, i) && cs'[k][i] in refresh
    {
      assert k < |cs| ==> At(cs, k, i) && LinkOk(cs[k], i, refresh);
    }
  }

  /** Chains that keep every link they had still cover the rows they covered. */
  lemma CoversMore(cs: seq<seq<Id>>, refresh: map<Id, RefreshRow>, cs': seq<seq<Id>>, id: Id, k: int, i: int,
                   refresh': map<Id, RefreshRow>)
    requires Covers(cs, refresh) && refresh'.Keys <= refresh.Keys + {id}
    requires |cs| <= |cs'| && forall l | 0 <= l < |cs| :: cs[l] <= cs'[l]
    requires At(cs', k, i) && cs'[k][i] == id
    ensures Covers(cs', refresh')
  {
    forall x | x in refresh'
      ensures exists l, j :: At(cs', l, j) && cs'[l][j] == x
    {
      if x != id {
        var l, j :| At(cs, l, j) && cs[l][j] == x;
        assert At(cs', l, j) && cs'[l][j] == x;
      }
    }
  }

  lemma CoversLonger(cs: seq<seq<Id>>, refresh: map<Id, RefreshRow>, k: nat, id: Id, refresh': map<Id, RefreshRow>)
    requires Covers(cs, refresh) && refresh'.Keys == refresh.Keys + {id} && k < |cs|
    ensures Covers(cs[k := cs[k] + [id]], refresh')
  {
    hide Covers;
    CoversMore(cs, refresh, cs[k := cs[k] + [id]], id, k, |cs[k]|, refresh');
  }

  lemma RevokeKeepsLinks(cs: seq<seq<Id>>, refresh: map<Id, RefreshRow>, id: Id, now: Instant)
    requires LinksOk(cs, refresh) && id in refresh
    ensures LinksOk(cs, refresh[id := refresh[id].(revokedAt := Some(now))])
  {
    forall k, i | At(cs, k, i)
      ensures LinkOk(cs[k], i, refresh[id := refresh[id].(revokedAt := Some(now))])
    {
      assert LinkOk(cs[k], i, refresh);
    }
  }

  /** A rotation puts the new row behind the old one, which was the end of its one chain. */
  lemma RotatedShape(cs: seq<seq<Id>>, old_: Id, new_: Id, k0: nat)
    requires Apart(cs) && k0 < |cs| && cs[k0] != [] && cs[k0][|cs[k0]| - 1] == old_
    ensures Lengthened(cs, old_, new_) == cs[k0 := cs[k0] + [new_]]
  {
    assert At(cs, k0, |cs[k0]| - 1);
    forall l | 0 <= l < |cs| && l != k0 && cs[l] != []
      ensures cs[l][|cs[l]| - 1] != old_
    {
      assert At(cs, l, |cs[l]| - 1);
    }
  }

  /** An unrevoked row is the end of a chain. */
  lemma EndOfChain(cs: seq<seq<Id>>, refresh: map<Id, RefreshRow>, id: Id) returns (k: nat)
    requires LinksOk(cs, refresh) && Covers(cs, refresh) && id in refresh && refresh[id].revokedAt.None?
    ensures k < |cs| && cs[k] != [] && cs[k][|cs[k]| - 1] == id
  {
    hide Covers;
    assert exists l, j :: At(cs, l, j) && cs[l][j] == id by { CoveredBy(cs, refresh, id); }
    var l, i :| At(cs, l, i) && cs[l][i] == id;
    assert LinkOk(cs[l], i, refresh);
    k := l;
  }

  lemma CoveredBy(cs: seq<seq<Id>>, refresh: map<Id, RefreshRow>, id: Id)
    requires Covers(cs, refresh) && id in refresh
    ensures exists l, j :: At(cs, l, j) && cs[l][j] == id
  {
  }

  lemma RotateKeepsLinks(cs: seq<seq<Id>>, refresh: map<Id, RefreshRow>, k0: nat, new_: Id, row: RefreshRow,
                         now: Instant)
    requires LinksOk(cs, refresh) && k0 < |cs| && cs[k0] != []
    requires new_ !in refresh && cs[k0][|cs[k0]| - 1] in refresh && row.userId == refresh[cs[k0][|cs[k0]| - 1]].userId
    ensures var old_ := cs[k0][|cs[k0]| - 1];
      LinksOk(cs[k0 := cs[k0] + [new_]], refresh[new_ := row][old_ := refresh[old_].(revokedAt := Some(now))])
  {
    var end, old_ := |cs[k0]|, cs[k0][|cs[k0]| - 1];
    var cs' := cs[k0 := cs[k0] + [new_]];
    assert At(cs, k0, end - 1) && LinkOk(cs[k0], end - 1, refresh);
    forall k, i | At(cs', k, i)
      ensures LinkOk(cs'[k], i, refresh[new_ := row][old_ := refresh[old_].(revokedAt := Some(now))])
    {
      if !(k == k0 && i == end) {
        assert At(cs, k, i) && LinkOk(cs[k], i, refresh);
      }
    }
  }

  lemma RotateKeepsApart(cs: seq<seq<Id>>, refresh: map<Id, RefreshRow>, k0: nat, new_: Id)
    requires LinksOk(cs, refresh) && Apart(cs) && k0 < |cs| && new_ !in refresh
    ensures Apart(cs[k0 := cs[k0] + [new_]])
  {
    var cs' := cs[k0 := cs[k0] + [new_]];
    forall k, i | At(cs', k, i)
      ensures (k == k0 && i == |cs[k0]| && cs'[k][i] == new_) || (At(cs, k, i) && cs'[k][i] == cs[k][i] != new_)
    {
      if !(k == k0 && i == |cs[k0]|) {
        assert At(cs, k, i) && LinkOk(cs[k], i, refresh);
      }
    }
  }

  lemma OpenKeepsChains(cs: seq<seq<Id>>, refresh: map<Id, RefreshRow>, id: Id, row: RefreshRow)
    requires ChainsOk(cs, refresh) && id !in refresh
    ensures ChainsOk(cs + [[id]], refresh[id := row])
  {
    hide LinksOk, Apart, Covers;
    OpenKeepsLinks(cs, refresh, id, row);
    CoversMore(cs, refresh, cs + [[id]], id, |cs|, 0, refresh[id := row]);
  }

  lemma RevokeKeepsChains(cs: seq<seq<Id>>, refresh: map<Id, RefreshRow>, id: Id, now: Instant)
    requires ChainsOk(cs, refresh) && id in refresh && refresh[id].revokedAt.None?
    ensures ChainsOk(cs, refresh[id := refresh[id].(revokedAt := Some(now))])
  {
    hide LinksOk, Apart, Covers;
    RevokeKeepsLinks(cs, refresh, id, now);
    var k := EndOfChain(cs, refresh, id);
    CoversMore(cs, refresh, cs, id, k, |cs[k]| - 1, refresh[id := refresh[id].(revokedAt := Some(now))]);
  }

  lemma RotateAtEnd(cs: seq<seq<Id>>, refresh: map<Id, RefreshRow>, k: nat, new_: Id, row: RefreshRow, now: Instant)
    requires ChainsOk(cs, refresh) && k < |cs| && cs[k] != []
    requires new_ !in refresh && cs[k][|cs[k]| - 1] in refresh && row.userId == refresh[cs[k][|cs[k]| - 1]].userId
    ensures var old_ := cs[k][|cs[k]| - 1];
      ChainsOk(cs[k := cs[k] + [new_]], refresh[new_ := row][old_ := refresh[old_].(revokedAt := Some(now))])
  {
    hide LinksOk, Apart, Covers;
    var old_ := cs[k][|cs[k]| - 1];
    var refresh' := refresh[new_ := row][old_ := refresh[old_].(revokedAt := Some(now))];
    RotateKeepsLinks(cs, refresh, k, new_, row, now);
    RotateKeepsApart(cs, refresh, k, new_);
    assert refresh'.Keys == refresh.Keys + {new_};
    CoversLonger(cs, refresh, k, new_, refresh');
  }

  lemma RotateKeepsChains(cs: seq<seq<Id>>, refresh: map<Id, RefreshRow>, old_: Id, new_: Id, row: RefreshRow,
                          now: Instant)
    requires ChainsOk(cs, refresh)
    requires old_ in refresh && refresh[old_].revokedAt.None?
    requires new_ !in refresh && row.userId == refresh[old_].userId
    ensures ChainsOk(Lengthened(cs, old_, new_),
                     refresh[new_ := row][old_ := refresh[old_].(revokedAt := Some(now))])
  {
    hide LinksOk, Apart, Covers;
    var k := EndOfChain(cs, refresh, old_);
    RotatedShape(cs, old_, new_, k);
    RotateAtEnd(cs, refresh, k, new_, row, now);
  }

  lemma ChangeKeepsChains(p: Primitives, s: AuthState, c: Change)
    requires ChainsOk(Chains(s.log), s.refresh) && Possible(p, s, c)
    ensures ChainsOk(Chains(Apply(p, s, c).log), Apply(p, s, c).refresh)
  {
    hide ChainsOk;
    var t := Apply(p, s, c);
    match c {
      case Open(id, row) =>
        assert t.log[..|t.log| - 1] == s.log;
        OpenKeepsChains(Chains(s.log), s.refresh, id, row);
      case Rotate(old_, now, new_, row) =>
        assert t.log[..|t.log| - 1] == s.log;
        RotateKeepsChains(Chains(s.log), s.refresh, old_, new_, row, now);
      case Close(id, now) =>
        RevokeKeepsChains(Chains(s.log), s.refresh, id, now);
      case _ =>
    }
  }

  lemma {:induction false} ChangesKeepChains(p: Primitives, s: AuthState, changes: seq<Change>, t: AuthState)
    requires ChainsOk(Chains(s.log), s.refresh) && Reaches(p, s, changes, t)
    ensures ChainsOk(Chains(t.log), t.refresh)
    decreases |changes|
  {
    hide ChainsOk, Chains, Possible, Apply;
    if changes != [] {
      ChangeKeepsChains(p, s, changes[0]);
      ChangesKeepChains(p, Apply(p, s, changes[0]), changes[1..], t);
    }
  }

  lemma StartHasNoSessions(p: Primitives, s: AuthState)
    requires Started(p, s)
    ensures s.log == [] && s.refresh == map[] && ChainsOk(Chains(s.log), s.refresh)
  {
    hide SyncKeys;
    var config, keyId: Id, adminId: Id, salt, now: Instant :| IsStart(p, s, config, keyId, adminId, salt, now);
  }

  /** In every state of every run the refresh rows form disjoint chains, one per opened session. */
  lemma {:induction false} RunsKeepChains(p: Primitives, states: seq<AuthState>, actions: seq<Action>, n: nat)
    requires Lawful(p) && IsRun(p, states, actions) && n < |states|
    ensures ChainsOk(Chains(states[n].log), states[n].refresh)
  {
    hide ChainsOk, Chains, Next, Lawful, Started;
    if n == 0 {
      StartHasNoSessions(p, states[0]);
    } else {
      RunsKeepChains(p, states, actions, n - 1);
      var changes := NextIsChanges(p, states[n - 1], actions[n - 1]);
      ChangesKeepChains(p, states[n - 1], changes, states[n]);
    }
  }

  /** A refresh token that is accepted stands for the last link of its chain; earlier links never are. */
  lemma OnlyTheLastLinkIsAccepted(p: Primitives, states: seq<AuthState>, actions: seq<Action>, n: nat, token: string,
                                  now: Instant)
    returns (k: nat)
    requires Lawful(p) && IsRun(p, states, actions) && n < |states|
    requires ActiveRefresh(p, states[n], token, now).Ok?
    ensures var cs := Chains(states[n].log);
      k < |cs| && cs[k] != [] && cs[k][|cs[k]| - 1] == ActiveRefresh(p, states[n], token, now).value
  {
    hide Next, Lawful, Started, ActiveRefresh, LinksOk, Covers, Apart;
    RunsKeepChains(p, states, actions, n);
    k := EndOfChain(Chains(states[n].log), states[n].refresh, ActiveRefresh(p, states[n], token, now).value);
  }

  lemma ChainsAfter(log: seq<Event>, e: Event)
    ensures e.Opened? ==> Chains(log + [e]) == Chains(log) + [[e.refreshId]]
    ensures e.Rotated? ==> Chains(log + [e]) == Lengthened(Chains(log), e.old_, e.new_)
  {
    assert (log + [e])[..|log|] == log;
  }

  /** The session a call opens, if it is a login or an acceptance that succeeds. */
  ghost function OpenedBy(p: Primitives, s: AuthState, a: Action): seq<Id> {
    if (a.DoLogin? || a.DoAccept?) && Answer(p, s, a).Ok? then [a.refreshId] else []
  }

  ghost function Singletons(ids: seq<Id>): (cs: seq<seq<Id>>)
    ensures |cs| == |ids| && forall k :: 0 <= k < |ids| ==> cs[k] == [ids[k]]
  {
    seq(|ids|, k requires 0 <= k < |ids| => [ids[k]])
  }

  /** A successful login starts a chain. */
  lemma LoginStartsChain(p: Primitives, s: AuthState, email: string, password: string, refreshId: Id, jti: string,
                         now: Instant)
    requires Login(p, s, email, password, refreshId, jti, now).1.Ok?
    ensures Chains(Login(p, s, email, password, refreshId, jti, now).0.log) == Chains(s.log) + [[refreshId]]
  {
    hide SignBoth, Sign, Chains;
    ChainsAfter(s.log, Opened(refreshId, UserByEmail(s.users, email).value));
  }

  /** A successful acceptance starts a chain. */
  lemma AcceptStartsChain(p: Primitives, s: AuthState, token: string, password: string, salt: string,
                          refreshId: Id, jti: string, now: Instant)
    requires AcceptInvite(p, s, token, password, salt, refreshId, jti, now).1.Ok?
    ensures Chains(AcceptInvite(p, s, token, password, salt, refreshId, jti, now).0.log)
         == Chains(s.log) + [[refreshId]]
  {
    hide SignBoth, Sign, Chains;
    var inviteId := SetInvitedPassword(p, s, token, password, salt, now).1.value;
    ChainsAfter(s.log, Opened(refreshId, s.invites[inviteId].userId));
  }

  /** A successful refresh adds its row behind the one its token stands for. */
  lemma RefreshAddsLink(p: Primitives, s: AuthState, token: string, refreshId: Id, jti: string, now: Instant)
    requires RefreshSession(p, s, token, refreshId, jti, now).1.Ok?
    ensures ActiveRefresh(p, s, token, now).Ok?
    ensures Chains(RefreshSession(p, s, token, refreshId, jti, now).0.log)
         == Lengthened(Chains(s.log), ActiveRefresh(p, s, token, now).value, refreshId)
  {
    hide SignBoth, Sign, Chains, Lengthened, ActiveRefresh;
    ChainsAfter(s.log, Rotated(ActiveRefresh(p, s, token, now).value, refreshId));
  }

  lemma LoginRefused(p: Primitives, s: AuthState, email: string, password: string, refreshId: Id, jti: string,
                     now: Instant)
    requires KeysOk(p, s) && refreshId !in s.refresh && Login(p, s, email, password, refreshId, jti, now).1.Err?
    ensures Login(p, s, email, password, refreshId, jti, now).0.log == s.log
  {
    hide KeysOk, Unrevoked, OpenSession;
    var found := UserByEmail(s.users, email);
    if found.Some? {
      SessionGain(p, s, Person(s, found.value), refreshId, jti, now, 0);
    }
  }

  lemma AcceptRefused(p: Primitives, s: AuthState, token: string, password: string, salt: string,
                      refreshId: Id, jti: string, now: Instant)
    requires KeysOk(p, s) && refreshId !in s.refresh
    requires AcceptInvite(p, s, token, password, salt, refreshId, jti, now).1.Err?
    ensures AcceptInvite(p, s, token, password, salt, refreshId, jti, now).0.log == s.log
  {
    hide KeysOk, Unrevoked, OpenSession;
    var (s1, begun) := SetInvitedPassword(p, s, token, password, salt, now);
    if begun.Ok? {
      var s2 := s1.(invites := s1.invites[begun.value := s1.invites[begun.value].(acceptedAt := Some(now))]);
      SameKeysOk(p, s, s2);
      SessionGain(p, s2, Person(s2, s1.invites[begun.value].userId), refreshId, jti, now, 0);
    }
  }

  lemma RefreshRefused(p: Primitives, s: AuthState, token: string, refreshId: Id, jti: string, now: Instant)
    requires KeysOk(p, s) && RefreshSession(p, s, token, refreshId, jti, now).1.Err?
    ensures RefreshSession(p, s, token, refreshId, jti, now).0.log == s.log
  {
    hide KeysOk, Sign, ActiveRefresh;
    var t := RefreshSession(p, s, token, refreshId, jti, now).0;
    var current := ActiveRefresh(p, s, token, now);
    if t != s {
      SameKeysOk(p, s, t);
      var user := Person(s, s.refresh[current.value].userId);
      SigningWorks(p, t, AccessPayload(AccessClaimsFor(p, t, user, refreshId, jti, now)));
    }
  }

  /** Logins and acceptances that succeed add one chain, refreshes that succeed one link; other calls add nothing. */
  lemma NextChains(p: Primitives, s: AuthState, a: Action)
    requires KeysOk(p, s) && Enabled(p, s, a)
    ensures a.DoRefresh? && Answer(p, s, a).Ok? ==>
      && ActiveRefresh(p, s, a.token, a.now).Ok?
      && Chains(Next(p, s, a).log) == Lengthened(Chains(s.log), ActiveRefresh(p, s, a.token, a.now).value, a.refreshId)
    ensures !(a.DoRefresh? && Answer(p, s, a).Ok?) ==>
      Chains(Next(p, s, a).log) == Chains(s.log) + Singletons(OpenedBy(p, s, a))
  {
    hide KeysOk, Login, AcceptInvite, RefreshSession, Chains, Lengthened, ActiveRefresh;
    match a {
      case DoLogin(email, password, refreshId, jti, now) =>
        if Answer(p, s, a).Ok? {
          LoginStartsChain(p, s, email, password, refreshId, jti, now);
        } else {
          LoginRefused(p, s, email, password, refreshId, jti, now);
        }
      case DoAccept(token, password, salt, refreshId, jti, now) =>
        if Answer(p, s, a).Ok? {
          AcceptStartsChain(p, s, token, password, salt, refreshId, jti, now);
        } else {
          AcceptRefused(p, s, token, password, salt, refreshId, jti, now);
        }
      case DoRefresh(token, refreshId, jti, now) =>
        if Answer(p, s, a).Ok? {
          RefreshAddsLink(p, s, token, refreshId, jti, now);
        } else {
          RefreshRefused(p, s, token, refreshId, jti, now);
        }
      case _ => OthersLeaveLog(p, s, a);
    }
  }

  lemma OthersLeaveLog(p: Primitives, s: AuthState, a: Action)
    requires Enabled(p, s, a) && !AsksForSession(a)
    ensures Next(p, s, a).log == s.log
  {
    if a.DoLogout? {
      hide ActiveRefresh;
    } else {
      hide Next;
      OthersGainNothing(p, s, a);
    }
  }

  /** The sessions opened by the first `n` calls, in order. */
  ghost function Sessions(p: Primitives, states: seq<AuthState>, actions: seq<Action>, n: nat): seq<Id>
    requires n <= |actions| <= |states|
  {
    if n == 0 then [] else Sessions(p, states, actions, n - 1) + OpenedBy(p, states[n - 1], actions[n - 1])
  }

  /** One chain for each of the sessions, in order, begun by its row. */
  ghost predicate BegunBy(cs: seq<seq<Id>>, ids: seq<Id>) {
    |cs| == |ids| && forall k | 0 <= k < |cs| :: cs[k] != [] && cs[k][0] == ids[k]
  }

  lemma BegunByMore(cs: seq<seq<Id>>, ids: seq<Id>, more: seq<Id>, old_: Id, new_: Id)
    requires BegunBy(cs, ids)
    ensures BegunBy(cs + Singletons(more), ids + more)
    ensures BegunBy(Lengthened(cs, old_, new_), ids + [])
  {
  }

  /** The chains are the sessions: one for each successful login or acceptance, in order, begun by its row. */
  lemma {:induction false} ChainsAreSessions(p: Primitives, states: seq<AuthState>, actions: seq<Action>, n: nat)
    requires Lawful(p) && IsRun(p, states, actions) && n < |states|
    ensures BegunBy(Chains(states[n].log), Sessions(p, states, actions, n))
  {
    hide KeysOk, Next, Lawful, Started, Inv, Enabled, ChainsOk, BegunBy, Chains, Lengthened, Answer, ActiveRefresh;
    if n == 0 {
      StartHasNoSessions(p, states[0]);
      NothingBegun();
    } else {
      var s, a := states[n - 1], actions[n - 1];
      ChainsAreSessions(p, states, actions, n - 1);
      RunsKeepInv(p, states, actions, n - 1);
      KeysOfInv(p, s);
      NextChains(p, s, a);
      var spent := if a.DoRefresh? && ActiveRefresh(p, s, a.token, a.now).Ok?
                   then ActiveRefresh(p, s, a.token, a.now).value else 0;
      BegunByMore(Chains(s.log), Sessions(p, states, actions, n - 1), OpenedBy(p, s, a), spent,
                  if a.DoRefresh? then a.refreshId else 0);
    }
  }

  lemma NothingBegun()
    ensures BegunBy(Chains([]), [])
  {
  }

  /** In every run, a refresh that succeeds puts its new row behind the end of exactly one chain. */
  lemma RefreshLengthensOneChain(p: Primitives, states: seq<AuthState>, actions: seq<Action>, n: nat,
                                 token: string, refreshId: Id, jti: string, now: Instant) returns (k: nat)
    requires Lawful(p) && IsRun(p, states, actions) && n < |states|
    requires RefreshSession(p, states[n], token, refreshId, jti, now).1.Ok?
    ensures ActiveRefresh(p, states[n], token, now).Ok?
    ensures var cs := Chains(states[n].log);
      && k < |cs| && cs[k] != [] && cs[k][|cs[k]| - 1] == ActiveRefresh(p, states[n], token, now).value
      && Chains(RefreshSession(p, states[n], token, refreshId, jti, now).0.log) == cs[k := cs[k] + [refreshId]]
  {
    RunsKeepChains(p, states, actions, n);
    k := RefreshInState(p, states[n], token, refreshId, jti, now);
  }

  lemma RefreshInState(p: Primitives, s: AuthState, token: string, refreshId: Id, jti: string, now: Instant)
    returns (k: nat)
    requires ChainsOk(Chains(s.log), s.refresh)
    requires RefreshSession(p, s, token, refreshId, jti, now).1.Ok?
    ensures ActiveRefresh(p, s, token, now).Ok?
    ensures var cs := Chains(s.log);
      && k < |cs| && cs[k] != [] && cs[k][|cs[k]| - 1] == ActiveRefresh(p, s, token, now).value
      && Chains(RefreshSession(p, s, token, refreshId, jti, now).0.log) == cs[k := cs[k] + [refreshId]]
  {
    hide ActiveRefresh, Sign, SignBoth, LinksOk, Covers, Apart, Chains, Lengthened;
    RefreshAddsLink(p, s, token, refreshId, jti, now);
    var id := ActiveRefresh(p, s, token, now).value;
    k := EndOfChain(Chains(s.log), s.refresh, id);
    RotatedShape(Chains(s.log), id, refreshId, k);
  }

  // ---------- spent tokens ----------

  lemma KeyByIdKept(s: seq<KeyRow>, t: seq<KeyRow>, id: Id)
    requires KeysExtend(s, t) && UniqueKeyIds(t) && KeyById(s, id).Some?
    ensures KeyById(t, id).Some? && KeyById(t, id).value.material == KeyById(s, id).value.material
    ensures HasJwkMetadata(KeyById(s, id).value) ==> HasJwkMetadata(KeyById(t, id).value)
  {
    var k := KeyById(s, id).value;
    var i :| 0 <= i < |s| && s[i] == k;
    assert t[i].id == id;
    var k' := KeyById(t, id).value;
    var j :| 0 <= j < |t| && t[j] == k';
  }

  /** What a token says does not change from one state to a later one. */
  lemma OpenTokenKept(p: Primitives, s: AuthState, t: AuthState, token: string)
    requires Extends(s, t) && UniqueKeyIds(t.keys) && OpenToken(p, s, token).Ok?
    ensures OpenToken(p, t, token) == OpenToken(p, s, token)
  {
    KeyByIdKept(s.keys, t.keys, p.parseId(p.decodeHeader(token).value.kid.value).value);
  }

  /** Once the row behind an accepted token is revoked, the token is refused for good. */
  lemma RevokedIsRefused(p: Primitives, s: AuthState, t: AuthState, token: string, now: Instant, later: Instant)
    requires Extends(s, t) && UniqueKeyIds(t.keys)
    requires ActiveRefresh(p, s, token, now).Ok?
    requires t.refresh[ActiveRefresh(p, s, token, now).value].revokedAt.Some?
    ensures ActiveRefresh(p, t, token, later) == Err(Unauthorized)
  {
    OpenTokenKept(p, s, t, token);
  }

  /** The call spends the token: it refreshes with it, or logs out with it, and succeeds. */
  ghost predicate Spends(p: Primitives, s: AuthState, a: Action, token: string) {
    match a
    case DoRefresh(token', refreshId, jti, now) =>
      token' == token && RefreshSession(p, s, token, refreshId, jti, now).1.Ok?
    case DoLogout(token', now) => token' == token && Logout(p, s, token, now).1.Ok?
    case _ => false
  }

  /** A token spent at one point of a run is refused everywhere after it, and the refusal changes nothing. */
  lemma SpentTokenIsRefused(p: Primitives, states: seq<AuthState>, actions: seq<Action>, i: nat, j: nat, token: string,
                            later: Instant, refreshId: Id, jti: string)
    requires Lawful(p) && IsRun(p, states, actions) && i < j < |states|
    requires Spends(p, states[i], actions[i], token)
    ensures RefreshSession(p, states[j], token, refreshId, jti, later) == (states[j], Err(Unauthorized))
    ensures Logout(p, states[j], token, later) == (states[j], Err(Unauthorized))
  {
    hide Lawful, Started, ActiveRefresh, SignBoth, Sign, Inv;
    var s, t, now := states[i], states[j], actions[i].now;
    RunExtends(p, states, actions, i, j);
    RunExtends(p, states, actions, i + 1, j);
    RunsKeepInv(p, states, actions, j);
    var id := ActiveRefresh(p, s, token, now).value;
    assert states[i + 1].refresh[id].revokedAt.Some?;
    KeysOfInv(p, t);
    RevokedIsRefused(p, s, t, token, now, later);
  }

  lemma KeysOfInv(p: Primitives, s: AuthState)
    requires Inv(p, s)
    ensures KeysOk(p, s) && UniqueKeyIds(s.keys)
  {
  }

  // ---------- counting open sessions ----------

  ghost function Unrevoked(refresh: map<Id, RefreshRow>, user: Id): set<Id> {
    set id | id in refresh && refresh[id].userId == user && refresh[id].revokedAt.None?
  }

  lemma UnrevokedAfterOpen(refresh: map<Id, RefreshRow>, id: Id, row: RefreshRow, user: Id)
    requires id !in refresh && row.revokedAt.None?
    ensures |Unrevoked(refresh[id := row], user)| == |Unrevoked(refresh, user)| + if row.userId == user then 1 else 0
  {
    var added := if row.userId == user then {id} else {};
    assert Unrevoked(refresh[id := row], user) == Unrevoked(refresh, user) + added;
  }

  lemma UnrevokedAfterRevoke(refresh: map<Id, RefreshRow>, id: Id, now: Instant, user: Id)
    requires id in refresh && refresh[id].revokedAt.None?
    ensures |Unrevoked(refresh[id := refresh[id].(revokedAt := Some(now))], user)|
         == |Unrevoked(refresh, user)| - if refresh[id].userId == user then 1 else 0
  {
    var lost := if refresh[id].userId == user then {id} else {};
    assert Unrevoked(refresh[id := refresh[id].(revokedAt := Some(now))], user) == Unrevoked(refresh, user) - lost;
    assert lost <= Unrevoked(refresh, user);
  }

  lemma SigningWorks(p: Primitives, s: AuthState, payload: Payload)
    requires KeysOk(p, s)
    ensures Sign(p, s, payload).Ok?
  {
    var i :| OnlyActive(s.keys, i);
    assert s.keys[i].isActive;
  }

  /** What the answers say: one more for a login or an acceptance, one less for a logout. */
  ghost function Gain(p: Primitives, s: AuthState, a: Action, user: Id): int {
    match a
    case DoLogin(email, password, refreshId, jti, now) =>
      (match Login(p, s, email, password, refreshId, jti, now).1
       case Ok(out) => if out.user.id == user then 1 else 0
       case Err(_) => 0)
    case DoAccept(token, password, salt, refreshId, jti, now) =>
      (match AcceptInvite(p, s, token, password, salt, refreshId, jti, now).1
       case Ok(out) => if out.user.id == user then 1 else 0
       case Err(_) => 0)
    case DoLogout(token, now) =>
      (match ActiveRefresh(p, s, token, now)
       case Ok(id) => if s.refresh[id].userId == user then -1 else 0
       case Err(_) => 0)
    case _ => 0
  }

  lemma SessionGain(p: Primitives, s: AuthState, user: User, refreshId: Id, jti: string, now: Instant, u: Id)
    requires KeysOk(p, s) && refreshId !in s.refresh
    ensures var (t, r) := OpenSession(p, s, user, refreshId, jti, now);
      && r.Ok? && r.value.user == user
      && |Unrevoked(t.refresh, u)| == |Unrevoked(s.refresh, u)| + if user.id == u then 1 else 0
  {
    hide Unrevoked, KeysOk;
    var row := RefreshRow(user.id, now, After(now, s.config.refreshTtlSeconds), None);
    UnrevokedAfterOpen(s.refresh, refreshId, row, u);
    var t := OpenSession(p, s, user, refreshId, jti, now).0;
    SigningWorks(p, s, RefreshPayload(RefreshClaimsFor(p, s, refreshId, user.id, now)));
    assert KeysOk(p, t) by { SameKeysOk(p, s, t); }
    SigningWorks(p, t, AccessPayload(AccessClaimsFor(p, t, user, refreshId, jti, now)));
  }

  lemma SameKeysOk(p: Primitives, s: AuthState, t: AuthState)
    requires KeysOk(p, s) && t.keys == s.keys && t.config == s.config
    ensures KeysOk(p, t)
  {
  }

  lemma LoginGain(p: Primitives, s: AuthState, email: string, password: string, refreshId: Id, jti: string,
                  now: Instant, u: Id)
    requires KeysOk(p, s) && refreshId !in s.refresh
    ensures var a := DoLogin(email, password, refreshId, jti, now);
      |Unrevoked(Next(p, s, a).refresh, u)| == |Unrevoked(s.refresh, u)| + Gain(p, s, a, u)
  {
    hide Unrevoked, KeysOk, OpenSession;
    var found := UserByEmail(s.users, email);
    if found.Some? {
      SessionGain(p, s, Person(s, found.value), refreshId, jti, now, u);
    }
  }

  lemma AcceptGain(p: Primitives, s: AuthState, token: string, password: string, salt: string, refreshId: Id,
                   jti: string, now: Instant, u: Id)
    requires KeysOk(p, s) && refreshId !in s.refresh
    ensures var a := DoAccept(token, password, salt, refreshId, jti, now);
      |Unrevoked(Next(p, s, a).refresh, u)| == |Unrevoked(s.refresh, u)| + Gain(p, s, a, u)
  {
    hide Unrevoked, KeysOk, OpenSession;
    var (s1, begun) := SetInvitedPassword(p, s, token, password, salt, now);
    if begun.Ok? {
      var invites := s1.invites[begun.value := s1.invites[begun.value].(acceptedAt := Some(now))];
      var s2 := s1.(invites := invites);
      SameKeysOk(p, s, s2);
      SessionGain(p, s2, Person(s2, s1.invites[begun.value].userId), refreshId, jti, now, u);
    }
  }

  lemma RefreshGain(p: Primitives, s: AuthState, token: string, refreshId: Id, jti: string, now: Instant, u: Id)
    requires refreshId !in s.refresh
    ensures |Unrevoked(RefreshSession(p, s, token, refreshId, jti, now).0.refresh, u)| == |Unrevoked(s.refresh, u)|
  {
    hide Unrevoked, Sign, SignBoth, VerifyRefresh;
    var t := RefreshSession(p, s, token, refreshId, jti, now).0;
    if t != s {
      var id := ActiveRefresh(p, s, token, now).value;
      var row := RefreshRow(s.refresh[id].userId, now, After(now, s.config.refreshTtlSeconds), None);
      UnrevokedAfterOpen(s.refresh, refreshId, row, u);
      UnrevokedAfterRevoke(s.refresh[refreshId := row], id, now, u);
    }
  }

  lemma LogoutGain(p: Primitives, s: AuthState, token: string, now: Instant, u: Id)
    ensures var a := DoLogout(token, now);
      |Unrevoked(Next(p, s, a).refresh, u)| == |Unrevoked(s.refresh, u)| + Gain(p, s, a, u)
  {
    hide Unrevoked, VerifyRefresh;
    var r := ActiveRefresh(p, s, token, now);
    if r.Ok? {
      UnrevokedAfterRevoke(s.refresh, r.value, now, u);
    }
  }

  lemma InvitationsGainNothing(p: Primitives, s: AuthState, a: Action)
    requires Enabled(p, s, a)
    requires a.DoBootstrap? || a.DoInvite? || a.DoAcceptInterrupted?
    ensures Next(p, s, a).refresh == s.refresh && Next(p, s, a).log == s.log
  {
    hide SyncKeys, Person, UserByEmail, InviteByHash;
  }

  ghost predicate SameSessions(s: AuthState, t: AuthState) {
    t.refresh == s.refresh && t.log == s.log
  }

  lemma AdministrationLeavesSessions(s: AuthState, id: Id, role: Role)
    ensures SameSessions(s, DisableUser(s, id).0)
    ensures SameSessions(s, ReactivateUser(s, id).0)
    ensures SameSessions(s, ChangeUserRole(s, id, role).0)
  {
    if id in s.users {
      hide ActiveAdmins, Person, SameSessions, WithStatus, WithRole;
      UserUpdateLeavesSessions(s, id, Disabled, role);
      UserUpdateLeavesSessions(s, id, Active, role);
    }
  }

  lemma UserUpdateLeavesSessions(s: AuthState, id: Id, status: UserStatus, role: Role)
    requires id in s.users
    ensures SameSessions(s, WithStatus(s, id, status)) && SameSessions(s, WithRole(s, id, role))
    ensures SameSessions(s, s)
  {
  }

  lemma AdministrationGainsNothing(p: Primitives, s: AuthState, a: Action)
    requires Enabled(p, s, a)
    requires a.DoDisable? || a.DoReactivate? || a.DoChangeRole? || a.DoTenant?
    ensures Next(p, s, a).refresh == s.refresh && Next(p, s, a).log == s.log
  {
    hide DisableUser, ReactivateUser, ChangeUserRole, Bootstrap, Login, InviteUser, AcceptInvite, SetInvitedPassword,
      RefreshSession, Logout, AuthenticateBearer, CreateApiToken, RevokeApiToken;
    match a {
      case DoDisable(id) => AdministrationLeavesSessions(s, id, Viewer);
      case DoReactivate(id) => AdministrationLeavesSessions(s, id, Viewer);
      case DoChangeRole(id, role) => AdministrationLeavesSessions(s, id, role);
      case DoTenant(_, _) =>
    }
  }

  lemma BearersGainNothing(p: Primitives, s: AuthState, a: Action)
    requires Enabled(p, s, a)
    requires a.DoAuthenticate? || a.DoCreateApiToken? || a.DoRevokeApiToken?
    ensures Next(p, s, a).refresh == s.refresh && Next(p, s, a).log == s.log
  {
    hide VerifyAccess, Person, ApiTokenByHash;
  }

  lemma OthersGainNothing(p: Primitives, s: AuthState, a: Action)
    requires Enabled(p, s, a)
    requires !a.DoLogin? && !a.DoAccept? && !a.DoRefresh? && !a.DoLogout?
    ensures Next(p, s, a).refresh == s.refresh && Next(p, s, a).log == s.log
  {
    hide Next;
    if a.DoBootstrap? || a.DoInvite? || a.DoAcceptInterrupted? {
      InvitationsGainNothing(p, s, a);
    } else if a.DoAuthenticate? || a.DoCreateApiToken? || a.DoRevokeApiToken? {
      BearersGainNothing(p, s, a);
    } else {
      AdministrationGainsNothing(p, s, a);
    }
  }

  lemma NextGain(p: Primitives, s: AuthState, a: Action, u: Id)
    requires KeysOk(p, s) && Enabled(p, s, a)
    ensures |Unrevoked(Next(p, s, a).refresh, u)| == |Unrevoked(s.refresh, u)| + Gain(p, s, a, u)
  {
    hide Unrevoked, KeysOk, Login, AcceptInvite, RefreshSession, Logout;
    match a {
      case DoLogin(email, password, refreshId, jti, now) => LoginGain(p, s, email, password, refreshId, jti, now, u);
      case DoAccept(token, password, salt, refreshId, jti, now) =>
        AcceptGain(p, s, token, password, salt, refreshId, jti, now, u);
      case DoRefresh(token, refreshId, jti, now) => RefreshGain(p, s, token, refreshId, jti, now, u);
      case DoLogout(token, now) => LogoutGain(p, s, token, now, u);
      case _ => OthersGainNothing(p, s, a);
    }
  }

  ghost function TotalGain(p: Primitives, states: seq<AuthState>, actions: seq<Action>, n: nat, user: Id): int
    requires n <= |actions| <= |states|
  {
    if n == 0 then 0 else TotalGain(p, states, actions, n - 1, user) + Gain(p, states[n - 1], actions[n - 1], user)
  }

  /** A user's open sessions are the successful logins and acceptances less the successful logouts. */
  lemma {:induction false} SessionsAreConserved(p: Primitives, states: seq<AuthState>, actions: seq<Action>, n: nat,
                                                user: Id)
    requires Lawful(p) && IsRun(p, states, actions) && n < |states|
    ensures |Unrevoked(states[n].refresh, user)| == TotalGain(p, states, actions, n, user)
  {
    hide KeysOk, Next, Gain, Lawful, Started, Inv, Enabled, ChainsOk;
    if n == 0 {
      StartHasNoSessions(p, states[0]);
    } else {
      hide Unrevoked;
      SessionsAreConserved(p, states, actions, n - 1, user);
      RunsKeepInv(p, states, actions, n - 1);
      KeysOfInv(p, states[n - 1]);
      NextGain(p, states[n - 1], actions[n - 1], user);
    }
  }
}
