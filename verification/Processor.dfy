/**
 The queue processor of queue/processor.go: how the live pollers follow the tokens it receives, and what
 that means for the life of every poller it ever makes.
 */
module Processor {
  import opened Options
  import opened SqsProvider
  import P = Poller

  const REFRESH_PERIOD_IN_SEC: int := 60

  // ----- what a token asks for -----

  /** A token list with what NewSqsProvider and RefreshClient would answer for each entry. */
  datatype Token = Token(list: seq<Properties>, addOk: seq<bool>, refreshOk: seq<bool>) {
    predicate Valid() { |addOk| == |list| && |refreshOk| == |list| }
  }

  predicate Lists(t: Token, n: nat, u: string)
    requires n <= |t.list|
  {
    exists i :: 0 <= i < n && t.list[i].Url() == u
  }

  /** Some entry for u among the first n could be turned into a poller. */
  predicate SomeAdd(t: Token, n: nat, u: string)
    requires t.Valid() && n <= |t.list|
  {
    exists i :: 0 <= i < n && t.list[i].Url() == u && t.addOk[i]
  }

  /** An entry that brings credentials, for a client that accepts them. */
  predicate Refreshes(t: Token, i: nat, u: string)
    requires t.Valid() && i < |t.list|
  {
    t.list[i].Url() == u && t.list[i].assumeRoleResult != NO_ROLE && t.refreshOk[i]
  }

  /** What entry i makes of the role of the poller for u, None standing for no poller. */
  function RoleStep(t: Token, i: nat, u: string, role: Option<AssumeRoleResult>): Option<AssumeRoleResult>
    requires t.Valid() && i < |t.list|
  {
    var entry := t.list[i];
    if entry.Url() != u then role
    else if role.Some? then (if Refreshes(t, i, u) then Some(entry.assumeRoleResult) else role)
    else if t.addOk[i] then Some(entry.assumeRoleResult)
    else None
  }

  /**
   The role of the poller for u after the first n entries, None while there is no such poller; before is
   what it was, or None, when the refresh began.
   */
  function RoleAfter(t: Token, n: nat, u: string, before: Option<AssumeRoleResult>): Option<AssumeRoleResult>
    requires t.Valid() && n <= |t.list|
  {
    if n == 0 then before else RoleStep(t, n - 1, u, RoleAfter(t, n - 1, u, before))
  }

  /** There is a poller afterwards exactly if there was one or some entry for it could be added. */
  lemma {:induction false} PollerExistsWhen(t: Token, n: nat, u: string, before: Option<AssumeRoleResult>)
    requires t.Valid() && n <= |t.list|
    ensures RoleAfter(t, n, u, before).Some? <==> before.Some? || SomeAdd(t, n, u)
    ensures RoleAfter(t, n, u, before).Some? <==> before.Some? || exists i :: 0 <= i < n && t.list[i].configuration.url == u && t.addOk[i]
  {
    if n > 0 {
      PollerExistsWhen(t, n - 1, u, before);
      if SomeAdd(t, n - 1, u) {
        var i :| 0 <= i < n - 1 && t.list[i].Url() == u && t.addOk[i];
        assert SomeAdd(t, n, u);
      }
      if t.list[n - 1].Url() == u && t.addOk[n - 1] {
        assert SomeAdd(t, n, u);
      }
    }
  }

  /** A kept poller has the role of the last entry that refreshed it, or keeps its own. */
  lemma {:induction false} KeptRoleIsLastRefresh(t: Token, n: nat, u: string, before: AssumeRoleResult, last: nat)
    requires t.Valid() && n <= |t.list|
    requires last <= n && (last > 0 ==> Refreshes(t, last - 1, u))
    requires forall i :: last <= i < n ==> !Refreshes(t, i, u)
    ensures last > 0 ==> t.list[last - 1].configuration.url == u && t.refreshOk[last - 1]
                         && t.list[last - 1].assumeRoleResult != AssumeRoleResult("", "", "", 0, "", "")
    ensures forall i :: last <= i < n && t.list[i].configuration.url == u ==>
              !t.refreshOk[i] || t.list[i].assumeRoleResult == AssumeRoleResult("", "", "", 0, "", "")
    ensures RoleAfter(t, n, u, Some(before)) == Some(if last > 0 then t.list[last - 1].assumeRoleResult else before)
  {
    forall i | last <= i < n && t.list[i].configuration.url == u
      ensures !t.refreshOk[i] || t.list[i].assumeRoleResult == AssumeRoleResult("", "", "", 0, "", "")
    {
      assert !Refreshes(t, i, u);
    }
    if n > 0 {
      if last == n {
        PollerExistsWhen(t, n - 1, u, Some(before));
      } else {
        KeptRoleIsLastRefresh(t, n - 1, u, before, last);
      }
    }
  }

  /** A new poller starts with the role of the entry that made it and then follows the later entries like a kept one. */
  lemma {:induction false} NewRoleStartsAtFirstAdd(t: Token, n: nat, u: string, first: nat, last: nat)
    requires t.Valid() && first < n <= |t.list|
    requires t.list[first].Url() == u && t.addOk[first] && !SomeAdd(t, first, u)
    requires first + 1 <= last <= n && (last > first + 1 ==> Refreshes(t, last - 1, u))
    requires forall i :: last <= i < n ==> !Refreshes(t, i, u)
    ensures RoleAfter(t, n, u, None) == Some(t.list[last - 1].assumeRoleResult)
    decreases n
  {
    PollerExistsWhen(t, first, u, None);
    if n > first + 1 {
      if last == n {
        assert SomeAdd(t, n - 1, u);
        PollerExistsWhen(t, n - 1, u, None);
      } else {
        NewRoleStartsAtFirstAdd(t, n - 1, u, first, last);
      }
    }
  }

  /** The urls that have a poller once a token has been applied. */
  predicate KeptOrAdded(t: Token, known: set<string>, u: string)
    requires t.Valid()
  {
    if u in known then Lists(t, |t.list|, u) else SomeAdd(t, |t.list|, u)
  }

  /** One past the last of the first n entries that refreshes u, or 0. */
  function LastRefresh(t: Token, n: nat, u: string): (last: nat)
    requires t.Valid() && n <= |t.list|
    ensures last <= n && (last > 0 ==> Refreshes(t, last - 1, u))
    ensures forall i :: last <= i < n ==> !Refreshes(t, i, u)
  {
    if n == 0 then 0 else if Refreshes(t, n - 1, u) then n else LastRefresh(t, n - 1, u)
  }

  function FirstListed(t: Token, u: string): (first: nat)
    requires Lists(t, |t.list|, u)
    ensures first < |t.list| && t.list[first].Url() == u && !Lists(t, first, u)
  {
    FirstListedFrom(t, u, 0)
  }

  function FirstListedFrom(t: Token, u: string, from: nat): (first: nat)
    requires Lists(t, |t.list|, u) && from <= |t.list| && !Lists(t, from, u)
    ensures first < |t.list| && t.list[first].Url() == u && !Lists(t, first, u)
    decreases |t.list| - from
  {
    if t.list[from].Url() == u then from else FirstListedFrom(t, u, from + 1)
  }

  /** The same token with the same answers again changes no role, if every add succeeded. */
  lemma RolesSettle(t: Token, u: string, before: Option<AssumeRoleResult>)
    requires t.Valid() && forall i :: 0 <= i < |t.list| ==> t.addOk[i]
    ensures var once := RoleAfter(t, |t.list|, u, before); RoleAfter(t, |t.list|, u, once) == once
  {
    var n := |t.list|;
    var once := RoleAfter(t, n, u, before);
    PollerExistsWhen(t, n, u, before);
    var last := LastRefresh(t, n, u);
    if before.Some? {
      KeptRoleIsLastRefresh(t, n, u, before.value, last);
      KeptRoleIsLastRefresh(t, n, u, once.value, last);
    } else if Lists(t, n, u) {
      var first := FirstListed(t, u);
      assert t.list[first].Url() == u && t.addOk[first];
      assert SomeAdd(t, n, u);
      NewRoleStartsAtFirstAdd(t, n, u, first, if last > first + 1 then last else first + 1);
      KeptRoleIsLastRefresh(t, n, u, once.value, last);
    }
  }

  /**
   Applying a list again, with whatever answers, leaves the set of pollers as it is exactly if nothing can be
   added that is not there already; so it certainly does when no add has failed.
   */
  lemma SameListAgain(t: Token, again: Token, known: set<string>, result: set<string>)
    requires t.Valid() && again.Valid() && again.list == t.list
    requires forall u :: u in result <==> KeptOrAdded(t, known, u)
    ensures (forall u :: u in result <==> KeptOrAdded(again, result, u)) <==> (forall u :: SomeAdd(again, |again.list|, u) ==> u in result)
    ensures (forall i :: 0 <= i < |t.list| ==> t.addOk[i]) ==> forall u :: u in result <==> KeptOrAdded(again, result, u)
  {
    ListedIfAdded(t);
    ListedIfAdded(again);
    assert forall u :: Lists(again, |again.list|, u) <==> Lists(t, |t.list|, u);
    if forall i :: 0 <= i < |t.list| ==> t.addOk[i] {
      forall u | Lists(t, |t.list|, u)
        ensures u in result
      {
        var i :| 0 <= i < |t.list| && t.list[i].Url() == u;
        assert t.list[i].Url() == u && t.addOk[i];
        assert SomeAdd(t, |t.list|, u);
      }
    }
  }

  function RoleIn(roles: map<string, AssumeRoleResult>, u: string): Option<AssumeRoleResult> {
    if u in roles then Some(roles[u]) else None
  }

  // ----- what a refresh does to the pollers -----

  /** The pollers by url, and every poller ever made. */
  datatype View = View(pollers: map<string, P.Poller>, created: set<P.Poller>)

  /** Every poller made between v and w is in the map of w, under a new url; the others are as they were. */
  ghost predicate OnlyAdded(v: View, w: View) {
    && v.created <= w.created
    && (forall u :: u in v.pollers ==> u in w.pollers && w.pollers[u] == v.pollers[u])
    && (forall u :: u in w.pollers && u !in v.pollers ==> w.pollers[u] !in v.created)
    && (forall p :: p in w.created && p !in v.created ==> exists u :: u in w.pollers && w.pollers[u] == p)
  }

  lemma OnlyAddedMore(v: View, w: View, x: View)
    requires OnlyAdded(v, w) && OnlyAdded(w, x)
    ensures OnlyAdded(v, x)
  {
    forall p | p in x.created && p !in v.created
      ensures exists u :: u in x.pollers && x.pollers[u] == p
    {
      if p in w.created {
        var u :| u in w.pollers && w.pollers[u] == p;
        assert x.pollers[u] == p;
      }
    }
  }

  /** The roles are those that the first n entries lead to. */
  ghost predicate Follows(t: Token, n: nat, before: map<string, AssumeRoleResult>, after: map<string, AssumeRoleResult>)
    requires t.Valid() && n <= |t.list|
  {
    forall u :: RoleIn(after, u) == RoleAfter(t, n, u, RoleIn(before, u))
  }

  lemma FollowsNext(t: Token, i: nat, a: map<string, AssumeRoleResult>, b: map<string, AssumeRoleResult>, c: map<string, AssumeRoleResult>)
    requires t.Valid() && i < |t.list| && Follows(t, i, a, b)
    requires forall u :: RoleIn(c, u) == RoleStep(t, i, u, RoleIn(b, u))
    ensures Follows(t, i + 1, a, c)
  {
  }

  /** b is a with this value for the key. */
  ghost predicate With<V>(a: map<string, V>, key: string, value: V, b: map<string, V>) {
    && (forall u :: u in b <==> u in a || u == key)
    && (forall u :: u in b ==> b[u] == if u == key then value else a[u])
  }

  /** b is a without the keys in gone, but for those that are left. */
  ghost predicate Without<V>(a: map<string, V>, gone: set<string>, left: set<string>, b: map<string, V>) {
    && (forall u :: u in b <==> u in a && (u in gone ==> u in left))
    && (forall u :: u in b ==> b[u] == a[u])
  }

  /** There is a poller afterwards for the urls that had one and for those that some entry could add. */
  lemma FollowedKeys(t: Token, a: map<string, AssumeRoleResult>, b: map<string, AssumeRoleResult>)
    requires t.Valid() && Follows(t, |t.list|, a, b)
    ensures forall u :: u in b <==> u in a || SomeAdd(t, |t.list|, u)
  {
    forall u
      ensures u in b <==> u in a || SomeAdd(t, |t.list|, u)
    {
      PollerExistsWhen(t, |t.list|, u, RoleIn(a, u));
      assert u in b <==> RoleIn(b, u).Some?;
    }
  }

  /**
   What a refresh achieves. There is a poller exactly for the known urls the token lists and the new ones that
   could be added; the known ones are the same objects, the new ones have been made for this, and no other has.
   */
  ghost predicate Refreshed(t: Token, v: View, w: View)
    requires t.Valid()
  {
    && v.created <= w.created
    && (forall u :: u in w.pollers <==> KeptOrAdded(t, v.pollers.Keys, u))
    && (forall u :: u in w.pollers && u in v.pollers ==> w.pollers[u] == v.pollers[u])
    && (forall u :: u in w.pollers && u !in v.pollers ==> w.pollers[u] !in v.created)
    && (forall p :: p in w.created && p !in v.created ==> exists u :: u in w.pollers && w.pollers[u] == p)
  }

  /** Refreshed, on the entries themselves. */
  lemma RefreshedUrls(t: Token, v: View, w: View, u: string)
    requires t.Valid() && Refreshed(t, v, w)
    ensures u in w.pollers <==>
              if u in v.pollers then exists i :: 0 <= i < |t.list| && t.list[i].configuration.url == u
              else exists i :: 0 <= i < |t.list| && t.list[i].configuration.url == u && t.addOk[i]
  {
  }

  // ----- what a tick does -----

  /** A processor between two ticks. */
  datatype Snapshot = Snapshot(view: View, roles: map<string, AssumeRoleResult>, success: int, error: int)

  /** A tick that brings a token refreshes by it and takes over its periods, if it has any; another changes nothing. */
  ghost predicate Ticked(tick: Option<Token>, before: Snapshot, after: Snapshot)
    requires tick.Some? ==> tick.value.Valid()
  {
    match tick
    case None => after == before
    case Some(t) =>
      && Refreshed(t, before.view, after.view)
      && (forall u :: u in after.view.pollers ==> RoleIn(after.roles, u) == RoleAfter(t, |t.list|, u, RoleIn(before.roles, u)))
      && after.success == (if |t.list| > 0 then t.list[0].configuration.successRefreshPeriod else before.success)
      && after.error == (if |t.list| > 0 then t.list[0].configuration.errorRefreshPeriod else before.error)
  }

  ghost predicate TickedAt(ticks: seq<Option<Token>>, history: seq<Snapshot>, i: nat)
    requires i < |ticks| && i + 1 < |history| && (ticks[i].Some? ==> ticks[i].value.Valid())
  {
    Ticked(ticks[i], history[i], history[i + 1])
  }

  /** First the entries are applied, and then the known urls dropped that the token does not list. */
  lemma AddedAndDropped(t: Token, v: View, w: View, dropped: set<string>, x: View)
    requires t.Valid() && OnlyAdded(v, w) && x.created == w.created
    requires forall u :: u in w.pollers <==> u in v.pollers || SomeAdd(t, |t.list|, u)
    requires forall u :: u in dropped <==> u in v.pollers && !Lists(t, |t.list|, u)
    requires forall u :: u in v.pollers ==> v.pollers[u] in v.created
    requires forall u :: u in x.pollers <==> u in w.pollers && u !in dropped
    requires forall u :: u in x.pollers ==> x.pollers[u] == w.pollers[u]
    ensures Refreshed(t, v, x)
  {
    ListedIfAdded(t);
    forall p | p in x.created && p !in v.created
      ensures exists u :: u in x.pollers && x.pollers[u] == p
    {
      var u :| u in w.pollers && w.pollers[u] == p;
      assert x.pollers[u] == p;
    }
  }

  /** A refresh makes, starts and stops nothing exactly if every known url is listed and nothing can be added that is not known. */
  lemma RefreshIsIdleExactlyWhen(t: Token, v: View, w: View)
    requires t.Valid() && Refreshed(t, v, w) && forall u :: u in v.pollers ==> v.pollers[u] in v.created
    ensures w == v <==> (forall u :: u in v.pollers ==> Lists(t, |t.list|, u)) && (forall u :: SomeAdd(t, |t.list|, u) ==> u in v.pollers)
  {
    if (forall u :: u in v.pollers ==> Lists(t, |t.list|, u)) && (forall u :: SomeAdd(t, |t.list|, u) ==> u in v.pollers) {
      assert forall u :: u in w.pollers <==> u in v.pollers;
      assert w.pollers == v.pollers;
      assert w.created == v.created;
    }
    if w == v {
      assert forall u :: u in v.pollers <==> KeptOrAdded(t, v.pollers.Keys, u);
    }
  }

  /**
   Refreshed a second time with the same list, whatever the answers are then: nothing is made, started or
   stopped exactly if nothing can be added that is not there already.
   */
  lemma SecondRefreshIsIdleExactlyWhen(t: Token, again: Token, v: View, w: View, x: View)
    requires t.Valid() && again.Valid() && again.list == t.list
    requires Refreshed(t, v, w) && Refreshed(again, w, x) && forall u :: u in w.pollers ==> w.pollers[u] in w.created
    ensures x == w <==> forall u :: SomeAdd(again, |again.list|, u) ==> u in w.pollers
    ensures (forall i :: 0 <= i < |t.list| ==> t.addOk[i]) ==> x == w
  {
    SameListAgain(t, again, v.pollers.Keys, w.pollers.Keys);
    RefreshIsIdleExactlyWhen(again, w, x);
    ListedIfAdded(t);
    ListedIfAdded(again);
    assert forall u :: Lists(again, |again.list|, u) <==> Lists(t, |t.list|, u);
  }

  class Processor {
    const conf: P.PollerConf
    var pollers: map<string, P.Poller>
    var successRefreshPeriod: int
    var errorRefreshPeriod: int

    /** Every poller ever made. */
    ghost var created: set<P.Poller>
    ghost var providers: set<SqsProvider>

    /**
     The live pollers are those of the map, each under the url of its own provider; every other poller ever
     made has been started once and stopped once.
     */
    ghost predicate Valid()
      reads this`pollers, this`created, this`providers, created, providers
    {
      && (forall p :: p in created ==> p.queueProvider in providers)
      && (forall u :: u in pollers ==>
            && pollers[u] in created && pollers[u].isRunning
            && pollers[u].queueProvider.queueProperties.Url() == u && pollers[u].queueProvider.Valid())
      && (forall p {:trigger p in created} :: p in created ==>
            && p.Valid() && p.starts == 1 && p.conf == conf
            && (p.isRunning ==> p.queueProvider.queueProperties.Url() in pollers
                                && pollers[p.queueProvider.queueProperties.Url()] == p))
    }

    ghost function Now(): View
      reads this`pollers, this`created
    {
      View(pollers, created)
    }

    ghost function Roles(): map<string, AssumeRoleResult>
      reads this`pollers, this`created, this`providers, created, providers
      requires Valid()
    {
      map u | u in pollers :: pollers[u].queueProvider.queueProperties.assumeRoleResult
    }

    constructor (raw: P.PollerConf)
      ensures Valid() && pollers == map[] && created == {}
      ensures conf == P.Clamp(raw)
      ensures successRefreshPeriod == errorRefreshPeriod == REFRESH_PERIOD_IN_SEC
    {
      conf := P.Clamp(raw);
      successRefreshPeriod, errorRefreshPeriod := REFRESH_PERIOD_IN_SEC, REFRESH_PERIOD_IN_SEC;
      pollers := map[];
      created, providers := {}, {};
    }

    /** What NewSqsProvider, NewPoller and Start make of a token entry. */
    method StartedPoller(properties: Properties) returns (poller: P.Poller)
      ensures fresh(poller) && fresh(poller.queueProvider)
      ensures poller.Valid() && poller.isRunning && poller.starts == 1
      ensures poller.queueProvider.Valid() && poller.queueProvider.queueProperties == properties && poller.conf == conf
    {
      var provider := new SqsProvider(properties);
      poller := new P.Poller(provider, conf);
      var started := poller.Start();
    }

    /** addPoller followed by Start; the map key is what the new provider calls its url. */
    method AddAndStartPoller(properties: Properties, addOk: bool)
      requires Valid() && properties.Url() !in pollers
      modifies this`pollers, this`created, this`providers
      ensures Valid() && created >= old(created) && fresh(created - old(created)) && fresh(providers - old(providers))
      ensures !addOk ==> pollers == old(pollers) && created == old(created) && Roles() == old(Roles())
      ensures addOk ==> properties.Url() in pollers && fresh(pollers[properties.Url()])
      ensures addOk ==> With(old(pollers), properties.Url(), pollers[properties.Url()], pollers)
      ensures addOk ==> created == old(created) + {pollers[properties.Url()]}
      ensures addOk ==> With(old(Roles()), properties.Url(), properties.assumeRoleResult, Roles())
    {
      if !addOk {
        return;
      }
      var poller := StartedPoller(properties);
      Keep(poller);
    }

    /** The new poller goes into the map under the url of its own provider. */
    method Keep(poller: P.Poller)
      requires Valid() && poller !in created && poller.queueProvider !in providers
      requires poller.Valid() && poller.isRunning && poller.starts == 1 && poller.conf == conf && poller.queueProvider.Valid()
      requires poller.queueProvider.queueProperties.Url() !in pollers
      modifies this`pollers, this`created, this`providers
      ensures Valid() && created == old(created) + {poller} && providers == old(providers) + {poller.queueProvider}
      ensures var properties := poller.queueProvider.queueProperties;
              && With(old(pollers), properties.Url(), poller, pollers)
              && With(old(Roles()), properties.Url(), properties.assumeRoleResult, Roles())
    {
      pollers := pollers[poller.queueProvider.queueProperties.Url() := poller];
      created := created + {poller};
      providers := providers + {poller.queueProvider};
    }

    method RefreshPoller(u: string, role: AssumeRoleResult, refreshOk: bool)
      requires Valid() && u in pollers
      modifies pollers[u].queueProvider
      ensures Valid() && Roles() == if refreshOk then old(Roles())[u := role] else old(Roles())
    {
      var ok := pollers[u].queueProvider.RefreshClient(role, refreshOk);
    }

    method RemovePoller(u: string) returns (poller: P.Poller)
      requires u in pollers
      modifies this`pollers
      ensures poller == old(pollers[u]) && pollers == old(pollers) - {u}
    {
      poller := pollers[u];
      pollers := pollers - {u};
    }

    method RemoveAndStopPoller(u: string)
      requires Valid() && u in pollers
      modifies this`pollers, pollers[u]
      ensures Valid() && Without(old(pollers), {u}, {}, pollers) && Without(old(Roles()), {u}, {}, Roles())
      ensures !old(pollers[u]).isRunning && old(pollers[u]).stops == 1
    {
      var poller := RemovePoller(u);
      var stopped := poller.Stop();
    }

    /** One turn of the loop over the token: refresh a known poller, or add and start a new one. */
    method ApplyEntry(t: Token, i: nat)
      requires Valid() && t.Valid() && i < |t.list|
      modifies this`pollers, this`created, this`providers, providers
      ensures Valid() && fresh(created - old(created)) && fresh(providers - old(providers))
      ensures OnlyAdded(old(Now()), Now())
      ensures forall u :: RoleIn(Roles(), u) == RoleStep(t, i, u, RoleIn(old(Roles()), u))
    {
      var entry := t.list[i];
      ghost var roles := Roles();
      if entry.Url() in pollers {
        assert pollers[entry.Url()] in created;
        if entry.assumeRoleResult != NO_ROLE {
          RefreshPoller(entry.Url(), entry.assumeRoleResult, t.refreshOk[i]);
        }
      } else {
        AddAndStartPoller(entry, t.addOk[i]);
      }
      assert forall u :: u != entry.Url() ==> RoleIn(Roles(), u) == RoleIn(roles, u);
    }

    /** The same, seen from the beginning of the loop. */
    method ApplyNextEntry(t: Token, i: nat, ghost v: View, ghost roles: map<string, AssumeRoleResult>)
      requires Valid() && t.Valid() && i < |t.list|
      requires OnlyAdded(v, Now()) && Follows(t, i, roles, Roles())
      modifies this`pollers, this`created, this`providers, providers
      ensures Valid() && fresh(created - old(created)) && fresh(providers - old(providers))
      ensures OnlyAdded(v, Now()) && Follows(t, i + 1, roles, Roles())
    {
      ghost var view, before := Now(), Roles();
      ApplyEntry(t, i);
      OnlyAddedMore(v, view, Now());
      FollowsNext(t, i, roles, before, Roles());
    }

    /** The loop over the token; what it returns are the known urls that the token does not list. */
    method ApplyEntries(t: Token) returns (pollerKeys: set<string>)
      requires Valid() && t.Valid()
      modifies this`pollers, this`created, this`providers, providers
      ensures Valid() && fresh(created - old(created)) && fresh(providers - old(providers))
      ensures OnlyAdded(old(Now()), Now()) && Follows(t, |t.list|, old(Roles()), Roles())
      ensures forall u :: u in pollerKeys <==> u in old(pollers) && !Lists(t, |t.list|, u)
    {
      pollerKeys := pollers.Keys;
      for i := 0 to |t.list|
        invariant Valid() && fresh(created - old(created)) && fresh(providers - old(providers))
        invariant OnlyAdded(old(Now()), Now()) && Follows(t, i, old(Roles()), Roles())
        invariant forall u :: u in pollerKeys <==> u in old(pollers) && !Lists(t, i, u)
      {
        ListsExtend(t, i);
        ApplyNextEntry(t, i, old(Now()), old(Roles()));
        pollerKeys := pollerKeys - {t.list[i].Url()};
      }
    }

    /**
     Each poller has the role the token's entries lead to. Valid says that the pollers dropped have been stopped,
     and Refreshed that no poller has been made but those the map has now.
     */
    method RefreshPollers(t: Token)
      requires Valid() && t.Valid()
      modifies this, created, providers
      ensures Valid() && created >= old(created) && fresh(created - old(created)) && fresh(providers - old(providers))
      ensures Refreshed(t, old(Now()), Now())
      ensures forall p :: p in created && p !in old(created) ==> p.isRunning
      ensures forall u :: u in pollers ==> RoleIn(Roles(), u) == RoleAfter(t, |t.list|, u, RoleIn(old(Roles()), u))
      ensures |t.list| > 0 ==> successRefreshPeriod == t.list[0].configuration.successRefreshPeriod
      ensures |t.list| > 0 ==> errorRefreshPeriod == t.list[0].configuration.errorRefreshPeriod
      ensures |t.list| == 0 ==> successRefreshPeriod == old(successRefreshPeriod) && errorRefreshPeriod == old(errorRefreshPeriod)
    {
      ReconcilePollers(t);
      SetPeriods(t);
    }

    /** The two loops of a refresh. */
    method ReconcilePollers(t: Token)
      requires Valid() && t.Valid()
      modifies this`pollers, this`created, this`providers, created, providers
      ensures Valid() && created >= old(created) && fresh(created - old(created)) && fresh(providers - old(providers))
      ensures Refreshed(t, old(Now()), Now())
      ensures forall p :: p in created && p !in old(created) ==> p.isRunning
      ensures forall u :: u in pollers ==> RoleIn(Roles(), u) == RoleAfter(t, |t.list|, u, RoleIn(old(Roles()), u))
    {
      var pollerKeys := ApplyEntries(t);
      DropPollers(t, pollerKeys, old(Now()), old(Roles()));
    }

    /** The loop over the keys that are left. */
    method DropPollers(t: Token, pollerKeys: set<string>, ghost v: View, ghost roles: map<string, AssumeRoleResult>)
      requires Valid() && t.Valid() && OnlyAdded(v, Now()) && Follows(t, |t.list|, roles, Roles()) && roles.Keys == v.pollers.Keys
      requires forall u :: u in pollerKeys <==> u in v.pollers && !Lists(t, |t.list|, u)
      requires forall u :: u in v.pollers ==> v.pollers[u] in v.created
      modifies this`pollers, v.created
      ensures Valid() && Refreshed(t, v, Now()) && forall p :: p in created && p !in v.created ==> p.isRunning
      ensures forall u :: u in pollers ==> RoleIn(Roles(), u) == RoleAfter(t, |t.list|, u, RoleIn(roles, u))
    {
      ghost var w := Now();
      FollowedKeys(t, roles, Roles());
      StopPollers(pollerKeys, v.created);
      AddedAndDropped(t, v, w, pollerKeys, Now());
    }

    method SetPeriods(t: Token)
      modifies this`successRefreshPeriod, this`errorRefreshPeriod
      ensures |t.list| > 0 ==> successRefreshPeriod == t.list[0].configuration.successRefreshPeriod
      ensures |t.list| > 0 ==> errorRefreshPeriod == t.list[0].configuration.errorRefreshPeriod
      ensures |t.list| == 0 ==> successRefreshPeriod == old(successRefreshPeriod) && errorRefreshPeriod == old(errorRefreshPeriod)
    {
      if |t.list| != 0 {
        successRefreshPeriod := t.list[0].configuration.successRefreshPeriod;
        errorRefreshPeriod := t.list[0].configuration.errorRefreshPeriod;
      }
    }

    /**
     Two refreshes in a row with the same list, whatever the second one's answers: the second makes, starts and
     stops nothing exactly if it can add nothing that is not there, so certainly if no add of the first failed.
     */
    method RefreshTwice(t: Token, again: Token) returns (ghost once: View)
      requires Valid() && t.Valid() && again.Valid() && again.list == t.list
      modifies this, created, providers
      ensures Valid() && Refreshed(t, old(Now()), once)
      ensures Now() == once <==> forall u :: SomeAdd(again, |again.list|, u) ==> u in once.pollers
      ensures (forall i :: 0 <= i < |t.list| ==> t.addOk[i]) ==> Now() == once
    {
      RefreshPollers(t);
      once := Now();
      RefreshPollers(again);
      SecondRefreshIsIdleExactlyWhen(t, again, old(Now()), once, Now());
    }

    /** The order in which a map hands out its keys is not fixed; nothing here depends on it. */
    method StopPollers(urls: set<string>, ghost known: set<P.Poller>)
      requires Valid() && forall u :: u in urls ==> u in pollers && pollers[u] in known
      modifies this`pollers, known
      ensures Valid() && Without(old(pollers), urls, {}, pollers) && Without(old(Roles()), urls, {}, Roles())
    {
      var left := urls;
      while left != {}
        invariant left <= urls && Valid()
        invariant Without(old(pollers), urls, left, pollers) && Without(old(Roles()), urls, left, Roles())
        decreases left
      {
        var u :| u in left;
        StopOneMore(u, urls, left, old(pollers), old(Roles()), known);
        left := left - {u};
      }
    }

    /** One turn of that loop, seen from its beginning. */
    method StopOneMore(u: string, ghost urls: set<string>, ghost left: set<string>,
                       ghost v: map<string, P.Poller>, ghost roles: map<string, AssumeRoleResult>, ghost known: set<P.Poller>)
      requires Valid() && u in v && v[u] in known && u in left && left <= urls
      requires Without(v, urls, left, pollers) && Without(roles, urls, left, Roles())
      modifies this`pollers, known
      ensures Valid() && Without(v, urls, left - {u}, pollers) && Without(roles, urls, left - {u}, Roles())
    {
      assert u in pollers && pollers[u] in known;
      RemoveAndStopPoller(u);
    }

    /** What the run goroutine does on quit: every poller of the map is stopped, and the map is left as it is. */
    method StopAll()
      requires Valid()
      modifies created
      ensures AllDone()
    {
      var left := pollers.Keys;
      while left != {}
        invariant left <= pollers.Keys
        invariant forall u :: u in left ==> pollers[u] in created
        invariant forall p :: p in created ==>
                    && p.Valid() && p.starts == 1
                    && (p.isRunning ==> p.queueProvider.queueProperties.Url() in left
                                        && pollers[p.queueProvider.queueProperties.Url()] == p)
        decreases left
      {
        var u :| u in left;
        var stopped := pollers[u].Stop();
        left := left - {u};
      }
    }

    /** Every poller ever made was started once and stopped once, so no quit or wakeUp was closed twice. */
    ghost predicate AllDone()
      reads this, created
    {
      forall p :: p in created ==> p.Valid() && !p.isRunning && p.starts == 1 && p.stops == 1
    }

    ghost function Snap(): Snapshot
      reads this, created, providers
      requires Valid()
    {
      Snapshot(Now(), Roles(), successRefreshPeriod, errorRefreshPeriod)
    }

    /** One tick: a token that is applied, or None if none could be received; wait is the period to the next tick. */
    method Tick(tick: Option<Token>) returns (wait: int)
      requires Valid() && (tick.Some? ==> tick.value.Valid())
      modifies this, created, providers
      ensures Valid() && created >= old(created) && fresh(created - old(created)) && fresh(providers - old(providers))
      ensures Ticked(tick, old(Snap()), Snap())
      ensures wait == if tick.Some? then successRefreshPeriod else errorRefreshPeriod
    {
      if tick.None? {
        return errorRefreshPeriod;
      }
      RefreshPollers(tick.value);
      return successRefreshPeriod;
    }

    /**
     The life of a processor after its first token: ticks that bring a token or an error, and then quit. Every
     token is applied to what the ticks before it have led to, and quit stops whatever is there then.
     */
    method Run(ticks: seq<Option<Token>>) returns (waits: seq<int>, ghost history: seq<Snapshot>)
      requires Valid() && forall i :: 0 <= i < |ticks| && ticks[i].Some? ==> ticks[i].value.Valid()
      modifies this, created, providers
      ensures |history| == |ticks| + 1 && history[0] == old(Snap())
      ensures forall i :: 0 <= i < |ticks| ==> TickedAt(ticks, history, i)
      ensures Now() == history[|ticks|].view && successRefreshPeriod == history[|ticks|].success && errorRefreshPeriod == history[|ticks|].error
      ensures |waits| == |ticks| + 1 && waits[0] == old(successRefreshPeriod)
      ensures forall i :: 0 <= i < |ticks| ==> waits[i + 1] == if ticks[i].Some? then history[i + 1].success else history[i + 1].error
      ensures created >= old(created) && AllDone()
    {
      history, waits := [Snap()], [successRefreshPeriod];
      for i := 0 to |ticks|
        invariant Valid() && created >= old(created) && fresh(created - old(created)) && fresh(providers - old(providers))
        invariant |history| == i + 1 && history[0] == old(Snap()) && history[i] == Snap()
        invariant forall k :: 0 <= k < i ==> TickedAt(ticks, history, k)
        invariant |waits| == i + 1 && waits[0] == old(successRefreshPeriod)
        invariant forall k :: 0 <= k < i ==> waits[k + 1] == if ticks[k].Some? then history[k + 1].success else history[k + 1].error
      {
        var wait := Tick(ticks[i]);
        OneTickMore(ticks, history, Snap());
        history, waits := history + [Snap()], waits + [wait];
      }
      StopAll();
    }
  }

  lemma OneTickMore(ticks: seq<Option<Token>>, history: seq<Snapshot>, next: Snapshot)
    requires 0 < |history| <= |ticks| && forall k :: 0 <= k < |ticks| && ticks[k].Some? ==> ticks[k].value.Valid()
    requires forall k :: 0 <= k < |history| - 1 ==> TickedAt(ticks, history, k)
    requires Ticked(ticks[|history| - 1], history[|history| - 1], next)
    ensures forall k :: 0 <= k < |history| ==> TickedAt(ticks, history + [next], k)
  {
    forall k | 0 <= k < |history|
      ensures TickedAt(ticks, history + [next], k)
    {
      if k < |history| - 1 {
        assert TickedAt(ticks, history, k);
      }
    }
  }

  lemma ListedIfAdded(t: Token)
    requires t.Valid()
    ensures forall u :: SomeAdd(t, |t.list|, u) ==> Lists(t, |t.list|, u)
  {
    forall u | SomeAdd(t, |t.list|, u)
      ensures Lists(t, |t.list|, u)
    {
      var i :| 0 <= i < |t.list| && t.list[i].Url() == u && t.addOk[i];
      assert t.list[i].Url() == u;
    }
  }

  lemma ListsExtend(t: Token, i: nat)
    requires i < |t.list|
    ensures forall u :: Lists(t, i + 1, u) <==> Lists(t, i, u) || u == t.list[i].Url()
  {
    forall u
      ensures Lists(t, i + 1, u) <==> Lists(t, i, u) || u == t.list[i].Url()
    {
      if Lists(t, i, u) {
        var k :| 0 <= k < i && t.list[k].Url() == u;
        assert t.list[k].Url() == u;
      }
      assert t.list[i].Url() == u || t.list[i].Url() != u;
    }
  }
}
