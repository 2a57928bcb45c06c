/** internal/server/server.go, behind its guard: the handlers, and whole runs of them. One
    request is served at a time, as the mutation lock has it. */
module Server {
  import opened Wrappers
  import opened Render
  import opened Lifecycle
  import opened Safety
  import opened Agreement
  import opened Points
  import opened Trace
  import opened Runs
  import L = RateLimit
  import M = Manager
  import R = Reports

  datatype Request =
    | ApplyRequest(route: Route)
    | SyncAllRequest(source: string, sync: SyncRequest)
    | StatusRequest(source: string)

  datatype Response =
    | BadRequest
    | RateLimited
    | Applied(apply: ApplyReply)
    | Synced(sync: SyncReply)
    | Observed(status: M.StatusResponse)

  // ---- the limiter ----

  predicate Bad(q: Request) { q.ApplyRequest? && q.route.fqdn == "" }

  /** Applies are limited by name, the others by source. */
  function KeyOf(q: Request): string {
    match q
    case ApplyRequest(route) => "apply:" + route.fqdn
    case SyncAllRequest(source, _) => "sync:" + source
    case StatusRequest(source) => "status:" + source
  }

  /** The buckets after a request at time now, and whether it may proceed. */
  function Charge(c: L.Rate, levels: map<string, L.Level>, q: Request, now: real): (map<string, L.Level>, bool) {
    if Bad(q) then (levels, false) else L.AllowNext(c, levels, KeyOf(q), now)
  }

  function Charged(c: L.Rate, levels: map<string, L.Level>, qs: seq<Request>, times: seq<real>): map<string, L.Level>
    requires |times| == |qs|
  {
    if qs == [] then levels
    else
      var n := |qs| - 1;
      Charge(c, Charged(c, levels, qs[..n], times[..n]), qs[n], times[n]).0
  }

  // ---- what a run tells about nginx ----

  /** What the replies so far tell: that nginx serves the vhosts on disk, whoever else
      reloads; that it does if nobody else does; that a reload of the agent's own may be
      outstanding. */
  datatype Standing = Standing(proven: bool, inStep: bool, owed: bool)

  /** A confirmed change settles everything but what is owed; a request that left nginx
      alone changes nothing; one that was taken back leaves a quiet nginx in step if the
      reply is not in doubt. */
  function StandingNext(st: Standing, confirmed: bool, untouched: bool, rippled: bool, trouble: bool): Standing {
    if confirmed then Standing(true, true, st.owed || rippled)
    else if untouched then st
    else Standing(false, st.inStep && !st.owed && !trouble, st.owed || rippled)
  }

  ghost function Stand(c: Config, s: Sys, e: Event, st: Standing): Standing
    requires Legal(c, s, e) && !IsCrash(e)
  {
    match e
    case ApplyDone(r, o) =>
      var reply := ApplyNext(c, s, r, o).1;
      StandingNext(st, reply.code == 200 && !M.Retracted(o.settle),
                   reply.code != 200 && !M.ApplyRippled(reply, o),
                   M.ApplyRippled(reply, o), M.ApplyTrouble(reply, o))
    case SyncDone(req, o) =>
      var reply := SyncNext(c, s, req, o).1;
      StandingNext(st, reply.code == 200 && o.Accepted? && M.Regained(o.settles),
                   reply.code != 200 && !M.SyncRippled(reply, o) && !M.Unswapped(reply.error),
                   M.SyncRippled(reply, o), M.SyncTrouble(reply, o))
  }

  ghost function StandingAfter(c: Config, s: Sys, es: seq<Event>, st: Standing): Standing
    requires LegalRun(c, s, es) && NoCrash(es)
    decreases es
  {
    if es == [] then st
    else
      assert es[0] in es && forall e | e in es[1..] :: e in es;
      StandingAfter(c, Next(c, s, es[0]), es[1..], Stand(c, s, es[0], st))
  }

  // ---- requests and responses ----

  ghost predicate Shows(m: Image, x: M.StatusResponse) { R.Reported(m.entries, x.routes, x.certs) }

  /** The response to a request met in state s, and the event it is, if it gets that far. */
  ghost predicate Turn(c: Config, s: Sys, q: Request, admitted: bool, r: Response, e: Option<Event>) {
    if Bad(q) then r.BadRequest? && e.None?
    else if !admitted then r.RateLimited? && e.None?
    else match q
      case ApplyRequest(route) =>
        && e.Some? && e.value.ApplyDone? && e.value.route == route
        && r == Applied(ApplyNext(c, s, route, e.value.applied).1)
      case SyncAllRequest(_, sync) =>
        && e.Some? && e.value.SyncDone? && e.value.request == sync && Fits(c, s, sync, e.value.synced)
        && r == Synced(SyncNext(c, s, sync, e.value.synced).1)
      case StatusRequest(_) => e.None? && r.Observed? && Shows(s.memory, r.status)
  }

  /** The events are those of the requests that got through, in order, and each response is
      the one to its request, in the state and with the buckets the ones before it left. */
  ghost predicate Session(c: Config, s: Sys, rate: L.Rate, levels: map<string, L.Level>,
                          qs: seq<Request>, times: seq<real>, rs: seq<Response>, es: seq<Event>)
    requires |times| == |rs| == |qs|
    decreases qs
  {
    if qs == [] then es == []
    else
      var n := |qs| - 1;
      var admitted := Charge(rate, Charged(rate, levels, qs[..n], times[..n]), qs[n], times[n]).1;
      var k := if rs[n].Applied? || rs[n].Synced? then |es| - 1 else |es|;
      && 0 <= k && LegalRun(c, s, es[..k])
      && Session(c, s, rate, levels, qs[..n], times[..n], rs[..n], es[..k])
      && Turn(c, After(c, s, es[..k]), qs[n], admitted, rs[n], if k < |es| then Some(es[k]) else None)
  }

  function Extended(es: seq<Event>, e: Option<Event>): seq<Event> { if e.Some? then es + [e.value] else es }

  lemma SessionBegin(c: Config, s: Sys, rate: L.Rate, levels: map<string, L.Level>)
    ensures Session(c, s, rate, levels, [], [], [], []) && Charged(rate, levels, [], []) == levels
  {}

  lemma SessionMore(c: Config, s: Sys, rate: L.Rate, levels: map<string, L.Level>,
                    qs: seq<Request>, times: seq<real>, rs: seq<Response>, es: seq<Event>,
                    q: Request, now: real, r: Response, e: Option<Event>)
    requires |times| == |rs| == |qs| && LegalRun(c, s, es) && Session(c, s, rate, levels, qs, times, rs, es)
    requires Turn(c, After(c, s, es), q, Charge(rate, Charged(rate, levels, qs, times), q, now).1, r, e)
    ensures Session(c, s, rate, levels, qs + [q], times + [now], rs + [r], Extended(es, e))
    ensures Charged(rate, levels, qs + [q], times + [now]) == Charge(rate, Charged(rate, levels, qs, times), q, now).0
  {
    hide Charge, LegalRun, After;
    var n := |qs|;
    assert (qs + [q])[..n] == qs && (times + [now])[..n] == times && (rs + [r])[..n] == rs;
    assert Extended(es, e)[..|es|] == es;
    assert r.Applied? || r.Synced? <==> e.Some?;
  }

  // ---- the trace of a run ----

  /** m is a point of some request of the run: had the agent crashed there, the run up to
      that request and the crash would be a legal run. */
  ghost predicate Caught(c: Config, s: Sys, es: seq<Event>, m: Sys) {
    exists k :: 0 <= k < |es| && LegalRun(c, s, es[..k]) && PointOf(c, After(c, s, es[..k]), es[k], m)
  }

  ghost predicate RunTraced(c: Config, s: Sys, es: seq<Event>, past: seq<Sys>, from: nat, now: Sys) {
    && LegalRun(c, s, es) && NoCrash(es) && now == After(c, s, es)
    && (forall i | from <= i < |past| :: Caught(c, s, es, past[i]))
    && Rising(past, from, now)
  }

  lemma {:induction false} RunSnoc(c: Config, s: Sys, es: seq<Event>, e: Event)
    requires LegalRun(c, s, es) && Legal(c, After(c, s, es), e)
    ensures LegalRun(c, s, es + [e]) && After(c, s, es + [e]) == Next(c, After(c, s, es), e)
    ensures NoCrash(es) && !IsCrash(e) ==> NoCrash(es + [e])
    ensures NoCrash(es) && !IsCrash(e) ==> forall st ::
              StandingAfter(c, s, es + [e], st) == Stand(c, After(c, s, es), e, StandingAfter(c, s, es, st))
    decreases es
  {
    if es == [] {
      assert es + [e] == [e] && [e][1..] == [];
    } else {
      RunSnoc(c, Next(c, s, es[0]), es[1..], e);
      assert (es + [e])[0] == es[0] && (es + [e])[1..] == es[1..] + [e];
    }
  }

  lemma RunBegin(c: Config, s: Sys, past: seq<Sys>, st: Standing)
    ensures RunTraced(c, s, [], past, |past|, s) && LegalRun(c, s, []) && NoCrash([])
    ensures StandingAfter(c, s, [], st) == st
  {}

  lemma CaughtMore(c: Config, s: Sys, es: seq<Event>, e: Event, m: Sys)
    requires LegalRun(c, s, es)
    requires Caught(c, s, es, m) || PointOf(c, After(c, s, es), e, m)
    ensures Caught(c, s, es + [e], m)
  {
    if PointOf(c, After(c, s, es), e, m) {
      assert (es + [e])[..|es|] == es && (es + [e])[|es|] == e;
    } else {
      var k :| 0 <= k < |es| && LegalRun(c, s, es[..k]) && PointOf(c, After(c, s, es[..k]), es[k], m);
      assert (es + [e])[..k] == es[..k] && (es + [e])[k] == es[k];
    }
  }

  /** The request of e, cut off in state m. */
  function CutOff(e: Event, m: Sys): Event {
    match e
    case ApplyDone(r, _) => ApplyCrash(r, m)
    case SyncDone(req, _) => SyncCrash(req, m)
    case _ => e
  }

  /** A crash anywhere along the run makes a legal run; what RunSafe says of those, it says
      of every state passed through. */
  lemma CaughtCrash(c: Config, s: Sys, es: seq<Event>, m: Sys)
    requires LegalRun(c, s, es) && NoCrash(es) && Caught(c, s, es, m)
    ensures exists k :: 0 <= k < |es| && var run := es[..k] + [CutOff(es[k], m)];
              LegalRun(c, s, run) && After(c, s, run) == Reloaded(m)
    ensures Safe(s) ==> Safe(m) && Leq(s.saved, m.saved)
  {
    var k :| 0 <= k < |es| && LegalRun(c, s, es[..k]) && PointOf(c, After(c, s, es[..k]), es[k], m);
    assert es[k] in es;
    RunSnoc(c, s, es[..k], CutOff(es[k], m));
    if Safe(s) {
      RunSafe(c, s, es[..k]);
      PointForward(c, After(c, s, es[..k]), es[k], m);
      LeqTrans(s.saved, After(c, s, es[..k]).saved, m.saved);
    }
  }

  /** One more request, traced from where the run had come to. */
  lemma RunMore(c: Config, s: Sys, es: seq<Event>, past: seq<Sys>, from: nat, mid: Sys, e: Event,
                longer: seq<Sys>, now: Sys, st: Standing)
    requires from <= |past| && past <= longer && RunTraced(c, s, es, past, from, mid)
    requires Legal(c, mid, e) && !IsCrash(e) && now == Next(c, mid, e) && RouteNames(mid.files)
    requires (forall i | |past| <= i < |longer| :: PointOf(c, mid, e, longer[i])) && Rising(longer, |past|, now)
    ensures RunTraced(c, s, es + [e], longer, from, now) && Leq(mid.memory, now.memory)
    ensures StandingAfter(c, s, es + [e], st) == Stand(c, mid, e, StandingAfter(c, s, es, st))
  {
    hide Rising, Leq, PointOf, LegalRun, Legal, Next, Caught, Forward, Stand, StandingAfter;
    RunSnoc(c, s, es, e);
    forall i | from <= i < |longer| ensures Caught(c, s, es + [e], longer[i]) {
      CaughtMore(c, s, es, e, longer[i]);
    }
    LaterPoints(c, mid, e, |past|, longer, now);
    RisingOn(past, from, mid, longer, now);
  }

  lemma RunLegal(c: Config, s: Sys, es: seq<Event>, past: seq<Sys>, from: nat, now: Sys)
    requires RunTraced(c, s, es, past, from, now)
    ensures LegalRun(c, s, es) && NoCrash(es)
  {}

  /** A request that came to nothing. */
  lemma RunIdle(s: Sys)
    ensures Leq(s.memory, s.memory)
  {}

  lemma LaterPoints(c: Config, s: Sys, e: Event, from: nat, past: seq<Sys>, now: Sys)
    requires RouteNames(s.files) && Legal(c, s, e) && !IsCrash(e) && now == Next(c, s, e)
    requires forall i | from <= i < |past| :: PointOf(c, s, e, past[i])
    ensures (forall i | from <= i < |past| :: Leq(s.memory, past[i].memory)) && Leq(s.memory, now.memory)
  {
    hide PointOf, Legal, Leq, Forward;
    LeftIsPoint(c, s, e);
    PointForward(c, s, e, now);
    forall i | from <= i < |past| ensures Leq(s.memory, past[i].memory) { PointForward(c, s, e, past[i]); }
  }

  // ---- what /status shows ----

  /** Every name in x is in y, at no lower a generation. */
  ghost predicate NotOlder(x: M.StatusResponse, y: M.StatusResponse) {
    forall i | 0 <= i < |x.routes| :: Kept(x.routes[i], y)
  }

  ghost predicate Kept(x: R.RouteStatus, y: M.StatusResponse) {
    exists j :: 0 <= j < |y.routes| && y.routes[j].fqdn == x.fqdn && x.generation <= y.routes[j].generation
  }

  /** The store as it was at each response, and now. */
  ghost predicate SeenSoFar(responses: seq<Response>, seen: seq<Image>, now: Image) {
    && |seen| == |responses|
    && (forall i | 0 <= i < |seen| :: Leq(seen[i], now))
    && (forall i, j | 0 <= i <= j < |seen| :: Leq(seen[i], seen[j]))
    && (forall i | 0 <= i < |seen| && responses[i].Observed? :: Shows(seen[i], responses[i].status))
  }

  lemma SeenNothing(now: Image)
    ensures SeenSoFar([], [], now)
  {}

  lemma SeenMore(responses: seq<Response>, seen: seq<Image>, mid: Image, r: Response, now: Image)
    requires SeenSoFar(responses, seen, mid) && Leq(mid, now) && (r.Observed? ==> Shows(now, r.status))
    ensures SeenSoFar(responses + [r], seen + [now], now)
  {
    hide Shows;
    forall i | 0 <= i < |seen| ensures Leq(seen[i], now) { LeqTrans(seen[i], mid, now); }
  }

  lemma SeenAll(responses: seq<Response>, seen: seq<Image>, now: Image)
    requires SeenSoFar(responses, seen, now)
    ensures forall i, j | 0 <= i <= j < |responses| && responses[i].Observed? && responses[j].Observed? ::
              NotOlder(responses[i].status, responses[j].status)
  {
    hide Leq, NotOlder, Shows;
    forall i, j | 0 <= i <= j < |responses| && responses[i].Observed? && responses[j].Observed?
      ensures NotOlder(responses[i].status, responses[j].status)
    {
      ShownNotOlder(seen[i], responses[i].status, seen[j], responses[j].status);
    }
  }

  lemma ShownNotOlder(a: Image, x: M.StatusResponse, b: Image, y: M.StatusResponse)
    requires Leq(a, b) && Shows(a, x) && Shows(b, y)
    ensures NotOlder(x, y)
  {
    hide R.Reported, Leq;
    forall i | 0 <= i < |x.routes| ensures Kept(x.routes[i], y) {
      R.StatusNeverRegresses(a, x.routes, x.certs, b, y.routes, y.certs, i);
    }
  }

  class Server {
    const mgr: M.Manager
    const limit: L.Limiter

    ghost predicate Valid()
      reads mgr.nginx, mgr.store, mgr.world, limit
    {
      mgr.Valid() && limit.Valid()
    }

    constructor (m: M.Manager, l: L.Limiter)
      requires m.Valid() && l.Valid()
      ensures Valid() && mgr == m && limit == l
    {
      mgr, limit := m, l;
    }

    ghost function View(): Sys reads mgr.world { mgr.world.View() }

    /** nginx serves the vhosts on disk. */
    ghost predicate Served() reads mgr.world { mgr.world.running.routes == mgr.world.routes }

    /** Nobody but the agent has asked for a reload. */
    twostate predicate Alone() reads mgr.world { mgr.world.outside == old(mgr.world.outside) }

    // ---- one request ----

    /** One request has gone from its first point to its last. */
    twostate predicate Did(e: Event)
      reads mgr.world
    {
      && !IsCrash(e) && Legal(mgr.cfg, old(View()), e)
      && View() == Next(mgr.cfg, old(View()), e)
      && old(mgr.world.history) <= mgr.world.history
      && (forall i | |old(mgr.world.history)| <= i < |mgr.world.history| ::
            PointOf(mgr.cfg, old(View()), e, mgr.world.history[i]))
      && Rising(mgr.world.history, |old(mgr.world.history)|, View())
    }

    /** What was known of nginx before and what is known now. */
    twostate predicate Upholds(before: Standing, after: Standing)
      reads mgr.world
    {
      && old(mgr.world.outside) <= mgr.world.outside && mgr.world.signals.Since(old(mgr.world.signals))
      && (mgr.nginx.verified && (before.proven ==> old(Served())) && after.proven ==> Served())
      && (mgr.nginx.verified && Alone()
          && (before.inStep ==> old(Served())) && (!before.owed ==> old(mgr.world.pending) == 0) ==>
            (after.inStep ==> Served()) && (!after.owed ==> mgr.world.pending == 0))
    }

    method Apply(route: Route) returns (reply: ApplyReply, ghost o: ApplyOutcome)
      requires Valid()
      modifies mgr`lastApply, mgr.nginx, mgr.store, mgr.world
      ensures Valid() && Did(ApplyDone(route, o))
      ensures reply == ApplyNext(mgr.cfg, old(View()), route, o).1
      ensures forall st :: Upholds(st, Stand(mgr.cfg, old(View()), ApplyDone(route, o), st))
    {
      hide ApplyNext, SyncNext, ApplyPoint, SyncPoint, Rising, Validate;
      reply, o := mgr.Apply(route);
    }

    method SyncAll(req: SyncRequest) returns (reply: SyncReply, ghost o: SyncOutcome)
      requires Valid()
      modifies mgr`lastSync, mgr.nginx, mgr.store, mgr.world
      ensures Valid() && Did(SyncDone(req, o))
      ensures reply == SyncNext(mgr.cfg, old(View()), req, o).1
      ensures forall st :: Upholds(st, Stand(mgr.cfg, old(View()), SyncDone(req, o), st))
    {
      hide ApplyNext, SyncNext, ApplyPoint, SyncPoint, Rising, PlanOf, Fits;
      reply, o := mgr.SyncAll(req);
    }

    /** handleApply, once the body is decoded. */
    method HandleApply(route: Route, now: real) returns (r: Response, ghost o: ApplyOutcome)
      requires Valid()
      modifies limit, limit.buckets.Values, mgr`lastApply, mgr.nginx, mgr.store, mgr.world
      ensures Valid() && forall b | b in limit.buckets.Values :: b in old(limit.buckets.Values) || fresh(b)
      ensures r.BadRequest? <==> route.fqdn == ""
      ensures r.BadRequest? ==> limit.Levels() == old(limit.Levels())
      ensures route.fqdn != "" ==>
                (limit.Levels(), !r.RateLimited?) ==
                    L.AllowNext(limit.rate, old(limit.Levels()), "apply:" + route.fqdn, now)
      ensures r.BadRequest? || r.RateLimited? || (r.Applied? && r.apply == ApplyNext(mgr.cfg, old(View()), route, o).1)
      ensures if r.Applied? then Did(ApplyDone(route, o)) else unchanged(mgr.world)
      ensures r.Applied? ==> forall st ::
                Upholds(st, Stand(mgr.cfg, old(View()), ApplyDone(route, o), st))
    {
      hide ApplyNext, PointOf, Legal, Next, Rising, L.AllowNext, Stand;
      o := M.NO_CHANGE;
      if route.fqdn == "" {
        return BadRequest, o;
      }
      var ok := limit.Allow("apply:" + route.fqdn, now);
      if !ok {
        return RateLimited, o;
      }
      var reply;
      reply, o := Apply(route);
      r := Applied(reply);
    }

    /** handleSyncAll, once the body is decoded. */
    method HandleSyncAll(source: string, req: SyncRequest, now: real) returns (r: Response, ghost o: SyncOutcome)
      requires Valid()
      modifies limit, limit.buckets.Values, mgr`lastSync, mgr.nginx, mgr.store, mgr.world
      ensures Valid() && forall b | b in limit.buckets.Values :: b in old(limit.buckets.Values) || fresh(b)
      ensures (limit.Levels(), !r.RateLimited?) == L.AllowNext(limit.rate, old(limit.Levels()), "sync:" + source, now)
      ensures r.RateLimited? || (r.Synced? && Fits(mgr.cfg, old(View()), req, o)
                                 && r.sync == SyncNext(mgr.cfg, old(View()), req, o).1)
      ensures if r.Synced? then Did(SyncDone(req, o)) else unchanged(mgr.world)
      ensures r.Synced? ==> forall st ::
                Upholds(st, Stand(mgr.cfg, old(View()), SyncDone(req, o), st))
    {
      hide SyncNext, PointOf, Next, Rising, L.AllowNext, Stand, Fits;
      o := Unread;
      var ok := limit.Allow("sync:" + source, now);
      if !ok {
        return RateLimited, o;
      }
      var reply;
      reply, o := SyncAll(req);
      r := Synced(reply);
    }

    /** handleStatus: a look at the store. */
    method HandleStatus(source: string, now: real) returns (r: Response)
      requires Valid()
      modifies limit, limit.buckets.Values
      ensures Valid() && forall b | b in limit.buckets.Values :: b in old(limit.buckets.Values) || fresh(b)
      ensures (limit.Levels(), !r.RateLimited?) == L.AllowNext(limit.rate, old(limit.Levels()), "status:" + source, now)
      ensures r.RateLimited? || (r.Observed? && Shows(mgr.world.memory, r.status))
    {
      hide L.AllowNext;
      var ok := limit.Allow("status:" + source, now);
      if !ok {
        return RateLimited;
      }
      var status := mgr.Status();
      r := Observed(status);
    }

    // ---- many requests ----

    /** Any request; one that gets through is an event of the run. */
    method Handle(q: Request, now: real) returns (r: Response, ghost e: Option<Event>)
      requires Valid()
      modifies limit, limit.buckets.Values, mgr, mgr.nginx, mgr.store, mgr.world
      ensures Valid() && forall b | b in limit.buckets.Values :: b in old(limit.buckets.Values) || fresh(b)
      ensures limit.Levels() == Charge(limit.rate, old(limit.Levels()), q, now).0
      ensures Turn(mgr.cfg, old(View()), q, Charge(limit.rate, old(limit.Levels()), q, now).1, r, e)
      ensures if e.Some? then Did(e.value) else unchanged(mgr.world)
      ensures e.Some? ==> forall st :: Upholds(st, Stand(mgr.cfg, old(View()), e.value, st))
    {
      hide L.AllowNext, Stand, SyncNext, ApplyNext, Shows;
      e := None;
      match q {
        case ApplyRequest(route) =>
          ghost var o;
          r, o := HandleApply(route, now);
          e := if r.Applied? then Some(ApplyDone(route, o)) else None;
        case SyncAllRequest(source, sync) =>
          ghost var o;
          r, o := HandleSyncAll(source, sync, now);
          e := if r.Synced? then Some(SyncDone(sync, o)) else None;
        case StatusRequest(source) =>
          r := HandleStatus(source, now);
      }
    }

    /** The requests in es have been served, and nothing else has happened. */
    twostate predicate Ran(es: seq<Event>)
      reads mgr.world
    {
      && old(mgr.world.history) <= mgr.world.history
      && RunTraced(mgr.cfg, old(View()), es, mgr.world.history, |old(mgr.world.history)|, View())
    }

    /** All that is known of nginx before a run. */
    ghost function Start(): Standing reads mgr.world { Standing(Served(), Served(), mgr.world.pending != 0) }

    /** What the replies to es tell of nginx is so. */
    twostate predicate Stands(es: seq<Event>)
      requires LegalRun(mgr.cfg, old(View()), es) && NoCrash(es)
      reads mgr.world
    {
      Upholds(old(Start()), StandingAfter(mgr.cfg, old(View()), es, old(Start())))
    }

    /** One more request of a run that began in s with start known of nginx. */
    method Advance(q: Request, now: real, ghost s: Sys, ghost from: nat, ghost es: seq<Event>, ghost start: Standing)
      returns (r: Response, ghost e: Option<Event>)
      requires Valid() && from <= |mgr.world.history|
      requires RunTraced(mgr.cfg, s, es, mgr.world.history, from, View())
      modifies limit, limit.buckets.Values, mgr, mgr.nginx, mgr.store, mgr.world
      ensures Valid() && forall b | b in limit.buckets.Values :: b in old(limit.buckets.Values) || fresh(b)
      ensures limit.Levels() == Charge(limit.rate, old(limit.Levels()), q, now).0
      ensures Turn(mgr.cfg, After(mgr.cfg, s, es), q, Charge(limit.rate, old(limit.Levels()), q, now).1, r, e)
      ensures old(mgr.world.history) <= mgr.world.history
      ensures RunTraced(mgr.cfg, s, Extended(es, e), mgr.world.history, from, View())
      ensures Upholds(StandingAfter(mgr.cfg, s, es, start), StandingAfter(mgr.cfg, s, Extended(es, e), start))
      ensures Leq(old(View()).memory, View().memory) && (r.Observed? ==> Shows(View().memory, r.status))
    {
      hide Shows, Leq, Stand, StandingAfter, LegalRun, NoCrash, Caught, Rising, PointOf, Charge;
      ghost var mid, past := View(), mgr.world.history;
      r, e := Handle(q, now);
      if e.None? {
        RunIdle(mid);
      } else {
        RunMore(mgr.cfg, s, es, past, from, mid, e.value, mgr.world.history, View(), start);
      }
    }

    /** Any number of requests, one after another, each met by the limiter's clock at the
        time given. What happened is a run as Runs has it, and the responses are those to its
        events; every state passed through is one a crash in it may leave; what any two
        looks at /status show never goes back; and what the replies tell of nginx is so. */
    method Serve(requests: seq<Request>, times: seq<real>) returns (responses: seq<Response>, ghost es: seq<Event>)
      requires Valid() && |times| == |requests|
      modifies limit, limit.buckets.Values, mgr, mgr.nginx, mgr.store, mgr.world
      ensures Valid() && |responses| == |requests|
      ensures Ran(es) && Stands(es)
      ensures Session(mgr.cfg, old(View()), limit.rate, old(limit.Levels()), requests, times, responses, es)
      ensures forall i, j | 0 <= i <= j < |responses| && responses[i].Observed? && responses[j].Observed? ::
                NotOlder(responses[i].status, responses[j].status)
    {
      hide Shows, NotOlder, RunTraced, Leq, Stand, StandingAfter, LegalRun, NoCrash, SeenSoFar, Valid;
      hide Session, Charged, Charge, Turn, Extended;
      ghost var s, start, from, seen: seq<Image> := View(), Start(), |mgr.world.history|, [];
      ghost var levels := limit.Levels();
      responses, es := [], [];
      RunBegin(mgr.cfg, s, mgr.world.history, start);
      SessionBegin(mgr.cfg, s, limit.rate, levels);
      SeenNothing(s.memory);
      for i := 0 to |requests|
        invariant Valid() && |responses| == i
        invariant forall b | b in limit.buckets.Values :: b in old(limit.buckets.Values) || fresh(b)
        invariant Ran(es) && LegalRun(mgr.cfg, s, es) && NoCrash(es)
        invariant Upholds(start, StandingAfter(mgr.cfg, s, es, start))
        invariant Session(mgr.cfg, s, limit.rate, levels, requests[..i], times[..i], responses, es)
        invariant limit.Levels() == Charged(limit.rate, levels, requests[..i], times[..i])
        invariant SeenSoFar(responses, seen, View().memory)
      {
        ghost var mid := View();
        var r;
        ghost var e;
        r, e := Advance(requests[i], times[i], s, from, es, start);
        SessionMore(mgr.cfg, s, limit.rate, levels, requests[..i], times[..i], responses, es,
                    requests[i], times[i], r, e);
        assert requests[..i+1] == requests[..i] + [requests[i]] && times[..i+1] == times[..i] + [times[i]];
        es := Extended(es, e);
        RunLegal(mgr.cfg, s, es, mgr.world.history, from, View());
        SeenMore(responses, seen, mid.memory, r, View().memory);
        responses, seen := responses + [r], seen + [View().memory];
      }
      assert requests[..|requests|] == requests && times[..|requests|] == times;
      SeenAll(responses, seen, View().memory);
    }
  }
}
