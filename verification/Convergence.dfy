/** When every external call succeeds, the outcome depends only on what was requested:
    not on the order or repetition of deliveries, not on whether routes came one by one
    or in a snapshot, and not on manifest order. Nor on a crash, if the request is sent
    again before its record was made or a snapshot follows; a request sent again after its
    record was made is refused, and its certificate stays as the crash left it. */
module Convergence {
  import opened Wrappers
  import opened Hostnames
  import opened Render
  import opened Lifecycle
  import opened Agreement
  import opened SyncAgreement
  import opened Safety
  import opened Points

  // ---- one request, everything succeeding ----

  predicate CleanApply(o: ApplyOutcome) {
    o.attempt.Confirmed? && o.stored && Upgraded(o.settle) && o.settle.stored && o.prune.Deleted?
  }

  /** Requests the agent can carry out. */
  predicate ValidRequest(c: Config, r: Route) {
    Servable(c, r) || (r.desired == Absent && Validate(c, r).None?)
  }

  /** What a request asks its name to be. */
  function Goal(c: Config, r: Route): Local
    requires ValidRequest(c, r)
  {
    if r.desired == Absent then Local(Some(Entry(r.generation, false, NoCert, "")), None)
    else Local(Some(Entry(r.generation, true, if IsPlatform(r.certRef) then NoCert else CertOK, "")),
               Some(Site(SiteOf(c, r, true))))
  }

  predicate Newer(x: Local, r: Route) { x.entry.Some? ==> x.entry.value.generation < r.generation }

  lemma CleanApplyAt(c: Config, s: Sys, r: Route, o: ApplyOutcome)
    requires ValidRequest(c, r) && CleanApply(o)
    ensures var s' := ApplyNext(c, s, r, o).0;
            && OnlyAt(s, s', r.fqdn)
            && LocalOf(s', r.fqdn) == (if Newer(LocalOf(s, r.fqdn), r) then Goal(c, r) else LocalOf(s, r.fqdn))
            && (RouteNames(s.files) ==> RouteNames(s'.files))
  {
    ReservedNames(r.fqdn, "");
    if !Stale(s.memory, r) {
      if r.desired == Absent {
        RemoveAt(c, s, r, o);
      } else {
        ServeAt(c, s, r, o);
        RenderCarries(c, r, true);
      }
    }
  }

  // ---- many requests ----

  function ApplyAll(c: Config, s: Sys, rs: seq<Route>, os: seq<ApplyOutcome>): Sys
    requires |rs| == |os|
    decreases rs
  {
    if rs == [] then s else ApplyAll(c, ApplyNext(c, s, rs[0], os[0]).0, rs[1..], os[1..])
  }

  ghost predicate AllClean(c: Config, rs: seq<Route>, os: seq<ApplyOutcome>) {
    && |rs| == |os|
    && (forall r | r in rs :: ValidRequest(c, r))
    && (forall o | o in os :: CleanApply(o))
  }

  /** y is what x becomes when the requests for f in rs have all been delivered: nothing
      newer is left, and y is x or what one of the newer requests asks for. */
  ghost predicate Latest(c: Config, rs: seq<Route>, f: string, x: Local, y: Local)
    requires forall r | r in rs :: ValidRequest(c, r)
  {
    && (forall r | r in rs && r.fqdn == f :: !Newer(y, r))
    && (y == x || exists r :: r in rs && r.fqdn == f && Newer(x, r) && y == Goal(c, r))
  }

  lemma {:induction false} ApplyAllLatest(c: Config, s: Sys, rs: seq<Route>, os: seq<ApplyOutcome>, f: string)
    requires AllClean(c, rs, os)
    ensures Latest(c, rs, f, LocalOf(s, f), LocalOf(ApplyAll(c, s, rs, os), f))
    decreases rs
  {
    if rs != [] {
      var r := rs[0];
      CleanApplyAt(c, s, r, os[0]);
      var s1 := ApplyNext(c, s, r, os[0]).0;
      ApplyAllLatest(c, s1, rs[1..], os[1..], f);
      LatestStep(c, rs, f, LocalOf(s, f), LocalOf(s1, f), LocalOf(ApplyAll(c, s, rs, os), f));
    }
  }

  lemma LatestStep(c: Config, rs: seq<Route>, f: string, x: Local, x1: Local, y: Local)
    requires rs != [] && forall r | r in rs :: ValidRequest(c, r)
    requires x1 == if rs[0].fqdn == f && Newer(x, rs[0]) then Goal(c, rs[0]) else x
    requires Latest(c, rs[1..], f, x1, y)
    ensures Latest(c, rs, f, x, y)
  {
    assert rs == [rs[0]] + rs[1..];
    assert !Newer(y, rs[0]) || rs[0].fqdn != f;
    if y != x1 {
      var r :| r in rs[1..] && r.fqdn == f && Newer(x1, r) && y == Goal(c, r);
      assert r in rs && Newer(x, r);
    } else if y != x {
      assert rs[0] in rs && rs[0].fqdn == f && Newer(x, rs[0]) && y == Goal(c, rs[0]);
    }
  }

  lemma {:induction false} ApplyAllFrame(c: Config, s: Sys, rs: seq<Route>, os: seq<ApplyOutcome>)
    requires AllClean(c, rs, os) && RouteNames(s.files)
    ensures var m := ApplyAll(c, s, rs, os);
            RouteNames(m.files) && m.memory.snapshotGen == s.memory.snapshotGen
    decreases rs
  {
    if rs != [] {
      CleanApplyAt(c, s, rs[0], os[0]);
      ApplyAllFrame(c, ApplyNext(c, s, rs[0], os[0]).0, rs[1..], os[1..]);
    }
  }

  /** A name and a generation always come with the same request. */
  ghost predicate Consistent(rs: seq<Route>) {
    forall q, r | q in rs && r in rs && q.fqdn == r.fqdn && q.generation == r.generation :: q == r
  }

  lemma LatestUnique(c: Config, rs: seq<Route>, qs: seq<Route>, f: string, x: Local, y: Local, z: Local)
    requires (forall r | r in rs :: ValidRequest(c, r)) && Consistent(rs) && (forall r :: r in rs <==> r in qs)
    requires Latest(c, rs, f, x, y) && Latest(c, qs, f, x, z)
    ensures y == z
  {
    if y != x && z != x {
      var r :| r in rs && r.fqdn == f && Newer(x, r) && y == Goal(c, r);
      var q :| q in qs && q.fqdn == f && Newer(x, q) && z == Goal(c, q);
      assert q in rs && r in qs;
      assert !Newer(y, q) && !Newer(z, r);
    }
  }

  /** Two states that agree name by name have the same files and the same entries. */
  lemma LocalsDetermine(a: Sys, b: Sys)
    requires RouteNames(a.files) && RouteNames(b.files)
    requires forall f :: LocalOf(a, f) == LocalOf(b, f)
    ensures a.files == b.files && a.memory.entries == b.memory.entries
  {
    FilesAgree(a, b);
    forall f | f in a.memory.entries || f in b.memory.entries
      ensures f in a.memory.entries && f in b.memory.entries && a.memory.entries[f] == b.memory.entries[f]
    {
      assert LocalOf(a, f) == LocalOf(b, f);
    }
  }

  /** Delivery order and repetition do not matter: two sequences of the same requests
      end with the same files and the same entries, those of the newest request for
      each name above the generation it started at. */
  lemma DeliveryOrderIndependent(c: Config, s: Sys, rs: seq<Route>, os: seq<ApplyOutcome>, qs: seq<Route>,
                                 ps: seq<ApplyOutcome>)
    requires RouteNames(s.files) && AllClean(c, rs, os) && AllClean(c, qs, ps)
    requires Consistent(rs) && (forall r :: r in rs <==> r in qs)
    ensures ApplyAll(c, s, rs, os).files == ApplyAll(c, s, qs, ps).files
    ensures ApplyAll(c, s, rs, os).memory == ApplyAll(c, s, qs, ps).memory
    ensures forall f :: Latest(c, rs, f, LocalOf(s, f), LocalOf(ApplyAll(c, s, rs, os), f))
  {
    var a, b := ApplyAll(c, s, rs, os), ApplyAll(c, s, qs, ps);
    forall f ensures LocalOf(a, f) == LocalOf(b, f) && Latest(c, rs, f, LocalOf(s, f), LocalOf(a, f)) {
      ApplyAllLatest(c, s, rs, os, f);
      ApplyAllLatest(c, s, qs, ps, f);
      LatestUnique(c, rs, qs, f, LocalOf(s, f), LocalOf(a, f), LocalOf(b, f));
    }
    ApplyAllFrame(c, s, rs, os);
    ApplyAllFrame(c, s, qs, ps);
    LocalsDetermine(a, b);
  }

  // ---- a snapshot ----

  ghost predicate CleanSync(o: SyncOutcome) {
    && o.Accepted? && o.stored
    && (forall x | x in o.prunes :: x.Deleted?)
    && (forall x | x in o.settles :: Upgraded(x) && x.stored)
  }

  /** Manifests of distinct names that can all be served, none older than the store. */
  ghost predicate CurrentManifest(c: Config, s: Sys, routes: seq<Route>) {
    DistinctNames(routes) && forall r | r in routes :: Servable(c, r) && !Older(s.memory, r)
  }

  /** ... all newer. */
  ghost predicate NewManifest(c: Config, s: Sys, routes: seq<Route>) {
    && DistinctNames(routes)
    && forall r | r in routes :: Servable(c, r) && Newer(LocalOf(s, r.fqdn), r)
  }

  /** An accepted clean sync leaves each name of the manifest as its request asks. */
  lemma CleanSyncAt(c: Config, s: Sys, req: SyncRequest, o: SyncOutcome, r: Route)
    requires RouteNames(s.files) && CurrentManifest(c, s, req.routes) && r in req.routes
    requires !StaleSnapshot(s.memory, req) && Fits(c, s, req, o) && CleanSync(o)
    ensures SyncNext(c, s, req, o).1.code == 200
    ensures LocalOf(SyncNext(c, s, req, o).0, r.fqdn) == Goal(c, r)
  {
    PlannedIff(c, s, EMPTY_PLAN, req.routes);
    var p := PlanOf(c, s, req).value;
    SyncAt(c, s, req, o, p);
    PlannedOnce(c, s, EMPTY_PLAN, req.routes, r);
    CleanEnd(c, s, p, SyncNext(c, s, req, o).0, o.settles, req.routes, r);
  }

  lemma CleanEnd(c: Config, s: Sys, p: Plan, m: Sys, settles: seq<SettleOutcome>, routes: seq<Route>, r: Route)
    requires PlanGood(c, s, p) && |settles| == |p.pending| && EndsAs(c, s, p, m, settles)
    requires PlanAll(c, s, EMPTY_PLAN, routes) == Success(p) && (forall x | x in settles :: Upgraded(x))
    requires r in routes && Servable(c, r) && Fresh(s, r) && PlanLocal(p, r.fqdn) == RouteLocal(c, s, r)
    ensures LocalOf(m, r.fqdn) == Goal(c, r)
  {
    RenderCarries(c, r, true);
    if CertReady(s, r) {
      forall q | q in p.pending ensures q.fqdn != r.fqdn {}
    } else {
      PendingAll(c, s, EMPTY_PLAN, routes, r);
      var i :| 0 <= i < |p.pending| && p.pending[i] == r;
      assert Upgraded(settles[i]);
    }
  }

  lemma {:induction false} PendingIsRoute(c: Config, s: Sys, acc: Plan, routes: seq<Route>, r: Route)
    requires PlanAll(c, s, acc, routes).Success? && r in PlanAll(c, s, acc, routes).value.pending && r !in acc.pending
    ensures r in routes && Fresh(s, r) && !CertReady(s, r)
    decreases routes
  {
    var next := PlanRoute(c, s, acc, routes[0]).value;
    if routes[0].desired != Absent { PlanStep(c, s, acc, routes[0], next); }
    if r !in next.pending {
      PendingIsRoute(c, s, next, routes[1..], r);
    }
  }

  lemma {:induction false} PendingAll(c: Config, s: Sys, acc: Plan, routes: seq<Route>, r: Route)
    requires PlanAll(c, s, acc, routes).Success? && r in routes && Fresh(s, r) && !CertReady(s, r)
    ensures r in PlanAll(c, s, acc, routes).value.pending
    decreases routes
  {
    var next := PlanRoute(c, s, acc, routes[0]).value;
    if routes[0].desired != Absent { PlanStep(c, s, acc, routes[0], next); }
    if routes[0] == r {
      PlanGrows(c, s, next, routes[1..]);
      assert r in next.pending;
    } else {
      PendingAll(c, s, next, routes[1..], r);
    }
  }

  /** A snapshot refines its routes applied one by one, in any order: the names it lists
      end with the same files and entries. */
  lemma BatchRefinesSingles(c: Config, s: Sys, req: SyncRequest, o: SyncOutcome, qs: seq<Route>,
                            ps: seq<ApplyOutcome>, r: Route)
    requires RouteNames(s.files) && NewManifest(c, s, req.routes) && r in req.routes
    requires !StaleSnapshot(s.memory, req) && Fits(c, s, req, o) && CleanSync(o)
    requires AllClean(c, qs, ps) && (forall q :: q in qs <==> q in req.routes)
    ensures LocalOf(SyncNext(c, s, req, o).0, r.fqdn) == LocalOf(ApplyAll(c, s, qs, ps), r.fqdn)
  {
    forall q | q in req.routes ensures !Older(s.memory, q) { assert Newer(LocalOf(s, q.fqdn), q); }
    CleanSyncAt(c, s, req, o, r);
    ApplyAllLatest(c, s, qs, ps, r.fqdn);
    var x, y := LocalOf(s, r.fqdn), LocalOf(ApplyAll(c, s, qs, ps), r.fqdn);
    assert r in qs && !Newer(y, r) && Newer(x, r);
    var q :| q in qs && q.fqdn == r.fqdn && Newer(x, q) && y == Goal(c, q);
    assert q == r;
  }

  // ---- manifest order ----

  /** A manifest entry that can be planned, whatever else the manifest holds. */
  predicate Plannable(c: Config, s: Sys, r: Route) {
    r.desired == Absent
    || (Validate(c, r).None?
        && (Older(s.memory, r)
            || (CertPaths(c, r).Success? && RenderVhost(c, r, CertPaths(c, r).value, CertReady(s, r)).Success?)))
  }

  /** A manifest of distinct names is planned if and only if each of its entries can be. */
  lemma {:induction false} PlannedIff(c: Config, s: Sys, acc: Plan, routes: seq<Route>)
    requires DistinctNames(routes) && forall r | r in routes :: FileName(r.fqdn) !in acc.desired
    ensures PlanAll(c, s, acc, routes).Success? <==> forall r | r in routes :: Plannable(c, s, r)
    decreases routes
  {
    if routes != [] {
      var r := routes[0];
      assert r in routes;
      assert PlanRoute(c, s, acc, r).Success? <==> Plannable(c, s, r);
      if Plannable(c, s, r) {
        var next := PlanRoute(c, s, acc, r).value;
        if r.desired != Absent { PlanStep(c, s, acc, r, next); }
        forall q | q in routes[1..] ensures FileName(q.fqdn) !in next.desired { FileNames(q.fqdn, r.fqdn); }
        PlannedIff(c, s, next, routes[1..]);
        assert forall q :: q in routes <==> q == r || q in routes[1..];
      }
    }
  }

  /** If one order of a manifest with distinct names is planned, so is any other, and both
      plan the same swap, the same prune list and the same results. */
  lemma PlanOrderFree(c: Config, s: Sys, a: SyncRequest, b: SyncRequest)
    requires DistinctNames(a.routes) && DistinctNames(b.routes) && (forall r :: r in a.routes <==> r in b.routes)
    requires PlanOf(c, s, a).Success? && RouteNames(s.files)
    ensures PlanOf(c, s, b).Success?
    ensures var p, q := PlanOf(c, s, a).value, PlanOf(c, s, b).value;
            p.desired == q.desired && p.entries == q.entries && p.kept == q.kept
            && (forall r :: r in p.pending <==> r in q.pending)
            && PrunedOf(s, p) == PrunedOf(s, q) && ResultsOf(p) == ResultsOf(q)
  {
    PlannedIff(c, s, EMPTY_PLAN, a.routes);
    PlannedIff(c, s, EMPTY_PLAN, b.routes);
    PlansAgree(c, s, a, b);
  }

  lemma PlansAgree(c: Config, s: Sys, a: SyncRequest, b: SyncRequest)
    requires DistinctNames(a.routes) && DistinctNames(b.routes) && (forall r :: r in a.routes <==> r in b.routes)
    requires PlanOf(c, s, a).Success? && PlanOf(c, s, b).Success? && RouteNames(s.files)
    ensures var p, q := PlanOf(c, s, a).value, PlanOf(c, s, b).value;
            p.desired == q.desired && p.entries == q.entries && p.kept == q.kept
            && (forall r :: r in p.pending <==> r in q.pending)
  {
    var p, q := PlanOf(c, s, a).value, PlanOf(c, s, b).value;
    PlanAllGood(c, s, EMPTY_PLAN, a.routes);
    PlanAllGood(c, s, EMPTY_PLAN, b.routes);
    forall f ensures PlanLocal(p, f) == PlanLocal(q, f) && (f in p.kept <==> f in q.kept) {
      PlanLocalOf(c, s, a.routes, b.routes, f);
    }
    forall n | n in p.desired || n in q.desired
      ensures n in p.desired && n in q.desired && p.desired[n] == q.desired[n]
    {
      StemFileName(n);
      assert PlanLocal(p, Stem(n)) == PlanLocal(q, Stem(n));
    }
    forall f | f in p.entries || f in q.entries
      ensures f in p.entries && f in q.entries && p.entries[f] == q.entries[f]
    {
      assert PlanLocal(p, f) == PlanLocal(q, f);
    }
    forall r ensures r in p.pending <==> r in q.pending {
      if r in p.pending {
        PendingIsRoute(c, s, EMPTY_PLAN, a.routes, r);
        PendingAll(c, s, EMPTY_PLAN, b.routes, r);
      }
      if r in q.pending {
        PendingIsRoute(c, s, EMPTY_PLAN, b.routes, r);
        PendingAll(c, s, EMPTY_PLAN, a.routes, r);
      }
    }
  }

  lemma PlanLocalOf(c: Config, s: Sys, rs: seq<Route>, qs: seq<Route>, f: string)
    requires DistinctNames(rs) && DistinctNames(qs) && (forall r :: r in rs <==> r in qs)
    requires PlanAll(c, s, EMPTY_PLAN, rs).Success? && PlanAll(c, s, EMPTY_PLAN, qs).Success?
    ensures var p, q := PlanAll(c, s, EMPTY_PLAN, rs).value, PlanAll(c, s, EMPTY_PLAN, qs).value;
            PlanLocal(p, f) == PlanLocal(q, f) && (f in p.kept <==> f in q.kept)
  {
    if r :| r in rs && r.fqdn == f && r.desired != Absent {
      PlannedOnce(c, s, EMPTY_PLAN, rs, r);
      PlannedOnce(c, s, EMPTY_PLAN, qs, r);
    } else {
      Unplanned(c, s, EMPTY_PLAN, rs, f);
      Unplanned(c, s, EMPTY_PLAN, qs, f);
    }
  }

  lemma {:induction false} Unplanned(c: Config, s: Sys, acc: Plan, routes: seq<Route>, f: string)
    requires PlanAll(c, s, acc, routes).Success? && (forall r | r in routes && r.fqdn == f :: r.desired == Absent)
    ensures var p := PlanAll(c, s, acc, routes).value;
            PlanLocal(p, f) == PlanLocal(acc, f) && (f in p.kept <==> f in acc.kept)
    decreases routes
  {
    if routes != [] {
      var q, next := routes[0], PlanRoute(c, s, acc, routes[0]).value;
      if q.desired != Absent { PlanStep(c, s, acc, q, next); }
      Unplanned(c, s, next, routes[1..], f);
    }
  }

  /** The outcome of a sync does not depend on manifest order (nor on any order in which
      a Go map was ranged over: SyncNext mentions none): the same files, the same store in
      memory and on file, the same certificates and lineages, the same reply. */
  lemma SyncDeterministic(c: Config, s: Sys, a: SyncRequest, o: SyncOutcome, b: SyncRequest, p: SyncOutcome)
    requires RouteNames(s.files) && a.snapshotGeneration == b.snapshotGeneration
    requires DistinctNames(a.routes) && DistinctNames(b.routes) && (forall r :: r in a.routes <==> r in b.routes)
    requires Fits(c, s, a, o) && CleanSync(o) && SyncNext(c, s, a, o).1.code == 200
    requires Fits(c, s, b, p) && CleanSync(p)
    ensures SyncNext(c, s, a, o) == SyncNext(c, s, b, p)
  {
    AcceptsCode(c, s, a, o);
    PlanOrderFree(c, s, a, b);
    AcceptsCode(c, s, b, p);
    PlanAllGood(c, s, EMPTY_PLAN, a.routes);
    PlanAllGood(c, s, EMPTY_PLAN, b.routes);
    SamePlanSameEnd(c, s, a, o, PlanOf(c, s, a).value, b, p, PlanOf(c, s, b).value);
  }

  lemma SamePlanSameEnd(c: Config, s: Sys, a: SyncRequest, o: SyncOutcome, x: Plan, b: SyncRequest, p: SyncOutcome,
                        y: Plan)
    requires a.snapshotGeneration == b.snapshotGeneration
    requires Accepts(c, s, a, o, x) && CleanSync(o) && Accepts(c, s, b, p, y) && CleanSync(p)
    requires PlanGood(c, s, x) && PlanGood(c, s, y)
    requires x.desired == y.desired && x.entries == y.entries && x.kept == y.kept
    requires forall r :: r in x.pending <==> r in y.pending
    ensures SyncNext(c, s, a, o) == SyncNext(c, s, b, p)
  {
    SamePruned(s, x, o.prunes, y, p.prunes);
    var s0 := Swapped(s, a, x, o.stored);
    assert s0 == Swapped(s, b, y, p.stored);
    var s1 := PruneAll(s0, PrunedOf(s, x), o.prunes);
    PruneAllAt(s0, PrunedOf(s, x), o.prunes, "");
    forall r | r in x.pending ensures r.fqdn in s1.memory.entries {
      assert PlanLocal(x, r.fqdn).entry.Some?;
      PruneAllAt(s0, PrunedOf(s, x), o.prunes, r.fqdn);
    }
    CleanPrunes(s0, PrunedOf(s, x), o.prunes);
    SettlesTheSame(c, s1, o.settles, x.pending, p.settles, y.pending);
  }

  lemma {:induction false} CleanPrunes(s: Sys, names: seq<string>, os: seq<PruneOutcome>)
    requires |names| == |os| && forall o | o in os :: o.Deleted?
    ensures var m := PruneAll(s, names, os); m.memory == s.memory && m.saved == s.saved
  {
    if names != [] { CleanPrunes(s, names[..|names|-1], os[..|names|-1]); }
  }

  lemma SamePruned(s: Sys, x: Plan, os: seq<PruneOutcome>, y: Plan, ps: seq<PruneOutcome>)
    requires x.desired == y.desired && x.entries == y.entries && x.kept == y.kept
    requires |os| == |PrunedOf(s, x)| && |ps| == |PrunedOf(s, y)|
    requires (forall o | o in os :: o.Deleted?) && (forall o | o in ps :: o.Deleted?)
    ensures PrunedOf(s, x) == PrunedOf(s, y) && ResultsOf(x) == ResultsOf(y) && os == ps
  {
    forall i | 0 <= i < |os| ensures os[i] == ps[i] {
      assert os[i] in os && ps[i] in ps;
    }
  }

  lemma SettlesTheSame(c: Config, s: Sys, os: seq<SettleOutcome>, xs: seq<Route>, ps: seq<SettleOutcome>,
                       ys: seq<Route>)
    requires |os| == |xs| && |ps| == |ys| && RouteNames(s.files) && CanSettle(c, s, xs) && CanSettle(c, s, ys)
    requires (forall o | o in os :: Upgraded(o) && o.stored) && (forall o | o in ps :: Upgraded(o) && o.stored)
    requires s.saved == s.memory && forall r :: r in xs <==> r in ys
    ensures SettleAll(c, s, xs, os) == SettleAll(c, s, ys, ps)
  {
    SettleAllAt(c, s, xs, os);
    SettleAllAt(c, s, ys, ps);
    SettleAllBeyond(c, s, xs, os);
    SettleAllBeyond(c, s, ys, ps);
    forall f ensures LocalOf(SettleAll(c, s, xs, os), f) == LocalOf(SettleAll(c, s, ys, ps), f) {
      SettledTheSame(c, s, SettleAll(c, s, xs, os), os, xs, SettleAll(c, s, ys, ps), ps, ys, f);
    }
    LocalsDetermine(SettleAll(c, s, xs, os), SettleAll(c, s, ys, ps));
    SettledCerts(c, s, xs, os);
    SettledCerts(c, s, ys, ps);
    assert Names(xs) == Names(ys);
  }

  ghost function Names(rs: seq<Route>): set<string> { set r | r in rs :: r.fqdn }

  /** Issuing for a list of names adds their certificates, and a lineage to each that had
      no certificate; the state file has kept up. */
  lemma {:induction false} SettledCerts(c: Config, s: Sys, pending: seq<Route>, os: seq<SettleOutcome>)
    requires |pending| == |os| && CanSettle(c, s, pending) && s.saved == s.memory
    requires forall o | o in os :: Upgraded(o) && o.stored
    ensures var m := SettleAll(c, s, pending, os);
            && m.saved == m.memory
            && m.certs == s.certs + Names(pending)
            && m.lineages == s.lineages + (Names(pending) - s.certs)
  {
    if pending != [] {
      var n := |pending| - 1;
      var front, last := pending[..n], pending[n];
      assert pending == front + [last] && os[n] in os;
      SettledCerts(c, s, front, os[..n]);
      assert Names(pending) == Names(front) + {last.fqdn};
      forall r | r in front ensures r.fqdn != last.fqdn {}
      SettledOneCerts(c, SettleAll(c, s, front, os[..n]), last, os[n]);
    }
  }

  lemma SettledOneCerts(c: Config, s: Sys, r: Route, o: SettleOutcome)
    requires Servable(c, r) && Upgraded(o) && o.stored
    ensures var m := SettleOne(c, s, r, o);
            && m.saved == m.memory
            && m.certs == s.certs + {r.fqdn}
            && m.lineages == s.lineages + ({r.fqdn} - s.certs)
  {}

  ghost predicate SettledAs(c: Config, s: Sys, m: Sys, pending: seq<Route>, os: seq<SettleOutcome>)
    requires |pending| == |os| && CanSettle(c, s, pending)
  {
    && (forall i | 0 <= i < |pending| ::
          LocalOf(m, pending[i].fqdn) == Settled(c, pending[i], os[i], LocalOf(s, pending[i].fqdn)))
    && (forall f | (forall r | r in pending :: r.fqdn != f) :: LocalOf(m, f) == LocalOf(s, f))
  }

  lemma SettledTheSame(c: Config, s: Sys, m: Sys, os: seq<SettleOutcome>, xs: seq<Route>,
                       n: Sys, ps: seq<SettleOutcome>, ys: seq<Route>, f: string)
    requires |os| == |xs| && |ps| == |ys| && CanSettle(c, s, xs) && CanSettle(c, s, ys)
    requires SettledAs(c, s, m, xs, os) && SettledAs(c, s, n, ys, ps)
    requires (forall o | o in os :: Upgraded(o)) && (forall o | o in ps :: Upgraded(o))
    requires forall r :: r in xs <==> r in ys
    ensures LocalOf(m, f) == LocalOf(n, f)
  {
    if r :| r in xs && r.fqdn == f {
      var i :| 0 <= i < |xs| && xs[i] == r;
      var j :| 0 <= j < |ys| && ys[j] == r;
      assert Upgraded(os[i]) && Upgraded(ps[j]);
    }
  }

  /** The files there were before split exactly into the kept and the pruned. */
  lemma PriorSplits(s: Sys, p: Plan, n: string)
    requires RouteNames(s.files) && n in s.files
    ensures n in p.desired <==> Stem(n) !in PrunedOf(s, p)
  {
    StemFileName(n);
    if n in p.desired {
      NotPruned(s, p, Stem(n));
    } else {
      assert Stem(n) in (set x | x in s.files && x !in p.desired :: Stem(x));
    }
  }

  // ---- retry after a crash ----

  /** The certificate state of an accepted request's entry once nothing is left to do. */
  predicate Finished(r: Route, cert: CertState) {
    if r.desired == Absent then cert == NoCert else IsPlatform(r.certRef) || cert == CertOK
  }

  /** What r is left as once its record is in the state file: its own entry, and a vhost of
      its own or, for a custom name without its certificate, none. */
  predicate Underway(c: Config, r: Route, x: Local) {
    && x.entry.Some? && x.entry.value.generation == r.generation
    && x.entry.value.present == (r.desired != Absent)
    && (if r.desired == Absent then x.file.None?
        else if x.file.None? then !IsPlatform(r.certRef) && x.entry.value.cert != CertOK
        else RenderedFrom(c, r, x.file.value))
  }

  /** A request cut off by a crash anywhere can be sent again. If its record had not
      reached the state file the retry is accepted and the name ends as the first attempt
      would have left it, its files and entry and all other files; the whole store does, if
      the state file was up to date when the request began. If the record had reached it,
      the retry is answered 409 at the very generation that was asked for and changes
      nothing: every other name is as without the crash, and its own name is exactly if its
      certificate state says that nothing was left to do. */
  lemma RetryConverges(c: Config, s: Sys, r: Route, m: Sys, o: ApplyOutcome, retry: ApplyOutcome)
    requires RouteNames(s.files) && Leq(s.saved, s.memory) && ValidRequest(c, r) && !Stale(s.memory, r)
    requires ApplyPoint(c, s, r, m) && CleanApply(o) && CleanApply(retry)
    ensures var (done, _) := ApplyNext(c, s, r, o);
            var (again, reply) := ApplyNext(c, Reloaded(m), r, retry);
            if m.saved == s.saved then
              && reply.code == 200
              && again.files == done.files
              && LocalOf(again, r.fqdn) == LocalOf(done, r.fqdn)
              && (s.saved == s.memory ==> again.memory == done.memory)
            else
              && reply.code == 409 && reply.generation == r.generation && again == Reloaded(m)
              && (forall f | f != r.fqdn :: LocalOf(again, f) == LocalOf(done, f))
              && var x := LocalOf(again, r.fqdn);
              && Underway(c, r, x) && (x == LocalOf(done, r.fqdn) <==> Finished(r, x.entry.value.cert))
  {
    hide ApplyNext, ApplyPoint, Mid, Goal, Underway;
    var restarted := Reloaded(m);
    ApplyPointMid(c, s, r, m);
    if m.saved == s.saved {
      RetryAt(c, s, r, m, o, retry);
      var a, b := ApplyNext(c, restarted, r, retry).0, ApplyNext(c, s, r, o).0;
      FilesAgree(a, b);
      if s.saved == s.memory { LocalsDetermine(a, b); }
      RetryFresh(s, r, m);
      CleanCode(c, restarted, r, retry);
    } else {
      SavedPoint(c, s, r, m);
      CleanApplyAt(c, s, r, o);
      RetryRefused(c, restarted, r, retry);
      forall f | f != r.fqdn ensures LocalOf(restarted, f) == LocalOf(s, f) { LocalElsewhere(s, r, m, f); }
    }
  }

  lemma RetryFresh(s: Sys, r: Route, m: Sys)
    requires Leq(s.saved, s.memory) && !Stale(s.memory, r) && m.saved == s.saved
    ensures !Stale(Reloaded(m).memory, r)
  {}

  lemma RetryRefused(c: Config, s: Sys, r: Route, o: ApplyOutcome)
    requires r.fqdn in s.memory.entries && s.memory.entries[r.fqdn].generation == r.generation
    ensures ApplyNext(c, s, r, o) == (s, ApplyReply(409, false, r.generation, None))
  {}

  lemma LocalElsewhere(s: Sys, r: Route, m: Sys, f: string)
    requires Mid(s, r.fqdn, r.generation, m) && m.saved != s.saved && f != r.fqdn
    ensures LocalOf(Reloaded(m), f) == LocalOf(s, f)
  {
    assert f !in {r.fqdn};
  }

  /** Once the record is in the state file. */
  lemma SavedPoint(c: Config, s: Sys, r: Route, m: Sys)
    requires ValidRequest(c, r) && ApplyPoint(c, s, r, m) && m.saved != s.saved
    ensures var x := LocalOf(Reloaded(m), r.fqdn);
            Underway(c, r, x) && (x == Goal(c, r) <==> Finished(r, x.entry.value.cert))
  {
    var stored := EnteredPoint(c, s, r, true, m);
    if r.desired == Absent {
      SavedPruning(Entered(c, s, r, stored), s.saved, r, m);
    } else {
      RenderCarries(c, r, true);
      RenderCarries(c, r, false);
      if !IsPlatform(r.certRef) { SavedSettling(c, s, r, stored, m); }
    }
  }

  lemma SavedPruning(s: Sys, before: Image, r: Route, m: Sys)
    requires r.fqdn in s.memory.entries && s.memory.entries[r.fqdn] == EntryOf(r)
    requires (s.saved == s.memory || s.saved == before) && m.saved != before && PrunePoint(s, r.fqdn, m)
    ensures r.fqdn in m.saved.entries
    ensures var e := m.saved.entries[r.fqdn];
            e == EntryOf(r) || (e.cert == CertFailed && e == EntryOf(r).(cert := CertFailed, certError := e.certError))
  {}

  lemma SavedSettling(c: Config, s: Sys, r: Route, stored: bool, m: Sys)
    requires Servable(c, r) && !IsPlatform(r.certRef) && EnteredPoint(c, s, r, stored, m) && m.saved != s.saved
    ensures var x := LocalOf(Reloaded(m), r.fqdn);
            Underway(c, r, x) && (x == Goal(c, r) <==> x.entry.value.cert == CertOK)
  {
    RenderCarries(c, r, true);
    RenderCarries(c, r, false);
    var s1 := Entered(c, s, r, stored);
    assert s1.files == s.files[FileName(r.fqdn) := Site(SiteOf(c, r, CertReady(s, r)))];
    SavedEntry(c, s1, s.saved, r, CertReady(s, r), m);
  }

  lemma SavedEntry(c: Config, s: Sys, before: Image, r: Route, ready: bool, m: Sys)
    requires Servable(c, r) && r.fqdn in s.memory.entries && s.memory.entries[r.fqdn] == EntryOf(r)
    requires (s.saved == s.memory || s.saved == before) && m.saved != before
    requires SettlePoint(c, s, r, CertPaths(c, r).value, ready, m)
    ensures r.fqdn in m.saved.entries
    ensures var e := m.saved.entries[r.fqdn];
            || e == EntryOf(r)
            || (e.cert == CertFailed && e == EntryOf(r).(cert := CertFailed, certError := e.certError))
            || (e == EntryOf(r).(cert := CertOK)
                && (ready || m.files == s.files[FileName(r.fqdn) := Site(SiteOf(c, r, true))]))
  {
    hide RenderVhost;
  }

  /** A removal sent again after its record was made leaves the certbot lineage of its name
      exactly if the crash came before certbot had dropped it. */
  lemma RetryKeepsLineage(c: Config, s: Sys, r: Route, m: Sys, o: ApplyOutcome, retry: ApplyOutcome)
    requires Validate(c, r).None? && r.desired == Absent && !Stale(s.memory, r)
    requires ApplyPoint(c, s, r, m) && m.saved != s.saved && CleanApply(o)
    ensures ApplyNext(c, Reloaded(m), r, retry).0.lineages == ApplyNext(c, s, r, o).0.lineages <==>
              r.fqdn !in m.lineages
  {
    var stored := EnteredPoint(c, s, r, true, m);
    SavedPruning(Entered(c, s, r, stored), s.saved, r, m);
    RetryRefused(c, Reloaded(m), r, retry);
  }

  /** A snapshot puts it right: whatever point the crash caught the request in, a sync that
      lists it leaves its name as the request asks. */
  lemma SyncRepairs(c: Config, s: Sys, r: Route, m: Sys, req: SyncRequest, o: SyncOutcome)
    requires RouteNames(s.files) && Leq(s.saved, s.memory) && ApplyPoint(c, s, r, m)
    requires CurrentManifest(c, s, req.routes) && r in req.routes
    requires !StaleSnapshot(m.saved, req) && Fits(c, Reloaded(m), req, o) && CleanSync(o)
    ensures SyncNext(c, Reloaded(m), req, o).1.code == 200
    ensures LocalOf(SyncNext(c, Reloaded(m), req, o).0, r.fqdn) == Goal(c, r)
  {
    hide Servable, SyncNext, Goal, ApplyPoint;
    ApplyPointMid(c, s, r, m);
    forall q | q in req.routes ensures !Older(m.saved, q) {
      assert q.fqdn == r.fqdn ==> q == r;
    }
    CleanSyncAt(c, Reloaded(m), req, o, r);
  }

  lemma RetryAt(c: Config, s: Sys, r: Route, m: Sys, o: ApplyOutcome, retry: ApplyOutcome)
    requires RouteNames(s.files) && Leq(s.saved, s.memory) && ValidRequest(c, r) && !Stale(s.memory, r)
    requires Mid(s, r.fqdn, r.generation, m) && m.saved == s.saved && CleanApply(o) && CleanApply(retry)
    ensures var a, b := ApplyNext(c, Reloaded(m), r, retry).0, ApplyNext(c, s, r, o).0;
            && RouteNames(a.files) && RouteNames(b.files)
            && (forall f :: LocalOf(a, f).file == LocalOf(b, f).file)
            && LocalOf(a, r.fqdn) == LocalOf(b, r.fqdn)
            && (s.saved == s.memory ==>
                  a.memory.snapshotGen == b.memory.snapshotGen && forall f :: LocalOf(a, f) == LocalOf(b, f))
  {
    var restarted := Reloaded(m);
    hide ApplyNext;
    CleanApplyAt(c, s, r, o);
    CleanApplyAt(c, restarted, r, retry);
    ReservedNames(r.fqdn, "");
    forall f | f != r.fqdn ensures LocalOf(restarted, f).file == LocalOf(s, f).file { assert f !in {r.fqdn}; }
  }

  lemma FilesAgree(a: Sys, b: Sys)
    requires RouteNames(a.files) && RouteNames(b.files) && forall f :: LocalOf(a, f).file == LocalOf(b, f).file
    ensures a.files == b.files
  {
    forall n | n in a.files || n in b.files ensures n in a.files && n in b.files && a.files[n] == b.files[n] {
      StemFileName(n);
      assert LocalOf(a, Stem(n)).file == LocalOf(b, Stem(n)).file;
    }
  }

  lemma CleanCode(c: Config, s: Sys, r: Route, o: ApplyOutcome)
    requires ValidRequest(c, r) && CleanApply(o) && !Stale(s.memory, r)
    ensures ApplyNext(c, s, r, o).1.code == 200
  {
    if r.desired == Absent { RemoveAt(c, s, r, o); } else { ServeAt(c, s, r, o); }
  }
}
