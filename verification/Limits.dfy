/** Where the code stops short of a promise: the exact condition, and a concrete request
    that meets it. */
module Limits {
  import opened Wrappers
  import opened Sorting
  import opened Hostnames
  import opened SourcePolicy
  import opened Render
  import opened Lifecycle
  import opened Agreement
  import opened SyncAgreement
  import opened Convergence
  import opened Points
  import opened Runs

  // ---- Results[].Applied and repeated names ----

  /** The manifest has an entry for f that falls to the stale guard. */
  ghost predicate OlderAmong(s: Sys, routes: seq<Route>, f: string) {
    exists r :: r in routes && r.fqdn == f && r.desired != Absent && Older(s.memory, r)
  }

  /** The manifest has an entry for f that does not. */
  ghost predicate FreshAmong(s: Sys, routes: seq<Route>, f: string) {
    exists r :: r in routes && r.fqdn == f && Fresh(s, r)
  }

  lemma {:induction false} KeptExactly(c: Config, s: Sys, acc: Plan, routes: seq<Route>, f: string)
    requires PlanAll(c, s, acc, routes).Success?
    ensures f in PlanAll(c, s, acc, routes).value.kept <==> f in acc.kept || OlderAmong(s, routes, f)
    decreases routes
  {
    if routes != [] {
      var q, next := routes[0], PlanRoute(c, s, acc, routes[0]).value;
      if q.desired != Absent { PlanStep(c, s, acc, q, next); }
      KeptExactly(c, s, next, routes[1..], f);
      assert OlderAmong(s, routes, f) <==>
               OlderAmong(s, routes[1..], f) || (q.fqdn == f && q.desired != Absent && Older(s.memory, q));
    }
  }

  /** The flag of a name says whether the stale guard caught no entry of it; so it tells
      whether an entry took effect exactly when the manifest does not hold both kinds. */
  lemma AppliedFlags(c: Config, s: Sys, req: SyncRequest, o: SyncOutcome, r: Route) returns (i: nat)
    requires RouteNames(s.files) && Fits(c, s, req, o) && SyncNext(c, s, req, o).1.code == 200
    requires r in req.routes && r.desired != Absent
    ensures i < |SyncNext(c, s, req, o).1.results|
    ensures var x := SyncNext(c, s, req, o).1.results[i];
            && x.fqdn == r.fqdn
            && (x.applied <==> !OlderAmong(s, req.routes, r.fqdn))
            && (Fresh(s, r) ==> x.generation == r.generation)
            && ((x.applied <==> FreshAmong(s, req.routes, r.fqdn))
                  <==> !(OlderAmong(s, req.routes, r.fqdn) && FreshAmong(s, req.routes, r.fqdn)))
  {
    AcceptsCode(c, s, req, o);
    var p, f := PlanOf(c, s, req).value, r.fqdn;
    KeptExactly(c, s, EMPTY_PLAN, req.routes, f);
    if Fresh(s, r) { FreshWins(c, s, EMPTY_PLAN, req.routes, r); }
    assert f in p.entries by { EntryPlanned(c, s, EMPTY_PLAN, req.routes, f); }
    var names := Listing(p.entries.Keys);
    assert f in names;
    i :| 0 <= i < |names| && names[i] == f;
    assert ResultsOf(p)[i].fqdn == f;
  }

  lemma {:induction false} EntryPlanned(c: Config, s: Sys, acc: Plan, routes: seq<Route>, f: string)
    requires PlanAll(c, s, acc, routes).Success?
    requires f in acc.entries || exists r :: r in routes && r.fqdn == f && r.desired != Absent
    ensures f in PlanAll(c, s, acc, routes).value.entries
    decreases routes
  {
    if routes != [] {
      var q, next := routes[0], PlanRoute(c, s, acc, routes[0]).value;
      if q.desired != Absent { PlanStep(c, s, acc, q, next); }
      if q.fqdn == f && q.desired != Absent {
        assert PlanLocal(next, f).entry.Some?;
      } else if f in acc.entries {
        assert f in next.entries;
      }
      EntryPlanned(c, s, next, routes[1..], f);
    }
  }

  // ---- PENDING after a sync ----

  /** What the stale guard keeps of a name. */
  function KeptLocal(s: Sys, f: string): Local
    requires f in s.memory.entries
  {
    var x := LocalOf(s, f);
    if IsPresent(x) && x.file.Some? then x else Local(Some(x.entry.value.(present := false)), None)
  }

  lemma {:induction false} OnlyOlder(c: Config, s: Sys, acc: Plan, routes: seq<Route>, f: string)
    requires PlanAll(c, s, acc, routes).Success? && !FreshAmong(s, routes, f)
    ensures OlderAmong(s, routes, f) ==> f in s.memory.entries
    ensures PlanLocal(PlanAll(c, s, acc, routes).value, f) ==
              if OlderAmong(s, routes, f) then KeptLocal(s, f) else PlanLocal(acc, f)
    decreases routes
  {
    if routes != [] {
      var q, next := routes[0], PlanRoute(c, s, acc, routes[0]).value;
      if q.desired != Absent { PlanStep(c, s, acc, q, next); }
      assert !FreshAmong(s, routes[1..], f);
      OnlyOlder(c, s, next, routes[1..], f);
      assert OlderAmong(s, routes, f) <==>
               OlderAmong(s, routes[1..], f) || (q.fqdn == f && q.desired != Absent && Older(s.memory, q));
      assert q.fqdn == f && q.desired != Absent ==> Older(s.memory, q);
    }
  }

  /** certbot was asked to delete f's certificate and did not. */
  ghost predicate Undeleted(s: Sys, names: seq<string>, os: seq<PruneOutcome>, f: string)
    requires |names| == |os|
  {
    exists i :: 0 <= i < |names| && names[i] == f && f in s.lineages && os[i].DeleteFailed?
  }

  lemma {:induction false} PruneCertAt(s: Sys, names: seq<string>, os: seq<PruneOutcome>, f: string)
    requires |names| == |os| && forall i, j | 0 <= i < j < |names| :: names[i] != names[j]
    ensures var m := PruneAll(s, names, os);
            && (f in s.memory.entries ==> f in m.memory.entries)
            && EntryAt(m.memory, f).cert ==
                 (if Undeleted(s, names, os, f) then CertFailed else EntryAt(s.memory, f).cert)
            && (f !in names ==> (f in m.lineages <==> f in s.lineages))
  {
    if names != [] {
      var n := |names| - 1;
      PruneCertAt(s, names[..n], os[..n], f);
      assert names == names[..n] + [names[n]];
      UndeletedSnoc(s, names, os, f);
    }
  }

  lemma UndeletedSnoc(s: Sys, names: seq<string>, os: seq<PruneOutcome>, f: string)
    requires |names| == |os| && names != []
    ensures var n := |names| - 1;
            Undeleted(s, names, os, f) <==>
              Undeleted(s, names[..n], os[..n], f) || (names[n] == f && f in s.lineages && os[n].DeleteFailed?)
  {
    var n := |names| - 1;
    if i :| 0 <= i < n && names[i] == f && f in s.lineages && os[i].DeleteFailed? {
      assert names[..n][i] == f && os[..n][i].DeleteFailed?;
    }
    if i :| 0 <= i < n && names[..n][i] == f && f in s.lineages && os[..n][i].DeleteFailed? {
      assert names[i] == f && os[i].DeleteFailed?;
    }
  }

  lemma {:induction false} SettledElsewhere(c: Config, s: Sys, pending: seq<Route>, os: seq<SettleOutcome>, f: string)
    requires |pending| == |os| && forall r | r in pending :: r.fqdn != f
    ensures var m := SettleAll(c, s, pending, os);
            (f in m.memory.entries <==> f in s.memory.entries) && EntryAt(m.memory, f) == EntryAt(s.memory, f)
  {
    if pending != [] {
      var n := |pending| - 1;
      SettledElsewhere(c, s, pending[..n], os[..n], f);
      assert pending[n] in pending;
      OneElsewhere(c, SettleAll(c, s, pending[..n], os[..n]), pending[n], os[n], f);
    }
  }

  lemma OneElsewhere(c: Config, s: Sys, r: Route, o: SettleOutcome, f: string)
    requires r.fqdn != f
    ensures var m := SettleOne(c, s, r, o);
            (f in m.memory.entries <==> f in s.memory.entries) && EntryAt(m.memory, f) == EntryAt(s.memory, f)
  {
    hide RenderVhost, CertPaths;
  }

  /** What the plan has for a name whose certificate is not waited for. */
  lemma PlannedCert(c: Config, s: Sys, req: SyncRequest, p: Plan, f: string)
    requires PlanOf(c, s, req) == Success(p) && !IsPending(p, f)
    ensures (f in p.entries && p.entries[f].cert == CertPending) <==>
              && OlderAmong(s, req.routes, f) && !FreshAmong(s, req.routes, f)
              && f in s.memory.entries && s.memory.entries[f].cert == CertPending
  {
    if FreshAmong(s, req.routes, f) {
      var r :| r in req.routes && r.fqdn == f && Fresh(s, r);
      FreshWins(c, s, EMPTY_PLAN, req.routes, r);
      assert PlanLocal(p, f) == RouteLocal(c, s, r);
      if !CertReady(s, r) { PendingAll(c, s, EMPTY_PLAN, req.routes, r); }
    } else {
      OnlyOlder(c, s, EMPTY_PLAN, req.routes, f);
    }
  }

  /** Exactly which names a sync leaves PENDING: those that were, and whose newer state it
      keeps - unless their vhost was dropped and certbot could not delete the certificate. */
  lemma PendingExactly(c: Config, s: Sys, req: SyncRequest, o: SyncOutcome, p: Plan, f: string)
    requires RouteNames(s.files) && Accepts(c, s, req, o, p)
    ensures var x, y := LocalOf(s, f), LocalOf(SyncNext(c, s, req, o).0, f);
            (y.entry.Some? && y.entry.value.cert == CertPending) <==>
              && OlderAmong(s, req.routes, f) && !FreshAmong(s, req.routes, f)
              && x.entry.Some? && x.entry.value.cert == CertPending
              && !Undeleted(s, PrunedOf(s, p), o.prunes, f)
  {
    var m := SyncNext(c, s, req, o).0;
    SyncAt(c, s, req, o, p);
    if IsPending(p, f) {
      var i :| 0 <= i < |p.pending| && p.pending[i].fqdn == f;
      assert LocalOf(m, f) == Settled(c, p.pending[i], o.settles[i], PlanLocal(p, f));
      SettledNow(c, s, p, o.settles[i], i);
      if !FreshAmong(s, req.routes, f) { NotFreshNotPending(c, s, EMPTY_PLAN, req.routes, f); }
    } else {
      var s0 := Swapped(s, req, p, o.stored);
      PruneCertAt(s0, PrunedOf(s, p), o.prunes, f);
      SettledElsewhere(c, PruneAll(s0, PrunedOf(s, p), o.prunes), p.pending, o.settles, f);
      PlannedCert(c, s, req, p, f);
    }
  }

  lemma SettledNow(c: Config, s: Sys, p: Plan, o: SettleOutcome, i: nat)
    requires PlanGood(c, s, p) && i < |p.pending|
    ensures var y := Settled(c, p.pending[i], o, PlanLocal(p, p.pending[i].fqdn));
            y.entry.Some? ==> y.entry.value.cert != CertPending
  {}

  /** A present name stays PENDING exactly when its newer state is kept with its vhost. */
  lemma PresentPending(c: Config, s: Sys, req: SyncRequest, o: SyncOutcome, f: string)
    requires RouteNames(s.files) && Fits(c, s, req, o) && SyncNext(c, s, req, o).1.code == 200
    ensures var x, y := LocalOf(s, f), LocalOf(SyncNext(c, s, req, o).0, f);
            (IsPresent(y) && y.entry.value.cert == CertPending) <==>
              && OlderAmong(s, req.routes, f) && !FreshAmong(s, req.routes, f)
              && IsPresent(x) && x.file.Some? && x.entry.value.cert == CertPending
  {
    AcceptsCode(c, s, req, o);
    var p, m := PlanOf(c, s, req).value, SyncNext(c, s, req, o).0;
    SyncAt(c, s, req, o, p);
    if FreshAmong(s, req.routes, f) {
      FreshSettled(c, s, req, p, m, o.settles, f);
    } else {
      OnlyOlder(c, s, EMPTY_PLAN, req.routes, f);
      NotFreshNotPending(c, s, EMPTY_PLAN, req.routes, f);
    }
  }

  lemma {:induction false} NotFreshNotPending(c: Config, s: Sys, acc: Plan, routes: seq<Route>, f: string)
    requires PlanAll(c, s, acc, routes).Success? && !FreshAmong(s, routes, f) && !IsPending(acc, f)
    ensures !IsPending(PlanAll(c, s, acc, routes).value, f)
    decreases routes
  {
    if routes != [] {
      var q, next := routes[0], PlanRoute(c, s, acc, routes[0]).value;
      if q.desired != Absent { PlanStep(c, s, acc, q, next); }
      assert !FreshAmong(s, routes[1..], f);
      NotFreshNotPending(c, s, next, routes[1..], f);
    }
  }

  lemma FreshSettled(c: Config, s: Sys, req: SyncRequest, p: Plan, m: Sys, settles: seq<SettleOutcome>, f: string)
    requires PlanOf(c, s, req) == Success(p) && FreshAmong(s, req.routes, f)
    requires PlanGood(c, s, p) && |settles| == |p.pending| && EndsAs(c, s, p, m, settles)
    ensures var y := LocalOf(m, f); IsPresent(y) ==> y.entry.value.cert != CertPending
  {
    var r :| r in req.routes && r.fqdn == f && Fresh(s, r);
    FreshWins(c, s, EMPTY_PLAN, req.routes, r);
    if !CertReady(s, r) {
      PendingAll(c, s, EMPTY_PLAN, req.routes, r);
      var i :| 0 <= i < |p.pending| && p.pending[i] == r;
      assert LocalOf(m, p.pending[i].fqdn) == Settled(c, p.pending[i], settles[i], PlanLocal(p, p.pending[i].fqdn));
    }
  }

  // ---- concrete requests ----

  const CFG := Config(None, "le", map["p" := CertPair("cert", "key")], "/live", true)
  const NOTHING := Sys(map[], Image(map[], 0), Image(map[], 0), {}, {})
  function Guest(): Addr {
    Pow2Values();
    Addr(false, (172 * 256 + 29) * 65536 + 5)
  }

  function Shared(g: int): Route { Route("a", Present, g, Some(Guest()), 80, "wildcard:p", None) }
  function Custom(g: int): Route { Route("a", Present, g, Some(Guest()), 80, "le", None) }

  lemma NameA()
    ensures Hostname("a") && IsRouteName(FileName("a"))
  {
    SplitJoin(["a"], '.');
    ReservedNames("a", "");
  }

  lemma Routes(g: int)
    ensures Servable(CFG, Shared(g)) && Servable(CFG, Custom(g))
    ensures IsPlatform(Shared(g).certRef) && !IsPlatform(Custom(g).certRef)
  {
    NameA();
    assert 'a' in "a" && !IsSpace('a');
    Pow2Values();
    assert Contains(TargetNet(), Guest());
    assert "wildcard:p"[|WILDCARD|..] == "p";
    assert "le"[0] != WILDCARD[0];
  }

  /** A custom domain's certificate is issued, the backup of its challenge vhost cannot be
      read, and nginx refuses the upgrade: undoing it removes the vhost, and the reply is
      200 (internal/manager/manager.go:157). */
  lemma LostBackupExample()
    ensures var o := ApplyOutcome(Confirmed, true, SettleOutcome(Issued, false, Undone(true), "", true), Deleted);
            var (m, reply) := ApplyNext(CFG, NOTHING, Custom(1), o);
            && Agrees(CFG, NOTHING, map[]) && reply.code == 200
            && m.memory.entries["a"].present && FileName("a") !in m.files
            && !Agrees(CFG, m, ApplyOrigin(CFG, NOTHING, Custom(1), o, map[]))
  {
    var o := ApplyOutcome(Confirmed, true, SettleOutcome(Issued, false, Undone(true), "", true), Deleted);
    Routes(1);
    ServeAt(CFG, NOTHING, Custom(1), o);
    ApplyAgreement(CFG, NOTHING, Custom(1), o, map[]);
    var x := LocalOf(ApplyNext(CFG, NOTHING, Custom(1), o).0, "a");
    assert IsPresent(x) && x.file.None?;
  }

  /** The state file cannot be written, the reply is 200, and a restart has forgotten the
      generation: an older request is then accepted (internal/manager/manager.go:128). */
  lemma UnstoredExample()
    ensures var o := ApplyOutcome(Confirmed, false, SettleOutcome(Issued, true, Blocked, "", false), Deleted);
            var (m, reply) := ApplyNext(CFG, NOTHING, Shared(2), o);
            && reply.code == 200
            && ApplyNext(CFG, m, Shared(1), o).1.code == 409
            && ApplyNext(CFG, Reloaded(m), Shared(1), o).1.code == 200
  {
    Routes(1);
    Routes(2);
    var o := ApplyOutcome(Confirmed, false, SettleOutcome(Issued, true, Blocked, "", false), Deleted);
    ServeAt(CFG, NOTHING, Shared(2), o);
    ServeAt(CFG, Reloaded(ApplyNext(CFG, NOTHING, Shared(2), o).0), Shared(1), o);
  }

  const DONE := ApplyOutcome(Confirmed, true, SettleOutcome(Issued, true, Confirmed, "", true), Deleted)
  const REMOVAL := Route("a", Absent, 3, None, 0, "", None)

  /** A vhost of generation 1 and its entry, on disk and in the state file. */
  function Served(): Sys {
    Routes(1);
    var image := Image(map["a" := Entry(1, true, NoCert, "")], 0);
    Sys(map[FileName("a") := Site(SiteOf(CFG, Shared(1), true))], image, image, {}, {})
  }

  /** A removal is answered 200, its tombstone cannot be written, and after a restart a late
      request from before it is accepted: the vhost is back, though nothing newer than the
      removal was ever asked for (internal/manager/manager.go:104). */
  lemma ForgottenTombstoneExample()
    ensures var (m, reply) := ApplyNext(CFG, Served(), REMOVAL, DONE.(stored := false));
            var es := [ApplyCrash(Shared(2), m), ApplyDone(Shared(2), DONE)];
            && reply.code == 200 && Gone(m, "a", 3) && ApplyNext(CFG, m, Shared(2), DONE).1.code == 409
            && LegalRun(CFG, m, es) && NothingNewerIn(es, "a", 3)
            && FileName("a") in After(CFG, m, es).files
  {
    hide Validate, RenderVhost, CertPaths;
    NameA();
    ValidMeans(CFG, REMOVAL);
    var o := DONE.(stored := false);
    RemoveAt(CFG, Served(), REMOVAL, o);
    LateRequest(ApplyNext(CFG, Served(), REMOVAL, o).0);
  }

  lemma LateRequest(m: Sys)
    requires m.saved == Served().saved
    ensures var es := [ApplyCrash(Shared(2), m), ApplyDone(Shared(2), DONE)];
            LegalRun(CFG, m, es) && NothingNewerIn(es, "a", 3) && FileName("a") in After(CFG, m, es).files
  {
    hide LegalRun, After, ApplyNext;
    Routes(2);
    var crash, late := ApplyCrash(Shared(2), m), ApplyDone(Shared(2), DONE);
    TwoEvents(CFG, m, crash, late);
    ServeAt(CFG, Reloaded(m), Shared(2), DONE);
    assert LocalOf(ApplyNext(CFG, Reloaded(m), Shared(2), DONE).0, "a").file.Some?;
  }

  lemma TwoEvents(c: Config, s: Sys, a: Event, b: Event)
    requires Legal(c, s, a) && Legal(c, Next(c, s, a), b)
    ensures LegalRun(c, s, [a, b]) && After(c, s, [a, b]) == Next(c, Next(c, s, a), b)
  {
    hide Legal, Next;
    var m := Next(c, s, a);
    assert [a, b][1..] == [b] && [b][1..] == [] && [b][0] == b;
    assert LegalRun(c, Next(c, m, b), []);
    assert LegalRun(c, m, [b]);
    assert After(c, m, [b]) == After(c, Next(c, m, b), []);
  }

  /** A custom name's request is cut off between its record and its certificate. Sent again
      it is answered 409, and the challenge vhost stays with an empty certificate state:
      neither OK nor FAILED (internal/manager/manager.go:80-83, :128-135). */
  lemma CutOffExample()
    ensures var m := Entered(CFG, NOTHING, Custom(1), true);
            var (again, reply) := ApplyNext(CFG, Reloaded(m), Custom(1), DONE);
            && ApplyPoint(CFG, NOTHING, Custom(1), m) && reply.code == 409
            && LocalOf(again, "a") ==
                 Local(Some(Entry(1, true, NoCert, "")), Some(Site(SiteOf(CFG, Custom(1), false))))
            && LocalOf(again, "a") != Goal(CFG, Custom(1))
  {
    Routes(1);
    EnteredHere(1);
  }

  lemma EnteredHere(g: int)
    requires Servable(CFG, Custom(g)) && !IsPlatform(Custom(g).certRef)
    ensures var m := Entered(CFG, NOTHING, Custom(g), true);
            && EnteredPoint(CFG, NOTHING, Custom(g), true, m)
            && m.memory.entries == map["a" := Entry(g, true, NoCert, "")] && m.saved == m.memory
            && m.files == map[FileName("a") := Site(SiteOf(CFG, Custom(g), false))]
  {}

  /** A removal cut off between its record and certbot leaves the lineage: sent again it is
      answered 409, and nothing is deleted (internal/manager/manager.go:80-83, :104-106). */
  lemma OrphanLineageExample()
    ensures var s := NOTHING.(certs := {"a"}, lineages := {"a"});
            var m := Entered(CFG, s, REMOVAL, true);
            var (again, reply) := ApplyNext(CFG, Reloaded(m), REMOVAL, DONE);
            && ApplyPoint(CFG, s, REMOVAL, m) && reply.code == 409 && "a" in again.lineages
            && "a" !in ApplyNext(CFG, s, REMOVAL, DONE).0.lineages
  {
    NameA();
    assert !IsSpace('a') && 'a' in "a";
  }

  /** Zero means never synced: a negative snapshot generation is accepted after it
      (internal/manager/manager.go:201). */
  lemma NegativeSnapshotExample()
    ensures var req, o := SyncRequest(-1, []), Accepted(true, [], []);
            && Fits(CFG, NOTHING, req, o)
            && SyncNext(CFG, NOTHING, req, o).1.code == 200
            && SyncNext(CFG, NOTHING, req, o).0.memory.snapshotGen < NOTHING.memory.snapshotGen
  {
    var p := EMPTY_PLAN;
    assert PlanOf(CFG, NOTHING, SyncRequest(-1, [])) == Success(p);
    assert (set n | n in NOTHING.files && n !in p.desired :: Stem(n)) == {};
    assert PrunedOf(NOTHING, p) == [];
  }

  /** A name twice in a manifest, first older than its tombstone, then newer: the second
      entry is served, and its result says it was not applied
      (internal/manager/manager.go:226, :232, :304). */
  lemma RepeatedNameExample()
    ensures var s := NOTHING.(memory := Image(map["a" := Entry(5, false, NoCert, "")], 0));
            var req, o := SyncRequest(1, [Shared(3), Shared(7)]), Accepted(true, [], []);
            && Fits(CFG, s, req, o)
            && SyncNext(CFG, s, req, o).1.code == 200
            && SyncNext(CFG, s, req, o).1.results == [FqdnResult("a", false, 7)]
            && FileName("a") in SyncNext(CFG, s, req, o).0.files
  {
    var s := NOTHING.(memory := Image(map["a" := Entry(5, false, NoCert, "")], 0));
    var routes := [Shared(3), Shared(7)];
    var p := RepeatedPlan(s);
    assert (set n | n in s.files && n !in p.desired :: Stem(n)) == {};
    assert PrunedOf(s, p) == [];
    assert p.entries.Keys == {"a"};
    assert Listing({"a"}) == ["a"];
    assert ResultsOf(p) == [FqdnResult("a", false, 7)];
  }

  lemma RepeatedPlan(s: Sys) returns (p: Plan)
    requires s == NOTHING.(memory := Image(map["a" := Entry(5, false, NoCert, "")], 0))
    ensures PlanAll(CFG, s, EMPTY_PLAN, [Shared(3), Shared(7)]) == Success(p)
    ensures p.entries == map["a" := Entry(7, true, NoCert, "")] && p.kept == {"a"} && p.pending == []
    ensures FileName("a") in p.desired
  {
    Routes(3);
    Routes(7);
    var routes := [Shared(3), Shared(7)];
    var kept := Keep(s, EMPTY_PLAN, Shared(3));
    assert PlanRoute(CFG, s, EMPTY_PLAN, Shared(3)) == Success(kept);
    p := Place(s, kept, Shared(7), SiteOf(CFG, Shared(7), true));
    assert PlanRoute(CFG, s, kept, Shared(7)) == Success(p);
    assert routes[1..] == [Shared(7)] && routes[1..][1..] == [];
    assert PlanAll(CFG, s, p, []) == Success(p);
    assert PlanAll(CFG, s, kept, routes[1..]) == Success(p);
  }

  /** What a crash leaves between the swap of a sync and its settling. */
  function Interrupted(): Sys {
    Routes(5);
    var image := Image(map["a" := Entry(5, true, CertPending, "")], 1);
    Sys(map[FileName("a") := Site(SiteOf(CFG, Custom(5), false))], image, image, {}, {})
  }

  /** An older manifest keeps the interrupted name, PENDING as it is
      (internal/manager/manager.go:232-243). */
  lemma PendingExample()
    ensures var req, o := SyncRequest(2, [Custom(3)]), Accepted(true, [], []);
            && Fits(CFG, Interrupted(), req, o)
            && SyncNext(CFG, Interrupted(), req, o).1.code == 200
            && SyncNext(CFG, Interrupted(), req, o).0.memory.entries["a"] == Entry(5, true, CertPending, "")
  {
    Routes(3);
    var s, routes := Interrupted(), [Custom(3)];
    var p := Keep(s, EMPTY_PLAN, Custom(3));
    assert PlanRoute(CFG, s, EMPTY_PLAN, Custom(3)) == Success(p);
    assert routes[1..] == [];
    assert PlanAll(CFG, s, p, []) == Success(p);
    assert PlanAll(CFG, s, EMPTY_PLAN, routes) == Success(p);
    assert (set n | n in s.files && n !in p.desired :: Stem(n)) == {};
    assert PrunedOf(s, p) == [];
  }
}
