/** What a sync does, name by name: it restores the agreement of files and entries from
    any state, and keeps the rest of it exactly when no certificate upgrade goes astray. */
module SyncAgreement {
  import opened Wrappers
  import opened Sorting
  import opened Hostnames
  import opened Render
  import opened Lifecycle
  import opened Agreement

  // ---- the plan, name by name ----

  /** What the plan holds for one name. */
  function PlanLocal(p: Plan, f: string): Local {
    Local(if f in p.entries then Some(p.entries[f]) else None,
          if FileName(f) in p.desired then Some(p.desired[FileName(f)]) else None)
  }

  /** A manifest entry that does not fall to the stale guard. */
  predicate Fresh(s: Sys, r: Route) { r.desired != Absent && !Older(s.memory, r) }

  /** What an accepted manifest entry plans for its name. */
  function RouteLocal(c: Config, s: Sys, r: Route): Local
    requires Older(s.memory, r) || Servable(c, r)
  {
    if Older(s.memory, r) then
      var x := LocalOf(s, r.fqdn);
      if IsPresent(x) && x.file.Some? then x
      else Local(Some(x.entry.value.(present := false)), None)
    else Local(Some(Entry(r.generation, true, FreshState(s, r), "")), Some(Site(SiteOf(c, r, CertReady(s, r)))))
  }

  lemma PlanStep(c: Config, s: Sys, acc: Plan, r: Route, next: Plan)
    requires PlanRoute(c, s, acc, r) == Success(next) && r.desired != Absent
    ensures FileName(r.fqdn) !in acc.desired && IsRouteName(FileName(r.fqdn))
    ensures Older(s.memory, r) || Servable(c, r)
    ensures PlanLocal(next, r.fqdn) == RouteLocal(c, s, r)
    ensures forall g | g != r.fqdn :: PlanLocal(next, g) == PlanLocal(acc, g)
    ensures forall n | n in next.desired :: n in acc.desired || n == FileName(r.fqdn)
    ensures next.pending == if Older(s.memory, r) || CertReady(s, r) then acc.pending else acc.pending + [r]
    ensures next.kept == if Older(s.memory, r) then acc.kept + {r.fqdn} else acc.kept
  {
    ReservedNames(r.fqdn, "");
    forall g | g != r.fqdn ensures FileName(g) != FileName(r.fqdn) { FileNames(g, r.fqdn); }
    if !Older(s.memory, r) {
      assert next == Place(s, acc, r, SiteOf(c, r, CertReady(s, r)));
    }
  }

  ghost predicate DistinctNames(routes: seq<Route>) {
    forall i, j | 0 <= i < j < |routes| :: routes[i].fqdn != routes[j].fqdn
  }

  /** Names waiting for a certificate are planned as challenge vhosts, each once. */
  ghost predicate PendingOk(c: Config, s: Sys, p: Plan) {
    && DistinctNames(p.pending)
    && forall r | r in p.pending ::
         && Servable(c, r) && !CertReady(s, r)
         && PlanLocal(p, r.fqdn) ==
              Local(Some(Entry(r.generation, true, CertPending, "")), Some(Site(SiteOf(c, r, false))))
  }

  ghost predicate IsPending(p: Plan, f: string) { exists r :: r in p.pending && r.fqdn == f }

  ghost predicate PlanGood(c: Config, s: Sys, p: Plan) {
    && RouteNames(p.desired)
    && (forall f :: LocalMatched(PlanLocal(p, f)))
    && PendingOk(c, s, p)
  }

  lemma PlanStepGood(c: Config, s: Sys, acc: Plan, r: Route, next: Plan)
    requires PlanGood(c, s, acc) && PlanRoute(c, s, acc, r) == Success(next)
    ensures PlanGood(c, s, next)
  {
    if r.desired != Absent {
      PlanStep(c, s, acc, r, next);
      forall f ensures LocalMatched(PlanLocal(next, f)) {
        if f != r.fqdn { assert LocalMatched(PlanLocal(acc, f)); }
      }
      forall q | q in acc.pending ensures q.fqdn != r.fqdn {
        assert PlanLocal(acc, q.fqdn).file.Some?;
      }
    }
  }

  lemma {:induction false} PlanAllGood(c: Config, s: Sys, acc: Plan, routes: seq<Route>)
    requires PlanGood(c, s, acc) && PlanAll(c, s, acc, routes).Success?
    ensures PlanGood(c, s, PlanAll(c, s, acc, routes).value)
    decreases routes
  {
    if routes != [] {
      var next := PlanRoute(c, s, acc, routes[0]).value;
      PlanStepGood(c, s, acc, routes[0], next);
      PlanAllGood(c, s, next, routes[1..]);
    }
  }

  // ---- what is refused ----

  /** Why a manifest entry cannot be planned on its own account. */
  predicate Unacceptable(c: Config, s: Sys, r: Route, e: Invalid) {
    match Validate(c, r)
    case Some(invalid) => e == invalid
    case None =>
      !Older(s.memory, r)
      && match CertPaths(c, r)
         case Failure(unknown) => e == unknown
         case Success(pair) => RenderVhost(c, r, pair, CertReady(s, r)) == Failure(e)
  }

  /** A manifest is refused only because of one of its entries, the one named: it cannot be
      planned on its own account, or an earlier entry has its name. */
  lemma {:induction false} PlanRefused(c: Config, s: Sys, acc: Plan, routes: seq<Route>) returns (i: nat)
    requires PlanAll(c, s, acc, routes).Failure?
    ensures i < |routes| && routes[i].desired != Absent
    ensures match PlanAll(c, s, acc, routes).error
            case Rejected(e) => Unacceptable(c, s, routes[i], e)
            case DuplicateFqdn(f) =>
              && f == routes[i].fqdn
              && (FileName(f) in acc.desired
                  || exists j :: 0 <= j < i && routes[j].fqdn == f && routes[j].desired != Absent)
            case _ => false
    decreases routes
  {
    var r := routes[0];
    i := 0;
    if PlanRoute(c, s, acc, r).Success? {
      var next := PlanRoute(c, s, acc, r).value;
      var k := PlanRefused(c, s, next, routes[1..]);
      i := k + 1;
      assert routes[i] == routes[1..][k];
      if r.desired != Absent { PlanStep(c, s, acc, r, next); }
      if FileName(routes[i].fqdn) in next.desired && FileName(routes[i].fqdn) !in acc.desired {
        FileNames(routes[i].fqdn, r.fqdn);
        assert routes[0].fqdn == routes[i].fqdn;
      } else if j :| 0 <= j < k && routes[1..][j].fqdn == routes[i].fqdn && routes[1..][j].desired != Absent {
        assert routes[j + 1] == routes[1..][j];
      }
    }
  }

  // ---- after the swap ----

  lemma SwappedAt(s: Sys, req: SyncRequest, p: Plan, stored: bool, f: string)
    ensures var x := LocalOf(Swapped(s, req, p, stored), f);
            && x.file == PlanLocal(p, f).file
            && (f in p.entries ==> x == PlanLocal(p, f))
            && (f !in p.entries ==> !IsPresent(x))
  {}

  lemma {:induction false} PruneAllAt(s: Sys, names: seq<string>, os: seq<PruneOutcome>, f: string)
    requires |names| == |os|
    ensures var m := PruneAll(s, names, os);
            && m.files == s.files
            && LocalOf(m, f).file == LocalOf(s, f).file
            && IsPresent(LocalOf(m, f)) == IsPresent(LocalOf(s, f))
            && (f in s.memory.entries ==> f in m.memory.entries)
            && (f !in names ==> LocalOf(m, f) == LocalOf(s, f))
  {
    if names != [] {
      var n := |names| - 1;
      PruneAllAt(s, names[..n], os[..n], f);
      PruneAt(PruneAll(s, names[..n], os[..n]), names[n], os[n]);
      assert names[n] in names && forall x | x in names[..n] :: x in names;
    }
  }

  ghost predicate CanSettle(c: Config, s: Sys, pending: seq<Route>) {
    && DistinctNames(pending)
    && forall r | r in pending :: Servable(c, r) && r.fqdn in s.memory.entries
  }

  /** Settling works name by name, whatever the order. */
  lemma {:induction false} SettleAllAt(c: Config, s: Sys, pending: seq<Route>, os: seq<SettleOutcome>)
    requires |pending| == |os| && CanSettle(c, s, pending)
    ensures var m := SettleAll(c, s, pending, os);
            && (forall i | 0 <= i < |pending| ::
                  LocalOf(m, pending[i].fqdn) == Settled(c, pending[i], os[i], LocalOf(s, pending[i].fqdn)))
            && (forall f | (forall r | r in pending :: r.fqdn != f) :: LocalOf(m, f) == LocalOf(s, f))
            && (forall n | n in m.files :: n in s.files || IsRouteName(n))
  {
    if pending != [] {
      var n := |pending| - 1;
      var front, last := pending[..n], pending[n];
      assert pending == front + [last];
      SettleAllAt(c, s, front, os[..n]);
      var s1 := SettleAll(c, s, front, os[..n]);
      SettleOneAt(c, s1, last, os[n], LocalOf(s, last.fqdn));
    }
  }

  lemma SettleOneAt(c: Config, s: Sys, r: Route, o: SettleOutcome, x: Local)
    requires Servable(c, r) && LocalOf(s, r.fqdn) == x && x.entry.Some?
    ensures var m := SettleOne(c, s, r, o);
            && LocalOf(m, r.fqdn) == Settled(c, r, o, x)
            && (forall f | f != r.fqdn :: LocalOf(m, f) == LocalOf(s, f))
            && (forall n | n in m.files :: n in s.files || IsRouteName(n))
  {
    SettleAt(c, s, r, o);
    ReservedNames(r.fqdn, "");
  }

  // ---- the state an accepted sync ends in ----

  ghost predicate Accepts(c: Config, s: Sys, req: SyncRequest, o: SyncOutcome, p: Plan) {
    && Fits(c, s, req, o) && o.Accepted? && !StaleSnapshot(s.memory, req)
    && PlanOf(c, s, req) == Success(p)
  }

  lemma AcceptsCode(c: Config, s: Sys, req: SyncRequest, o: SyncOutcome)
    requires Fits(c, s, req, o)
    ensures SyncNext(c, s, req, o).1.code == 200 <==>
              PlanOf(c, s, req).Success? && Accepts(c, s, req, o, PlanOf(c, s, req).value)
  {}

  lemma NotPruned(s: Sys, p: Plan, f: string)
    requires RouteNames(s.files) && FileName(f) in p.desired
    ensures f !in PrunedOf(s, p)
  {
    forall n | n in s.files && n !in p.desired ensures Stem(n) != f { StemFileName(n); }
  }

  /** Names with a pending certificate are settled; any other keeps the file and the
      presence the plan gives it. */
  ghost predicate EndsAs(c: Config, s: Sys, p: Plan, m: Sys, settles: seq<SettleOutcome>)
    requires PlanGood(c, s, p) && |settles| == |p.pending|
  {
    && RouteNames(m.files)
    && (forall i | 0 <= i < |p.pending| ::
          LocalOf(m, p.pending[i].fqdn) == Settled(c, p.pending[i], settles[i], PlanLocal(p, p.pending[i].fqdn)))
    && (forall f | !IsPending(p, f) ::
          && LocalOf(m, f).file == PlanLocal(p, f).file
          && IsPresent(LocalOf(m, f)) == IsPresent(PlanLocal(p, f))
          && (IsPresent(PlanLocal(p, f)) ==> LocalOf(m, f) == PlanLocal(p, f)))
  }

  /** Every name of an accepted sync. */
  lemma SyncAt(c: Config, s: Sys, req: SyncRequest, o: SyncOutcome, p: Plan)
    requires RouteNames(s.files) && Accepts(c, s, req, o, p)
    ensures PlanGood(c, s, p)
    ensures EndsAs(c, s, p, SyncNext(c, s, req, o).0, o.settles)
  {
    PlanAllGood(c, s, EMPTY_PLAN, req.routes);
    var names := PrunedOf(s, p);
    var s0 := Swapped(s, req, p, o.stored);
    var s1 := PruneAll(s0, names, o.prunes);
    forall f ensures LocalOf(s1, f).file == PlanLocal(p, f).file
             ensures IsPresent(LocalOf(s1, f)) == IsPresent(PlanLocal(p, f))
             ensures IsPresent(PlanLocal(p, f)) ==> LocalOf(s1, f) == PlanLocal(p, f)
    {
      SwappedAt(s, req, p, o.stored, f);
      PruneAllAt(s0, names, o.prunes, f);
      assert LocalMatched(PlanLocal(p, f));
      if IsPresent(PlanLocal(p, f)) { NotPruned(s, p, f); }
    }
    PruneAllAt(s0, names, o.prunes, "");
    forall r | r in p.pending ensures r.fqdn in s1.memory.entries {
      assert LocalOf(s1, r.fqdn) == PlanLocal(p, r.fqdn);
    }
    SettleAllAt(c, s1, p.pending, o.settles);
    var m := SettleAll(c, s1, p.pending, o.settles);
    forall i | 0 <= i < |p.pending| ensures
        LocalOf(m, p.pending[i].fqdn) == Settled(c, p.pending[i], o.settles[i], PlanLocal(p, p.pending[i].fqdn)) {
      assert p.pending[i] in p.pending;
      assert LocalOf(s1, p.pending[i].fqdn) == PlanLocal(p, p.pending[i].fqdn);
    }
    forall f | !IsPending(p, f) ensures LocalOf(m, f) == LocalOf(s1, f) {}
  }

  ghost predicate NoneLost(os: seq<SettleOutcome>) { forall i | 0 <= i < |os| :: !LostBackup(os[i]) }
  ghost predicate NoneStuck(os: seq<SettleOutcome>) { forall i | 0 <= i < |os| :: !StuckUpgrade(os[i]) }

  /** A sync heals drift: from any files and any store, however inconsistent, after a
      200 every vhost file exists exactly when its entry is present - unless, and only
      if, a certificate upgrade was undone without a readable backup. */
  lemma SyncHeals(c: Config, s: Sys, req: SyncRequest, o: SyncOutcome)
    requires RouteNames(s.files) && Fits(c, s, req, o) && SyncNext(c, s, req, o).1.code == 200
    ensures Matched(SyncNext(c, s, req, o).0) <==> NoneLost(o.settles)
  {
    AcceptsCode(c, s, req, o);
    var p, m := PlanOf(c, s, req).value, SyncNext(c, s, req, o).0;
    SyncAt(c, s, req, o, p);
    if NoneLost(o.settles) {
      forall f ensures LocalMatched(LocalOf(m, f)) {
        assert LocalMatched(PlanLocal(p, f));
        if IsPending(p, f) {
          var i :| 0 <= i < |p.pending| && p.pending[i].fqdn == f;
          assert !LostBackup(o.settles[i]);
        }
      }
    } else {
      var i :| 0 <= i < |o.settles| && LostBackup(o.settles[i]);
      LostDisagrees(c, s, p, o.settles[i], i);
      assert !LocalMatched(LocalOf(m, p.pending[i].fqdn));
    }
  }

  lemma LostDisagrees(c: Config, s: Sys, p: Plan, o: SettleOutcome, i: nat)
    requires PlanGood(c, s, p) && i < |p.pending| && LostBackup(o)
    ensures var x := Settled(c, p.pending[i], o, PlanLocal(p, p.pending[i].fqdn)); IsPresent(x) && x.file.None?
  {
    assert p.pending[i] in p.pending;
  }

  // ---- which files the swap leaves ----

  /** The planned files are the fresh renders and the kept newer vhosts, no others. */
  lemma {:induction false} DesiredOnly(c: Config, s: Sys, acc: Plan, routes: seq<Route>, n: string)
    requires PlanAll(c, s, acc, routes).Success? && n in PlanAll(c, s, acc, routes).value.desired && n !in acc.desired
    ensures var content := PlanAll(c, s, acc, routes).value.desired[n];
            exists r :: r in routes && r.desired != Absent && n == FileName(r.fqdn)
              && (if Older(s.memory, r)
                  then s.memory.entries[r.fqdn].present && n in s.files && content == s.files[n]
                  else Servable(c, r) && content == Site(SiteOf(c, r, CertReady(s, r))))
    decreases routes
  {
    var r, next := routes[0], PlanRoute(c, s, acc, routes[0]).value;
    if n in next.desired {
      PlanGrows(c, s, next, routes[1..]);
      PlanStep(c, s, acc, r, next);
      assert PlanLocal(next, r.fqdn).file == Some(next.desired[n]);
    } else {
      DesiredOnly(c, s, next, routes[1..], n);
    }
  }

  lemma {:induction false} PlanGrows(c: Config, s: Sys, acc: Plan, routes: seq<Route>)
    requires PlanAll(c, s, acc, routes).Success?
    ensures var p := PlanAll(c, s, acc, routes).value;
            && (forall n | n in acc.desired :: n in p.desired && p.desired[n] == acc.desired[n])
            && acc.pending <= p.pending && acc.kept <= p.kept
    decreases routes
  {
    if routes != [] {
      PlanGrows(c, s, PlanRoute(c, s, acc, routes[0]).value, routes[1..]);
    }
  }

  /** ... and all of those. */
  lemma {:induction false} DesiredAll(c: Config, s: Sys, acc: Plan, routes: seq<Route>, r: Route)
    requires PlanAll(c, s, acc, routes).Success? && r in routes && r.desired != Absent
    ensures Older(s.memory, r) || Servable(c, r)
    ensures var p, file := PlanAll(c, s, acc, routes).value, RouteLocal(c, s, r).file;
            file.Some? ==> FileName(r.fqdn) in p.desired && p.desired[FileName(r.fqdn)] == file.value
    decreases routes
  {
    var next := PlanRoute(c, s, acc, routes[0]).value;
    if routes[0] == r {
      PlanStep(c, s, acc, r, next);
      PlanGrows(c, s, next, routes[1..]);
      if RouteLocal(c, s, r).file.Some? { assert PlanLocal(next, r.fqdn).file.Some?; }
    } else {
      DesiredAll(c, s, next, routes[1..], r);
    }
  }

  /** The stale guard of a sync lets equal generations through: a manifest entry at a
      tombstone's own generation puts the vhost back, where an apply is refused. */
  lemma EqualGenerationRestores(c: Config, s: Sys, req: SyncRequest, o: SyncOutcome, r: Route)
    requires RouteNames(s.files) && Fits(c, s, req, o) && SyncNext(c, s, req, o).1.code == 200 && NoneLost(o.settles)
    requires r in req.routes && r.desired == Present && r.fqdn in s.memory.entries
    requires r.generation == s.memory.entries[r.fqdn].generation
    ensures Stale(s.memory, r)
    ensures FileName(r.fqdn) in SyncNext(c, s, req, o).0.files
    ensures IsPresent(LocalOf(SyncNext(c, s, req, o).0, r.fqdn))
  {
    hide SyncNext, PlanGood, EndsAs, NoneLost, RouteNames;
    AcceptsCode(c, s, req, o);
    var p, m, f := PlanOf(c, s, req).value, SyncNext(c, s, req, o).0, r.fqdn;
    RestoredPlanned(c, s, req, p, r);
    SyncAt(c, s, req, o, p);
    EndPresent(c, s, p, m, o.settles, f);
    SyncHeals(c, s, req, o);
    assert LocalMatched(LocalOf(m, f));
  }

  lemma RestoredPlanned(c: Config, s: Sys, req: SyncRequest, p: Plan, r: Route)
    requires PlanOf(c, s, req) == Success(p) && r in req.routes && r.desired == Present && !Older(s.memory, r)
    ensures IsPresent(PlanLocal(p, r.fqdn))
  {
    DesiredAll(c, s, EMPTY_PLAN, req.routes, r);
    PlanAllGood(c, s, EMPTY_PLAN, req.routes);
    assert LocalMatched(PlanLocal(p, r.fqdn));
  }

  /** What is planned present ends present. */
  lemma EndPresent(c: Config, s: Sys, p: Plan, m: Sys, settles: seq<SettleOutcome>, f: string)
    requires PlanGood(c, s, p) && |settles| == |p.pending| && EndsAs(c, s, p, m, settles)
    requires IsPresent(PlanLocal(p, f))
    ensures IsPresent(LocalOf(m, f))
  {
    if IsPending(p, f) {
      var i :| 0 <= i < |p.pending| && p.pending[i].fqdn == f;
      assert p.pending[i] in p.pending;
    }
  }

  // ---- files, entries and requests ----

  /** The last accepted request of each name, after a manifest. */
  function SyncOrigin(s: Sys, origin: map<string, Route>, routes: seq<Route>): map<string, Route>
    decreases routes
  {
    if routes == [] then origin
    else SyncOrigin(s, if Fresh(s, routes[0]) then origin[routes[0].fqdn := routes[0]] else origin, routes[1..])
  }

  /** Planned names are explained by org; names without a planned file still by origin. */
  ghost predicate PlanAgrees(c: Config, p: Plan, origin: map<string, Route>, org: map<string, Route>) {
    && (forall f :: LocalAgrees(c, FromAt(org, f), f, PlanLocal(p, f)))
    && (forall f :: PlanLocal(p, f).file.None? ==> FromAt(org, f) == FromAt(origin, f))
    && (forall r | r in p.pending :: FromAt(org, r.fqdn) == Some(r))
  }

  lemma PlanStepAgrees(c: Config, s: Sys, acc: Plan, r: Route, next: Plan, origin: map<string, Route>,
                       org: map<string, Route>)
    requires Agrees(c, s, origin) && PlanGood(c, s, acc) && PlanAgrees(c, acc, origin, org)
    requires PlanRoute(c, s, acc, r) == Success(next)
    ensures PlanAgrees(c, next, origin, if Fresh(s, r) then org[r.fqdn := r] else org)
  {
    if r.desired != Absent {
      PlanStep(c, s, acc, r, next);
      var org' := if Fresh(s, r) then org[r.fqdn := r] else org;
      assert PlanLocal(acc, r.fqdn).file.None?;
      PlanOwnAgrees(c, s, acc, r, next, origin, org, org');
      forall f ensures LocalAgrees(c, FromAt(org', f), f, PlanLocal(next, f))
               ensures PlanLocal(next, f).file.None? ==> FromAt(org', f) == FromAt(origin, f)
      {
        if f != r.fqdn {
          assert PlanLocal(next, f) == PlanLocal(acc, f) && FromAt(org', f) == FromAt(org, f);
        }
      }
      forall q | q in acc.pending ensures q.fqdn != r.fqdn {
        assert PlanLocal(acc, q.fqdn).file.Some?;
      }
    }
  }

  /** What a manifest entry plans for its own name agrees with where it comes from. */
  lemma PlanOwnAgrees(c: Config, s: Sys, acc: Plan, r: Route, next: Plan, origin: map<string, Route>,
                      org: map<string, Route>, org': map<string, Route>)
    requires Agrees(c, s, origin) && PlanAgrees(c, acc, origin, org) && PlanLocal(acc, r.fqdn).file.None?
    requires r.desired != Absent && (Older(s.memory, r) || Servable(c, r))
    requires PlanLocal(next, r.fqdn) == RouteLocal(c, s, r)
    requires org' == if Fresh(s, r) then org[r.fqdn := r] else org
    ensures LocalAgrees(c, FromAt(org', r.fqdn), r.fqdn, PlanLocal(next, r.fqdn))
    ensures PlanLocal(next, r.fqdn).file.None? ==> FromAt(org', r.fqdn) == FromAt(origin, r.fqdn)
  {
    assert FromAt(org, r.fqdn) == FromAt(origin, r.fqdn);
    assert LocalAgrees(c, FromAt(origin, r.fqdn), r.fqdn, LocalOf(s, r.fqdn));
    if Fresh(s, r) { RenderCarries(c, r, CertReady(s, r)); }
  }

  lemma {:induction false} PlanAllAgrees(c: Config, s: Sys, acc: Plan, routes: seq<Route>,
                                         origin: map<string, Route>, org: map<string, Route>)
    requires Agrees(c, s, origin) && PlanGood(c, s, acc) && PlanAgrees(c, acc, origin, org)
    requires PlanAll(c, s, acc, routes).Success?
    ensures PlanAgrees(c, PlanAll(c, s, acc, routes).value, origin, SyncOrigin(s, org, routes))
    decreases routes
  {
    if routes != [] {
      var r, next := routes[0], PlanRoute(c, s, acc, routes[0]).value;
      PlanStepAgrees(c, s, acc, r, next, origin, org);
      PlanStepGood(c, s, acc, r, next);
      PlanAllAgrees(c, s, next, routes[1..], origin, if Fresh(s, r) then org[r.fqdn := r] else org);
    }
  }

  /** Exactly when an accepted sync keeps files, entries and requests in agreement. */
  lemma SyncKeepsAgreement(c: Config, s: Sys, req: SyncRequest, o: SyncOutcome, origin: map<string, Route>)
    requires Agrees(c, s, origin) && Fits(c, s, req, o) && SyncNext(c, s, req, o).1.code == 200
    ensures Agrees(c, SyncNext(c, s, req, o).0, SyncOrigin(s, origin, req.routes)) <==> NoneLost(o.settles)
  {
    AcceptsCode(c, s, req, o);
    var p, m, org := PlanOf(c, s, req).value, SyncNext(c, s, req, o).0, SyncOrigin(s, origin, req.routes);
    SyncAt(c, s, req, o, p);
    PlanAllAgrees(c, s, EMPTY_PLAN, req.routes, origin, origin);
    EndAgrees(c, s, p, m, o.settles, origin, org);
  }

  lemma EndAgrees(c: Config, s: Sys, p: Plan, m: Sys, settles: seq<SettleOutcome>, origin: map<string, Route>,
                  org: map<string, Route>)
    requires PlanGood(c, s, p) && |settles| == |p.pending| && EndsAs(c, s, p, m, settles)
    requires PlanAgrees(c, p, origin, org)
    ensures Agrees(c, m, org) <==> NoneLost(settles)
  {
    if NoneLost(settles) {
      forall f ensures LocalAgrees(c, FromAt(org, f), f, LocalOf(m, f)) {
        assert LocalAgrees(c, FromAt(org, f), f, PlanLocal(p, f));
        if IsPending(p, f) {
          var i :| 0 <= i < |p.pending| && p.pending[i].fqdn == f;
          assert p.pending[i] in p.pending && !LostBackup(settles[i]);
        }
      }
    } else {
      var i :| 0 <= i < |settles| && LostBackup(settles[i]);
      LostDisagrees(c, s, p, settles[i], i);
      var f := p.pending[i].fqdn;
      assert !LocalAgrees(c, FromAt(org, f), f, LocalOf(m, f));
    }
  }

  /** A sync that could not put the files back keeps the agreement exactly if it left the same
      names, each with a render of the last request accepted for it. */
  lemma ResidueAgrees(c: Config, s: Sys, residue: map<string, Content>, origin: map<string, Route>)
    requires Agrees(c, s, origin)
    ensures Agrees(c, s.(files := residue), origin) <==>
              && residue.Keys == s.files.Keys
              && forall n | n in residue :: Stem(n) in origin && RenderedFrom(c, origin[Stem(n)], residue[n])
  {
    var m := s.(files := residue);
    if Agrees(c, m, origin) {
      forall n ensures n in residue <==> n in s.files { ResidueAt(c, s, residue, origin, n); }
      forall n | n in residue ensures Stem(n) in origin && RenderedFrom(c, origin[Stem(n)], residue[n]) {
        ResidueAt(c, s, residue, origin, n);
      }
    }
    if residue.Keys == s.files.Keys
       && forall n | n in residue :: Stem(n) in origin && RenderedFrom(c, origin[Stem(n)], residue[n]) {
      forall f ensures LocalAgrees(c, FromAt(origin, f), f, LocalOf(m, f)) {
        FileNames(f, f);
        assert LocalAgrees(c, FromAt(origin, f), f, LocalOf(s, f));
      }
    }
  }

  lemma ResidueAt(c: Config, s: Sys, residue: map<string, Content>, origin: map<string, Route>, n: string)
    requires Agrees(c, s, origin) && Agrees(c, s.(files := residue), origin)
    ensures n in residue <==> n in s.files
    ensures n in residue ==> Stem(n) in origin && RenderedFrom(c, origin[Stem(n)], residue[n])
  {
    if n in residue || n in s.files {
      StemFileName(n);
      var f := Stem(n);
      assert LocalAgrees(c, FromAt(origin, f), f, LocalOf(s, f));
      assert LocalAgrees(c, FromAt(origin, f), f, LocalOf(s.(files := residue), f));
    }
  }

  // ---- certificate states ----

  ghost predicate PlanTruthful(p: Plan) {
    forall f :: LocalTruthful(PlanLocal(p, f)) || IsPending(p, f)
  }

  lemma {:induction false} PlanAllTruthful(c: Config, s: Sys, acc: Plan, routes: seq<Route>)
    requires Truthful(s) && PlanTruthful(acc) && PlanAll(c, s, acc, routes).Success?
    ensures PlanTruthful(PlanAll(c, s, acc, routes).value)
    decreases routes
  {
    if routes != [] {
      var r, next := routes[0], PlanRoute(c, s, acc, routes[0]).value;
      if r.desired != Absent {
        PlanStep(c, s, acc, r, next);
        assert LocalTruthful(LocalOf(s, r.fqdn));
        if Fresh(s, r) { RenderCarries(c, r, CertReady(s, r)); }
        forall f ensures LocalTruthful(PlanLocal(next, f)) || IsPending(next, f) {
          if f == r.fqdn {
            if Fresh(s, r) && !CertReady(s, r) { assert r in next.pending; }
          } else {
            assert LocalTruthful(PlanLocal(acc, f)) || IsPending(acc, f);
            assert forall q :: q in acc.pending ==> q in next.pending;
          }
        }
      }
      PlanAllTruthful(c, s, next, routes[1..]);
    }
  }

  /** Exactly when the certificate states of an accepted sync tell the truth. */
  lemma SyncTruth(c: Config, s: Sys, req: SyncRequest, o: SyncOutcome)
    requires Truthful(s) && Fits(c, s, req, o) && SyncNext(c, s, req, o).1.code == 200
    ensures Truthful(SyncNext(c, s, req, o).0) <==> NoneLost(o.settles) && NoneStuck(o.settles)
  {
    AcceptsCode(c, s, req, o);
    var p, m := PlanOf(c, s, req).value, SyncNext(c, s, req, o).0;
    SyncAt(c, s, req, o, p);
    PlanAllTruthful(c, s, EMPTY_PLAN, req.routes);
    EndTruthful(c, s, p, m, o.settles);
  }

  lemma PendingTruth(c: Config, s: Sys, p: Plan, m: Sys, settles: seq<SettleOutcome>, i: nat)
    requires PlanGood(c, s, p) && |settles| == |p.pending| && EndsAs(c, s, p, m, settles) && i < |p.pending|
    ensures LocalTruthful(LocalOf(m, p.pending[i].fqdn)) <==> !LostBackup(settles[i]) && !StuckUpgrade(settles[i])
  {
    assert p.pending[i] in p.pending;
    RenderCarries(c, p.pending[i], true);
    RenderCarries(c, p.pending[i], false);
  }

  lemma EndTruthful(c: Config, s: Sys, p: Plan, m: Sys, settles: seq<SettleOutcome>)
    requires PlanGood(c, s, p) && |settles| == |p.pending| && EndsAs(c, s, p, m, settles) && PlanTruthful(p)
    ensures Truthful(m) <==> NoneLost(settles) && NoneStuck(settles)
  {
    if NoneLost(settles) && NoneStuck(settles) {
      forall f ensures LocalTruthful(LocalOf(m, f)) {
        assert LocalMatched(PlanLocal(p, f));
        if IsPending(p, f) {
          var i :| 0 <= i < |p.pending| && p.pending[i].fqdn == f;
          PendingTruth(c, s, p, m, settles, i);
        } else {
          assert LocalTruthful(PlanLocal(p, f));
        }
      }
    } else {
      var i :| 0 <= i < |settles| && (LostBackup(settles[i]) || StuckUpgrade(settles[i]));
      PendingTruth(c, s, p, m, settles, i);
    }
  }

  /** PENDING never survives a sync: it takes a crash in the middle of one to see it
      afterwards, and only a kept entry carries it over. */
  lemma PendingSettled(c: Config, s: Sys, req: SyncRequest, o: SyncOutcome, f: string)
    requires RouteNames(s.files) && Fits(c, s, req, o) && SyncNext(c, s, req, o).1.code == 200
    requires var m := SyncNext(c, s, req, o).0.memory; f in m.entries && m.entries[f].cert == CertPending
    ensures f in PlanOf(c, s, req).value.kept
    ensures f in s.memory.entries && s.memory.entries[f].cert == CertPending
  {
    AcceptsCode(c, s, req, o);
    var p := PlanOf(c, s, req).value;
    SyncAt(c, s, req, o, p);
    PlanPending(c, s, EMPTY_PLAN, req.routes, f);
    if !IsPending(p, f) {
      StillPending(c, s, req, o, p, f);
    }
  }

  /** Only the swap brings PENDING entries in. */
  lemma StillPending(c: Config, s: Sys, req: SyncRequest, o: SyncOutcome, p: Plan, f: string)
    requires o.Accepted? && |o.prunes| == |PrunedOf(s, p)| && |o.settles| == |p.pending|
    requires var pruned := PruneAll(Swapped(s, req, p, o.stored), PrunedOf(s, p), o.prunes);
             var m := SettleAll(c, pruned, p.pending, o.settles).memory;
             f in m.entries && m.entries[f].cert == CertPending
    ensures f in p.entries && p.entries[f].cert == CertPending
  {
    var s0 := Swapped(s, req, p, o.stored);
    SettleNoPending(c, PruneAll(s0, PrunedOf(s, p), o.prunes), p.pending, o.settles, f);
    PruneNoPending(s0, PrunedOf(s, p), o.prunes, f);
  }

  lemma {:induction false} PlanPending(c: Config, s: Sys, acc: Plan, routes: seq<Route>, f: string)
    requires PlanAll(c, s, acc, routes).Success?
    requires f in acc.entries && acc.entries[f].cert == CertPending ==>
               IsPending(acc, f) || (f in acc.kept && f in s.memory.entries && s.memory.entries[f].cert == CertPending)
    ensures var p := PlanAll(c, s, acc, routes).value;
            f in p.entries && p.entries[f].cert == CertPending ==>
              IsPending(p, f) || (f in p.kept && f in s.memory.entries && s.memory.entries[f].cert == CertPending)
    decreases routes
  {
    if routes != [] {
      var r, next := routes[0], PlanRoute(c, s, acc, routes[0]).value;
      if r.desired != Absent {
        PlanStep(c, s, acc, r, next);
        assert f != r.fqdn ==> PlanLocal(next, f) == PlanLocal(acc, f);
        assert f == r.fqdn ==> PlanLocal(next, f) == RouteLocal(c, s, r);
        assert forall q :: q in acc.pending ==> q in next.pending;
        if f == r.fqdn && Fresh(s, r) && !CertReady(s, r) { assert r in next.pending; }
      }
      PlanPending(c, s, next, routes[1..], f);
    }
  }

  lemma {:induction false} PruneNoPending(s: Sys, names: seq<string>, os: seq<PruneOutcome>, f: string)
    requires |names| == |os|
    ensures var m := PruneAll(s, names, os).memory;
            f in m.entries && m.entries[f].cert == CertPending ==>
              f in s.memory.entries && s.memory.entries[f].cert == CertPending
  {
    if names != [] { PruneNoPending(s, names[..|names|-1], os[..|names|-1], f); }
  }

  lemma {:induction false} SettleNoPending(c: Config, s: Sys, pending: seq<Route>, os: seq<SettleOutcome>, f: string)
    requires |pending| == |os|
    ensures var m := SettleAll(c, s, pending, os).memory;
            f in m.entries && m.entries[f].cert == CertPending ==>
              f in s.memory.entries && s.memory.entries[f].cert == CertPending
  {
    if pending != [] {
      var n := |pending| - 1;
      SettleNoPending(c, s, pending[..n], os[..n], f);
      SettleOneNoPending(c, SettleAll(c, s, pending[..n], os[..n]), pending[n], os[n], f);
    }
  }

  lemma SettleOneNoPending(c: Config, s: Sys, r: Route, o: SettleOutcome, f: string)
    ensures var m := SettleOne(c, s, r, o).memory;
            f in m.entries && m.entries[f].cert == CertPending ==>
              f in s.memory.entries && s.memory.entries[f].cert == CertPending
  {
    hide RenderVhost, CertPaths;
  }

  // ---- the results ----

  /** For a manifest of distinct names, a result says applied exactly for the names
      whose entry is the manifest's own. */
  lemma ResultsTellTheTruth(c: Config, s: Sys, req: SyncRequest, o: SyncOutcome, r: Route)
    requires RouteNames(s.files) && Fits(c, s, req, o) && SyncNext(c, s, req, o).1.code == 200
    requires DistinctNames(req.routes) && r in req.routes && r.desired != Absent
    ensures var results := SyncNext(c, s, req, o).1.results;
            FqdnResult(r.fqdn, !Older(s.memory, r),
                       if Older(s.memory, r) then s.memory.entries[r.fqdn].generation else r.generation) in results
  {
    AcceptsCode(c, s, req, o);
    var p := PlanOf(c, s, req).value;
    PlannedOnce(c, s, EMPTY_PLAN, req.routes, r);
    assert PlanLocal(p, r.fqdn).entry.Some?;
    var names := Listing(p.entries.Keys);
    assert r.fqdn in names;
    var i :| 0 <= i < |names| && names[i] == r.fqdn;
    assert ResultsOf(p)[i].fqdn == r.fqdn;
  }

  lemma {:induction false} PlannedOnce(c: Config, s: Sys, acc: Plan, routes: seq<Route>, r: Route)
    requires PlanAll(c, s, acc, routes).Success? && DistinctNames(routes) && r in routes && r.desired != Absent
    requires r.fqdn !in acc.kept
    ensures Older(s.memory, r) || Servable(c, r)
    ensures var p := PlanAll(c, s, acc, routes).value;
            PlanLocal(p, r.fqdn) == RouteLocal(c, s, r) && (r.fqdn in p.kept <==> Older(s.memory, r))
    decreases routes
  {
    var q, next := routes[0], PlanRoute(c, s, acc, routes[0]).value;
    if q.desired != Absent { PlanStep(c, s, acc, q, next); }
    if q == r {
      PlannedElsewhere(c, s, next, routes[1..], r.fqdn);
    } else {
      assert q.fqdn != r.fqdn;
      PlannedOnce(c, s, next, routes[1..], r);
    }
  }

  lemma {:induction false} PlannedElsewhere(c: Config, s: Sys, acc: Plan, routes: seq<Route>, f: string)
    requires PlanAll(c, s, acc, routes).Success? && (forall r | r in routes :: r.fqdn != f)
    ensures var p := PlanAll(c, s, acc, routes).value;
            PlanLocal(p, f) == PlanLocal(acc, f) && (f in p.kept <==> f in acc.kept)
            && (IsPending(p, f) <==> IsPending(acc, f))
    decreases routes
  {
    if routes != [] {
      var q, next := routes[0], PlanRoute(c, s, acc, routes[0]).value;
      if q.desired != Absent { PlanStep(c, s, acc, q, next); }
      assert forall x :: x in acc.pending ==> x in next.pending;
      assert forall x :: x in next.pending ==> x in acc.pending || x == q;
      PlannedElsewhere(c, s, next, routes[1..], f);
    }
  }

  // ---- repeated names ----

  /** A planned file bars every later entry of its name. */
  lemma {:induction false} PlacedStays(c: Config, s: Sys, acc: Plan, routes: seq<Route>, f: string)
    requires PlanAll(c, s, acc, routes).Success? && FileName(f) in acc.desired
    ensures PlanLocal(PlanAll(c, s, acc, routes).value, f) == PlanLocal(acc, f)
    decreases routes
  {
    if routes != [] {
      var q, next := routes[0], PlanRoute(c, s, acc, routes[0]).value;
      if q.desired != Absent { PlanStep(c, s, acc, q, next); }
      PlacedStays(c, s, next, routes[1..], f);
    }
  }

  lemma {:induction false} FreshWins(c: Config, s: Sys, acc: Plan, routes: seq<Route>, r: Route)
    requires PlanAll(c, s, acc, routes).Success? && r in routes && Fresh(s, r)
    ensures Servable(c, r) && PlanLocal(PlanAll(c, s, acc, routes).value, r.fqdn) == RouteLocal(c, s, r)
    decreases routes
  {
    var next := PlanRoute(c, s, acc, routes[0]).value;
    if routes[0] == r {
      PlanStep(c, s, acc, r, next);
      PlacedStays(c, s, next, routes[1..], r.fqdn);
    } else {
      FreshWins(c, s, next, routes[1..], r);
    }
  }
}
