/** What the replies say, read off the store before and after. Nothing here is put in terms
    of the guards and helpers a request is carried out with. */
module Replies {
  import opened Wrappers
  import opened Sorting
  import opened Hostnames
  import opened Render
  import opened Lifecycle
  import opened Safety
  import opened Agreement
  import opened SyncAgreement
  import opened Points
  import opened Runs

  // ---- POST /apply ----

  /** 409 if and only if the name is known at the request's generation or a later one, with
      that generation and nothing changed; 200 with the generation the name has from then
      on; anything else is a 422 that says why and leaves both stores alone. */
  lemma ApplyReplies(c: Config, s: Sys, r: Route, o: ApplyOutcome)
    ensures var (m, reply) := ApplyNext(c, s, r, o);
            && (reply.code == 409 <==>
                  r.fqdn in s.memory.entries && r.generation <= s.memory.entries[r.fqdn].generation)
            && (reply.code == 409 ==>
                  m == s && reply == ApplyReply(409, false, s.memory.entries[r.fqdn].generation, None))
            && (reply.code == 200 ==>
                  && reply == ApplyReply(200, true, r.generation, None) && r.fqdn in m.memory.entries
                  && m.memory.entries[r.fqdn].generation == r.generation
                  && m.memory.entries[r.fqdn].present == (r.desired != Absent))
            && (reply.code != 200 && reply.code != 409 ==>
                  && reply.error.Some? && reply == ApplyReply(422, false, 0, reply.error)
                  && m == s.(files := m.files))
  {
    hide Validate, CertPaths, RenderVhost, PruneNext, SettleNext;
    if r.desired == Absent {
      var removed := s.(files := s.files - {FileName(r.fqdn)});
      PruneKeeps(Record(removed, r.fqdn, Entry(r.generation, false, NoCert, ""), o.stored), r.fqdn, o.prune);
    } else if CertPaths(c, r).Success? {
      var pair, ready := CertPaths(c, r).value, CertReady(s, r);
      if RenderVhost(c, r, pair, ready).Success? {
        var written := s.(files := s.files[FileName(r.fqdn) := Site(RenderVhost(c, r, pair, ready).value)]);
        var s1 := Record(written, r.fqdn, Entry(r.generation, true, NoCert, ""), o.stored);
        SettleSaved(c, s1, r, pair, ready, o.settle);
      }
    }
  }

  lemma PruneKeeps(s: Sys, f: string, o: PruneOutcome)
    requires f in s.memory.entries
    ensures var e := s.memory.entries[f];
            var m := PruneNext(s, f, o).memory;
            f in m.entries && m.entries[f].generation == e.generation && m.entries[f].present == e.present
  {}

  /** Which error a refusal gives: that of the request, or how far nginx and the way back
      got. Only a file that could not be put back is ever left changed. */
  lemma ApplyErrors(c: Config, s: Sys, r: Route, o: ApplyOutcome)
    requires ApplyNext(c, s, r, o).1.code == 422
    ensures var (m, reply) := ApplyNext(c, s, r, o);
            match reply.error.value
            case Rejected(e) =>
              m == s && (Validate(c, r) == Some(e)
                         || (r.desired != Absent && CertPaths(c, r) == Failure(e))
                         || (r.desired != Absent && CertPaths(c, r).Success?
                             && exists ready :: RenderVhost(c, r, CertPaths(c, r).value, ready) == Failure(e)))
            case Io => m == s && o.attempt.Blocked?
            case NginxRefused(rollback) =>
              (match rollback
               case Clean => m == s && o.attempt == Undone(true)
               case ReloadUnconfirmed => m == s && o.attempt == Undone(false)
               case FilesFailed => o.attempt.Stranded?)
            case _ => false
    ensures Validate(c, r).Some? ==> ApplyNext(c, s, r, o).1.error == Some(Rejected(Validate(c, r).value))
  {}

  /** The vhost a route is served with at first: of a custom name, the challenge only while
      it has no certificate. */
  ghost predicate FirstVhost(c: Config, s: Sys, r: Route, content: Content) {
    && content.Site? && content.vhost.fqdn == r.fqdn && content.vhost.generation == r.generation
    && (content.vhost.shape.Platform? <==> "wildcard:" <= r.certRef)
    && (content.vhost.shape.Https? <==> !("wildcard:" <= r.certRef) && r.fqdn in s.certs)
    && RenderedFrom(c, r, content)
  }

  /** The files an apply puts before nginx: all there were, without the vhost of its name,
      or with the one asked for. */
  lemma CandidateMeans(c: Config, s: Sys, r: Route)
    ensures r.desired == Absent ==> Candidate(c, s, r) == s.files - {r.fqdn + ".conf"}
    ensures Servable(c, r) ==>
              && r.fqdn + ".conf" in Candidate(c, s, r) && FirstVhost(c, s, r, Candidate(c, s, r)[r.fqdn + ".conf"])
              && Candidate(c, s, r) - {r.fqdn + ".conf"} == s.files - {r.fqdn + ".conf"}
  {
    FileNames(r.fqdn, "");
    if Servable(c, r) { RenderCarries(c, r, CertReady(s, r)); }
  }

  /** What an accepted apply leaves for its name: removed, with no certificate state unless
      its certificate could not be deleted; or served, in state OK if a custom name had its
      certificate or got it and was upgraded, and otherwise FAILED. */
  lemma ApplyLeaves(c: Config, s: Sys, r: Route, o: ApplyOutcome)
    requires ApplyNext(c, s, r, o).1.code == 200
    ensures var m, fn, platform := ApplyNext(c, s, r, o).0, r.fqdn + ".conf", "wildcard:" <= r.certRef;
            && r.fqdn in m.memory.entries
            && var e := m.memory.entries[r.fqdn];
            && e.generation == r.generation
            && (r.desired == Absent ==>
                  && !e.present && fn !in m.files
                  && (e == Entry(r.generation, false, NoCert, "") || (e.cert == CertFailed && r.fqdn in s.lineages)))
            && (r.desired != Absent ==> e.present)
            && (r.desired != Absent && platform ==>
                  e.cert == NoCert && fn in m.files && FirstVhost(c, s, r, m.files[fn]))
            && (r.desired != Absent && !platform && r.fqdn in s.certs ==>
                  e.cert == CertOK && e.certError == "" && fn in m.files && FirstVhost(c, s, r, m.files[fn]))
            && (r.desired != Absent && !platform && r.fqdn !in s.certs ==>
                  && e.cert == (if Upgraded(o.settle) then CertOK else CertFailed)
                  && e.certError == (if Upgraded(o.settle) then "" else o.settle.error)
                  && (Upgraded(o.settle) ==> fn in m.files && m.files[fn] == Site(SiteOf(c, r, true))))
  {
    hide RenderVhost, CertPaths;
    FileNames(r.fqdn, "");
    if r.desired == Absent {
      RemoveAt(c, s, r, o);
    } else {
      AcceptedServable(c, s, r, o);
      ServeAt(c, s, r, o);
      RenderCarries(c, r, CertReady(s, r));
    }
  }

  lemma AcceptedServable(c: Config, s: Sys, r: Route, o: ApplyOutcome)
    requires ApplyNext(c, s, r, o).1.code == 200 && r.desired != Absent
    ensures Servable(c, r) && o.attempt.Confirmed? && !Stale(s.memory, r)
  {}

  // ---- POST /sync-all ----

  /** 409 if and only if a snapshot was taken over before, other than the zeroth, and this
      one is no newer, with the generation of that one and nothing changed; 200 with the
      snapshot's generation, which the store has from then on; anything else is a 422. */
  lemma SyncReplies(c: Config, s: Sys, req: SyncRequest, o: SyncOutcome)
    requires Fits(c, s, req, o)
    ensures var (m, reply) := SyncNext(c, s, req, o);
            && (reply.code == 409 <==> s.memory.snapshotGen != 0 && req.snapshotGeneration <= s.memory.snapshotGen)
            && (reply.code == 409 ==> m == s && reply == SyncReply(409, false, s.memory.snapshotGen, [], [], None))
            && (reply.code == 200 ==>
                  && reply == SyncReply(200, true, req.snapshotGeneration, reply.pruned, reply.results, None)
                  && m.memory.snapshotGen == req.snapshotGeneration)
            && (reply.code != 200 && reply.code != 409 ==>
                  && reply.error.Some? && reply == SyncReply(422, false, req.snapshotGeneration, [], [], reply.error)
                  && m == s.(files := m.files))
  {
    if SyncNext(c, s, req, o).1.code == 200 { SnapshotRegression(c, s, req, o); }
  }

  /** Which error a refusal gives. */
  lemma SyncErrors(c: Config, s: Sys, req: SyncRequest, o: SyncOutcome)
    requires Fits(c, s, req, o) && SyncNext(c, s, req, o).1.code == 422
    ensures var (m, reply) := SyncNext(c, s, req, o);
            match reply.error.value
            case Rejected(_) => m == s && !o.Unread?
            case DuplicateFqdn(_) => m == s && !o.Unread?
            case Io => m == s && o.Unread?
            case SwapFailed(rollback) => o.Halted? && !o.swapped && HaltedAs(s, m, o.attempt, rollback)
            case NginxRefused(rollback) => o.Halted? && o.swapped && HaltedAs(s, m, o.attempt, rollback)
  {
    PlanErrors(c, s, EMPTY_PLAN, req.routes);
  }

  predicate HaltedAs(s: Sys, m: Sys, end: Attempt, rollback: Rollback) {
    match rollback
    case Clean => m == s && end == Undone(true)
    case ReloadUnconfirmed => m == s && end == Undone(false)
    case FilesFailed => end.Stranded?
  }

  /** r asks for a vhost, and its name is not known at a later generation. */
  predicate Takes(s: Sys, r: Route) {
    r.desired != Absent && !(r.fqdn in s.memory.entries && r.generation < s.memory.entries[r.fqdn].generation)
  }

  /** The result for a manifest entry: applied, at the generation asked for, unless a later
      one is known, which is then given. */
  lemma SyncResult(c: Config, s: Sys, req: SyncRequest, o: SyncOutcome, r: Route)
    requires RouteNames(s.files) && Fits(c, s, req, o) && SyncNext(c, s, req, o).1.code == 200
    requires DistinctNames(req.routes) && r in req.routes && r.desired != Absent
    ensures Takes(s, r) ==> FqdnResult(r.fqdn, true, r.generation) in SyncNext(c, s, req, o).1.results
    ensures !Takes(s, r) ==>
              r.fqdn in s.memory.entries
              && FqdnResult(r.fqdn, false, s.memory.entries[r.fqdn].generation) in SyncNext(c, s, req, o).1.results
  {
    hide SyncNext, Fits;
    ResultsTellTheTruth(c, s, req, o, r);
  }

  /** The results are in order of names, each once, and only for names the manifest asks to
      be served. */
  lemma SyncResults(c: Config, s: Sys, req: SyncRequest, o: SyncOutcome)
    requires Fits(c, s, req, o) && SyncNext(c, s, req, o).1.code == 200
    ensures var results := SyncNext(c, s, req, o).1.results;
            forall i, j | 0 <= i < j < |results| ::
              StrLeq(results[i].fqdn, results[j].fqdn) && results[i].fqdn != results[j].fqdn
    ensures forall x | x in SyncNext(c, s, req, o).1.results :: Listed(req.routes, x.fqdn)
  {
    hide Fits, PlanAll, StrLeq, Listed, ResultsOf;
    AcceptsCode(c, s, req, o);
    var p := PlanOf(c, s, req).value;
    ResultsListed(p);
    forall x | x in ResultsOf(p) ensures Listed(req.routes, x.fqdn) {
      EntriesNamed(c, s, EMPTY_PLAN, req.routes, x.fqdn);
    }
  }

  /** The manifest asks for f to be served. */
  ghost predicate Listed(routes: seq<Route>, f: string) {
    exists r :: r in routes && r.desired != Absent && r.fqdn == f
  }

  lemma ResultsListed(p: Plan)
    ensures forall i, j | 0 <= i < j < |ResultsOf(p)| ::
              StrLeq(ResultsOf(p)[i].fqdn, ResultsOf(p)[j].fqdn) && ResultsOf(p)[i].fqdn != ResultsOf(p)[j].fqdn
    ensures forall x | x in ResultsOf(p) :: x.fqdn in p.entries
  {
    hide StrLeq;
    forall x | x in ResultsOf(p) ensures x.fqdn in p.entries {
      var i :| 0 <= i < |ResultsOf(p)| && ResultsOf(p)[i] == x;
      assert Listing(p.entries.Keys)[i] in p.entries.Keys;
    }
  }

  lemma {:induction false} EntriesNamed(c: Config, s: Sys, acc: Plan, routes: seq<Route>, f: string)
    requires PlanAll(c, s, acc, routes).Success? && f in PlanAll(c, s, acc, routes).value.entries && f !in acc.entries
    ensures Listed(routes, f)
    decreases routes
  {
    var next := PlanRoute(c, s, acc, routes[0]).value;
    if f in next.entries {
      assert routes[0] in routes && routes[0].fqdn == f;
    } else {
      EntriesNamed(c, s, next, routes[1..], f);
    }
  }

  /** The names pruned, in order: those with a vhost on disk that the manifest neither asks
      to be served nor names at an older generation while they are present. */
  lemma SyncPruned(c: Config, s: Sys, req: SyncRequest, o: SyncOutcome, f: string)
    requires RouteNames(s.files) && Fits(c, s, req, o) && SyncNext(c, s, req, o).1.code == 200
    ensures var pruned := SyncNext(c, s, req, o).1.pruned;
            && (forall i, j | 0 <= i < j < |pruned| :: StrLeq(pruned[i], pruned[j]) && pruned[i] != pruned[j])
            && (IsRouteName(FileName(f)) ==>
                  (f in pruned <==> FileName(f) in s.files && !exists r :: r in req.routes && Keeps(s, r, f)))
  {
    hide Fits, PlanAll, Keeps, StrLeq;
    AcceptsCode(c, s, req, o);
    var p := PlanOf(c, s, req).value;
    if FileName(f) in s.files { PlannedKept(c, s, req, p, f); }
    StemFile(f);
    forall n | n in s.files && Stem(n) == f ensures n == FileName(f) { StemFileName(n); }
  }

  predicate Keeps(s: Sys, r: Route, f: string) {
    && r.fqdn == f && r.desired != Absent
    && (Takes(s, r) || s.memory.entries[f].present)
  }

  lemma PlannedKept(c: Config, s: Sys, req: SyncRequest, p: Plan, f: string)
    requires PlanOf(c, s, req) == Success(p) && FileName(f) in s.files
    ensures FileName(f) in p.desired <==> exists r :: r in req.routes && Keeps(s, r, f)
  {
    hide PlanAll;
    if FileName(f) in p.desired {
      DesiredOnly(c, s, EMPTY_PLAN, req.routes, FileName(f));
      var r :| r in req.routes && r.desired != Absent && FileName(f) == FileName(r.fqdn)
        && (Older(s.memory, r) ==> s.memory.entries[r.fqdn].present);
      FileNames(f, r.fqdn);
      assert Keeps(s, r, f);
    } else if r :| r in req.routes && Keeps(s, r, f) {
      DesiredAll(c, s, EMPTY_PLAN, req.routes, r);
    }
  }

  lemma StemFile(f: string)
    ensures Stem(FileName(f)) == f
  {}

  /** What an accepted sync leaves for a name whose manifest entry takes effect. */
  lemma SyncServed(c: Config, s: Sys, req: SyncRequest, o: SyncOutcome, r: Route)
    requires RouteNames(s.files) && Fits(c, s, req, o) && SyncNext(c, s, req, o).1.code == 200
    requires r in req.routes && Takes(s, r)
    ensures var m, fn, platform := SyncNext(c, s, req, o).0, r.fqdn + ".conf", "wildcard:" <= r.certRef;
            && r.fqdn in m.memory.entries
            && var e := m.memory.entries[r.fqdn];
            && e.generation == r.generation && e.present
            && (platform ==> e.cert == NoCert && fn in m.files && FirstVhost(c, s, r, m.files[fn]))
            && (!platform && r.fqdn in s.certs ==>
                  e.cert == CertOK && e.certError == "" && fn in m.files && FirstVhost(c, s, r, m.files[fn]))
            && (!platform && r.fqdn !in s.certs ==> e.cert == CertOK || e.cert == CertFailed)
  {
    hide SyncNext, PlanAll, RenderVhost, CertPaths;
    AcceptsCode(c, s, req, o);
    var p, m := PlanOf(c, s, req).value, SyncNext(c, s, req, o).0;
    FileNames(r.fqdn, "");
    FreshWins(c, s, EMPTY_PLAN, req.routes, r);
    RenderCarries(c, r, CertReady(s, r));
    SyncAt(c, s, req, o, p);
    if !CertReady(s, r) { FreshPending(c, s, EMPTY_PLAN, req.routes, r); }
    ServedAs(c, s, p, m, o.settles, r);
  }

  lemma {:induction false} FreshPending(c: Config, s: Sys, acc: Plan, routes: seq<Route>, r: Route)
    requires PlanAll(c, s, acc, routes).Success? && r in routes && Takes(s, r) && !CertReady(s, r)
    ensures r in PlanAll(c, s, acc, routes).value.pending
    decreases routes
  {
    var next := PlanRoute(c, s, acc, routes[0]).value;
    if routes[0] == r {
      PlanGrows(c, s, next, routes[1..]);
      var n := |acc.pending|;
      assert next.pending[n] == r && PlanAll(c, s, next, routes[1..]).value.pending[n] == r;
    } else {
      FreshPending(c, s, next, routes[1..], r);
    }
  }

  lemma ServedAs(c: Config, s: Sys, p: Plan, m: Sys, settles: seq<SettleOutcome>, r: Route)
    requires PlanGood(c, s, p) && |settles| == |p.pending| && EndsAs(c, s, p, m, settles) && Takes(s, r)
    requires Servable(c, r) && PlanLocal(p, r.fqdn) == RouteLocal(c, s, r) && (CertReady(s, r) || r in p.pending)
    ensures LocalOf(m, r.fqdn).entry.Some?
    ensures var e := LocalOf(m, r.fqdn).entry.value;
            && e.generation == r.generation && e.present
            && (CertReady(s, r) ==>
                  && LocalOf(m, r.fqdn).file == Some(Site(SiteOf(c, r, true)))
                  && e.cert == (if IsPlatform(r.certRef) then NoCert else CertOK) && e.certError == "")
            && (!CertReady(s, r) ==> e.cert == CertOK || e.cert == CertFailed)
  {
    hide RenderVhost, CertPaths;
    if IsPending(p, r.fqdn) {
      var i :| 0 <= i < |p.pending| && p.pending[i].fqdn == r.fqdn;
      assert p.pending[i] in p.pending;
      assert LocalOf(m, r.fqdn) == Settled(c, p.pending[i], settles[i], PlanLocal(p, r.fqdn));
    } else if CertReady(s, r) {
      RenderCarries(c, r, true);
    }
  }

  /** A name keeps what is newer than its manifest entry: its entry and its vhost, or, if
      the vhost is gone, the entry as a tombstone. */
  lemma SyncKept(c: Config, s: Sys, req: SyncRequest, o: SyncOutcome, r: Route)
    requires RouteNames(s.files) && Fits(c, s, req, o) && SyncNext(c, s, req, o).1.code == 200
    requires DistinctNames(req.routes) && r in req.routes && r.desired != Absent && !Takes(s, r)
    ensures var m, fn, e := SyncNext(c, s, req, o).0, r.fqdn + ".conf", s.memory.entries[r.fqdn];
            && r.fqdn in m.memory.entries && m.memory.entries[r.fqdn].generation == e.generation
            && (if e.present && fn in s.files
                then m.memory.entries[r.fqdn] == e && fn in m.files && m.files[fn] == s.files[fn]
                else !m.memory.entries[r.fqdn].present && fn !in m.files)
  {
    hide SyncNext, PlanAll, RenderVhost, CertPaths;
    AcceptsCode(c, s, req, o);
    var p, m := PlanOf(c, s, req).value, SyncNext(c, s, req, o).0;
    FileNames(r.fqdn, "");
    PlannedOnce(c, s, EMPTY_PLAN, req.routes, r);
    SyncAt(c, s, req, o, p);
    PendingFresh(c, s, EMPTY_PLAN, req.routes);
    KeptAs(c, s, p, m, o.settles, req.routes, r);
    if !IsPresent(LocalOf(m, r.fqdn)) {
      KeptGeneration(c, s, req, o, p, r);
    }
  }

  lemma KeptAs(c: Config, s: Sys, p: Plan, m: Sys, settles: seq<SettleOutcome>, routes: seq<Route>, r: Route)
    requires PlanGood(c, s, p) && |settles| == |p.pending| && EndsAs(c, s, p, m, settles)
    requires DistinctNames(routes) && r in routes && r.desired != Absent && !Takes(s, r)
    requires forall q | q in p.pending :: q in routes && Takes(s, q)
    requires PlanLocal(p, r.fqdn) == RouteLocal(c, s, r)
    ensures var x := LocalOf(s, r.fqdn);
            if IsPresent(x) && x.file.Some? then LocalOf(m, r.fqdn) == x
            else !IsPresent(LocalOf(m, r.fqdn)) && LocalOf(m, r.fqdn).file.None?
  {
    hide RenderVhost, CertPaths;
    forall q | q in p.pending ensures q.fqdn != r.fqdn {
      var i :| 0 <= i < |routes| && routes[i] == q;
      var j :| 0 <= j < |routes| && routes[j] == r;
    }
    assert !IsPending(p, r.fqdn);
  }

  lemma {:induction false} PendingFresh(c: Config, s: Sys, acc: Plan, routes: seq<Route>)
    requires PlanAll(c, s, acc, routes).Success?
    ensures forall q | q in PlanAll(c, s, acc, routes).value.pending :: q in acc.pending || (q in routes && Takes(s, q))
    decreases routes
  {
    if routes != [] { PendingFresh(c, s, PlanRoute(c, s, acc, routes[0]).value, routes[1..]); }
  }

  lemma KeptGeneration(c: Config, s: Sys, req: SyncRequest, o: SyncOutcome, p: Plan, r: Route)
    requires RouteNames(s.files) && Accepts(c, s, req, o, p) && r.fqdn in s.memory.entries
    requires r.desired != Absent && !Takes(s, r) && PlanLocal(p, r.fqdn) == RouteLocal(c, s, r)
    ensures var m := SyncNext(c, s, req, o).0;
            r.fqdn in m.memory.entries && m.memory.entries[r.fqdn].generation == s.memory.entries[r.fqdn].generation
  {
    var s1, names := Swapped(s, req, p, o.stored), PrunedOf(s, p);
    SyncLists(c, s, req, p, o.stored);
    PruneAllFrame(s1, names, o.prunes);
    SettleAllBeyond(c, PruneAll(s1, names, o.prunes), p.pending, o.settles);
    assert r.fqdn in s1.memory.entries && s1.memory.entries[r.fqdn].generation == s.memory.entries[r.fqdn].generation;
    assert EntryAt(PruneAll(s1, names, o.prunes).memory, r.fqdn).generation == s.memory.entries[r.fqdn].generation;
  }

  /** A name the manifest leaves out keeps its generation as a tombstone. */
  lemma SyncDropped(c: Config, s: Sys, req: SyncRequest, o: SyncOutcome, f: string)
    requires RouteNames(s.files) && Fits(c, s, req, o) && SyncNext(c, s, req, o).1.code == 200
    requires f in s.memory.entries && !Listed(req.routes, f)
    ensures var m := SyncNext(c, s, req, o).0;
            && f in m.memory.entries && m.memory.entries[f].generation == s.memory.entries[f].generation
            && !m.memory.entries[f].present && FileName(f) !in m.files
            && (m.memory.entries[f] == Entry(s.memory.entries[f].generation, false, NoCert, "")
                || (m.memory.entries[f].cert == CertFailed && f in s.lineages && FileName(f) in s.files))
  {
    AcceptsCode(c, s, req, o);
    var p, m := PlanOf(c, s, req).value, SyncNext(c, s, req, o).0;
    DroppedPlan(c, s, req, p, f);
    SyncAt(c, s, req, o, p);
    assert LocalOf(m, f).file == PlanLocal(p, f).file && !IsPresent(LocalOf(m, f));
    SyncGenerations(c, s, req, o, p, f);
  }

  lemma SyncGenerations(c: Config, s: Sys, req: SyncRequest, o: SyncOutcome, p: Plan, f: string)
    requires RouteNames(s.files) && Accepts(c, s, req, o, p) && f in s.memory.entries && f !in p.entries
    requires forall r | r in p.pending :: r.fqdn != f
    ensures var m := SyncNext(c, s, req, o).0;
            && f in m.memory.entries && m.memory.entries[f].generation == s.memory.entries[f].generation
            && (m.memory.entries[f] == Entry(s.memory.entries[f].generation, false, NoCert, "")
                || (m.memory.entries[f].cert == CertFailed && f in s.lineages && FileName(f) in s.files))
  {
    var s1, names := Swapped(s, req, p, o.stored), PrunedOf(s, p);
    SyncLists(c, s, req, p, o.stored);
    PrunedEntry(s1, names, o.prunes, f);
    SettleAllBeyond(c, PruneAll(s1, names, o.prunes), p.pending, o.settles);
    assert f in s1.memory.entries && s1.memory.entries[f] == Entry(s.memory.entries[f].generation, false, NoCert, "");
    if f in names {
      var n :| n in s.files && n !in p.desired && Stem(n) == f;
      StemFileName(n);
    }
  }

  /** Pruning leaves an entry alone but for a certificate of its name that could not be
      deleted; of an unknown name that makes an entry of its own. */
  lemma {:induction false} PrunedEntry(s: Sys, names: seq<string>, os: seq<PruneOutcome>, f: string)
    requires |names| == |os|
    ensures var m := PruneAll(s, names, os);
            && (f in m.lineages ==> f in s.lineages)
            && (f in s.memory.entries ==> f in m.memory.entries)
            && (f in m.memory.entries ==>
                  var e := m.memory.entries[f];
                  || (f in s.memory.entries && e == s.memory.entries[f])
                  || (&& e.cert == CertFailed && f in s.lineages && f in names
                      && e == (if f in s.memory.entries then s.memory.entries[f] else Entry(0, false, NoCert, ""))
                              .(cert := CertFailed, certError := e.certError)))
  {
    if names != [] {
      var n := |names| - 1;
      PrunedEntry(s, names[..n], os[..n], f);
      assert forall x | x in names[..n] :: x in names;
    }
  }

  /** A vhost nobody knows of is taken off disk like any other; that its certificate could
      not be deleted is all that is noted of it. */
  lemma SyncStray(c: Config, s: Sys, req: SyncRequest, o: SyncOutcome, f: string)
    requires RouteNames(s.files) && Fits(c, s, req, o) && SyncNext(c, s, req, o).1.code == 200
    requires f !in s.memory.entries && !Listed(req.routes, f)
    ensures var m := SyncNext(c, s, req, o).0;
            && FileName(f) !in m.files
            && (f in m.memory.entries ==>
                  && f in s.lineages && FileName(f) in s.files
                  && m.memory.entries[f] == Entry(0, false, CertFailed, m.memory.entries[f].certError))
  {
    AcceptsCode(c, s, req, o);
    var p := PlanOf(c, s, req).value;
    var s1, names := Swapped(s, req, p, o.stored), PrunedOf(s, p);
    DroppedPlan(c, s, req, p, f);
    SyncAt(c, s, req, o, p);
    assert LocalOf(SyncNext(c, s, req, o).0, f).file == PlanLocal(p, f).file;
    SyncLists(c, s, req, p, o.stored);
    PrunedEntry(s1, names, o.prunes, f);
    SettleAllBeyond(c, PruneAll(s1, names, o.prunes), p.pending, o.settles);
    if f in names {
      var n :| n in s.files && n !in p.desired && Stem(n) == f;
      StemFileName(n);
    }
  }

  /** The plan does not name it. */
  lemma DroppedPlan(c: Config, s: Sys, req: SyncRequest, p: Plan, f: string)
    requires RouteNames(s.files) && PlanOf(c, s, req) == Success(p) && !Listed(req.routes, f)
    ensures f !in p.entries && FileName(f) !in p.desired && !IsPending(p, f)
    ensures forall r | r in p.pending :: r.fqdn != f
  {
    if f in p.entries { EntriesNamed(c, s, EMPTY_PLAN, req.routes, f); }
    if FileName(f) in p.desired {
      DesiredOnly(c, s, EMPTY_PLAN, req.routes, FileName(f));
      var r :| r in req.routes && r.desired != Absent && FileName(f) == FileName(r.fqdn);
      FileNames(f, r.fqdn);
    }
    PlanAllGood(c, s, EMPTY_PLAN, req.routes);
    forall r | r in p.pending ensures r.fqdn != f { assert PlanLocal(p, r.fqdn).file.Some?; }
  }

  // ---- a snapshot sent again ----

  /** A point of a request leaves the snapshot generation alone, or moves it to that of a
      snapshot which is not refused; the state file follows the memory. */
  lemma PointSnapshot(c: Config, s: Sys, e: Event, m: Sys)
    requires PointOf(c, s, e, m)
    ensures || m.memory.snapshotGen == s.memory.snapshotGen
            || ((e.SyncDone? || e.SyncCrash?) && m.memory.snapshotGen == e.request.snapshotGeneration
                && (s.memory.snapshotGen == 0 || s.memory.snapshotGen < e.request.snapshotGeneration))
    ensures m.saved.snapshotGen == s.saved.snapshotGen || m.saved.snapshotGen == m.memory.snapshotGen
  {
    if e.ApplyDone? || e.ApplyCrash? {
      ApplyPointMid(c, s, e.route, m);
    }
  }

  lemma PointNames(c: Config, s: Sys, e: Event, m: Sys)
    requires RouteNames(s.files) && PointOf(c, s, e, m)
    ensures RouteNames(m.files)
  {
    if m != s {
      if e.ApplyDone? || e.ApplyCrash? {
        ApplyPointMid(c, s, e.route, m);
      } else {
        PlanAllGood(c, s, EMPTY_PLAN, e.request.routes);
      }
    }
  }

  /** Once a positive snapshot generation is in the store, it never goes back. */
  lemma {:induction false} SnapshotStays(c: Config, s: Sys, es: seq<Event>, g: int)
    requires RouteNames(s.files) && LegalRun(c, s, es)
    requires 0 < g <= s.memory.snapshotGen && (g <= s.saved.snapshotGen || NoCrash(es))
    ensures g <= After(c, s, es).memory.snapshotGen
    ensures g <= s.saved.snapshotGen ==> g <= After(c, s, es).saved.snapshotGen
    decreases es
  {
    if es != [] {
      assert es[0] in es && forall e | e in es[1..] :: e in es;
      LeftIsPoint(c, s, es[0]);
      PointSnapshot(c, s, es[0], Left(c, s, es[0]));
      PointNames(c, s, es[0], Left(c, s, es[0]));
      SnapshotStays(c, Next(c, s, es[0]), es[1..], g);
    }
  }

  /** A snapshot with a positive generation, sent again after its 200 - at once, or whatever
      came in between, crashes too if the state file has its generation - is refused, and
      changes nothing. */
  lemma SnapshotRefusedAgain(c: Config, s: Sys, req: SyncRequest, o: SyncOutcome, rest: seq<Event>, again: SyncOutcome)
    requires RouteNames(s.files) && Fits(c, s, req, o) && SyncNext(c, s, req, o).1.code == 200
    requires 0 < req.snapshotGeneration && LegalRun(c, SyncNext(c, s, req, o).0, rest)
    requires NoCrash(rest) || req.snapshotGeneration <= SyncNext(c, s, req, o).0.saved.snapshotGen
    requires Fits(c, After(c, SyncNext(c, s, req, o).0, rest), req, again)
    ensures var t := After(c, SyncNext(c, s, req, o).0, rest);
            && SyncNext(c, t, req, again) == (t, SyncReply(409, false, t.memory.snapshotGen, [], [], None))
            && req.snapshotGeneration <= t.memory.snapshotGen
  {
    var done, m := SyncDone(req, o), SyncNext(c, s, req, o).0;
    LeftIsPoint(c, s, done);
    PointNames(c, s, done, m);
    SnapshotRegression(c, s, req, o);
    SnapshotStays(c, m, rest, req.snapshotGeneration);
  }

  /** Exactly for a positive generation: the zeroth is always taken over again, and after a
      negative one the zeroth makes it so. */
  lemma SnapshotRefusedExactly(c: Config, s: Sys, req: SyncRequest, o: SyncOutcome)
    requires RouteNames(s.files) && Fits(c, s, req, o) && SyncNext(c, s, req, o).1.code == 200
    ensures var m := SyncNext(c, s, req, o).0;
            0 < req.snapshotGeneration <==>
              forall rest, again | LegalRun(c, m, rest) && NoCrash(rest) && Fits(c, After(c, m, rest), req, again) ::
                SyncNext(c, After(c, m, rest), req, again).1.code == 409
  {
    var m := SyncNext(c, s, req, o).0;
    if 0 < req.snapshotGeneration {
      forall rest, again | LegalRun(c, m, rest) && NoCrash(rest) && Fits(c, After(c, m, rest), req, again)
        ensures SyncNext(c, After(c, m, rest), req, again).1.code == 409
      {
        SnapshotRefusedAgain(c, s, req, o, rest, again);
      }
    } else {
      SnapshotRegression(c, s, req, o);
      var rest := Zeroth(c, m);
      var t := After(c, m, rest);
      assert Fits(c, t, req, Unread) && SyncNext(c, t, req, Unread).1.code == 422;
    }
  }

  /** From a snapshot generation that is not positive to one that is zero. */
  lemma Zeroth(c: Config, s: Sys) returns (es: seq<Event>)
    requires s.memory.snapshotGen <= 0
    ensures LegalRun(c, s, es) && NoCrash(es) && After(c, s, es).memory.snapshotGen == 0
  {
    if s.memory.snapshotGen == 0 {
      es := [];
    } else {
      var req := SyncRequest(0, []);
      var p := EMPTY_PLAN;
      assert PlanOf(c, s, req) == Success(p);
      var o := Accepted(true, seq(|PrunedOf(s, p)|, _ => Deleted), []);
      es := [SyncDone(req, o)];
      assert es[1..] == [];
      SnapshotRegression(c, s, req, o);
    }
  }
}
