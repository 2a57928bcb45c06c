/** Whole runs: any sequence of requests, with any outcomes, and crashes between any two
    steps of any of them. */
module Runs {
  import opened Wrappers
  import opened Sorting
  import opened Hostnames
  import opened Render
  import opened Lifecycle
  import opened Safety
  import opened Agreement
  import opened SyncAgreement
  import opened Points

  /** A finished request, or a crash that caught one in state mid, followed by the restart.
      An agent that crashes while idle is caught at the very start of a request. */
  datatype Event =
    | ApplyDone(route: Route, applied: ApplyOutcome)
    | SyncDone(request: SyncRequest, synced: SyncOutcome)
    | ApplyCrash(route: Route, mid: Sys)
    | SyncCrash(request: SyncRequest, mid: Sys)

  predicate IsCrash(e: Event) { e.ApplyCrash? || e.SyncCrash? }

  /** m is a point of the request of e, begun in s: what Manager.Apply and Manager.SyncAll
      are proved to pass through. */
  ghost predicate PointOf(c: Config, s: Sys, e: Event, m: Sys) {
    match e
    case ApplyDone(r, _) => ApplyPoint(c, s, r, m)
    case ApplyCrash(r, _) => ApplyPoint(c, s, r, m)
    case SyncDone(req, _) => SyncPoint(c, s, req, m)
    case SyncCrash(req, _) => SyncPoint(c, s, req, m)
  }

  ghost predicate Legal(c: Config, s: Sys, e: Event) {
    match e
    case ApplyDone(_, _) => true
    case SyncDone(req, o) => Fits(c, s, req, o)
    case _ => PointOf(c, s, e, e.mid)
  }

  /** The state the event leaves, before a crashed agent starts again. */
  ghost function Left(c: Config, s: Sys, e: Event): Sys
    requires Legal(c, s, e)
  {
    match e
    case ApplyDone(r, o) => ApplyNext(c, s, r, o).0
    case SyncDone(req, o) => SyncNext(c, s, req, o).0
    case _ => e.mid
  }

  ghost function Next(c: Config, s: Sys, e: Event): Sys
    requires Legal(c, s, e)
  {
    if IsCrash(e) then Reloaded(Left(c, s, e)) else Left(c, s, e)
  }

  ghost predicate LegalRun(c: Config, s: Sys, es: seq<Event>)
    decreases es
  {
    es != [] ==> Legal(c, s, es[0]) && LegalRun(c, Next(c, s, es[0]), es[1..])
  }

  ghost function After(c: Config, s: Sys, es: seq<Event>): Sys
    requires LegalRun(c, s, es)
    decreases es
  {
    if es == [] then s else After(c, Next(c, s, es[0]), es[1..])
  }

  lemma LeftIsPoint(c: Config, s: Sys, e: Event)
    requires RouteNames(s.files) && Legal(c, s, e)
    ensures PointOf(c, s, e, Left(c, s, e))
  {
    match e
    case ApplyDone(r, o) => ApplyIsPoint(c, s, r, o);
    case SyncDone(req, o) => SyncIsPoint(c, s, req, o);
    case _ =>
  }

  lemma PointForward(c: Config, s: Sys, e: Event, m: Sys)
    requires PointOf(c, s, e, m)
    ensures Leq(s.memory, m.memory) && (Safe(s) ==> Forward(s, m))
  {
    match e
    case ApplyDone(r, _) => ApplyPointForward(c, s, r, m);
    case ApplyCrash(r, _) => ApplyPointForward(c, s, r, m);
    case SyncDone(req, _) => SyncPointForward(c, s, req, m);
    case SyncCrash(req, _) => SyncPointForward(c, s, req, m);
  }

  lemma NextSafe(c: Config, s: Sys, e: Event)
    requires Safe(s) && Legal(c, s, e)
    ensures Safe(Next(c, s, e)) && Leq(s.saved, Next(c, s, e).saved)
    ensures !IsCrash(e) ==> Forward(s, Next(c, s, e))
  {
    CoveredNames(s);
    LeftIsPoint(c, s, e);
    PointForward(c, s, e, Left(c, s, e));
  }

  /** In every reachable state, crashes included, an HTTPS vhost has its certificate,
      and what the state file knows never regresses. */
  lemma {:induction false} RunSafe(c: Config, s: Sys, es: seq<Event>)
    requires Safe(s) && LegalRun(c, s, es)
    ensures Safe(After(c, s, es))
    ensures Leq(s.saved, After(c, s, es).saved)
    decreases es
  {
    if es != [] {
      NextSafe(c, s, es[0]);
      RunSafe(c, Next(c, s, es[0]), es[1..]);
    }
  }

  ghost predicate NoCrash(es: seq<Event>) { forall e | e in es :: !IsCrash(e) }

  /** Without a crash, no name is ever forgotten and no generation goes back. */
  lemma {:induction false} RunMonotone(c: Config, s: Sys, es: seq<Event>)
    requires Safe(s) && LegalRun(c, s, es) && NoCrash(es)
    ensures Forward(s, After(c, s, es))
    decreases es
  {
    if es != [] {
      NextSafe(c, s, es[0]);
      RunMonotone(c, Next(c, s, es[0]), es[1..]);
    }
  }

  // ---- durability ----

  /** A generation answered 200 whose record reached the state file is still known, in
      memory and on disk, after anything that follows. */
  lemma AcknowledgedApplySurvives(c: Config, s: Sys, r: Route, o: ApplyOutcome, rest: seq<Event>)
    requires Safe(s) && LegalRun(c, ApplyNext(c, s, r, o).0, rest)
    requires ApplyNext(c, s, r, o).1.code == 200 && AckStored(c, s, r, o)
    ensures var s' := After(c, ApplyNext(c, s, r, o).0, rest);
            && r.fqdn in s'.saved.entries && r.generation <= s'.saved.entries[r.fqdn].generation
            && r.fqdn in s'.memory.entries && r.generation <= s'.memory.entries[r.fqdn].generation
  {
    var s1 := ApplyNext(c, s, r, o).0;
    ApplyForward(c, s, r, o);
    ApplySaved(c, s, r, o);
    RunSafe(c, s1, rest);
    assert r.fqdn in s1.saved.entries;
  }

  /** Some write of the state file after the record succeeded. */
  predicate AckStored(c: Config, s: Sys, r: Route, o: ApplyOutcome) {
    || o.stored
    || (r.desired == Present && !IsPlatform(r.certRef) && o.settle.stored)
    || (r.desired == Absent && r.fqdn in s.lineages && o.prune.DeleteFailed? && o.prune.stored)
  }

  /** A restart right after a 200 knows the generation exactly when one of the state
      file writes succeeded: the code ignores their errors. */
  lemma ApplySaved(c: Config, s: Sys, r: Route, o: ApplyOutcome)
    requires Safe(s) && ApplyNext(c, s, r, o).1.code == 200
    ensures var m := Reloaded(ApplyNext(c, s, r, o).0).memory;
            AckStored(c, s, r, o) <==> r.fqdn in m.entries && m.entries[r.fqdn].generation == r.generation
  {
    var removed := s.(files := s.files - {FileName(r.fqdn)});
    if r.desired == Absent {
      var e := Entry(r.generation, false, NoCert, "");
      var s1 := Record(removed, r.fqdn, e, o.stored);
      assert ApplyNext(c, s, r, o).0 == PruneNext(s1, r.fqdn, o.prune);
    } else {
      var pair, ready := CertPaths(c, r).value, CertReady(s, r);
      var v := RenderVhost(c, r, pair, ready).value;
      var written := s.(files := s.files[FileName(r.fqdn) := Site(v)]);
      var s1 := Record(written, r.fqdn, Entry(r.generation, true, NoCert, ""), o.stored);
      assert ApplyNext(c, s, r, o).0 ==
               if IsPlatform(r.certRef) then s1 else SettleNext(c, s1, r, pair, ready, o.settle);
      SettleSaved(c, s1, r, pair, ready, o.settle);
    }
  }

  lemma SettleSaved(c: Config, s: Sys, r: Route, pair: CertPair, ready: bool, o: SettleOutcome)
    requires r.fqdn in s.memory.entries
    ensures var s' := SettleNext(c, s, r, pair, ready, o);
            && s'.saved == (if o.stored then s'.memory else s.saved)
            && r.fqdn in s'.memory.entries
            && s'.memory.entries[r.fqdn].generation == s.memory.entries[r.fqdn].generation
            && s'.memory.entries[r.fqdn].present == s.memory.entries[r.fqdn].present
  {}

  /** Some write of the state file succeeded, when the store was replaced or later, for a
      certificate that could not be deleted or one that was settled. */
  ghost predicate SyncStored(s: Sys, p: Plan, stored: bool, prunes: seq<PruneOutcome>, settles: seq<SettleOutcome>)
    requires |prunes| == |PrunedOf(s, p)|
  {
    stored || PruneStored(s, PrunedOf(s, p), prunes) || exists i :: 0 <= i < |settles| && settles[i].stored
  }

  ghost predicate PruneStored(s: Sys, names: seq<string>, os: seq<PruneOutcome>)
    requires |names| == |os|
  {
    exists i :: 0 <= i < |names| && names[i] in s.lineages && os[i].DeleteFailed? && os[i].stored
  }

  lemma PruneStoredSnoc(s: Sys, names: seq<string>, os: seq<PruneOutcome>)
    requires |names| == |os| && names != []
    ensures var n := |names| - 1;
            PruneStored(s, names, os) <==>
              || PruneStored(s, names[..n], os[..n])
              || (names[n] in s.lineages && os[n].DeleteFailed? && os[n].stored)
  {
    var n := |names| - 1;
    if i :| 0 <= i < n && names[..n][i] in s.lineages && os[..n][i].DeleteFailed? && os[..n][i].stored {
      assert names[i] in s.lineages && os[i].DeleteFailed? && os[i].stored;
    }
    if i :| 0 <= i < n && names[i] in s.lineages && os[i].DeleteFailed? && os[i].stored {
      assert names[..n][i] in s.lineages && os[..n][i].DeleteFailed? && os[..n][i].stored;
    }
  }

  lemma NothingStored(s: Sys)
    ensures !PruneStored(s, [], [])
  {}

  lemma PruneSaved(s: Sys, f: string, o: PruneOutcome)
    ensures var m := PruneNext(s, f, o);
            m.saved == if f in s.lineages && o.DeleteFailed? && o.stored then m.memory else s.saved
  {}

  lemma LineageKept(s: Sys, names: seq<string>, m: Sys, f: string)
    requires Beyond(s, (set x | x in names), m) && f !in names
    ensures f in m.lineages <==> f in s.lineages
  {}

  lemma {:induction false} PrunesSaved(s: Sys, names: seq<string>, os: seq<PruneOutcome>)
    requires |names| == |os| && (forall f | f in names :: FileName(f) !in s.files)
    requires forall i, j | 0 <= i < j < |names| :: names[i] != names[j]
    ensures var m := PruneAll(s, names, os);
            if PruneStored(s, names, os) then Kin(s.memory, (set f | f in names), m.saved) else m.saved == s.saved
  {
    hide FilesBeyond, PruneNext, PruneStored;
    if names == [] {
      NothingStored(s);
    } else {
      var n := |names| - 1;
      var front, last := names[..n], names[n];
      var m := PruneAll(s, front, os[..n]);
      PrunesSaved(s, front, os[..n]);
      PruneAllBeyond(s, front, os[..n]);
      PruneAllBeyond(s, names, os);
      LineageKept(s, front, m, last);
      PruneSaved(m, last, os[n]);
      PruneStoredSnoc(s, names, os);
      if PruneStored(s, front, os[..n]) {
        KinMore(s.memory, (set f | f in front), (set f | f in names), m.saved);
      }
    }
  }

  lemma KinSelf(a: Image, names: set<string>)
    ensures Kin(a, names, a)
  {}

  lemma KinMore(a: Image, names: set<string>, more: set<string>, b: Image)
    requires Kin(a, names, b) && names <= more
    ensures Kin(a, more, b)
  {}

  lemma {:induction false} SettlesSaved(c: Config, s: Sys, pending: seq<Route>, os: seq<SettleOutcome>)
    requires |pending| == |os| && forall r | r in pending :: CertPaths(c, r).Success?
    ensures var m := SettleAll(c, s, pending, os);
            if exists i :: 0 <= i < |os| && os[i].stored
            then Kin(s.memory, (set r | r in pending :: r.fqdn), m.saved)
            else m.saved == s.saved
  {
    hide FilesBeyond, SettleOne, Kin, CertPaths;
    if pending != [] {
      var n := |pending| - 1;
      var front, last := pending[..n], pending[n];
      var m := SettleAll(c, s, front, os[..n]);
      SettlesSaved(c, s, front, os[..n]);
      SettleAllBeyond(c, s, pending, os);
      assert last in pending;
      SettleOneSaved(c, m, last, os[n]);
      if i :| 0 <= i < n && os[i].stored {
        assert os[..n][i].stored;
        KinMore(s.memory, (set r | r in front :: r.fqdn), (set r | r in pending :: r.fqdn), m.saved);
      }
    }
  }

  lemma SettleOneSaved(c: Config, s: Sys, r: Route, o: SettleOutcome)
    requires CertPaths(c, r).Success?
    ensures var m := SettleOne(c, s, r, o); m.saved == if o.stored then m.memory else s.saved
  {}

  /** What a restart right after an accepted sync finds: the replaced store, certificate
      states of the names handled since aside, if anything was written; else the old file. */
  lemma SyncSaved(c: Config, s: Sys, req: SyncRequest, o: SyncOutcome, p: Plan)
    requires RouteNames(s.files) && Accepts(c, s, req, o, p)
    ensures var m := Reloaded(SyncNext(c, s, req, o).0).memory;
            if SyncStored(s, p, o.stored, o.prunes, o.settles)
            then Kin(Swapped(s, req, p, true).memory, Reach(s, p), m)
            else m == s.saved
  {
    hide PlanOf, PrunedOf, FilesBeyond, Kin, Reach, CertPaths;
    var s1, names, reach := Swapped(s, req, p, o.stored), PrunedOf(s, p), Reach(s, p);
    var s2 := PruneAll(s1, names, o.prunes);
    SyncLists(c, s, req, p, o.stored);
    PrunesSaved(s1, names, o.prunes);
    PruneAllBeyond(s1, names, o.prunes);
    SettlesSaved(c, s2, p.pending, o.settles);
    SavedThrough(s1, (set f | f in names), s2, (set r | r in p.pending :: r.fqdn),
                 SettleAll(c, s2, p.pending, o.settles).saved, reach);
    KinSelf(s1.memory, reach);
    assert SyncStored(s, p, o.stored, o.prunes, o.settles) <==>
             o.stored || PruneStored(s1, names, o.prunes) || exists i :: 0 <= i < |o.settles| && o.settles[i].stored;
  }

  /** The names a sync prunes and the routes it settles: each pruned name once, and off
      disk by then. */
  lemma SyncLists(c: Config, s: Sys, req: SyncRequest, p: Plan, stored: bool)
    requires RouteNames(s.files) && PlanOf(c, s, req) == Success(p)
    ensures var names, s1 := PrunedOf(s, p), Swapped(s, req, p, stored);
            && (forall f | f in names :: FileName(f) !in s1.files)
            && (forall i, j | 0 <= i < j < |names| :: names[i] != names[j])
            && (forall r | r in p.pending :: CertPaths(c, r).Success?)
            && (set f | f in names) <= Reach(s, p) && (set r | r in p.pending :: r.fqdn) <= Reach(s, p)
  {
    PlanAllGood(c, s, EMPTY_PLAN, req.routes);
    forall f | f in PrunedOf(s, p) ensures FileName(f) !in p.desired { PrunedAbsent(c, s, req, p, stored, f); }
  }

  /** Two stretches of handling certificates, as the state file sees them. */
  lemma SavedThrough(s: Sys, names: set<string>, m: Sys, more: set<string>, saved: Image, all: set<string>)
    requires Beyond(s, names, m) && names <= all && more <= all
    requires saved == m.saved || Kin(m.memory, more, saved)
    ensures Kin(m.memory, more, saved) ==> Kin(s.memory, all, saved)
    ensures Kin(s.memory, names, m.saved) ==> Kin(s.memory, all, m.saved)
  {
    hide FilesBeyond;
    KinMore(s.memory, names, all, m.memory);
    if Kin(m.memory, more, saved) { KinTrans(s.memory, all, m.memory, more, saved); }
    if Kin(s.memory, names, m.saved) { KinMore(s.memory, names, all, m.saved); }
  }

  /** So the restarted agent knows the generation of a manifest entry that took effect, and
      was not in the old file already, if and only if one of the writes succeeded. */
  lemma SyncKnown(c: Config, s: Sys, req: SyncRequest, o: SyncOutcome, p: Plan, r: Route)
    requires RouteNames(s.files) && Accepts(c, s, req, o, p)
    requires r in req.routes && Fresh(s, r)
    requires r.fqdn in s.saved.entries ==> s.saved.entries[r.fqdn].generation != r.generation
    ensures var m := Reloaded(SyncNext(c, s, req, o).0).memory;
            SyncStored(s, p, o.stored, o.prunes, o.settles) <==>
              r.fqdn in m.entries && m.entries[r.fqdn].generation == r.generation
  {
    SyncSaved(c, s, req, o, p);
    FreshWins(c, s, EMPTY_PLAN, req.routes, r);
    assert r.fqdn in p.entries && p.entries[r.fqdn].generation == r.generation by {
      assert PlanLocal(p, r.fqdn) == RouteLocal(c, s, r);
    }
    assert r.fqdn in Swapped(s, req, p, true).memory.entries.Keys;
  }

  lemma SwapSaved(s: Sys, req: SyncRequest, p: Plan, saved: Image, i: nat)
    requires i < |ResultsOf(p)| && Leq(Swapped(s, req, p, true).memory, saved)
    ensures var x := ResultsOf(p)[i];
            x.fqdn in saved.entries && x.generation <= saved.entries[x.fqdn].generation
  {
    assert Listing(p.entries.Keys)[i] in p.entries.Keys;
    assert ResultsOf(p)[i].fqdn in Swapped(s, req, p, true).memory.entries;
  }

  /** Every generation in the results of an acknowledged sync, if any write of the state
      file succeeded, is still known after anything that follows. */
  lemma AcknowledgedSyncSurvives(c: Config, s: Sys, req: SyncRequest, o: SyncOutcome, p: Plan, rest: seq<Event>, i: nat)
    requires Safe(s) && Accepts(c, s, req, o, p) && LegalRun(c, SyncNext(c, s, req, o).0, rest)
    requires SyncStored(s, p, o.stored, o.prunes, o.settles) && i < |SyncNext(c, s, req, o).1.results|
    ensures var s' := After(c, SyncNext(c, s, req, o).0, rest);
            var x := SyncNext(c, s, req, o).1.results[i];
            x.fqdn in s'.saved.entries && x.generation <= s'.saved.entries[x.fqdn].generation
  {
    CoveredNames(s);
    SyncForward(c, s, req, o);
    SyncSaved(c, s, req, o, p);
    var s1, m := Swapped(s, req, p, true), SyncNext(c, s, req, o).0;
    KinLeq(s1.memory, Reach(s, p), m.saved);
    RunSafe(c, m, rest);
    LeqTrans(s1.memory, m.saved, After(c, m, rest).saved);
    SwapSaved(s, req, p, After(c, m, rest).saved, i);
  }

  // ---- snapshot generations ----

  /** Zero means never synced, so the snapshot generation goes back exactly when a
      negative one follows zero. */
  lemma SnapshotRegression(c: Config, s: Sys, req: SyncRequest, o: SyncOutcome)
    requires Fits(c, s, req, o) && SyncNext(c, s, req, o).1.code == 200
    ensures SyncNext(c, s, req, o).0.memory.snapshotGen == req.snapshotGeneration
    ensures SyncNext(c, s, req, o).0.memory.snapshotGen < s.memory.snapshotGen <==>
              s.memory.snapshotGen == 0 && req.snapshotGeneration < 0
  {
    var p := PlanOf(c, s, req).value;
    PruneAllFrame(Swapped(s, req, p, o.stored), PrunedOf(s, p), o.prunes);
    SettleAllBeyond(c, PruneAll(Swapped(s, req, p, o.stored), PrunedOf(s, p), o.prunes), p.pending, o.settles);
  }

  // ---- tombstones ----

  /** f is known at generation g or later. */
  ghost predicate Knows(m: Image, f: string, g: int) { f in m.entries && g <= m.entries[f].generation }

  /** f has no vhost and is known at generation g or later. */
  ghost predicate Gone(s: Sys, f: string, g: int) { FileName(f) !in s.files && Knows(s.memory, f, g) }

  /** f was removed at generation g or later. */
  ghost predicate Buried(m: Image, f: string, g: int) { Knows(m, f, g) && !m.entries[f].present }

  /** ... and its vhost is gone. */
  ghost predicate Retired(s: Sys, f: string, g: int) { FileName(f) !in s.files && Buried(s.memory, f, g) }

  /** No request, finished or cut off, is newer than g; a sync at the tombstone's own
      generation would be (it is only guarded against older ones). */
  ghost predicate NothingNewer(e: Event, f: string, g: int) {
    if e.ApplyDone? || e.ApplyCrash? then e.route.fqdn == f ==> e.route.generation <= g
    else forall r | r in e.request.routes && r.fqdn == f :: r.generation < g
  }

  ghost predicate NothingNewerIn(es: seq<Event>, f: string, g: int) { forall e | e in es :: NothingNewer(e, f, g) }

  /** However late and however often stale requests arrive, and wherever the agent crashes,
      a removed vhost stays removed, if the state file knows its generation - as a tombstone
      or, when only the tombstone could not be written, still as the vhost it was. Without
      that it stays removed until the first crash. */
  lemma {:induction false} RemovedStaysRemoved(c: Config, s: Sys, es: seq<Event>, f: string, g: int)
    requires RouteNames(s.files) && LegalRun(c, s, es) && NothingNewerIn(es, f, g)
    requires Gone(s, f, g) && (Knows(s.saved, f, g) || NoCrash(es))
    ensures var s' := After(c, s, es); Gone(s', f, g) && (Knows(s.saved, f, g) ==> Knows(s'.saved, f, g))
    decreases es
  {
    if es != [] {
      assert es[0] in es && forall e | e in es[1..] :: e in es;
      LeftIsPoint(c, s, es[0]);
      PointGone(c, s, es[0], Left(c, s, es[0]), f, g);
      RemovedStaysRemoved(c, Next(c, s, es[0]), es[1..], f, g);
    }
  }

  /** ... and its tombstone stays with it. */
  lemma {:induction false} TombstoneStays(c: Config, s: Sys, es: seq<Event>, f: string, g: int)
    requires RouteNames(s.files) && LegalRun(c, s, es) && NothingNewerIn(es, f, g)
    requires Retired(s, f, g) && (Buried(s.saved, f, g) || NoCrash(es))
    ensures Retired(After(c, s, es), f, g)
    ensures Buried(s.saved, f, g) ==> Buried(After(c, s, es).saved, f, g)
    decreases es
  {
    if es != [] {
      assert es[0] in es && forall e | e in es[1..] :: e in es;
      LeftIsPoint(c, s, es[0]);
      PointGone(c, s, es[0], Left(c, s, es[0]), f, g);
      TombstoneStays(c, Next(c, s, es[0]), es[1..], f, g);
    }
  }

  /** The exact condition: a request at or below the generation of a removed name can bring
      its vhost back, in some run without a newer one, if and only if the state file does not
      know a generation as late as its own. */
  lemma RemovedExactly(c: Config, s: Sys, r: Route)
    requires RouteNames(s.files) && Servable(c, r) && Gone(s, r.fqdn, r.generation)
    ensures Knows(s.saved, r.fqdn, r.generation) <==>
              forall es | LegalRun(c, s, es) && NothingNewerIn(es, r.fqdn, r.generation) ::
                FileName(r.fqdn) !in After(c, s, es).files
  {
    var f, g := r.fqdn, r.generation;
    if Knows(s.saved, f, g) {
      forall es | LegalRun(c, s, es) && NothingNewerIn(es, f, g) ensures FileName(f) !in After(c, s, es).files {
        RemovedStaysRemoved(c, s, es, f, g);
      }
    } else {
      var es := BroughtBack(c, s, r);
    }
  }

  /** A crash, then the request. */
  lemma BroughtBack(c: Config, s: Sys, r: Route) returns (es: seq<Event>)
    requires Servable(c, r) && !Knows(s.saved, r.fqdn, r.generation)
    ensures LegalRun(c, s, es) && NothingNewerIn(es, r.fqdn, r.generation)
    ensures FileName(r.fqdn) in After(c, s, es).files
  {
    var o := ApplyOutcome(Confirmed, true, SettleOutcome(Issued, true, Confirmed, "", true), Deleted);
    var crash, retry := ApplyCrash(r, s), ApplyDone(r, o);
    es := [crash, retry];
    assert es[1..] == [retry] && es[1..][1..] == [];
    assert Next(c, s, crash) == Reloaded(s);
    ServeAt(c, Reloaded(s), r, o);
    var m := ApplyNext(c, Reloaded(s), r, o).0;
    assert LocalOf(m, r.fqdn).file.Some?;
    assert After(c, s, es) == After(c, Reloaded(s), [retry]) == m;
  }

  /** No point of a request that is not newer undoes a removal, or loses what either store
      knows of it. */
  lemma PointGone(c: Config, s: Sys, e: Event, m: Sys, f: string, g: int)
    requires RouteNames(s.files) && PointOf(c, s, e, m) && Gone(s, f, g) && NothingNewer(e, f, g)
    ensures RouteNames(m.files) && Gone(m, f, g) && (Knows(s.saved, f, g) ==> Knows(m.saved, f, g))
    ensures Buried(s.memory, f, g) ==> Buried(m.memory, f, g) && (Buried(s.saved, f, g) ==> Buried(m.saved, f, g))
  {
    if m != s {
      if e.ApplyDone? || e.ApplyCrash? {
        ApplyPointMid(c, s, e.route, m);
        MidGone(s, e.route, m, f, g);
      } else {
        PlanGone(c, s, EMPTY_PLAN, e.request.routes, f, g);
        SyncPointGone(c, s, e.request, PlanOf(c, s, e.request).value, m, f, g);
      }
    }
  }

  lemma MidGone(s: Sys, r: Route, m: Sys, f: string, g: int)
    requires RouteNames(s.files) && Mid(s, r.fqdn, r.generation, m) && Gone(s, f, g) && r.fqdn != f
    ensures RouteNames(m.files) && Gone(m, f, g) && (Knows(s.saved, f, g) ==> Knows(m.saved, f, g))
    ensures Buried(s.memory, f, g) ==> Buried(m.memory, f, g) && (Buried(s.saved, f, g) ==> Buried(m.saved, f, g))
  {
    assert LocalOf(m, f).file == LocalOf(s, f).file;
  }

  /** A plan keeps at most the absence of a name with no vhost, at its own generation. */
  lemma {:induction false} PlanGone(c: Config, s: Sys, acc: Plan, routes: seq<Route>, f: string, g: int)
    requires Gone(s, f, g) && PlanAll(c, s, acc, routes).Success?
    requires forall r | r in routes && r.fqdn == f :: r.generation < g
    requires FileName(f) !in acc.desired && (forall r | r in acc.pending :: r.fqdn != f)
    requires f in acc.entries ==> acc.entries[f] == s.memory.entries[f].(present := false)
    ensures var p := PlanAll(c, s, acc, routes).value;
            && FileName(f) !in p.desired
            && (forall r | r in p.pending :: r.fqdn != f)
            && (f in p.entries ==> p.entries[f] == s.memory.entries[f].(present := false))
    decreases routes
  {
    if routes != [] {
      FileNames(f, routes[0].fqdn);
      PlanGone(c, s, PlanRoute(c, s, acc, routes[0]).value, routes[1..], f, g);
    }
  }

  lemma SyncPointGone(c: Config, s: Sys, req: SyncRequest, p: Plan, m: Sys, f: string, g: int)
    requires RouteNames(s.files) && PlanOf(c, s, req) == Success(p) && PlanPoint(s, req, p, m) && Gone(s, f, g)
    requires FileName(f) !in p.desired && (forall r | r in p.pending :: r.fqdn != f)
    requires f in p.entries ==> p.entries[f] == s.memory.entries[f].(present := false)
    ensures RouteNames(m.files) && Gone(m, f, g) && (Knows(s.saved, f, g) ==> Knows(m.saved, f, g))
    ensures Buried(s.memory, f, g) ==> Buried(m.memory, f, g) && (Buried(s.saved, f, g) ==> Buried(m.saved, f, g))
  {
    PlanAllGood(c, s, EMPTY_PLAN, req.routes);
    if !Swapping(s, m, p.desired) {
      forall n | n in s.files ensures Stem(n) != f { StemFileName(n); }
      var stored := Beyond(Swapped(s, req, p, true), Reach(s, p), m);
      BeyondGone(Swapped(s, req, p, stored), Reach(s, p), m, f, g);
    }
  }

  lemma BeyondGone(s: Sys, names: set<string>, m: Sys, f: string, g: int)
    requires RouteNames(s.files) && Beyond(s, names, m) && Gone(s, f, g) && f !in names
    ensures RouteNames(m.files) && Gone(m, f, g) && (Knows(s.saved, f, g) ==> Knows(m.saved, f, g))
    ensures Buried(s.memory, f, g) ==> Buried(m.memory, f, g) && (Buried(s.saved, f, g) ==> Buried(m.saved, f, g))
  {
    assert LocalOf(m, f).file == LocalOf(s, f).file;
    assert f in m.memory.entries.Keys;
    assert m.saved != s.saved ==> f in m.saved.entries.Keys;
  }

  // ---- agreement over whole runs ----

  /** The event is none of the branches that can break the agreement of files and entries:
      of an apply and of an accepted sync exactly those that do (ApplyAgreement,
      SyncKeepsAgreement), of a refused sync any that could not put the files back
      (ResidueAgrees says which of those do). */
  ghost predicate Faithful(c: Config, s: Sys, e: Event) {
    match e
    case ApplyDone(r, o) => !ApplyStrays(c, s, r, o)
    case SyncDone(req, o) => (o.Accepted? ==> NoneLost(o.settles)) && (o.Halted? ==> !o.attempt.Stranded?)
    case _ => false
  }

  /** ... nor one that leaves a wrong certificate state. */
  ghost predicate Certified(c: Config, s: Sys, e: Event) {
    match e
    case ApplyDone(r, o) => !ApplyMisreports(c, s, r, o)
    case SyncDone(req, o) => o.Accepted? ==> NoneStuck(o.settles)
    case _ => false
  }

  ghost predicate FaithfulRun(c: Config, s: Sys, es: seq<Event>)
    decreases es
  {
    es != [] ==> Legal(c, s, es[0]) && Faithful(c, s, es[0]) && Certified(c, s, es[0])
                 && FaithfulRun(c, Next(c, s, es[0]), es[1..])
  }

  ghost function NextOrigin(c: Config, s: Sys, e: Event, origin: map<string, Route>): map<string, Route>
    requires Legal(c, s, e)
  {
    match e
    case ApplyDone(r, o) => ApplyOrigin(c, s, r, o, origin)
    case SyncDone(req, o) => if SyncNext(c, s, req, o).1.code == 200 then SyncOrigin(s, origin, req.routes) else origin
    case _ => origin
  }

  ghost function OriginAfter(c: Config, s: Sys, es: seq<Event>, origin: map<string, Route>): map<string, Route>
    requires LegalRun(c, s, es)
    decreases es
  {
    if es == [] then origin else OriginAfter(c, Next(c, s, es[0]), es[1..], NextOrigin(c, s, es[0], origin))
  }

  lemma NextAgrees(c: Config, s: Sys, e: Event, origin: map<string, Route>)
    requires Legal(c, s, e) && Faithful(c, s, e) && Certified(c, s, e)
    requires Agrees(c, s, origin) && Truthful(s)
    ensures Agrees(c, Next(c, s, e), NextOrigin(c, s, e, origin)) && Truthful(Next(c, s, e))
  {
    match e
    case ApplyDone(r, o) =>
      ApplyAgreement(c, s, r, o, origin);
      ApplyTruth(c, s, r, o);
    case SyncDone(req, o) =>
      if SyncNext(c, s, req, o).1.code == 200 {
        AcceptsCode(c, s, req, o);
        SyncKeepsAgreement(c, s, req, o, origin);
        SyncTruth(c, s, req, o);
      }
  }

  /** Disk, store and requests agree in every state a faithful run reaches: a vhost file
      exists exactly when its entry is present, it is a render of the last request
      accepted for the name, at the entry's generation, and the certificate state is
      that of the file. */
  lemma {:induction false} RunAgrees(c: Config, s: Sys, es: seq<Event>, origin: map<string, Route>)
    requires Agrees(c, s, origin) && Truthful(s) && FaithfulRun(c, s, es)
    ensures LegalRun(c, s, es)
    ensures Agrees(c, After(c, s, es), OriginAfter(c, s, es, origin)) && Truthful(After(c, s, es))
    decreases es
  {
    if es != [] {
      NextAgrees(c, s, es[0], origin);
      RunAgrees(c, Next(c, s, es[0]), es[1..], NextOrigin(c, s, es[0], origin));
    }
  }
}
