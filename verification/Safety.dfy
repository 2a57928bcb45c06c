/** What every run keeps, whatever fails and wherever it crashes. */
module Safety {
  import opened Wrappers
  import opened Hostnames
  import opened Render
  import opened Lifecycle

  // ---- the invariant ----

  /** Managed files have route names, a vhost file is named after its vhost, and an
      HTTPS vhost has its certificate. */
  ghost predicate FileCovered(n: string, content: Content, certs: set<string>) {
    && IsRouteName(n)
    && (content.Site? ==> n == FileName(content.vhost.fqdn))
    && (content.Site? && content.vhost.shape.Https? ==> content.vhost.fqdn in certs)
  }

  ghost predicate AllCovered(files: map<string, Content>, certs: set<string>) {
    forall n | n in files :: FileCovered(n, files[n], certs)
  }

  /** Every name a knows, b knows at the same generation or a later one. */
  ghost predicate Leq(a: Image, b: Image) {
    forall f | f in a.entries :: f in b.entries && a.entries[f].generation <= b.entries[f].generation
  }

  ghost predicate Safe(s: Sys) {
    && AllCovered(s.files, s.certs)
    && Leq(s.saved, s.memory)
  }

  /** A state m some request started in s passes through, or ends in: it is safe, and
      neither store has forgotten a name or moved one back. */
  ghost predicate Forward(s: Sys, m: Sys) {
    && Safe(m)
    && Leq(s.memory, m.memory)
    && Leq(s.saved, m.saved)
  }

  // ---- the plan of a sync ----

  /** A name is planned present exactly when its file is planned. */
  ghost predicate PlanMatched(p: Plan) {
    && (forall n | n in p.desired :: IsRouteName(n) && Stem(n) in p.entries && p.entries[Stem(n)].present)
    && (forall f | f in p.entries && p.entries[f].present :: FileName(f) in p.desired)
  }

  /** Also, planned files are covered and planned entries never older than the stored. */
  ghost predicate PlanSafe(s: Sys, p: Plan) {
    && PlanMatched(p)
    && AllCovered(p.desired, s.certs)
    && (forall f | f in p.entries && f in s.memory.entries ::
          s.memory.entries[f].generation <= p.entries[f].generation)
  }

  lemma PlaceSafe(c: Config, s: Sys, acc: Plan, r: Route, pair: CertPair)
    requires PlanSafe(s, acc) && !Older(s.memory, r)
    requires RenderVhost(c, r, pair, CertReady(s, r)).Success?
    ensures PlanSafe(s, Place(s, acc, r, RenderVhost(c, r, pair, CertReady(s, r)).value))
  {
    ReservedNames(r.fqdn, "");
    var v := RenderVhost(c, r, pair, CertReady(s, r)).value;
    PutPlanned(s, acc, Place(s, acc, r, v), r.fqdn, Site(v), Entry(r.generation, true, FreshState(s, r), ""));
  }

  lemma KeepSafe(s: Sys, acc: Plan, r: Route)
    requires AllCovered(s.files, s.certs) && PlanSafe(s, acc)
    requires Older(s.memory, r) && FileName(r.fqdn) !in acc.desired
    ensures PlanSafe(s, Keep(s, acc, r))
  {
    var fn, cur, next := FileName(r.fqdn), s.memory.entries[r.fqdn], Keep(s, acc, r);
    if cur.present && fn in s.files {
      PutPlanned(s, acc, next, r.fqdn, s.files[fn], cur);
    } else {
      DropPlanned(s, acc, next, r.fqdn, cur.(present := false));
    }
  }

  /** Planning a name present, together with its file. */
  lemma PutPlanned(s: Sys, acc: Plan, next: Plan, f: string, content: Content, e: Entry)
    requires PlanSafe(s, acc)
    requires next.desired == acc.desired[FileName(f) := content] && next.entries == acc.entries[f := e]
    requires FileCovered(FileName(f), content, s.certs) && e.present
    requires f in s.memory.entries ==> s.memory.entries[f].generation <= e.generation
    ensures PlanSafe(s, next)
  {
    PutMatched(acc, next, f, content, e);
    PutCovered(acc.desired, FileName(f), content, s.certs);
  }

  lemma PutCovered(files: map<string, Content>, n: string, content: Content, certs: set<string>)
    requires AllCovered(files, certs) && FileCovered(n, content, certs)
    ensures AllCovered(files[n := content], certs)
  {}

  lemma PutMatched(acc: Plan, next: Plan, f: string, content: Content, e: Entry)
    requires PlanMatched(acc)
    requires next.desired == acc.desired[FileName(f) := content] && next.entries == acc.entries[f := e]
    requires IsRouteName(FileName(f)) && e.present
    ensures PlanMatched(next)
  {
    FileNames(f, f);
    hide Stem, FileName, IsRouteName;
    forall n | n in next.desired ensures IsRouteName(n) && Stem(n) in next.entries && next.entries[Stem(n)].present {
      assert n == FileName(f) || (n in acc.desired && Stem(n) in acc.entries);
    }
    forall x | x in next.entries && next.entries[x].present ensures FileName(x) in next.desired {
      assert x == f || (x in acc.entries && acc.entries[x].present);
    }
  }

  /** Planning a name absent. */
  lemma DropPlanned(s: Sys, acc: Plan, next: Plan, f: string, e: Entry)
    requires PlanSafe(s, acc)
    requires next.desired == acc.desired && next.entries == acc.entries[f := e]
    requires FileName(f) !in acc.desired && !e.present
    requires f in s.memory.entries ==> s.memory.entries[f].generation <= e.generation
    ensures PlanSafe(s, next)
  {
    PlanNames(acc.desired, f);
  }

  /** Distinct names have distinct files. */
  lemma PlanNames(files: map<string, Content>, f: string)
    ensures Stem(FileName(f)) == f
    ensures forall g: string {:trigger FileName(g)} :: FileName(g) == FileName(f) ==> g == f
    ensures forall n | n in files && IsRouteName(n) :: FileName(Stem(n)) == n
  {
    FileNames(f, f);
    forall g: string ensures FileName(g) == FileName(f) ==> g == f { FileNames(g, f); }
    forall n | n in files && IsRouteName(n) ensures FileName(Stem(n)) == n { StemFileName(n); }
  }

  lemma {:induction false} PlanAllSafe(c: Config, s: Sys, acc: Plan, routes: seq<Route>)
    requires AllCovered(s.files, s.certs) && PlanSafe(s, acc)
    requires PlanAll(c, s, acc, routes).Success?
    ensures PlanSafe(s, PlanAll(c, s, acc, routes).value)
    decreases routes
  {
    if routes != [] {
      var r := routes[0];
      if r.desired != Absent {
        if Older(s.memory, r) {
          KeepSafe(s, acc, r);
        } else {
          PlaceSafe(c, s, acc, r, CertPaths(c, r).value);
        }
      }
      PlanAllSafe(c, s, PlanRoute(c, s, acc, r).value, routes[1..]);
    }
  }

  // ---- certificate deletion ----

  /** What pruning leaves alone: the files, and whether names are present. */
  lemma {:induction false} PruneAllFrame(s: Sys, names: seq<string>, os: seq<PruneOutcome>)
    requires |names| == |os|
    ensures var s' := PruneAll(s, names, os);
            s'.files == s.files
            && s'.memory.snapshotGen == s.memory.snapshotGen
            && (forall f | f in s.memory.entries :: f in s'.memory.entries)
            && (forall f :: EntryAt(s'.memory, f).present == EntryAt(s.memory, f).present)
            && (forall f :: EntryAt(s'.memory, f).generation == EntryAt(s.memory, f).generation)
            && (forall f | f !in names :: f in s'.certs <==> f in s.certs)
            && (forall f | f !in names && f in s'.memory.entries ::
                  f in s.memory.entries && s'.memory.entries[f] == s.memory.entries[f])
  {
    if names != [] {
      var n := |names| - 1;
      PruneAllFrame(s, names[..n], os[..n]);
      assert names == names[..n] + [names[n]];
    }
  }

  /** Deletion is never premature: when certbot is asked to delete the certificate of a
      removed name, the vhost is off disk and the tombstone is in the store. */
  lemma ApplyDeletesOnlyRetired(c: Config, s: Sys, r: Route, o: ApplyOutcome)
    requires r.desired == Absent && ApplyNext(c, s, r, o).1.code == 200
    ensures var before := Record(s.(files := s.files - {FileName(r.fqdn)}),
                                 r.fqdn, Entry(r.generation, false, NoCert, ""), o.stored);
            var after := ApplyNext(c, s, r, o).0;
            && after == PruneNext(before, r.fqdn, o.prune)
            && FileName(r.fqdn) !in before.files && !EntryAt(before.memory, r.fqdn).present
            && FileName(r.fqdn) !in after.files
            && r.fqdn in after.memory.entries && !after.memory.entries[r.fqdn].present
            && after.memory.entries[r.fqdn].generation == r.generation
            && (r.fqdn !in after.lineages || after.memory.entries[r.fqdn].cert == CertFailed)
  {}

  // ---- all or nothing ----

  /** The error text says that the files could not be put back. */
  predicate FilesLost(error: Option<Trouble>) {
    error == Some(NginxRefused(FilesFailed)) || error == Some(SwapFailed(FilesFailed))
  }

  /** A refused apply has changed nothing; one whose rollback failed has changed no more
      than its own file. */
  lemma ApplyAllOrNothing(c: Config, s: Sys, r: Route, o: ApplyOutcome)
    requires ApplyNext(c, s, r, o).1.code != 200
    ensures var (m, reply) := ApplyNext(c, s, r, o);
            if FilesLost(reply.error) then
              m == s.(files := m.files) && m.files - {FileName(r.fqdn)} == s.files - {FileName(r.fqdn)}
            else m == s
  {}

  lemma {:induction false} PlanErrors(c: Config, s: Sys, acc: Plan, routes: seq<Route>)
    ensures var p := PlanAll(c, s, acc, routes); p.Failure? ==> p.error.Rejected? || p.error.DuplicateFqdn?
    decreases routes
  {
    if routes != [] && PlanRoute(c, s, acc, routes[0]).Success? {
      PlanErrors(c, s, PlanRoute(c, s, acc, routes[0]).value, routes[1..]);
    }
  }

  /** A refused sync has changed nothing; after one whose rollback failed, each file is as
      it was or as planned, and nothing else has changed. */
  lemma SyncAllOrNothing(c: Config, s: Sys, req: SyncRequest, o: SyncOutcome)
    requires Fits(c, s, req, o) && SyncNext(c, s, req, o).1.code != 200
    ensures var (m, reply) := SyncNext(c, s, req, o);
            if FilesLost(reply.error) then
              && m == s.(files := m.files)
              && PlanOf(c, s, req).Success? && Mixed(m.files, s.files, PlanOf(c, s, req).value.desired)
            else m == s
  {
    PlanErrors(c, s, EMPTY_PLAN, req.routes);
  }
}
