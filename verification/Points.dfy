/** The states a crash can catch a request in, stage by stage. An apply moves its file, then
    records the generation with the file in place, then handles the certificate of its
    name; a sync is on the way to its plan or, after the store was replaced, handles
    certificates only. Manager.Apply and Manager.SyncAll are proved to pass only through
    these; here they are proved safe. */
module Points {
  import opened Wrappers
  import opened Hostnames
  import opened Render
  import opened Lifecycle
  import opened Safety
  import opened Agreement
  import opened SyncAgreement

  // ---- what may change ----

  /** A name's file is untouched and its certificate not gone, or it has no file, or the
      file is a vhost of the name whose certificate, if it names one, is there. */
  ghost predicate FileStep(f: string, before: Option<Content>, had: set<string>, after: Option<Content>,
                           has: set<string>) {
    || (after == before && (f in had ==> f in has))
    || after.None?
    || FileCovered(FileName(f), after.value, has)
  }

  /** Files, certificates and lineages have changed at the given names only. */
  ghost predicate FilesBeyond(s: Sys, names: set<string>, m: Sys) {
    && (forall f | f !in names :: LocalOf(m, f).file == LocalOf(s, f).file)
    && (forall f | f !in names :: (f in m.certs <==> f in s.certs) && (f in m.lineages <==> f in s.lineages))
    && (forall n | n in m.files :: n in s.files || (IsRouteName(n) && Stem(n) in names))
    && (forall f | f in names :: FileStep(f, LocalOf(s, f).file, s.certs, LocalOf(m, f).file, m.certs))
  }

  /** Only f's entry has changed, to one at generation g. */
  ghost predicate RecordedFor(a: Image, f: string, g: int, b: Image) {
    && f in b.entries && b.entries[f].generation == g
    && b.entries == a.entries[f := b.entries[f]]
    && b.snapshotGen == a.snapshotGen
  }

  /** If anything has changed, it is f's entry, and not to an older one. */
  ghost predicate Moved(a: Image, f: string, g: int, b: Image) {
    b == a || (RecordedFor(a, f, g, b) && (f in a.entries ==> a.entries[f].generation <= g))
  }

  /** m can be caught in the middle of a request for f, at generation g, begun in s. The
      state file follows the memory. */
  ghost predicate Mid(s: Sys, f: string, g: int, m: Sys) {
    && FilesBeyond(s, {f}, m)
    && Moved(s.memory, f, g, m.memory)
    && (m.saved == s.saved || (RecordedFor(s.memory, f, g, m.saved) && RecordedFor(s.memory, f, g, m.memory)))
  }

  /** Entries have changed at the given names only, no generation has, and none is lost. */
  ghost predicate Kin(a: Image, names: set<string>, b: Image) {
    && b.snapshotGen == a.snapshotGen
    && a.entries.Keys <= b.entries.Keys
    && (forall f | f in b.entries :: b.entries[f].generation == EntryAt(a, f).generation)
    && (forall f | f in b.entries && f !in names :: f in a.entries && b.entries[f] == a.entries[f])
  }

  /** m can be reached from s by handling the certificates of the given names. */
  ghost predicate Beyond(s: Sys, names: set<string>, m: Sys) {
    && FilesBeyond(s, names, m)
    && Kin(s.memory, names, m.memory)
    && (m.saved == s.saved || (Kin(s.memory, names, m.saved) && m.saved.entries.Keys <= m.memory.entries.Keys))
  }

  // ---- the points of a request ----

  /** The files an apply puts before nginx. */
  function Candidate(c: Config, s: Sys, r: Route): map<string, Content> {
    if r.desired == Absent then s.files - {FileName(r.fqdn)}
    else match CertPaths(c, r)
      case Failure(_) => s.files
      case Success(pair) =>
        match RenderVhost(c, r, pair, CertReady(s, r))
        case Failure(_) => s.files
        case Success(v) => s.files[FileName(r.fqdn) := Site(v)]
  }

  function EntryOf(r: Route): Entry { Entry(r.generation, r.desired != Absent, NoCert, "") }

  /** The store has not moved. */
  predicate StoreKept(s: Sys, m: Sys) { m.memory == s.memory && m.saved == s.saved }

  /** f's certificate state was set, in memory and perhaps in the state file. */
  predicate Noted(s: Sys, f: string, cert: CertState, m: Sys) {
    && m.memory == WithCert(s.memory, f, cert, EntryAt(m.memory, f).certError)
    && (m.saved == s.saved || m.saved == m.memory)
  }

  /** Pruning f's certificate: either half may be gone, and a failure noted. */
  ghost predicate PrunePoint(s: Sys, f: string, m: Sys) {
    && m.files == s.files
    && s.certs - {f} <= m.certs <= s.certs && s.lineages - {f} <= m.lineages <= s.lineages
    && (StoreKept(s, m) || Noted(s, f, CertFailed, m))
  }

  /** The challenge vhost is replaced by the HTTPS one, whose certificate is there. */
  predicate Replacing(c: Config, s: Sys, r: Route, pair: CertPair, m: Sys) {
    var v := RenderVhost(c, r, pair, true);
    v.Success? && m.files == s.files[FileName(r.fqdn) := Site(v.value)] && r.fqdn in m.certs
  }

  /** Settling a certificate that was ready only notes it. Otherwise either half may have
      come; the challenge vhost is there, replaced or, its backup lost, gone; and OK is
      noted only with the HTTPS vhost in place. */
  ghost predicate SettlePoint(c: Config, s: Sys, r: Route, pair: CertPair, ready: bool, m: Sys) {
    var f := r.fqdn;
    if ready then
      && m == s.(memory := m.memory, saved := m.saved)
      && (StoreKept(s, m) || (Noted(s, f, CertOK, m) && EntryAt(m.memory, f).certError == ""))
    else
      && s.certs <= m.certs <= s.certs + {f} && s.lineages <= m.lineages <= s.lineages + {f}
      && (m.files == s.files || m.files == s.files - {FileName(f)} || Replacing(c, s, r, pair, m))
      && (|| StoreKept(s, m) || Noted(s, f, CertFailed, m)
          || (Noted(s, f, CertOK, m) && EntryAt(m.memory, f).certError == "" && Replacing(c, s, r, pair, m)))
  }

  /** The state once the record is made. */
  function Entered(c: Config, s: Sys, r: Route, stored: bool): Sys {
    Record(s.(files := Candidate(c, s, r)), r.fqdn, EntryOf(r), stored)
  }

  /** From the record on, only the certificate of the name is handled. */
  ghost predicate EnteredPoint(c: Config, s: Sys, r: Route, stored: bool, m: Sys) {
    if r.desired == Absent then PrunePoint(Entered(c, s, r, stored), r.fqdn, m)
    else
      && CertPaths(c, r).Success? && RenderVhost(c, r, CertPaths(c, r).value, CertReady(s, r)).Success?
      && if IsPlatform(r.certRef) then m == Entered(c, s, r, stored)
         else SettlePoint(c, Entered(c, s, r, stored), r, CertPaths(c, r).value, CertReady(s, r), m)
  }

  /** A stale or invalid request does nothing; any other moves its file, then makes the
      record, then handles the certificate. */
  ghost predicate ApplyPoint(c: Config, s: Sys, r: Route, m: Sys) {
    || m == s
    || (&& !Stale(s.memory, r) && Validate(c, r).None?
        && (|| m == s.(files := Candidate(c, s, r))
            || EnteredPoint(c, s, r, true, m)
            || EnteredPoint(c, s, r, false, m)))
  }

  /** The names whose certificates a plan prunes or settles. */
  ghost function Reach(s: Sys, p: Plan): set<string> {
    (set n | n in s.files && n !in p.desired :: Stem(n)) + set r | r in p.pending :: r.fqdn
  }

  /** Before the store is replaced, only files move, each to what is planned; afterwards
      only certificates are handled, whether or not the state file could be written. */
  ghost predicate PlanPoint(s: Sys, req: SyncRequest, p: Plan, m: Sys) {
    || Swapping(s, m, p.desired)
    || Beyond(Swapped(s, req, p, true), Reach(s, p), m)
    || Beyond(Swapped(s, req, p, false), Reach(s, p), m)
  }

  ghost predicate SyncPoint(c: Config, s: Sys, req: SyncRequest, m: Sys) {
    || m == s
    || (!StaleSnapshot(s.memory, req) && PlanOf(c, s, req).Success? && PlanPoint(s, req, PlanOf(c, s, req).value, m))
  }

  // ---- points of points ----

  lemma FilesTrans(s: Sys, names: set<string>, m: Sys, more: set<string>, t: Sys)
    requires FilesBeyond(s, names, m) && FilesBeyond(m, more, t) && more <= names
    ensures FilesBeyond(s, names, t)
  {
    forall f | f in names ensures FileStep(f, LocalOf(s, f).file, s.certs, LocalOf(t, f).file, t.certs) {
      FileStepTrans(s, m, more, t, f);
    }
  }

  lemma FileStepTrans(s: Sys, m: Sys, more: set<string>, t: Sys, f: string)
    requires FileStep(f, LocalOf(s, f).file, s.certs, LocalOf(m, f).file, m.certs) && FilesBeyond(m, more, t)
    ensures FileStep(f, LocalOf(s, f).file, s.certs, LocalOf(t, f).file, t.certs)
  {
    if LocalOf(t, f).file == LocalOf(m, f).file && (f in m.certs ==> f in t.certs) {
      var x := LocalOf(m, f).file;
      if x.Some? && FileCovered(FileName(f), x.value, m.certs) && x.value.Site? {
        FileNames(f, x.value.vhost.fqdn);
      }
    }
  }

  lemma RecordedTwice(a: Image, f: string, g: int, b: Image, c: Image)
    requires b == a || RecordedFor(a, f, g, b)
    ensures RecordedFor(b, f, g, c) ==> RecordedFor(a, f, g, c)
  {}

  lemma MidTrans(s: Sys, f: string, g: int, m: Sys, t: Sys)
    requires Mid(s, f, g, m) && Mid(m, f, g, t)
    ensures Mid(s, f, g, t)
  {
    FilesTrans(s, {f}, m, {f}, t);
    hide FilesBeyond;
    RecordedTwice(s.memory, f, g, m.memory, t.memory);
    RecordedTwice(s.memory, f, g, m.memory, t.saved);
  }

  lemma KinTrans(a: Image, names: set<string>, b: Image, more: set<string>, c: Image)
    requires Kin(a, names, b) && Kin(b, more, c) && more <= names
    ensures Kin(a, names, c)
  {}

  lemma BeyondTrans(s: Sys, names: set<string>, m: Sys, more: set<string>, t: Sys)
    requires Beyond(s, names, m) && Beyond(m, more, t) && more <= names
    ensures Beyond(s, names, t)
  {
    FilesTrans(s, names, m, more, t);
    KinTrans(s.memory, names, m.memory, more, t.memory);
    if t.saved != m.saved { KinTrans(s.memory, names, m.memory, more, t.saved); }
  }

  /** Handling one certificate, the entry keeping its generation. */
  lemma MidBeyond(s: Sys, f: string, m: Sys)
    requires Mid(s, f, EntryAt(s.memory, f).generation, m)
    ensures Beyond(s, {f}, m)
  {
    hide FilesBeyond;
  }

  lemma BeyondSelf(s: Sys, names: set<string>)
    ensures Beyond(s, names, s)
  {}

  // ---- what every point keeps ----

  lemma FilesCovered(s: Sys, names: set<string>, m: Sys)
    requires AllCovered(s.files, s.certs) && FilesBeyond(s, names, m)
    ensures AllCovered(m.files, m.certs)
  {
    forall n | n in m.files ensures FileCovered(n, m.files[n], m.certs) {
      if n in s.files { assert FileCovered(n, s.files[n], s.certs); }
      var f := Stem(n);
      StemFileName(n);
      FileKeptCovered(s, names, m, f);
    }
  }

  lemma FileKeptCovered(s: Sys, names: set<string>, m: Sys, f: string)
    requires AllCovered(s.files, s.certs) && FilesBeyond(s, names, m) && FileName(f) in m.files
    ensures FileCovered(FileName(f), m.files[FileName(f)], m.certs)
  {
    var x := LocalOf(m, f).file;
    if f in names {
      assert FileStep(f, LocalOf(s, f).file, s.certs, x, m.certs);
    }
    if x == LocalOf(s, f).file {
      assert FileCovered(FileName(f), s.files[FileName(f)], s.certs);
      if x.value.Site? { FileNames(f, x.value.vhost.fqdn); }
    }
  }

  lemma KinLeq(a: Image, names: set<string>, b: Image)
    requires Kin(a, names, b)
    ensures Leq(a, b)
  {
    forall f | f in a.entries ensures f in b.entries && a.entries[f].generation <= b.entries[f].generation {
      assert f in b.entries.Keys;
    }
  }

  lemma MidForward(s: Sys, f: string, g: int, m: Sys)
    requires Mid(s, f, g, m)
    ensures Leq(s.memory, m.memory)
    ensures Safe(s) ==> Forward(s, m)
  {
    if Safe(s) { FilesCovered(s, {f}, m); }
    hide FilesBeyond;
  }

  lemma BeyondForward(s: Sys, names: set<string>, m: Sys)
    requires Beyond(s, names, m)
    ensures Leq(s.memory, m.memory)
    ensures Safe(s) ==> Forward(s, m)
  {
    KinLeq(s.memory, names, m.memory);
    if Safe(s) {
      FilesCovered(s, names, m);
      SavedForward(s, names, m);
    }
  }

  lemma SavedForward(s: Sys, names: set<string>, m: Sys)
    requires Beyond(s, names, m) && Leq(s.saved, s.memory)
    ensures Leq(s.saved, m.saved) && Leq(m.saved, m.memory)
  {
    hide FilesBeyond;
    KinLeq(s.memory, names, m.memory);
    LeqTrans(s.saved, s.memory, m.memory);
    if m.saved != s.saved {
      KinLeq(s.memory, names, m.saved);
      LeqTrans(s.saved, s.memory, m.saved);
      forall f | f in m.saved.entries
        ensures f in m.memory.entries && m.saved.entries[f].generation <= m.memory.entries[f].generation
      {
        assert f in m.memory.entries.Keys;
      }
    }
  }

  lemma LeqTrans(a: Image, b: Image, c: Image)
    requires Leq(a, b) && Leq(b, c)
    ensures Leq(a, c)
  {}

  /** Mixing the files there were with covered ones leaves covered files. */
  lemma SwappingForward(c: Config, s: Sys, req: SyncRequest, m: Sys)
    requires Safe(s) && PlanOf(c, s, req).Success? && Swapping(s, m, PlanOf(c, s, req).value.desired)
    ensures Forward(s, m)
  {
    var p := PlanOf(c, s, req).value;
    PlanAllSafe(c, s, EMPTY_PLAN, req.routes);
    forall n | n in m.files ensures FileCovered(n, m.files[n], m.certs) {
      if n in s.files && m.files[n] == s.files[n] {
        assert FileCovered(n, s.files[n], s.certs);
      } else {
        assert FileCovered(n, p.desired[n], s.certs);
      }
    }
  }

  /** No planned entry is older than the stored one. */
  lemma {:induction false} PlanNotOlder(c: Config, s: Sys, acc: Plan, routes: seq<Route>)
    requires PlanAll(c, s, acc, routes).Success?
    requires forall f | f in acc.entries && f in s.memory.entries ::
               s.memory.entries[f].generation <= acc.entries[f].generation
    ensures var p := PlanAll(c, s, acc, routes).value;
            forall f | f in p.entries && f in s.memory.entries ::
              s.memory.entries[f].generation <= p.entries[f].generation
    decreases routes
  {
    if routes != [] { PlanNotOlder(c, s, PlanRoute(c, s, acc, routes[0]).value, routes[1..]); }
  }

  lemma SwappedForward(c: Config, s: Sys, req: SyncRequest, stored: bool)
    requires PlanOf(c, s, req).Success?
    ensures Leq(s.memory, Swapped(s, req, PlanOf(c, s, req).value, stored).memory)
    ensures Safe(s) ==> Forward(s, Swapped(s, req, PlanOf(c, s, req).value, stored))
  {
    PlanNotOlder(c, s, EMPTY_PLAN, req.routes);
    if Safe(s) { PlanAllSafe(c, s, EMPTY_PLAN, req.routes); }
  }

  /** Every point of an apply is safe, and neither store has gone back. */
  lemma ApplyPointForward(c: Config, s: Sys, r: Route, m: Sys)
    requires ApplyPoint(c, s, r, m)
    ensures Leq(s.memory, m.memory)
    ensures Safe(s) ==> Forward(s, m)
  {
    if m != s {
      ApplyPointMid(c, s, r, m);
      MidForward(s, r.fqdn, r.generation, m);
    }
  }

  /** So is every point of a sync. */
  lemma SyncPointForward(c: Config, s: Sys, req: SyncRequest, m: Sys)
    requires SyncPoint(c, s, req, m)
    ensures Leq(s.memory, m.memory)
    ensures Safe(s) ==> Forward(s, m)
  {
    if m != s {
      var p := PlanOf(c, s, req).value;
      if Swapping(s, m, p.desired) {
        if Safe(s) { SwappingForward(c, s, req, m); }
      } else {
        var stored := Beyond(Swapped(s, req, p, true), Reach(s, p), m);
        SwappedThen(c, s, req, stored, m);
      }
    }
  }

  lemma SwappedThen(c: Config, s: Sys, req: SyncRequest, stored: bool, m: Sys)
    requires PlanOf(c, s, req).Success?
    requires var p := PlanOf(c, s, req).value; Beyond(Swapped(s, req, p, stored), Reach(s, p), m)
    ensures Leq(s.memory, m.memory)
    ensures Safe(s) ==> Forward(s, m)
  {
    var p := PlanOf(c, s, req).value;
    var s1 := Swapped(s, req, p, stored);
    SwappedForward(c, s, req, stored);
    BeyondForward(s1, Reach(s, p), m);
    LeqTrans(s.memory, s1.memory, m.memory);
    if Safe(s) { LeqTrans(s.saved, s1.saved, m.saved); }
  }

  // ---- the steps of a request ----

  lemma MidSelf(s: Sys, f: string, g: int)
    ensures Mid(s, f, g, s)
  {}

  /** The file and the certificate of one name change. */
  lemma FileMid(s: Sys, f: string, g: int, m: Sys)
    requires m == s.(files := m.files, certs := m.certs, lineages := m.lineages)
    requires m.files - {FileName(f)} == s.files - {FileName(f)}
    requires m.certs - {f} == s.certs - {f} && m.lineages - {f} == s.lineages - {f}
    requires FileStep(f, LocalOf(s, f).file, s.certs, LocalOf(m, f).file, m.certs)
    ensures Mid(s, f, g, m)
  {
    FileNames(f, f);
    forall h | h != f ensures LocalOf(m, h).file == LocalOf(s, h).file {
      FileNames(h, f);
      assert FileName(h) in m.files <==> FileName(h) in m.files - {FileName(f)};
      assert FileName(h) in s.files <==> FileName(h) in s.files - {FileName(f)};
    }
    forall h | h != f ensures (h in m.certs <==> h in s.certs) && (h in m.lineages <==> h in s.lineages) {
      assert h in m.certs <==> h in m.certs - {f};
      assert h in m.lineages <==> h in m.lineages - {f};
    }
    forall n | n in m.files && n !in s.files ensures IsRouteName(n) && Stem(n) == f {
      assert n in s.files - {FileName(f)} <==> n in m.files - {FileName(f)};
      assert LocalOf(m, f).file.Some? && LocalOf(s, f).file.None?;
    }
  }

  lemma PutMid(s: Sys, c: Config, r: Route, pair: CertPair, ready: bool, g: int)
    requires RenderVhost(c, r, pair, ready).Success?
    requires ready && !IsPlatform(r.certRef) ==> r.fqdn in s.certs
    ensures Mid(s, r.fqdn, g, s.(files := s.files[FileName(r.fqdn) := Site(RenderVhost(c, r, pair, ready).value)]))
  {
    ReservedNames(r.fqdn, "");
    FileMid(s, r.fqdn, g, s.(files := s.files[FileName(r.fqdn) := Site(RenderVhost(c, r, pair, ready).value)]));
  }

  lemma DropMid(s: Sys, f: string, g: int)
    ensures Mid(s, f, g, s.(files := s.files - {FileName(f)}))
  {
    FileMid(s, f, g, s.(files := s.files - {FileName(f)}));
  }

  lemma RecordMid(s: Sys, f: string, e: Entry, stored: bool)
    requires f in s.memory.entries ==> s.memory.entries[f].generation <= e.generation
    ensures Mid(s, f, e.generation, Record(s, f, e, stored))
  {}

  /** Certificate files may come at any time, one half before the other. */
  lemma IssuedMid(s: Sys, f: string, g: int, m: Sys)
    requires m == s.(certs := m.certs, lineages := m.lineages)
    requires s.certs <= m.certs <= s.certs + {f} && s.lineages <= m.lineages <= s.lineages + {f}
    ensures Mid(s, f, g, m)
  {
    FileMid(s, f, g, m);
  }

  /** They may go once no vhost refers to them. */
  lemma DeletedMid(s: Sys, f: string, g: int, m: Sys)
    requires FileName(f) !in s.files && m == s.(certs := m.certs, lineages := m.lineages)
    requires s.certs - {f} <= m.certs <= s.certs && s.lineages - {f} <= m.lineages <= s.lineages
    ensures Mid(s, f, g, m)
  {
    FileMid(s, f, g, m);
  }

  /** The certificate state of f is set, its entry known at g. */
  lemma NotedMid(s: Sys, f: string, g: int, cert: CertState, m: Sys)
    requires m == s.(memory := m.memory, saved := m.saved) && EntryAt(s.memory, f).generation == g
    requires StoreKept(s, m) || Noted(s, f, cert, m)
    ensures Mid(s, f, g, m)
  {}

  lemma PrunePointMid(s: Sys, f: string, m: Sys)
    requires FileName(f) !in s.files && PrunePoint(s, f, m)
    ensures Mid(s, f, EntryAt(s.memory, f).generation, m)
  {
    var g, t := EntryAt(s.memory, f).generation, m.(memory := s.memory, saved := s.saved);
    DeletedMid(s, f, g, t);
    NotedMid(t, f, g, EntryAt(m.memory, f).cert, m);
    MidTrans(s, f, g, t, m);
  }

  lemma SettlePointMid(c: Config, s: Sys, r: Route, pair: CertPair, ready: bool, m: Sys)
    requires SettlePoint(c, s, r, pair, ready, m)
    ensures Mid(s, r.fqdn, EntryAt(s.memory, r.fqdn).generation, m)
  {
    var f, g := r.fqdn, EntryAt(s.memory, r.fqdn).generation;
    var t := m.(memory := s.memory, saved := s.saved);
    SettledFilesMid(c, s, r, pair, ready, t, g);
    NotedMid(t, f, g, EntryAt(m.memory, f).cert, m);
    MidTrans(s, f, g, t, m);
  }

  /** The files and certificates of settling, the store aside. */
  lemma SettledFilesMid(c: Config, s: Sys, r: Route, pair: CertPair, ready: bool, m: Sys, g: int)
    requires SettlePoint(c, s, r, pair, ready, m) && StoreKept(s, m)
    ensures Mid(s, r.fqdn, g, m)
  {
    var f := r.fqdn;
    if ready {
      MidSelf(s, f, g);
    } else {
      var t := m.(files := s.files);
      IssuedMid(s, f, g, t);
      DropMid(t, f, g);
      MidSelf(t, f, g);
      if Replacing(c, s, r, pair, m) { PutMid(t, c, r, pair, true, g); }
      MidTrans(s, f, g, t, m);
    }
  }

  /** Every point of an apply changes its own name only. */
  lemma ApplyPointMid(c: Config, s: Sys, r: Route, m: Sys)
    requires ApplyPoint(c, s, r, m)
    ensures Mid(s, r.fqdn, r.generation, m)
  {
    MidSelf(s, r.fqdn, r.generation);
    if m != s {
      CandidateMid(c, s, r);
      if EnteredPoint(c, s, r, true, m) { EnteredMid(c, s, r, true, m); }
      if EnteredPoint(c, s, r, false, m) { EnteredMid(c, s, r, false, m); }
    }
  }

  lemma CandidateMid(c: Config, s: Sys, r: Route)
    ensures Mid(s, r.fqdn, r.generation, s.(files := Candidate(c, s, r)))
  {
    var f, g := r.fqdn, r.generation;
    MidSelf(s, f, g);
    DropMid(s, f, g);
    if r.desired != Absent && CertPaths(c, r).Success? {
      var pair, ready := CertPaths(c, r).value, CertReady(s, r);
      if RenderVhost(c, r, pair, ready).Success? { PutMid(s, c, r, pair, ready, g); }
    }
  }

  lemma EnteredMid(c: Config, s: Sys, r: Route, stored: bool, m: Sys)
    requires !Stale(s.memory, r) && EnteredPoint(c, s, r, stored, m)
    ensures Mid(s, r.fqdn, r.generation, m)
  {
    hide Mid, PrunePoint, SettlePoint;
    var f, g := r.fqdn, r.generation;
    var moved, s1 := s.(files := Candidate(c, s, r)), Entered(c, s, r, stored);
    CandidateMid(c, s, r);
    RecordMid(moved, f, EntryOf(r), stored);
    MidTrans(s, f, g, moved, s1);
    MidSelf(s1, f, g);
    if r.desired == Absent {
      PrunePointMid(s1, f, m);
    } else if !IsPlatform(r.certRef) {
      SettlePointMid(c, s1, r, CertPaths(c, r).value, CertReady(s, r), m);
    }
    MidTrans(s, f, g, s1, m);
  }

  // ---- where requests end ----

  lemma SetCertNotes(s: Sys, t: Sys, f: string, cert: CertState, error: string, stored: bool)
    requires StoreKept(s, t)
    ensures var m := SetCert(t, f, cert, error, stored);
            && Noted(s, f, cert, m) && EntryAt(m.memory, f).certError == error
            && m == t.(memory := m.memory, saved := m.saved)
  {}

  lemma SettleIsPoint(c: Config, s: Sys, r: Route, pair: CertPair, ready: bool, o: SettleOutcome)
    ensures SettlePoint(c, s, r, pair, ready, SettleNext(c, s, r, pair, ready, o))
  {
    hide RenderVhost, SetCert, Noted;
    var f, s1 := r.fqdn, if ready then s else Ensured(s, r.fqdn, o.issue);
    SetCertNotes(s, s1, f, CertOK, "", o.stored);
    SetCertNotes(s, s1, f, CertFailed, o.error, o.stored);
    SetCertNotes(s, s1.(files := s1.files - {FileName(f)}), f, CertFailed, o.error, o.stored);
    var v := RenderVhost(c, r, pair, true);
    if v.Success? {
      SetCertNotes(s, s1.(files := s1.files[FileName(f) := Site(v.value)]), f, CertFailed, o.error, o.stored);
      SetCertNotes(s, s1.(files := s1.files[FileName(f) := Site(v.value)]), f, CertOK, "", o.stored);
    }
  }

  lemma PruneIsPoint(s: Sys, f: string, o: PruneOutcome)
    ensures PrunePoint(s, f, PruneNext(s, f, o))
  {}

  lemma SettleMid(c: Config, s: Sys, r: Route, pair: CertPair, ready: bool, o: SettleOutcome)
    ensures Mid(s, r.fqdn, EntryAt(s.memory, r.fqdn).generation, SettleNext(c, s, r, pair, ready, o))
  {
    SettleIsPoint(c, s, r, pair, ready, o);
    SettlePointMid(c, s, r, pair, ready, SettleNext(c, s, r, pair, ready, o));
  }

  lemma PruneMid(s: Sys, f: string, o: PruneOutcome)
    requires FileName(f) !in s.files
    ensures Mid(s, f, EntryAt(s.memory, f).generation, PruneNext(s, f, o))
  {
    PruneIsPoint(s, f, o);
    PrunePointMid(s, f, PruneNext(s, f, o));
  }

  /** An apply ends in one of its points. */
  lemma ApplyIsPoint(c: Config, s: Sys, r: Route, o: ApplyOutcome)
    ensures ApplyPoint(c, s, r, ApplyNext(c, s, r, o).0)
  {
    hide SettlePoint, PrunePoint, SettleNext, PruneNext;
    if !Stale(s.memory, r) && Validate(c, r).None? {
      var s1 := Entered(c, s, r, o.stored);
      PruneIsPoint(s1, r.fqdn, o.prune);
      if CertPaths(c, r).Success? {
        SettleIsPoint(c, s1, r, CertPaths(c, r).value, CertReady(s, r), o.settle);
      }
    }
  }

  lemma {:induction false} PruneAllBeyond(s: Sys, names: seq<string>, os: seq<PruneOutcome>)
    requires |names| == |os| && forall f | f in names :: FileName(f) !in s.files
    ensures Beyond(s, (set f | f in names), PruneAll(s, names, os))
  {
    var all := set f | f in names;
    if names == [] {
      BeyondSelf(s, all);
    } else {
      var n := |names| - 1;
      var front := set f | f in names[..n];
      PruneAllBeyond(s, names[..n], os[..n]);
      PruneAllFrame(s, names[..n], os[..n]);
      var m := PruneAll(s, names[..n], os[..n]);
      PruneMid(m, names[n], os[n]);
      MidBeyond(m, names[n], PruneAll(s, names, os));
      BeyondMore(s, front, all, m);
      BeyondTrans(s, all, m, {names[n]}, PruneAll(s, names, os));
    }
  }

  lemma BeyondMore(s: Sys, names: set<string>, more: set<string>, m: Sys)
    requires Beyond(s, names, m) && names <= more
    ensures Beyond(s, more, m)
  {
    BeyondSelf(s, more);
    BeyondTrans(s, more, s, names, m);
  }

  lemma {:induction false} SettleAllBeyond(c: Config, s: Sys, pending: seq<Route>, os: seq<SettleOutcome>)
    requires |pending| == |os|
    ensures Beyond(s, (set r | r in pending :: r.fqdn), SettleAll(c, s, pending, os))
  {
    hide Beyond, Mid, SettleNext, CertPaths;
    var all := set r | r in pending :: r.fqdn;
    if pending == [] {
      BeyondSelf(s, all);
    } else {
      var n := |pending| - 1;
      var front := set r | r in pending[..n] :: r.fqdn;
      SettleAllBeyond(c, s, pending[..n], os[..n]);
      var m := SettleAll(c, s, pending[..n], os[..n]);
      BeyondMore(s, front, all, m);
      if CertPaths(c, pending[n]).Success? {
        SettleMid(c, m, pending[n], CertPaths(c, pending[n]).value, false, os[n]);
        MidBeyond(m, pending[n].fqdn, SettleAll(c, s, pending, os));
        BeyondTrans(s, all, m, {pending[n].fqdn}, SettleAll(c, s, pending, os));
      }
    }
  }

  /** A name to prune has no planned file and, once the store is replaced, is not present. */
  lemma PrunedAbsent(c: Config, s: Sys, req: SyncRequest, p: Plan, stored: bool, f: string)
    requires RouteNames(s.files) && PlanOf(c, s, req) == Success(p) && f in PrunedOf(s, p)
    ensures FileName(f) !in p.desired && !EntryAt(Swapped(s, req, p, stored).memory, f).present
  {
    var n :| n in s.files && n !in p.desired && Stem(n) == f;
    StemFileName(n);
    PlanAllGood(c, s, EMPTY_PLAN, req.routes);
    assert LocalMatched(PlanLocal(p, f));
  }

  /** Deletion is never premature: when certbot is asked to delete a name during a sync, its
      vhost is off disk and its entry not present, its file was there before the sync, and
      no name the plan serves is asked for. Afterwards its lineage is gone or its state is
      FAILED. */
  lemma SyncDeletesOnlyRetired(c: Config, s: Sys, req: SyncRequest, o: SyncOutcome, i: nat)
    requires RouteNames(s.files) && Fits(c, s, req, o) && o.Accepted?
    requires PlanOf(c, s, req).Success? && i < |PrunedOf(s, PlanOf(c, s, req).value)|
    ensures var p := PlanOf(c, s, req).value;
            var names := PrunedOf(s, p);
            var before := PruneAll(Swapped(s, req, p, o.stored), names[..i], o.prunes[..i]);
            var after := PruneNext(before, names[i], o.prunes[i]);
            && FileName(names[i]) !in before.files
            && !EntryAt(before.memory, names[i]).present
            && FileName(names[i]) in s.files
            && FileName(names[i]) !in p.desired
            && (names[i] !in after.lineages || EntryAt(after.memory, names[i]).cert == CertFailed)
  {
    hide PlanOf, Swapped, PruneAll, PruneNext;
    var p := PlanOf(c, s, req).value;
    var names, s1 := PrunedOf(s, p), Swapped(s, req, p, o.stored);
    PrunedAbsent(c, s, req, p, o.stored, names[i]);
    PrunedThere(s, p, names[i]);
    SwappedFiles(s, req, p, o.stored);
    DeletedAt(s1, names, o.prunes, i);
  }

  lemma PrunedThere(s: Sys, p: Plan, f: string)
    requires RouteNames(s.files) && f in PrunedOf(s, p)
    ensures FileName(f) in s.files
  {
    var n :| n in s.files && n !in p.desired && Stem(n) == f;
    StemFileName(n);
  }

  lemma SwappedFiles(s: Sys, req: SyncRequest, p: Plan, stored: bool)
    ensures Swapped(s, req, p, stored).files == p.desired
  {}

  /** The i-th deletion of a sync that pruned its names in order. */
  lemma DeletedAt(s: Sys, names: seq<string>, os: seq<PruneOutcome>, i: nat)
    requires |names| == |os| && i < |names|
    ensures var before := PruneAll(s, names[..i], os[..i]);
            var after := PruneNext(before, names[i], os[i]);
            && before.files == s.files
            && EntryAt(before.memory, names[i]).present == EntryAt(s.memory, names[i]).present
            && (names[i] !in after.lineages || EntryAt(after.memory, names[i]).cert == CertFailed)
  {
    PruneAllFrame(s, names[..i], os[..i]);
  }

  /** From the confirmed swap to the reply, a sync only handles certificates. */
  lemma SyncBeyond(c: Config, s: Sys, req: SyncRequest, o: SyncOutcome, p: Plan)
    requires RouteNames(s.files) && Accepts(c, s, req, o, p)
    ensures Beyond(Swapped(s, req, p, o.stored), Reach(s, p), SyncNext(c, s, req, o).0)
  {
    var s1, names, reach := Swapped(s, req, p, o.stored), PrunedOf(s, p), Reach(s, p);
    var s2 := PruneAll(s1, names, o.prunes);
    var m := SettleAll(c, s2, p.pending, o.settles);
    forall f | f in names ensures FileName(f) !in s1.files { PrunedAbsent(c, s, req, p, o.stored, f); }
    PruneAllBeyond(s1, names, o.prunes);
    BeyondMore(s1, (set f | f in names), reach, s2);
    SettleAllBeyond(c, s2, p.pending, o.settles);
    BeyondTrans(s1, reach, s2, (set r | r in p.pending :: r.fqdn), m);
  }

  /** A sync ends in one of its points. */
  lemma SyncIsPoint(c: Config, s: Sys, req: SyncRequest, o: SyncOutcome)
    requires RouteNames(s.files) && Fits(c, s, req, o)
    ensures SyncPoint(c, s, req, SyncNext(c, s, req, o).0)
  {
    if !StaleSnapshot(s.memory, req) && PlanOf(c, s, req).Success? && o.Accepted? {
      SyncBeyond(c, s, req, o, PlanOf(c, s, req).value);
    }
  }

  /** Whatever its outcome, an apply keeps every HTTPS vhost covered by its certificate and
      every known generation, in memory and in the state file. */
  lemma ApplyForward(c: Config, s: Sys, r: Route, o: ApplyOutcome)
    requires Safe(s)
    ensures Forward(s, ApplyNext(c, s, r, o).0)
  {
    ApplyIsPoint(c, s, r, o);
    ApplyPointForward(c, s, r, ApplyNext(c, s, r, o).0);
  }

  /** So does a sync. */
  lemma SyncForward(c: Config, s: Sys, req: SyncRequest, o: SyncOutcome)
    requires Safe(s) && Fits(c, s, req, o)
    ensures Forward(s, SyncNext(c, s, req, o).0)
  {
    CoveredNames(s);
    SyncIsPoint(c, s, req, o);
    SyncPointForward(c, s, req, SyncNext(c, s, req, o).0);
  }

  lemma CoveredNames(s: Sys)
    requires Safe(s)
    ensures RouteNames(s.files)
  {
    forall n | n in s.files ensures IsRouteName(n) { assert FileCovered(n, s.files[n], s.certs); }
  }
}
