/** Files, entries and requests agree: exactly when an apply keeps it so. Everything is
    stated name by name, because that is how the code works. */
module Agreement {
  import opened Wrappers
  import opened Hostnames
  import opened Render
  import opened Lifecycle

  /** What the system holds for one name: its entry and its vhost file. */
  datatype Local = Local(entry: Option<Entry>, file: Option<Content>)

  function LocalOf(s: Sys, f: string): Local {
    Local(if f in s.memory.entries then Some(s.memory.entries[f]) else None,
          if FileName(f) in s.files then Some(s.files[FileName(f)]) else None)
  }

  predicate IsPresent(x: Local) { x.entry.Some? && x.entry.value.present }

  ghost predicate RouteNames(files: map<string, Content>) { forall n | n in files :: IsRouteName(n) }

  // ---- the agreement ----

  /** An FQDN's vhost file exists exactly when its entry is present. */
  predicate LocalMatched(x: Local) { IsPresent(x) <==> x.file.Some? }

  /** Also, the file is a render of the request that set the entry, at its generation. */
  predicate LocalAgrees(c: Config, from: Option<Route>, f: string, x: Local) {
    && LocalMatched(x)
    && (x.file.Some? ==>
          && from.Some? && from.value.fqdn == f
          && from.value.generation == x.entry.value.generation
          && RenderedFrom(c, from.value, x.file.value))
  }

  /** Also, the certificate state is OK exactly for the HTTPS shape, FAILED exactly for
      the challenge shape, and empty for a platform name. */
  predicate LocalTruthful(x: Local) {
    && LocalMatched(x)
    && (x.file.Some? ==>
          && x.file.value.Site?
          && (x.file.value.vhost.shape.Https? <==> x.entry.value.cert == CertOK)
          && (x.file.value.vhost.shape.Challenge? <==> x.entry.value.cert == CertFailed)
          && (x.file.value.vhost.shape.Platform? <==> x.entry.value.cert == NoCert))
  }

  ghost predicate Matched(s: Sys) {
    RouteNames(s.files) && forall f :: LocalMatched(LocalOf(s, f))
  }

  function FromAt(origin: map<string, Route>, f: string): Option<Route> {
    if f in origin then Some(origin[f]) else None
  }

  /** origin maps each name to the request that was last accepted for it. */
  ghost predicate Agrees(c: Config, s: Sys, origin: map<string, Route>) {
    RouteNames(s.files) && forall f :: LocalAgrees(c, FromAt(origin, f), f, LocalOf(s, f))
  }

  ghost predicate Truthful(s: Sys) {
    RouteNames(s.files) && forall f :: LocalTruthful(LocalOf(s, f))
  }

  // ---- one name changes ----

  /** Only the entry and the file of f may differ. */
  ghost predicate OnlyAt(s: Sys, m: Sys, f: string) {
    && (forall g | g != f :: LocalOf(m, g) == LocalOf(s, g))
    && (forall n | n in m.files :: n in s.files || n == FileName(f))
    && m.memory.snapshotGen == s.memory.snapshotGen
  }

  lemma OnlyAtTrans(s: Sys, m: Sys, t: Sys, f: string)
    requires OnlyAt(s, m, f) && OnlyAt(m, t, f)
    ensures OnlyAt(s, t, f)
  {}

  lemma PutFileAt(s: Sys, f: string, content: Content)
    ensures var m := s.(files := s.files[FileName(f) := content]);
            OnlyAt(s, m, f) && LocalOf(m, f) == LocalOf(s, f).(file := Some(content))
  {
    forall g | g != f ensures FileName(g) != FileName(f) { FileNames(g, f); }
  }

  lemma DropFileAt(s: Sys, f: string)
    ensures var m := s.(files := s.files - {FileName(f)});
            OnlyAt(s, m, f) && LocalOf(m, f) == LocalOf(s, f).(file := None)
  {
    forall g | g != f ensures FileName(g) != FileName(f) { FileNames(g, f); }
  }

  lemma RecordAt(s: Sys, f: string, e: Entry, stored: bool)
    ensures var m := Record(s, f, e, stored);
            OnlyAt(s, m, f) && LocalOf(m, f) == LocalOf(s, f).(entry := Some(e))
  {}

  lemma SetCertAt(s: Sys, f: string, cert: CertState, error: string, stored: bool)
    ensures var m := SetCert(s, f, cert, error, stored);
            OnlyAt(s, m, f)
            && LocalOf(m, f) == LocalOf(s, f).(entry := Some(EntryAt(s.memory, f).(cert := cert, certError := error)))
  {}

  lemma CertsAside(s: Sys, m: Sys, f: string)
    requires m.files == s.files && m.memory == s.memory
    ensures OnlyAt(s, m, f) && LocalOf(m, f) == LocalOf(s, f)
  {}

  // ---- what settling does to its name ----

  /** The backup of the challenge vhost could not be read and its upgrade was undone. */
  predicate LostBackup(o: SettleOutcome) { o.issue.Issued? && o.upgrade.Undone? && !o.readable }

  /** The upgraded vhost could not be taken back. */
  predicate StuckUpgrade(o: SettleOutcome) { o.issue.Issued? && o.upgrade.Stranded? }

  predicate Upgraded(o: SettleOutcome) { o.issue.Issued? && o.upgrade.Confirmed? }

  function Settled(c: Config, r: Route, o: SettleOutcome, x: Local): Local
    requires Servable(c, r) && x.entry.Some?
  {
    Local(Some(if Upgraded(o) then x.entry.value.(cert := CertOK, certError := "")
               else x.entry.value.(cert := CertFailed, certError := o.error)),
          if LostBackup(o) then None
          else if StuckUpgrade(o) || Upgraded(o) then Some(Site(SiteOf(c, r, true)))
          else x.file)
  }

  lemma SettleAt(c: Config, s: Sys, r: Route, o: SettleOutcome)
    requires Servable(c, r) && r.fqdn in s.memory.entries
    ensures var m := SettleNext(c, s, r, CertPaths(c, r).value, false, o);
            OnlyAt(s, m, r.fqdn) && LocalOf(m, r.fqdn) == Settled(c, r, o, LocalOf(s, r.fqdn))
  {
    var f, pair := r.fqdn, CertPaths(c, r).value;
    var s1 := Ensured(s, f, o.issue);
    CertsAside(s, s1, f);
    assert RenderVhost(c, r, pair, true) == Success(SiteOf(c, r, true));
    var s2 := if LostBackup(o) then s1.(files := s1.files - {FileName(f)})
              else if StuckUpgrade(o) || Upgraded(o) then
                s1.(files := s1.files[FileName(f) := Site(SiteOf(c, r, true))])
              else s1;
    DropFileAt(s1, f);
    PutFileAt(s1, f, Site(SiteOf(c, r, true)));
    OnlyAtTrans(s, s1, s2, f);
    SetCertAt(s2, f, CertFailed, o.error, o.stored);
    SetCertAt(s2, f, CertOK, "", o.stored);
    OnlyAtTrans(s, s2, SettleNext(c, s, r, pair, false, o), f);
  }

  // ---- /apply, name by name ----

  lemma ServeAt(c: Config, s: Sys, r: Route, o: ApplyOutcome)
    requires !Stale(s.memory, r) && Servable(c, r) && o.attempt.Confirmed?
    ensures var (s', reply) := ApplyNext(c, s, r, o);
            var x := Local(Some(Entry(r.generation, true, NoCert, "")), Some(Site(SiteOf(c, r, CertReady(s, r)))));
            && reply.code == 200
            && OnlyAt(s, s', r.fqdn)
            && LocalOf(s', r.fqdn) ==
                 if IsPlatform(r.certRef) then x
                 else if CertReady(s, r) then x.(entry := Some(Entry(r.generation, true, CertOK, "")))
                 else Settled(c, r, o.settle, x)
  {
    var f, pair, ready := r.fqdn, CertPaths(c, r).value, CertReady(s, r);
    var e := Entry(r.generation, true, NoCert, "");
    var written := s.(files := s.files[FileName(f) := Site(SiteOf(c, r, ready))]);
    var s1 := Record(written, f, e, o.stored);
    PutFileAt(s, f, Site(SiteOf(c, r, ready)));
    RecordAt(written, f, e, o.stored);
    OnlyAtTrans(s, written, s1, f);
    if !IsPlatform(r.certRef) {
      var s2 := SettleNext(c, s1, r, pair, ready, o.settle);
      if ready {
        SetCertAt(s1, f, CertOK, "", o.settle.stored);
      } else {
        SettleAt(c, s1, r, o.settle);
      }
      OnlyAtTrans(s, s1, s2, f);
    }
  }

  lemma RemoveAt(c: Config, s: Sys, r: Route, o: ApplyOutcome)
    requires !Stale(s.memory, r) && Validate(c, r).None? && r.desired == Absent && o.attempt.Confirmed?
    ensures var (s', reply) := ApplyNext(c, s, r, o);
            && reply.code == 200
            && OnlyAt(s, s', r.fqdn)
            && LocalOf(s', r.fqdn).file.None? && LocalOf(s', r.fqdn).entry.Some?
            && LocalOf(s', r.fqdn).entry.value.generation == r.generation && !IsPresent(LocalOf(s', r.fqdn))
            && (o.prune.Deleted? || r.fqdn !in s.lineages ==>
                  LocalOf(s', r.fqdn).entry.value == Entry(r.generation, false, NoCert, ""))
  {
    var f, e := r.fqdn, Entry(r.generation, false, NoCert, "");
    var s1 := s.(files := s.files - {FileName(f)});
    var s2 := Record(s1, f, e, o.stored);
    DropFileAt(s, f);
    RecordAt(s1, f, e, o.stored);
    OnlyAtTrans(s, s1, s2, f);
    var s3 := PruneNext(s2, f, o.prune);
    OnlyAtTrans(s, s2, s3, f) by { PruneAt(s2, f, o.prune); }
    PruneAt(s2, f, o.prune);
  }

  lemma PruneAt(s: Sys, f: string, o: PruneOutcome)
    ensures var m := PruneNext(s, f, o);
            && OnlyAt(s, m, f)
            && LocalOf(m, f).file == LocalOf(s, f).file
            && IsPresent(LocalOf(m, f)) == IsPresent(LocalOf(s, f))
            && (f in s.memory.entries ==>
                  && LocalOf(m, f).entry.Some?
                  && LocalOf(m, f).entry.value.generation == s.memory.entries[f].generation)
            && (o.Deleted? || f !in s.lineages ==> LocalOf(m, f) == LocalOf(s, f))
  {
    if f in s.lineages && o.DeleteFailed? {
      var s1 := s.(certs := if o.certLeft then s.certs else s.certs - {f},
                   lineages := if o.lineageLeft then s.lineages else s.lineages - {f});
      CertsAside(s, s1, f);
      SetCertAt(s1, f, CertFailed, o.error, o.stored);
      OnlyAtTrans(s, s1, PruneNext(s, f, o), f);
    } else {
      CertsAside(s, PruneNext(s, f, o), f);
    }
  }

  lemma StrandedAt(c: Config, s: Sys, r: Route, o: ApplyOutcome)
    requires !Stale(s.memory, r) && Validate(c, r).None? && o.attempt.Stranded?
    requires r.desired != Absent ==> Servable(c, r)
    ensures var (s', reply) := ApplyNext(c, s, r, o);
            && reply.code == 422
            && OnlyAt(s, s', r.fqdn)
            && LocalOf(s', r.fqdn) == LocalOf(s, r.fqdn).(file :=
                 if r.desired == Absent then None else Some(Site(SiteOf(c, r, CertReady(s, r)))))
  {
    if r.desired == Absent {
      DropFileAt(s, r.fqdn);
    } else {
      PutFileAt(s, r.fqdn, Site(SiteOf(c, r, CertReady(s, r))));
    }
  }

  // ---- exactly when an apply keeps the agreement ----

  /** The branches after which file and entry disagree: the rollback of the files failed
      (the reply says so), or a certificate upgrade was undone although the backup of
      the challenge vhost had not been readable (the reply is 200). */
  predicate ApplyStrays(c: Config, s: Sys, r: Route, o: ApplyOutcome) {
    && !Stale(s.memory, r)
    && Validate(c, r).None?
    && (if r.desired == Absent then
          o.attempt.Stranded? && EntryAt(s.memory, r.fqdn).present
        else
          Servable(c, r)
          && (o.attempt.Stranded?
              || (o.attempt.Confirmed? && !CertReady(s, r) && LostBackup(o.settle))))
  }

  /** The branch after which the certificate state alone is wrong: the upgraded vhost
      could not be removed again. */
  predicate ApplyMisreports(c: Config, s: Sys, r: Route, o: ApplyOutcome) {
    && !Stale(s.memory, r)
    && Servable(c, r)
    && o.attempt.Confirmed? && !CertReady(s, r) && StuckUpgrade(o.settle)
  }

  function ApplyOrigin(c: Config, s: Sys, r: Route, o: ApplyOutcome, origin: map<string, Route>): map<string, Route> {
    if ApplyNext(c, s, r, o).1.code == 200 then origin[r.fqdn := r] else origin
  }

  lemma AgreesExcept(c: Config, s: Sys, m: Sys, origin: map<string, Route>, origin': map<string, Route>, f: string)
    requires Agrees(c, s, origin) && OnlyAt(s, m, f) && IsRouteName(FileName(f))
    requires forall g | g != f :: FromAt(origin', g) == FromAt(origin, g)
    ensures Agrees(c, m, origin') <==> LocalAgrees(c, FromAt(origin', f), f, LocalOf(m, f))
  {
    if LocalAgrees(c, FromAt(origin', f), f, LocalOf(m, f)) {
      forall g ensures LocalAgrees(c, FromAt(origin', g), g, LocalOf(m, g)) {
        if g != f {
          assert LocalAgrees(c, FromAt(origin, g), g, LocalOf(s, g));
        }
      }
    }
  }

  lemma TruthfulExcept(s: Sys, m: Sys, f: string)
    requires Truthful(s) && OnlyAt(s, m, f) && IsRouteName(FileName(f))
    ensures Truthful(m) <==> LocalTruthful(LocalOf(m, f))
  {
    if LocalTruthful(LocalOf(m, f)) {
      forall g ensures LocalTruthful(LocalOf(m, g)) {
        if g != f {
          assert LocalTruthful(LocalOf(s, g));
        }
      }
    }
  }

  /** Exactly when an apply keeps files, entries and requests in agreement. */
  lemma ApplyAgreement(c: Config, s: Sys, r: Route, o: ApplyOutcome, origin: map<string, Route>)
    requires Agrees(c, s, origin)
    ensures Agrees(c, ApplyNext(c, s, r, o).0, ApplyOrigin(c, s, r, o, origin)) <==> !ApplyStrays(c, s, r, o)
  {
    if !Stale(s.memory, r) && Validate(c, r).None? && (r.desired != Absent ==> Servable(c, r)) {
      if o.attempt.Confirmed? {
        ConfirmedAgrees(c, s, r, o, origin);
      } else if o.attempt.Stranded? {
        StrandedAgrees(c, s, r, o, origin);
      }
    }
  }

  lemma ConfirmedAgrees(c: Config, s: Sys, r: Route, o: ApplyOutcome, origin: map<string, Route>)
    requires Agrees(c, s, origin) && !Stale(s.memory, r) && Validate(c, r).None? && o.attempt.Confirmed?
    requires r.desired != Absent ==> Servable(c, r)
    ensures Agrees(c, ApplyNext(c, s, r, o).0, ApplyOrigin(c, s, r, o, origin)) <==> !ApplyStrays(c, s, r, o)
  {
    hide ApplyNext;
    var s', origin' := ApplyNext(c, s, r, o).0, ApplyOrigin(c, s, r, o, origin);
    ReservedNames(r.fqdn, "");
    assert LocalAgrees(c, FromAt(origin, r.fqdn), r.fqdn, LocalOf(s, r.fqdn));
    if r.desired == Absent {
      RemoveAt(c, s, r, o);
    } else {
      ServeAt(c, s, r, o);
      RenderCarries(c, r, true);
    }
    AgreesExcept(c, s, s', origin, origin', r.fqdn);
  }

  lemma StrandedAgrees(c: Config, s: Sys, r: Route, o: ApplyOutcome, origin: map<string, Route>)
    requires Agrees(c, s, origin) && !Stale(s.memory, r) && Validate(c, r).None? && o.attempt.Stranded?
    requires r.desired != Absent ==> Servable(c, r)
    ensures Agrees(c, ApplyNext(c, s, r, o).0, ApplyOrigin(c, s, r, o, origin)) <==> !ApplyStrays(c, s, r, o)
  {
    hide ApplyNext;
    var s', origin' := ApplyNext(c, s, r, o).0, ApplyOrigin(c, s, r, o, origin);
    ReservedNames(r.fqdn, "");
    assert LocalAgrees(c, FromAt(origin, r.fqdn), r.fqdn, LocalOf(s, r.fqdn));
    StrandedAt(c, s, r, o);
    AgreesExcept(c, s, s', origin, origin', r.fqdn);
    if r.desired != Absent {
      StrandedDisagrees(c, s, r, FromAt(origin, r.fqdn), LocalOf(s', r.fqdn));
    }
  }

  lemma StrandedDisagrees(c: Config, s: Sys, r: Route, from: Option<Route>, x: Local)
    requires !Stale(s.memory, r) && Servable(c, r)
    requires LocalAgrees(c, from, r.fqdn, LocalOf(s, r.fqdn))
    requires x == LocalOf(s, r.fqdn).(file := Some(Site(SiteOf(c, r, CertReady(s, r)))))
    ensures !LocalAgrees(c, from, r.fqdn, x)
  {
    if IsPresent(x) {
      RenderCarries(c, from.value, true);
      RenderCarries(c, from.value, false);
      RenderCarries(c, r, CertReady(s, r));
    }
  }

  /** Exactly when an apply leaves certificate states that tell the truth. */
  lemma ApplyTruth(c: Config, s: Sys, r: Route, o: ApplyOutcome)
    requires Truthful(s) && !ApplyStrays(c, s, r, o)
    ensures Truthful(ApplyNext(c, s, r, o).0) <==> !ApplyMisreports(c, s, r, o)
  {
    if !Stale(s.memory, r) && Validate(c, r).None? && (r.desired != Absent ==> Servable(c, r)) {
      if o.attempt.Confirmed? {
        ConfirmedTruth(c, s, r, o);
      } else if o.attempt.Stranded? {
        ReservedNames(r.fqdn, "");
        assert LocalTruthful(LocalOf(s, r.fqdn));
        StrandedAt(c, s, r, o);
        TruthfulExcept(s, ApplyNext(c, s, r, o).0, r.fqdn);
      }
    }
  }

  lemma ConfirmedTruth(c: Config, s: Sys, r: Route, o: ApplyOutcome)
    requires Truthful(s) && !ApplyStrays(c, s, r, o)
    requires !Stale(s.memory, r) && Validate(c, r).None? && o.attempt.Confirmed?
    requires r.desired != Absent ==> Servable(c, r)
    ensures Truthful(ApplyNext(c, s, r, o).0) <==> !ApplyMisreports(c, s, r, o)
  {
    hide ApplyNext;
    ReservedNames(r.fqdn, "");
    assert LocalTruthful(LocalOf(s, r.fqdn));
    if r.desired == Absent {
      RemoveAt(c, s, r, o);
    } else {
      ServeAt(c, s, r, o);
      RenderCarries(c, r, true);
      RenderCarries(c, r, false);
    }
    TruthfulExcept(s, ApplyNext(c, s, r, o).0, r.fqdn);
  }
}
