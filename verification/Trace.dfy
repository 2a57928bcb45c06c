/** The states one request passes through, as a history that grows step by step. */
module Trace {
  import opened Wrappers
  import opened Hostnames
  import opened Render
  import opened Lifecycle
  import opened Safety
  import opened SyncAgreement
  import opened Points
  import opened Host
  import opened Fsops

  // ---- what /status shows along the way ----

  /** What /status reports along past never goes back, nor does what it reports now. */
  ghost predicate Rising(past: seq<Sys>, from: nat, now: Sys) {
    && (forall i | from <= i < |past| :: Leq(past[i].memory, now.memory))
    && (forall i, j | from <= i <= j < |past| :: Leq(past[i].memory, past[j].memory))
  }

  lemma RisingOn(past: seq<Sys>, from: nat, mid: Sys, longer: seq<Sys>, now: Sys)
    requires from <= |past| && past <= longer && Rising(past, from, mid) && Rising(longer, |past|, now)
    requires (forall i | |past| <= i < |longer| :: Leq(mid.memory, longer[i].memory)) && Leq(mid.memory, now.memory)
    ensures Rising(longer, from, now)
  {
    forall i | from <= i < |longer| ensures Leq(longer[i].memory, now.memory) {
      if i < |past| { LeqTrans(past[i].memory, mid.memory, now.memory); }
    }
    forall i, j | from <= i <= j < |longer| ensures Leq(longer[i].memory, longer[j].memory) {
      if i < |past| <= j { LeqTrans(past[i].memory, mid.memory, longer[j].memory); }
      if j < |past| { assert Leq(past[i].memory, past[j].memory); }
    }
  }

  /** A stretch with the store untouched. */
  lemma RisingFlat(past: seq<Sys>, from: nat, now: Sys)
    requires forall i | from <= i < |past| :: past[i].memory == now.memory
    ensures Rising(past, from, now)
  {}

  /** One write of the store: at every moment the memory is the new image. */
  lemma Written(s: Sys, image: Image, past: seq<Sys>, longer: seq<Sys>, stored: bool)
    requires past <= longer && forall i | |past| <= i < |longer| ::
               longer[i] == Persisted(s, image, false) || longer[i] == Persisted(s, image, true)
    ensures Rising(longer, |past|, Persisted(s, image, stored))
  {
    RisingFlat(longer, |past|, Persisted(s, image, stored));
  }

  lemma SetCertLater(s: Sys, f: string, cert: CertState, error: string, stored: bool)
    ensures Leq(s.memory, SetCert(s, f, cert, error, stored).memory)
  {}

  // ---- one certificate ----

  ghost predicate PruneTraced(s: Sys, f: string, past: seq<Sys>, from: nat, now: Sys) {
    (forall i | from <= i < |past| :: PrunePoint(s, f, past[i])) && Rising(past, from, now)
  }

  lemma PruneDeleted(s: Sys, f: string, past: seq<Sys>, longer: seq<Sys>, now: Sys)
    requires past <= longer && CertsWent(s, f, now)
    requires forall i | |past| <= i < |longer| :: CertsWent(s, f, longer[i])
    ensures PruneTraced(s, f, longer, |past|, now)
  {
    RisingFlat(longer, |past|, now);
  }

  lemma PruneNoted(s: Sys, f: string, past: seq<Sys>, from: nat, m: Sys, longer: seq<Sys>, error: string, stored: bool)
    requires from <= |past| && past <= longer && PruneTraced(s, f, past, from, m) && CertsWent(s, f, m)
    requires forall i | |past| <= i < |longer| ::
               || longer[i] == SetCert(m, f, CertFailed, error, false)
               || longer[i] == SetCert(m, f, CertFailed, error, true)
    ensures PruneTraced(s, f, longer, from, SetCert(m, f, CertFailed, error, stored))
  {
    hide Rising, Leq, SetCert, Noted;
    forall b: bool ensures PrunePoint(s, f, SetCert(m, f, CertFailed, error, b)) {
      SetCertNotes(s, m, f, CertFailed, error, b);
    }
    NotedLater(m, f, CertFailed, error, past, longer, stored);
    RisingOn(past, from, m, longer, SetCert(m, f, CertFailed, error, stored));
  }

  lemma NotedLater(m: Sys, f: string, cert: CertState, error: string, past: seq<Sys>, longer: seq<Sys>, stored: bool)
    requires past <= longer && forall i | |past| <= i < |longer| ::
               longer[i] == SetCert(m, f, cert, error, false) || longer[i] == SetCert(m, f, cert, error, true)
    ensures var now := SetCert(m, f, cert, error, stored);
            && Rising(longer, |past|, now) && Leq(m.memory, now.memory)
            && forall i | |past| <= i < |longer| :: Leq(m.memory, longer[i].memory)
  {
    Written(m, WithCert(m.memory, f, cert, error), past, longer, stored);
    SetCertLater(m, f, cert, error, true);
  }

  ghost predicate SettleTraced(c: Config, s: Sys, r: Route, pair: CertPair, ready: bool,
                               past: seq<Sys>, from: nat, now: Sys) {
    (forall i | from <= i < |past| :: SettlePoint(c, s, r, pair, ready, past[i])) && Rising(past, from, now)
  }

  lemma SettleBegin(c: Config, s: Sys, r: Route, pair: CertPair, ready: bool, past: seq<Sys>)
    ensures SettlePoint(c, s, r, pair, ready, s) && SettleTraced(c, s, r, pair, ready, past, |past|, s)
  {}

  lemma SettleIssued(c: Config, s: Sys, r: Route, pair: CertPair, past: seq<Sys>, longer: seq<Sys>, now: Sys)
    requires past <= longer && CertsCame(s, r.fqdn, now)
    requires forall i | |past| <= i < |longer| :: CertsCame(s, r.fqdn, longer[i])
    ensures SettleTraced(c, s, r, pair, false, longer, |past|, now)
  {
    RisingFlat(longer, |past|, now);
  }

  /** A vhost is written, kept or taken back: only the file has moved. */
  ghost predicate Offered(s: Sys, candidate: map<string, Content>, past: seq<Sys>, from: nat, now: Sys) {
    && now == s.(files := now.files)
    && forall i | from <= i < |past| :: past[i] == s || past[i] == s.(files := candidate) || past[i] == now
  }

  lemma SettleOffered(c: Config, s: Sys, r: Route, pair: CertPair, v: Vhost, past: seq<Sys>, from: nat, m: Sys,
                      longer: seq<Sys>, now: Sys)
    requires from <= |past| && past <= longer && SettleTraced(c, s, r, pair, false, past, from, m)
    requires CertsCame(s, r.fqdn, m) && r.fqdn in m.certs && RenderVhost(c, r, pair, true) == Success(v)
    requires Offered(m, m.files[FileName(r.fqdn) := Site(v)], longer, |past|, now)
    requires || now.files == m.files || now.files == m.files - {FileName(r.fqdn)}
             || now.files == m.files[FileName(r.fqdn) := Site(v)]
    ensures SettleTraced(c, s, r, pair, false, longer, from, now)
  {
    RisingFlat(longer, |past|, now);
    RisingOn(past, from, m, longer, now);
  }

  lemma SettleNoted(c: Config, s: Sys, r: Route, pair: CertPair, ready: bool, past: seq<Sys>, from: nat, m: Sys,
                    longer: seq<Sys>, cert: CertState, error: string, stored: bool)
    requires from <= |past| && past <= longer && SettleTraced(c, s, r, pair, ready, past, from, m)
    requires StoreKept(s, m) && SettlePoint(c, s, r, pair, ready, m)
    requires (cert == CertFailed && !ready) || (cert == CertOK && error == "" && (ready || Replacing(c, s, r, pair, m)))
    requires forall i | |past| <= i < |longer| ::
               longer[i] == SetCert(m, r.fqdn, cert, error, false) || longer[i] == SetCert(m, r.fqdn, cert, error, true)
    ensures SettleTraced(c, s, r, pair, ready, longer, from, SetCert(m, r.fqdn, cert, error, stored))
  {
    hide Rising, Leq, SetCert, Noted, RenderVhost;
    forall b: bool ensures SettlePoint(c, s, r, pair, ready, SetCert(m, r.fqdn, cert, error, b)) {
      SetCertNotes(s, m, r.fqdn, cert, error, b);
    }
    NotedLater(m, r.fqdn, cert, error, past, longer, stored);
    RisingOn(past, from, m, longer, SetCert(m, r.fqdn, cert, error, stored));
  }

  // ---- an apply ----

  ghost predicate ApplyTraced(c: Config, s: Sys, r: Route, past: seq<Sys>, from: nat, now: Sys) {
    (forall i | from <= i < |past| :: ApplyPoint(c, s, r, past[i])) && Rising(past, from, now)
  }

  /** An apply that has only looked. */
  lemma ApplyLooked(c: Config, s: Sys, r: Route, past: seq<Sys>, longer: seq<Sys>)
    requires past <= longer && forall i | |past| <= i < |longer| :: longer[i] == s
    ensures ApplyTraced(c, s, r, longer, |past|, s)
  {}

  lemma ApplyOffered(c: Config, s: Sys, r: Route, past: seq<Sys>, longer: seq<Sys>, now: Sys)
    requires !Stale(s.memory, r) && Validate(c, r).None? && past <= longer
    requires Offered(s, Candidate(c, s, r), longer, |past|, now)
    requires now.files == s.files || now.files == Candidate(c, s, r)
    ensures ApplyTraced(c, s, r, longer, |past|, now)
  {
    hide Candidate;
    RisingFlat(longer, |past|, now);
  }

  /** After a look, the rest of it. */
  lemma ApplyAfterLook(c: Config, s: Sys, r: Route, past: seq<Sys>, from: nat, longer: seq<Sys>, now: Sys)
    requires from <= |past| && past <= longer && ApplyTraced(c, s, r, past, from, s)
    requires ApplyTraced(c, s, r, longer, |past|, now) && Leq(s.memory, now.memory)
    ensures ApplyTraced(c, s, r, longer, from, now)
  {
    hide ApplyPoint, Leq, Forward;
    forall i | |past| <= i < |longer| ensures Leq(s.memory, longer[i].memory) { ApplyPointForward(c, s, r, longer[i]); }
    RisingOn(past, from, s, longer, now);
  }

  /** The record is made. */
  lemma ApplyEntered(c: Config, s: Sys, r: Route, past: seq<Sys>, from: nat, longer: seq<Sys>, stored: bool)
    requires !Stale(s.memory, r) && Validate(c, r).None? && from <= |past| && past <= longer
    requires ApplyTraced(c, s, r, past, from, s.(files := Candidate(c, s, r)))
    requires forall b: bool :: EnteredPoint(c, s, r, b, Entered(c, s, r, b))
    requires forall i | |past| <= i < |longer| ::
               longer[i] == Entered(c, s, r, false) || longer[i] == Entered(c, s, r, true)
    ensures ApplyTraced(c, s, r, longer, from, Entered(c, s, r, stored))
  {
    hide Candidate, EnteredPoint, Rising;
    var moved := s.(files := Candidate(c, s, r));
    assert EnteredPoint(c, s, r, true, Entered(c, s, r, true)) && EnteredPoint(c, s, r, false, Entered(c, s, r, false));
    Written(moved, Recorded(s.memory, r.fqdn, EntryOf(r)), past, longer, stored);
    RisingOn(past, from, moved, longer, Entered(c, s, r, stored));
  }

  /** The record of a name stands for itself. */
  lemma EnteredSelf(c: Config, s: Sys, r: Route)
    requires r.desired != Absent ==>
               CertPaths(c, r).Success? && RenderVhost(c, r, CertPaths(c, r).value, CertReady(s, r)).Success?
    ensures forall b: bool :: EnteredPoint(c, s, r, b, Entered(c, s, r, b))
  {
    hide Candidate, RenderVhost, CertPaths;
  }

  /** The certificate is pruned after the record. */
  lemma ApplyPruned(c: Config, s: Sys, r: Route, stored: bool, past: seq<Sys>, from: nat, longer: seq<Sys>, now: Sys)
    requires !Stale(s.memory, r) && Validate(c, r).None? && r.desired == Absent && from <= |past| && past <= longer
    requires ApplyTraced(c, s, r, past, from, Entered(c, s, r, stored))
    requires PruneTraced(Entered(c, s, r, stored), r.fqdn, longer, |past|, now)
    requires PrunePoint(Entered(c, s, r, stored), r.fqdn, now)
    ensures ApplyTraced(c, s, r, longer, from, now)
  {
    hide Candidate, PrunePoint, Rising, Entered, Leq, Forward;
    var s1 := Entered(c, s, r, stored);
    EnteredGone(c, s, r, stored);
    forall i | |past| <= i < |longer| ensures ApplyPoint(c, s, r, longer[i]) && Leq(s1.memory, longer[i].memory) {
      assert EnteredPoint(c, s, r, stored, longer[i]);
      PruneLater(s1, r.fqdn, longer[i]);
    }
    PruneLater(s1, r.fqdn, now);
    RisingOn(past, from, s1, longer, now);
  }

  lemma EnteredGone(c: Config, s: Sys, r: Route, stored: bool)
    requires r.desired == Absent
    ensures FileName(r.fqdn) !in Entered(c, s, r, stored).files
  {}

  lemma PruneLater(s: Sys, f: string, m: Sys)
    requires FileName(f) !in s.files && PrunePoint(s, f, m)
    ensures Leq(s.memory, m.memory) && Beyond(s, {f}, m)
  {
    PrunePointMid(s, f, m);
    MidBeyond(s, f, m);
    BeyondForward(s, {f}, m);
  }

  lemma SettleLater(c: Config, s: Sys, r: Route, pair: CertPair, ready: bool, m: Sys)
    requires SettlePoint(c, s, r, pair, ready, m)
    ensures Leq(s.memory, m.memory) && Beyond(s, {r.fqdn}, m)
  {
    SettlePointMid(c, s, r, pair, ready, m);
    MidBeyond(s, r.fqdn, m);
    BeyondForward(s, {r.fqdn}, m);
  }

  /** It is settled after the record. */
  lemma ApplySettled(c: Config, s: Sys, r: Route, stored: bool, past: seq<Sys>, from: nat, longer: seq<Sys>, now: Sys)
    requires !Stale(s.memory, r) && Validate(c, r).None? && r.desired != Absent && !IsPlatform(r.certRef)
    requires CertPaths(c, r).Success? && RenderVhost(c, r, CertPaths(c, r).value, CertReady(s, r)).Success?
    requires from <= |past| && past <= longer && ApplyTraced(c, s, r, past, from, Entered(c, s, r, stored))
    requires var s1, pair, ready := Entered(c, s, r, stored), CertPaths(c, r).value, CertReady(s, r);
             SettleTraced(c, s1, r, pair, ready, longer, |past|, now) && SettlePoint(c, s1, r, pair, ready, now)
    ensures ApplyTraced(c, s, r, longer, from, now)
  {
    hide Candidate, SettlePoint, Rising, Entered, Leq, Forward, RenderVhost, CertPaths, CertReady;
    var s1, pair, ready := Entered(c, s, r, stored), CertPaths(c, r).value, CertReady(s, r);
    forall i | |past| <= i < |longer| ensures ApplyPoint(c, s, r, longer[i]) && Leq(s1.memory, longer[i].memory) {
      assert EnteredPoint(c, s, r, stored, longer[i]);
      SettleLater(c, s1, r, pair, ready, longer[i]);
    }
    SettleLater(c, s1, r, pair, ready, now);
    RisingOn(past, from, s1, longer, now);
  }

  // ---- the certificates of many names ----

  ghost predicate BeyondTraced(s: Sys, names: set<string>, past: seq<Sys>, from: nat, now: Sys) {
    && (forall i | from <= i < |past| :: Beyond(s, names, past[i]))
    && Rising(past, from, now)
  }

  lemma BeyondBegin(s: Sys, names: set<string>, past: seq<Sys>)
    ensures Beyond(s, names, s) && BeyondTraced(s, names, past, |past|, s)
  {
    BeyondSelf(s, names);
  }

  /** One name's certificate was pruned, ... */
  lemma PruneBeyond(s: Sys, f: string, past: seq<Sys>, from: nat, now: Sys)
    requires FileName(f) !in s.files && PruneTraced(s, f, past, from, now) && PrunePoint(s, f, now)
    ensures BeyondTraced(s, {f}, past, from, now) && Beyond(s, {f}, now)
  {
    hide PrunePoint, Beyond;
    PruneLater(s, f, now);
    forall i | from <= i < |past| ensures Beyond(s, {f}, past[i]) { PruneLater(s, f, past[i]); }
  }

  /** ... or settled. */
  lemma SettleBeyond(c: Config, s: Sys, r: Route, pair: CertPair, ready: bool, past: seq<Sys>, from: nat, now: Sys)
    requires SettleTraced(c, s, r, pair, ready, past, from, now) && SettlePoint(c, s, r, pair, ready, now)
    ensures BeyondTraced(s, {r.fqdn}, past, from, now) && Beyond(s, {r.fqdn}, now)
  {
    hide SettlePoint, Beyond;
    SettleLater(c, s, r, pair, ready, now);
    forall i | from <= i < |past| ensures Beyond(s, {r.fqdn}, past[i]) { SettleLater(c, s, r, pair, ready, past[i]); }
  }

  /** Another stretch of handling certificates. */
  lemma BeyondMoreTraced(s: Sys, names: set<string>, past: seq<Sys>, from: nat, mid: Sys,
                         more: set<string>, longer: seq<Sys>, now: Sys)
    requires from <= |past| && past <= longer && more <= names
    requires BeyondTraced(s, names, past, from, mid) && Beyond(s, names, mid)
    requires BeyondTraced(mid, more, longer, |past|, now) && Beyond(mid, more, now)
    ensures BeyondTraced(s, names, longer, from, now) && Beyond(s, names, now)
  {
    hide Beyond, Leq, Forward;
    forall i | from <= i < |longer| ensures Beyond(s, names, longer[i]) {
      if i >= |past| { BeyondTrans(s, names, mid, more, longer[i]); }
    }
    forall i | |past| <= i < |longer| ensures Leq(mid.memory, longer[i].memory) {
      BeyondForward(mid, more, longer[i]);
    }
    BeyondForward(mid, more, now);
    RisingOn(past, from, mid, longer, now);
    BeyondTrans(s, names, mid, more, now);
  }

  // ---- a sync ----

  ghost predicate SyncTraced(c: Config, s: Sys, req: SyncRequest, past: seq<Sys>, from: nat, now: Sys) {
    && (forall i | from <= i < |past| :: SyncPoint(c, s, req, past[i]))
    && Rising(past, from, now)
  }

  /** A sync that has only looked. */
  lemma SyncLooked(c: Config, s: Sys, req: SyncRequest, past: seq<Sys>, longer: seq<Sys>)
    requires past <= longer && forall i | |past| <= i < |longer| :: longer[i] == s
    ensures SyncTraced(c, s, req, longer, |past|, s)
  {}

  /** A stretch of points after the store's first move, or before it. */
  lemma SyncTraceOn(c: Config, s: Sys, req: SyncRequest, past: seq<Sys>, from: nat, mid: Sys, longer: seq<Sys>,
                    now: Sys)
    requires from <= |past| && past <= longer && mid.memory == s.memory
    requires SyncTraced(c, s, req, past, from, mid)
    requires SyncTraced(c, s, req, longer, |past|, now) && Leq(s.memory, now.memory)
    ensures SyncTraced(c, s, req, longer, from, now)
  {
    hide SyncPoint, Leq, Forward;
    forall i | |past| <= i < |longer| ensures Leq(s.memory, longer[i].memory) {
      SyncPointForward(c, s, req, longer[i]);
    }
    RisingOn(past, from, mid, longer, now);
  }

  /** The swap, and the way back. */
  lemma SwapTraced(c: Config, s: Sys, req: SyncRequest, past: seq<Sys>, from: nat, now: Sys)
    requires !StaleSnapshot(s.memory, req) && PlanOf(c, s, req).Success? && now.memory == s.memory
    requires AllSwapping(s, past, from, PlanOf(c, s, req).value.desired)
    ensures SyncTraced(c, s, req, past, from, now)
  {
    hide PlanOf, Mixed, Beyond;
  }

  /** The store replaced: the state file is the old one or the new at every moment. */
  lemma ReplaceTraced(c: Config, s: Sys, req: SyncRequest, p: Plan, past: seq<Sys>, stored: bool, longer: seq<Sys>)
    requires !StaleSnapshot(s.memory, req) && PlanOf(c, s, req) == Success(p) && past <= longer
    requires forall i | |past| <= i < |longer| ::
               longer[i] == Swapped(s, req, p, false) || longer[i] == Swapped(s, req, p, true)
    ensures SyncTraced(c, s, req, longer, |past|, Swapped(s, req, p, stored))
  {
    hide PlanOf, Beyond, Reach;
    forall i | |past| <= i < |longer| ensures SyncPoint(c, s, req, longer[i]) {
      BeyondSelf(longer[i], Reach(s, p));
    }
  }

  /** From there on only certificates are handled. */
  lemma HandledTraced(c: Config, s: Sys, req: SyncRequest, p: Plan, stored: bool, past: seq<Sys>, from: nat,
                      longer: seq<Sys>, now: Sys)
    requires !StaleSnapshot(s.memory, req) && PlanOf(c, s, req) == Success(p) && from <= |past| && past <= longer
    requires SyncTraced(c, s, req, past, from, Swapped(s, req, p, stored))
    requires BeyondTraced(Swapped(s, req, p, stored), Reach(s, p), longer, |past|, now)
    requires Beyond(Swapped(s, req, p, stored), Reach(s, p), now)
    ensures SyncTraced(c, s, req, longer, from, now) && Leq(s.memory, now.memory)
  {
    hide PlanOf, Beyond, Reach, Swapped, Leq, Forward;
    var s1 := Swapped(s, req, p, stored);
    forall i | |past| <= i < |longer| ensures SyncPoint(c, s, req, longer[i]) && Leq(s1.memory, longer[i].memory) {
      BeyondForward(s1, Reach(s, p), longer[i]);
    }
    BeyondForward(s1, Reach(s, p), now);
    RisingOn(past, from, s1, longer, now);
    SwappedForward(c, s, req, stored);
    LeqTrans(s.memory, s1.memory, now.memory);
  }

  // ---- the lists a sync works through ----

  /** A route whose certificate can be settled: its vhost renders. */
  predicate Settleable(c: Config, r: Route) {
    Hostname(r.fqdn) && (CertPaths(c, r).Success? ==> RenderVhost(c, r, CertPaths(c, r).value, true).Success?)
  }

  /** Only routes that validate and render are planned, and so wait for a certificate. */
  lemma PendingNames(c: Config, s: Sys, req: SyncRequest, p: Plan)
    requires PlanOf(c, s, req) == Success(p)
    ensures forall n | n in p.desired :: IsRouteName(n)
    ensures forall r | r in p.pending :: Settleable(c, r) && CertPaths(c, r).Success?
  {
    PlanAllGood(c, s, EMPTY_PLAN, req.routes);
    forall r | r in p.pending ensures Settleable(c, r) && CertPaths(c, r).Success? { RenderCarries(c, r, true); }
  }

  lemma PruneAllSnoc(s: Sys, names: seq<string>, i: nat, os: seq<PruneOutcome>, o: PruneOutcome)
    requires i < |names| && |os| == i
    ensures PruneAll(s, names[..i+1], os + [o]) == PruneNext(PruneAll(s, names[..i], os), names[i], o)
  {
    assert names[..i+1][..i] == names[..i] && (os + [o])[..i] == os;
  }

  lemma SettleAllSnoc(c: Config, s: Sys, pending: seq<Route>, i: nat, os: seq<SettleOutcome>, o: SettleOutcome)
    requires i < |pending| && |os| == i
    ensures SettleAll(c, s, pending[..i+1], os + [o]) == SettleOne(c, SettleAll(c, s, pending[..i], os), pending[i], o)
  {
    assert pending[..i+1][..i] == pending[..i] && (os + [o])[..i] == os;
  }
}
