/** What one request does, as a function of the state before it and of how every external
    call turned out. internal/manager, internal/state and internal/certbot are proved to
    do exactly this (Manager.dfy); Safety.dfy and Convergence.dfy prove what it means.

    Clock values (AppliedAt, CertAt, event times) are not part of the state. */
module Lifecycle {
  import opened Wrappers
  import opened Sorting
  import opened Hostnames
  import opened Render

  datatype CertState = NoCert | CertOK | CertPending | CertFailed

  datatype Entry = Entry(generation: int, present: bool, cert: CertState, certError: string)

  /** The store, in memory or as last written to the state file (absent file: empty). */
  datatype Image = Image(entries: map<string, Entry>, snapshotGen: int)

  /** The agent-managed vhost files, the store twice, and certbot's two directories. */
  datatype Sys = Sys(
    files: map<string, Content>,
    memory: Image,
    saved: Image,
    certs: set<string>,
    lineages: set<string>)

  /** How a change to the files ended: refused before any file changed; rolled back
      (and, if its reload was ambiguous, whether the rollback was confirmed); the
      rollback failed and the candidate files remain; or confirmed by nginx. */
  datatype Attempt = Blocked | Undone(confirmed: bool) | Stranded | Confirmed

  /** certbot certonly, and what the upgrade to HTTPS then did. readable: reading the
      backup of the challenge vhost succeeded. stored: the state file was written. */
  datatype Issue = Issued | IssueFailed(gotCert: bool, gotLineage: bool)
  datatype SettleOutcome = SettleOutcome(issue: Issue, readable: bool, upgrade: Attempt, error: string, stored: bool)

  /** certbot delete; an interrupted one may leave either half behind. */
  datatype PruneOutcome =
    | Deleted
    | DeleteFailed(certLeft: bool, lineageLeft: bool, error: string, stored: bool)

  // ---- replies ----

  datatype Rollback = Clean | ReloadUnconfirmed | FilesFailed

  datatype Trouble =
    | Rejected(reason: Invalid)
    | DuplicateFqdn(fqdn: string)
    | Io
    | SwapFailed(rollback: Rollback)
    | NginxRefused(rollback: Rollback)

  datatype ApplyReply = ApplyReply(code: int, applied: bool, generation: int, error: Option<Trouble>)

  datatype FqdnResult = FqdnResult(fqdn: string, applied: bool, generation: int)
  datatype SyncRequest = SyncRequest(snapshotGeneration: int, routes: seq<Route>)
  datatype SyncReply = SyncReply(
    code: int, applied: bool, snapshotGeneration: int,
    pruned: seq<string>, results: seq<FqdnResult>, error: Option<Trouble>)

  function RollbackOf(a: Attempt): Rollback {
    match a
    case Stranded => FilesFailed
    case Undone(confirmed) => if confirmed then Clean else ReloadUnconfirmed
    case _ => Clean
  }

  // ---- the store ----

  function Persisted(s: Sys, memory: Image, stored: bool): Sys {
    s.(memory := memory, saved := if stored then memory else s.saved)
  }

  function Recorded(m: Image, f: string, e: Entry): Image { m.(entries := m.entries[f := e]) }

  /** The zero Entry for an unknown name. */
  function EntryAt(m: Image, f: string): Entry {
    if f in m.entries then m.entries[f] else Entry(0, false, NoCert, "")
  }

  function WithCert(m: Image, f: string, cert: CertState, error: string): Image {
    Recorded(m, f, EntryAt(m, f).(cert := cert, certError := error))
  }

  function Tombstone(e: Entry): Entry { Entry(e.generation, false, NoCert, "") }

  function Replaced(m: Image, entries: map<string, Entry>, snapshotGen: int): Image {
    Image(map f | f in m.entries.Keys + entries.Keys ::
            if f in entries then entries[f] else Tombstone(m.entries[f]),
          snapshotGen)
  }

  function Record(s: Sys, f: string, e: Entry, stored: bool): Sys {
    Persisted(s, Recorded(s.memory, f, e), stored)
  }

  function SetCert(s: Sys, f: string, cert: CertState, error: string, stored: bool): Sys {
    Persisted(s, WithCert(s.memory, f, cert, error), stored)
  }

  // ---- certificates ----

  predicate CertReady(s: Sys, r: Route) { IsPlatform(r.certRef) || r.fqdn in s.certs }

  /** certbot.Ensure: a certificate that exists is left alone. */
  function Ensured(s: Sys, f: string, issue: Issue): Sys {
    match issue
    case Issued => if f in s.certs then s else s.(certs := s.certs + {f}, lineages := s.lineages + {f})
    case IssueFailed(cert, lineage) =>
      s.(certs := if cert then s.certs + {f} else s.certs,
         lineages := if lineage then s.lineages + {f} else s.lineages)
  }

  /** settleCert: issue, then upgrade the challenge vhost to HTTPS. */
  function SettleNext(c: Config, s: Sys, r: Route, pair: CertPair, ready: bool, o: SettleOutcome): Sys {
    var f, fn := r.fqdn, FileName(r.fqdn);
    if ready then SetCert(s, f, CertOK, "", o.stored)
    else
      var s1 := Ensured(s, f, o.issue);
      if o.issue.IssueFailed? then SetCert(s1, f, CertFailed, o.error, o.stored)
      else match RenderVhost(c, r, pair, true)
        case Failure(_) => SetCert(s1, f, CertFailed, o.error, o.stored)
        case Success(v) =>
          match o.upgrade
          case Blocked => SetCert(s1, f, CertFailed, o.error, o.stored)
          case Undone(_) =>
            // an unreadable backup is taken for a missing file, so undoing removes it
            SetCert(if o.readable then s1 else s1.(files := s1.files - {fn}), f, CertFailed, o.error, o.stored)
          case Stranded => SetCert(s1.(files := s1.files[fn := Site(v)]), f, CertFailed, o.error, o.stored)
          case Confirmed => SetCert(s1.(files := s1.files[fn := Site(v)]), f, CertOK, "", o.stored)
  }

  /** pruneCert: drop the lineage of a name no longer served. */
  function PruneNext(s: Sys, f: string, o: PruneOutcome): Sys {
    if f !in s.lineages then s
    else match o
      case Deleted => s.(certs := s.certs - {f}, lineages := s.lineages - {f})
      case DeleteFailed(cert, lineage, error, stored) =>
        var s1 := s.(certs := if cert then s.certs else s.certs - {f},
                     lineages := if lineage then s.lineages else s.lineages - {f});
        SetCert(s1, f, CertFailed, error, stored)
  }

  // ---- POST /apply ----

  datatype ApplyOutcome = ApplyOutcome(attempt: Attempt, stored: bool, settle: SettleOutcome, prune: PruneOutcome)

  predicate Stale(m: Image, r: Route) {
    r.fqdn in m.entries && r.generation <= m.entries[r.fqdn].generation
  }

  function Refusal(error: Trouble): ApplyReply { ApplyReply(422, false, 0, Some(error)) }

  function ApplyNext(c: Config, s: Sys, r: Route, o: ApplyOutcome): (Sys, ApplyReply) {
    if Stale(s.memory, r) then (s, ApplyReply(409, false, s.memory.entries[r.fqdn].generation, None))
    else match Validate(c, r)
      case Some(e) => (s, Refusal(Rejected(e)))
      case None => if r.desired == Absent then RemoveNext(s, r, o) else ServeNext(c, s, r, o)
  }

  function RemoveNext(s: Sys, r: Route, o: ApplyOutcome): (Sys, ApplyReply) {
    var removed := s.(files := s.files - {FileName(r.fqdn)});
    match o.attempt
    case Blocked => (s, Refusal(Io))
    case Undone(_) => (s, Refusal(NginxRefused(RollbackOf(o.attempt))))
    case Stranded => (removed, Refusal(NginxRefused(FilesFailed)))
    case Confirmed =>
      var s1 := Record(removed, r.fqdn, Entry(r.generation, false, NoCert, ""), o.stored);
      (PruneNext(s1, r.fqdn, o.prune), ApplyReply(200, true, r.generation, None))
  }

  function ServeNext(c: Config, s: Sys, r: Route, o: ApplyOutcome): (Sys, ApplyReply) {
    match CertPaths(c, r)
    case Failure(e) => (s, if o.attempt == Blocked then Refusal(Io) else Refusal(Rejected(e)))
    case Success(pair) =>
      var ready := CertReady(s, r);
      match RenderVhost(c, r, pair, ready)
      case Failure(e) => (s, if o.attempt == Blocked then Refusal(Io) else Refusal(Rejected(e)))
      case Success(v) =>
        var written := s.(files := s.files[FileName(r.fqdn) := Site(v)]);
        match o.attempt
        case Blocked => (s, Refusal(Io))
        case Undone(_) => (s, Refusal(NginxRefused(RollbackOf(o.attempt))))
        case Stranded => (written, Refusal(NginxRefused(FilesFailed)))
        case Confirmed =>
          var s1 := Record(written, r.fqdn, Entry(r.generation, true, NoCert, ""), o.stored);
          (if IsPlatform(r.certRef) then s1 else SettleNext(c, s1, r, pair, ready, o.settle),
           ApplyReply(200, true, r.generation, None))
  }

  // ---- POST /sync-all ----

  /** desired: the files the swap will leave. kept: names whose newer state stays. */
  datatype Plan = Plan(
    desired: map<string, Content>,
    entries: map<string, Entry>,
    pending: seq<Route>,
    kept: set<string>)

  const EMPTY_PLAN := Plan(map[], map[], [], {})

  /** The manifest is older than what was applied for this name. */
  predicate Older(m: Image, r: Route) {
    r.fqdn in m.entries && r.generation < m.entries[r.fqdn].generation
  }

  function Keep(s: Sys, acc: Plan, r: Route): Plan
    requires Older(s.memory, r)
  {
    var fn, cur := FileName(r.fqdn), s.memory.entries[r.fqdn];
    if cur.present && fn in s.files then
      Plan(acc.desired[fn := s.files[fn]], acc.entries[r.fqdn := cur], acc.pending, acc.kept + {r.fqdn})
    else
      Plan(acc.desired, acc.entries[r.fqdn := cur.(present := false)], acc.pending, acc.kept + {r.fqdn})
  }

  function FreshState(s: Sys, r: Route): CertState {
    if IsPlatform(r.certRef) then NoCert else if CertReady(s, r) then CertOK else CertPending
  }

  function Place(s: Sys, acc: Plan, r: Route, v: Vhost): Plan {
    Plan(acc.desired[FileName(r.fqdn) := Site(v)],
         acc.entries[r.fqdn := Entry(r.generation, true, FreshState(s, r), "")],
         if CertReady(s, r) then acc.pending else acc.pending + [r],
         acc.kept)
  }

  function PlanRoute(c: Config, s: Sys, acc: Plan, r: Route): Result<Plan, Trouble> {
    if r.desired == Absent then Success(acc)
    else match Validate(c, r)
      case Some(e) => Failure(Rejected(e))
      case None =>
        if FileName(r.fqdn) in acc.desired then Failure(DuplicateFqdn(r.fqdn))
        else if Older(s.memory, r) then Success(Keep(s, acc, r))
        else match CertPaths(c, r)
          case Failure(e) => Failure(Rejected(e))
          case Success(pair) =>
            match RenderVhost(c, r, pair, CertReady(s, r))
            case Failure(e) => Failure(Rejected(e))
            case Success(v) => Success(Place(s, acc, r, v))
  }

  function PlanAll(c: Config, s: Sys, acc: Plan, routes: seq<Route>): Result<Plan, Trouble>
    decreases routes
  {
    if routes == [] then Success(acc)
    else match PlanRoute(c, s, acc, routes[0])
      case Failure(e) => Failure(e)
      case Success(next) => PlanAll(c, s, next, routes[1..])
  }

  function PlanOf(c: Config, s: Sys, req: SyncRequest): Result<Plan, Trouble> {
    PlanAll(c, s, EMPTY_PLAN, req.routes)
  }

  /** The names of the managed files the plan does not keep, sorted. */
  ghost function PrunedOf(s: Sys, p: Plan): seq<string> {
    Listing(set n | n in s.files && n !in p.desired :: Stem(n))
  }

  ghost function ResultsOf(p: Plan): (rs: seq<FqdnResult>)
    ensures |rs| == |p.entries|
  {
    var names := Listing(p.entries.Keys);
    seq<FqdnResult>(|names|, i requires 0 <= i < |names| =>
      FqdnResult(names[i], names[i] !in p.kept, p.entries[names[i]].generation))
  }

  function PruneAll(s: Sys, names: seq<string>, os: seq<PruneOutcome>): Sys
    requires |names| == |os|
  {
    if names == [] then s
    else
      var n := |names| - 1;
      PruneNext(PruneAll(s, names[..n], os[..n]), names[n], os[n])
  }

  function SettleOne(c: Config, s: Sys, r: Route, o: SettleOutcome): Sys {
    match CertPaths(c, r)
    case Failure(_) => s
    case Success(pair) => SettleNext(c, s, r, pair, false, o)
  }

  function SettleAll(c: Config, s: Sys, pending: seq<Route>, os: seq<SettleOutcome>): Sys
    requires |pending| == |os|
  {
    if pending == [] then s
    else
      var n := |pending| - 1;
      SettleOne(c, SettleAll(c, s, pending[..n], os[..n]), pending[n], os[n])
  }

  /** Unread: the directory could not be read. Halted: the swap or its reload failed;
      residue is what is left of the files if they could not be restored. */
  datatype SyncOutcome =
    | Unread
    | Halted(swapped: bool, attempt: Attempt, residue: map<string, Content>)
    | Accepted(stored: bool, prunes: seq<PruneOutcome>, settles: seq<SettleOutcome>)

  /** Every file is as it was before the swap or as the swap wants it. */
  ghost predicate Mixed(files: map<string, Content>, a: map<string, Content>, b: map<string, Content>) {
    forall n | n in files :: (n in a && files[n] == a[n]) || (n in b && files[n] == b[n])
  }

  /** A state a swap passes through: only files change, each one from what it was to what
      it should be. */
  ghost predicate Swapping(s: Sys, m: Sys, desired: map<string, Content>) {
    && m == s.(files := m.files)
    && Mixed(m.files, s.files, desired)
  }

  /** The outcome has one entry per certificate call the plan makes. */
  ghost predicate Fits(c: Config, s: Sys, req: SyncRequest, o: SyncOutcome) {
    match PlanOf(c, s, req)
    case Failure(_) => true
    case Success(p) =>
      match o
      case Unread => true
      case Halted(_, attempt, residue) => (attempt.Undone? || attempt.Stranded?) && Mixed(residue, s.files, p.desired)
      case Accepted(_, prunes, settles) => |prunes| == |PrunedOf(s, p)| && |settles| == |p.pending|
  }

  function SyncRefusal(req: SyncRequest, error: Trouble): SyncReply {
    SyncReply(422, false, req.snapshotGeneration, [], [], Some(error))
  }

  predicate StaleSnapshot(m: Image, req: SyncRequest) {
    m.snapshotGen != 0 && req.snapshotGeneration <= m.snapshotGen
  }

  /** The state once nginx confirmed the swap and the store was replaced. */
  function Swapped(s: Sys, req: SyncRequest, p: Plan, stored: bool): Sys {
    Persisted(s.(files := p.desired), Replaced(s.memory, p.entries, req.snapshotGeneration), stored)
  }

  ghost function SyncNext(c: Config, s: Sys, req: SyncRequest, o: SyncOutcome): (Sys, SyncReply)
    requires Fits(c, s, req, o)
  {
    if StaleSnapshot(s.memory, req) then
      (s, SyncReply(409, false, s.memory.snapshotGen, [], [], None))
    else if o.Unread? then (s, SyncRefusal(req, Io))
    else match PlanOf(c, s, req)
      case Failure(e) => (s, SyncRefusal(req, e))
      case Success(p) =>
        match o
        case Halted(swapped, attempt, residue) =>
          (if attempt.Stranded? then s.(files := residue) else s,
           SyncRefusal(req, if swapped then NginxRefused(RollbackOf(attempt)) else SwapFailed(RollbackOf(attempt))))
        case Accepted(stored, prunes, settles) =>
          var s1 := PruneAll(Swapped(s, req, p, stored), PrunedOf(s, p), prunes);
          (SettleAll(c, s1, p.pending, settles),
           SyncReply(200, true, req.snapshotGeneration, PrunedOf(s, p), ResultsOf(p), None))
  }

  // ---- restart ----

  /** state.Load: memory is what the state file holds. */
  function Reloaded(s: Sys): Sys { s.(memory := s.saved) }
}
