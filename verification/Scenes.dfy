/** What a stretch of work leaves nginx doing, as relations between what there was before
    and after: v says whether reloads are verified. */
module Scenes {
  import opened Wrappers
  import opened Render
  import opened Lifecycle
  import opened Faults
  import opened Host

  /** The include directory, nginx, and what has been asked of it. */
  datatype Scene = Scene(
    routes: map<string, Content>, receipt: Option<Content>, running: Loaded,
    pending: nat, outside: nat, faults: nat, signals: Signals)
  {
    function Conf(): Loaded { Loaded(routes, receipt) }

    /** The reserved file, if there, is a receipt. */
    predicate Owned() { receipt.Some? ==> receipt.value.Proof? }

    /** The last reload nginx is known to have been signalled was for the directory as it is. */
    predicate Signalled() { signals.sent != [] && signals.sent[|signals.sent|-1] == Conf() }

    predicate Served() { running.routes == routes }
  }

  /** No reload was outstanding, and nobody else has asked for one since. */
  predicate Quiet(a: Scene, b: Scene) { a.pending == 0 && b.outside == a.outside }

  /** Time, failures and reloads only add up, no reload is asked for that nginx -t has not
      accepted, and the reserved file stays the agent's - or as it is, if it was not. */
  ghost predicate Steady(a: Scene, b: Scene) {
    && a.outside <= b.outside && a.faults <= b.faults && b.signals.Since(a.signals)
    && (if a.Owned() then b.Owned() else b.receipt == a.receipt)
  }

  /** No call to the outside has failed, and the reserved file was the agent's. */
  predicate Smooth(v: bool, a: Scene, b: Scene) { b.faults == a.faults && (v ==> a.Owned()) }

  /** At most one has. */
  predicate Fair(v: bool, a: Scene, b: Scene) { b.faults <= a.faults + 1 && (v ==> a.Owned()) }

  /** At least so many calls to the outside have failed, but for a test that is refused
      because the reserved file was not the agent's. */
  predicate Paid(v: bool, a: Scene, b: Scene, cost: nat) { (v ==> a.Owned()) ==> a.faults + cost <= b.faults }

  /** The first reload nginx was signalled was for these vhosts. */
  predicate Sent(a: Scene, b: Scene, files: map<string, Content>) {
    |a.signals.sent| < |b.signals.sent| && b.signals.sent[|a.signals.sent|].routes == files
  }

  /** No reload of the agent's own is outstanding that was not before. */
  predicate Owed(a: Scene, b: Scene) { b.pending <= a.pending + (b.outside - a.outside) }

  /** nginx runs what it ran, or the directory as it was. */
  predicate Adopted(a: Scene, b: Scene) { b.running == a.running || b.running == a.Conf() }

  /** Nothing was asked of nginx; if it loads anything, others have asked. */
  predicate Calm(a: Scene, b: Scene) {
    && a.outside <= b.outside && a.faults <= b.faults && b.signals == a.signals && Owed(a, b)
    && (Quiet(a, b) ==> b.running == a.running)
  }

  /** The agent has only looked, or worked on other things. */
  predicate Idle(a: Scene, b: Scene) { Calm(a, b) && b.Conf() == a.Conf() && Adopted(a, b) }

  /** The directory is as it was, no reload was asked for, and nginx runs what it ran or the
      directory. */
  predicate Untouched(a: Scene, b: Scene) { b.Conf() == a.Conf() && b.signals == a.signals && Adopted(a, b) }

  /** Files have been written or removed, and nothing was asked of nginx. */
  predicate Changed(a: Scene, b: Scene) { Calm(a, b) && b.receipt == a.receipt }

  datatype Verdict = Passed | TestFailed | ReloadFailed

  /** The directory was tested and, if that passed, one reload was asked for. It has passed
      only if the reload was signalled for this very directory and, if verified, nginx runs
      it. It fails only for what has failed. */
  ghost predicate Tested(v: bool, a: Scene, b: Scene, verdict: Verdict) {
    && Steady(a, b) && b.routes == a.routes && (Smooth(v, a, b) ==> verdict.Passed?)
    && (b.running.routes == a.running.routes || b.running.routes == b.routes)
    && (verdict.TestFailed? ==> Calm(a, b))
    && (verdict.ReloadFailed? ==> a.faults < b.faults)
    && (!verdict.TestFailed? ==> b.signals.asked == a.signals.asked + 1 && (v ==> a.Owned()))
    && (verdict.Passed? ==> b.signals.sent == a.signals.sent + [b.Conf()])
    && (v && verdict.Passed? ==> b.running == b.Conf() && Owed(a, b))
  }

  /** The files have been put back, or not; an ambiguous reload was answered by one more. */
  ghost predicate TakenBack(v: bool, a: Scene, b: Scene, end: Attempt, ambiguous: bool) {
    && Steady(a, b) && (end.Undone? || end.Stranded?) && Paid(v, a, b, if end == Undone(true) then 0 else 1)
    && (end.Stranded? ==> a.faults < b.faults)
    && (!ambiguous ==> Calm(a, b) && end != Undone(false))
    && (v && ambiguous && end == Undone(true) ==> b.running == b.Conf())
  }

  /** After a candidate was tested and reloaded: confirmed means that one reload was asked
      for and signalled, for what is on disk, and that nginx runs it; and an undone
      candidate, its rollback not in doubt, leaves nginx with what it ran or with what is
      on disk again. It ends as it does only for what has failed. */
  ghost predicate Landed(v: bool, a: Scene, b: Scene, end: Attempt) {
    && Steady(a, b) && Paid(v, a, b, Cost(end)) && (end.Blocked? || end.Stranded? ==> a.faults < b.faults)
    && (end.Confirmed? ==>
          b.signals.asked == a.signals.asked + 1 && b.signals.sent == a.signals.sent + [b.Conf()])
    && (v && end.Confirmed? ==> a.Owned() && b.running == b.Conf() && Owed(a, b))
    && (v && end == Undone(true) && Quiet(a, b) ==> b.running == a.running || b.running == b.Conf())
    && (end.Blocked? ==> Calm(a, b) && Untouched(a, b))
  }

  /** Whoever asked for reloads, nginx serves the vhosts it served, those on disk before
      or after, or the candidate in between. */
  predicate Tried(a: Scene, b: Scene, candidate: map<string, Content>) {
    || b.running.routes == a.running.routes
    || b.running.routes == a.routes
    || b.running.routes == b.routes
    || b.running.routes == candidate
  }

  /** nginx serves the vhosts it served or some state of a swap to these. */
  ghost predicate ServingMix(a: Scene, b: Scene, desired: map<string, Content>) {
    b.running.routes == a.running.routes || Mixed(b.running.routes, a.routes, desired)
  }

  /** The error text reports a rollback that failed or was not confirmed. */
  predicate Doubtful(error: Option<Trouble>) {
    error.Some? && (error.value.SwapFailed? || error.value.NginxRefused?) && error.value.rollback != Clean
  }

  /** With nothing in doubt, a quiet nginx runs what it ran or what is on disk. */
  predicate Withdrawn(v: bool, a: Scene, b: Scene, error: Option<Trouble>) {
    v && !Doubtful(error) && Quiet(a, b) ==> b.running == a.running || b.running == b.Conf()
  }

  /** nginx, if it ran, served or was last signalled for the directory, still does and was. */
  predicate Holding(v: bool, a: Scene, b: Scene) {
    && (a.Signalled() ==> b.Signalled())
    && (v && a.running == a.Conf() ==> b.running == b.Conf())
    && (v && a.Served() ==> b.Served())
  }

  /** A quiet nginx in step with the directory is still in step with it. */
  ghost predicate InStep(v: bool, a: Scene, b: Scene, trouble: bool) {
    Steady(a, b) && (v && !trouble && Quiet(a, b) && a.Served() ==> b.Served())
  }

  /** What a reply says of nginx. A quiet nginx is in step with the directory unless the
      reply or a certificate state tells of a rollback in doubt. After a confirmed change
      the last reload signalled was for the directory, and a verified one leaves nginx
      running exactly that, whoever else reloads; a request that left it alone leaves the
      directory alone too; and unless a candidate was taken back no reload of the agent's
      own is outstanding. */
  ghost predicate Tells(v: bool, a: Scene, b: Scene, confirmed: bool, untouched: bool, rippled: bool, trouble: bool) {
    && InStep(v, a, b, trouble)
    && (confirmed ==> b.Signalled() && (v ==> b.running == b.Conf()))
    && (untouched ==> Untouched(a, b))
    && (v && !rippled ==> Owed(a, b))
  }

  // ---- one stretch after another ----

  lemma IdleSelf(a: Scene)
    ensures Idle(a, a)
  {}

  lemma IdleTrans(a: Scene, b: Scene, c: Scene)
    requires Idle(a, b) && Idle(b, c)
    ensures Idle(a, c)
  {}

  lemma IdleRuns(a: Scene, b: Scene)
    requires Idle(a, b) && a.running == a.Conf()
    ensures b.running == b.Conf()
  {}

  lemma IdleSteady(v: bool, a: Scene, b: Scene)
    requires Idle(a, b)
    ensures Steady(a, b) && Holding(v, a, b) && Owed(a, b) && (forall t :: InStep(v, a, b, t))
  {}

  /** What is told of a request that leaves everything alone. */
  lemma IdleTells(v: bool, a: Scene, b: Scene, trouble: bool, error: Option<Trouble>)
    requires Idle(a, b)
    ensures Tells(v, a, b, false, true, false, trouble) && Withdrawn(v, a, b, error)
    ensures forall candidate :: Tried(a, b, candidate)
  {}

  /** What is told after a look is so from before it. */
  lemma LookTells(v: bool, a: Scene, b: Scene, c: Scene, confirmed: bool, untouched: bool, rippled: bool, trouble: bool)
    requires Idle(a, b) && Tells(v, b, c, confirmed, untouched, rippled, trouble)
    ensures Tells(v, a, c, confirmed, untouched, rippled, trouble)
  {}

  lemma LookTried(v: bool, a: Scene, b: Scene, c: Scene, candidate: map<string, Content>, error: Option<Trouble>)
    requires Idle(a, b) && Steady(b, c)
    ensures Sent(b, c, candidate) ==> Sent(a, c, candidate)
    ensures Tried(b, c, candidate) ==> Tried(a, c, candidate)
    ensures Withdrawn(v, b, c, error) ==> Withdrawn(v, a, c, error)
  {}

  lemma LookPaid(v: bool, a: Scene, b: Scene, c: Scene, cost: nat)
    requires Idle(a, b) && Paid(v, b, c, cost)
    ensures Paid(v, a, c, cost)
  {}

  /** A candidate that was confirmed, and what came after it. */
  lemma ConfirmedTells(v: bool, a: Scene, b: Scene, c: Scene, confirmed: bool, rippled: bool, trouble: bool)
    requires Landed(v, a, b, Confirmed) && InStep(v, b, c, trouble)
    requires confirmed ==> c.Signalled() && (v ==> c.running == c.Conf())
    requires v && !rippled ==> Owed(b, c)
    ensures Tells(v, a, c, confirmed, false, rippled, trouble) && Sent(a, c, b.routes)
  {}

  lemma LandedPaid(v: bool, a: Scene, b: Scene, end: Attempt)
    requires Landed(v, a, b, end)
    ensures Paid(v, a, b, Cost(end))
  {}

  lemma ConfirmedHolds(v: bool, a: Scene, b: Scene, c: Scene)
    requires Landed(v, a, b, Confirmed) && Holding(v, b, c)
    ensures c.Signalled() && (v ==> c.running == c.Conf())
  {}

  lemma ConfirmedRuns(v: bool, a: Scene, b: Scene)
    requires Landed(v, a, b, Confirmed)
    ensures b.Signalled() && (v ==> b.running == b.Conf())
  {}

  lemma ConfirmedPaid(v: bool, a: Scene, b: Scene, c: Scene, cost: nat)
    requires Landed(v, a, b, Confirmed) && Paid(v, b, c, cost)
    ensures Paid(v, a, c, cost)
  {}

  /** A candidate that was taken back, or not. */
  lemma DeclinedTells(v: bool, a: Scene, b: Scene, end: Attempt, error: Option<Trouble>, rippled: bool)
    requires Landed(v, a, b, end) && !end.Confirmed? && (end.Undone? ==> b.routes == a.routes)
    requires !Doubtful(error) ==> !end.Stranded? && end != Undone(false)
    requires end.Blocked? || rippled || Owed(a, b)
    ensures Tells(v, a, b, false, end.Blocked?, rippled, Doubtful(error)) && Withdrawn(v, a, b, error)
  {}

  // ---- from the candidate to the end of it ----

  lemma ChangedSelf(a: Scene)
    ensures Changed(a, a)
  {}

  lemma TestedRoutes(v: bool, a: Scene, b: Scene, verdict: Verdict)
    requires Tested(v, a, b, verdict)
    ensures b.routes == a.routes && (b.running.routes == a.running.routes || b.running.routes == b.routes)
  {}

  /** A candidate that could not be written, ... */
  lemma LandUnwritten(v: bool, a: Scene, b: Scene)
    requires Changed(a, b) && Adopted(a, b) && a.faults < b.faults && b.routes == a.routes
    ensures Landed(v, a, b, Blocked) && (forall candidate :: Tried(a, b, candidate))
  {}

  /** ... one that was, ... */
  lemma LandWritten(v: bool, a: Scene, b: Scene, c: Scene, end: Attempt)
    requires Changed(a, b) && Adopted(a, b) && Landed(v, b, c, end) && !end.Blocked?
    ensures Landed(v, a, c, end) && (Tried(b, c, b.routes) ==> Tried(a, c, b.routes))
  {}

  /** ... that passed, ... */
  lemma LandPassed(v: bool, a: Scene, b: Scene, c: Scene)
    requires Changed(a, b) && Tested(v, b, c, Passed)
    ensures Landed(v, a, c, Confirmed) && Tried(b, c, b.routes)
  {}

  /** ... that failed, ... */
  lemma LandFailed(v: bool, a: Scene, b: Scene, c: Scene, d: Scene, verdict: Verdict, end: Attempt)
    requires Changed(a, b) && Tested(v, b, c, verdict) && !verdict.Passed?
    requires TakenBack(v, c, d, end, verdict.ReloadFailed?)
    ensures Landed(v, a, d, end) && (Tried(c, d, b.routes) ==> Tried(b, d, b.routes))
  {}

  /** ... and a swap that failed on the way. */
  lemma LandHalfway(v: bool, a: Scene, b: Scene, c: Scene, end: Attempt)
    requires Changed(a, b) && a.faults < b.faults && TakenBack(v, b, c, end, false)
    ensures Landed(v, a, c, end) && Calm(a, c)
  {}

  /** The files are put back, or are not, ... */
  lemma BackWritten(v: bool, a: Scene, b: Scene, c: Scene, end: Attempt, ambiguous: bool)
    requires Changed(a, b) && TakenBack(v, b, c, end, ambiguous)
    ensures TakenBack(v, a, c, end, ambiguous)
  {}

  lemma BackFailed(v: bool, a: Scene, b: Scene, ambiguous: bool)
    requires Changed(a, b) && a.faults < b.faults
    ensures TakenBack(v, a, b, Stranded, ambiguous)
  {}

  lemma BackTried(a: Scene, b: Scene, c: Scene)
    requires Adopted(a, b) && (c.running.routes == b.running.routes || c.running.routes == c.routes)
    requires c.routes == b.routes
    ensures Tried(a, c, a.routes)
  {}

  lemma AgainTaken(v: bool, a: Scene, b: Scene, verdict: Verdict)
    requires Tested(v, a, b, verdict)
    ensures TakenBack(v, a, b, Undone(verdict.Passed?), true)
  {}

  lemma StillTaken(v: bool, a: Scene)
    ensures TakenBack(v, a, a, Undone(true), false)
  {}
}
