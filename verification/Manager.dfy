/** internal/manager/manager.go: one mutation at a time - render, test, swap, reload, then
    record or roll back. Every method is proved to do what Lifecycle says, whatever the
    calls it makes return, and to pass only through states a crash may leave behind. */
module Manager {
  import opened Wrappers
  import opened Hostnames
  import opened Receipt
  import opened Render
  import opened Lifecycle
  import opened Safety
  import opened Agreement
  import opened Convergence
  import opened Points
  import opened Trace
  import opened Faults
  import opened Reports
  import opened Host
  import opened Fsops
  import Replies
  import N = Nginx
  import X = Scenes
  import S = State
  import P = SourcePolicy
  import B = Certbot

  datatype Event = Event(ok: bool, detail: string, error: Option<Trouble>)

  /** GET /status, but for the clock values. */
  datatype StatusResponse = StatusResponse(
    capabilities: seq<string>, health: string, lastApply: Option<Event>, lastSync: Option<Event>,
    routes: seq<RouteStatus>, certs: seq<CertStatus>)

  /** What stands for a part of a request that is not reached. */
  const NO_SETTLE := SettleOutcome(Issued, true, Confirmed, "", true)

  /** An upgrade was tested or reloaded and then taken back, or not. */
  predicate Retracted(o: SettleOutcome) { o.issue.Issued? && (o.upgrade.Undone? || o.upgrade.Stranded?) }

  ghost predicate AnyRetracted(os: seq<SettleOutcome>) { exists i :: 0 <= i < |os| && Retracted(os[i]) }

  /** A directory nginx ran before these upgrades it runs again after them. */
  predicate Regained(os: seq<SettleOutcome>) {
    os != [] ==>
      var last := os[|os|-1];
      Upgraded(last) || (!Retracted(last) && Regained(os[..|os|-1]))
  }

  /** Nothing was confirmed after an upgrade that left something else than it found, is not
      known to have ended, or was taken back with an earlier one's reload outstanding. */
  ghost predicate Wavering(os: seq<SettleOutcome>) {
    && os != []
    && var last, front := os[|os|-1], os[..|os|-1];
    && !Upgraded(last)
    && if Retracted(last) then SettleTrouble(last) || AnyRetracted(front) else Wavering(front)
  }

  lemma SettlesSnoc(os: seq<SettleOutcome>, o: SettleOutcome)
    ensures AnyRetracted(os + [o]) <==> AnyRetracted(os) || Retracted(o)
    ensures Regained(os + [o]) <==> Upgraded(o) || (!Retracted(o) && Regained(os))
    ensures Wavering(os + [o]) <==>
              !Upgraded(o) && if Retracted(o) then SettleTrouble(o) || AnyRetracted(os) else Wavering(os)
  {
    assert (os + [o])[|os|] == o && (os + [o])[..|os|] == os;
    if i :| 0 <= i < |os| && Retracted(os[i]) { assert (os + [o])[i] == os[i]; }
  }

  /** What is left after these upgrades of what nginx was doing, and what they cost. */
  ghost predicate AllSettled(v: bool, a: X.Scene, b: X.Scene, os: seq<SettleOutcome>) {
    && X.InStep(v, a, b, Wavering(os)) && X.Paid(v, a, b, SettleCosts(os))
    && (v && !AnyRetracted(os) ==> X.Owed(a, b))
    && (a.Signalled() && Regained(os) ==> b.Signalled())
    && (v && a.running == a.Conf() && Regained(os) ==> b.running == b.Conf())
  }

  lemma SettledNone(v: bool, a: X.Scene)
    ensures AllSettled(v, a, a, [])
  {}

  lemma SettledMore(v: bool, a: X.Scene, b: X.Scene, c: X.Scene, os: seq<SettleOutcome>, o: SettleOutcome)
    requires AllSettled(v, a, b, os) && X.InStep(v, b, c, SettleTrouble(o)) && X.Paid(v, b, c, SettleCost(o))
    requires !Retracted(o) ==> X.Holding(v, b, c) && (v ==> X.Owed(b, c))
    requires Upgraded(o) ==> c.Signalled() && (v ==> c.running == c.Conf())
    ensures AllSettled(v, a, c, os + [o])
  {
    hide AnyRetracted, Regained, Wavering, Retracted, SettleTrouble, Upgraded, SettleCost, SettleCosts;
    SettlesSnoc(os, o);
    SettleCostsSnoc(os, o);
    if !AnyRetracted(os) { NeverWavering(os); }
  }

  /** After certificates have been pruned, say. */
  lemma IdleSettled(v: bool, a: X.Scene, b: X.Scene, c: X.Scene, cost: nat, os: seq<SettleOutcome>)
    requires X.Idle(a, b) && AllSettled(v, b, c, os) && a.faults + cost <= b.faults
    requires a.Signalled() && (v ==> a.running == a.Conf())
    ensures X.InStep(v, a, c, Wavering(os)) && X.Paid(v, a, c, cost + SettleCosts(os))
    ensures v && !AnyRetracted(os) ==> X.Owed(a, c)
    ensures Regained(os) ==> c.Signalled() && (v ==> c.running == c.Conf())
  {
    hide AnyRetracted, Regained, Wavering, SettleCosts;
  }

  lemma {:induction false} NeverWavering(os: seq<SettleOutcome>)
    requires !AnyRetracted(os)
    ensures !Wavering(os)
  {
    if os != [] {
      assert os == os[..|os|-1] + [os[|os|-1]];
      SettlesSnoc(os[..|os|-1], os[|os|-1]);
      NeverWavering(os[..|os|-1]);
    }
  }

  const NO_CHANGE := ApplyOutcome(Confirmed, true, NO_SETTLE, Deleted)

  /** The upgrade left something else than it found, or is not known to have ended. */
  predicate SettleTrouble(o: SettleOutcome) {
    o.issue.Issued? && (o.upgrade.Stranded? || (o.upgrade.Undone? && (!o.upgrade.confirmed || !o.readable)))
  }

  predicate ApplyTrouble(reply: ApplyReply, o: ApplyOutcome) {
    if reply.code == 200 then SettleTrouble(o.settle) else X.Doubtful(reply.error)
  }

  ghost predicate SyncTrouble(reply: SyncReply, o: SyncOutcome) {
    if reply.code == 200 then o.Accepted? && Wavering(o.settles) else X.Doubtful(reply.error)
  }

  /** The last change to the vhosts was confirmed. */
  predicate ApplyConfirmed(reply: ApplyReply, o: ApplyOutcome) { reply.code == 200 && !Retracted(o.settle) }

  predicate SyncConfirmed(reply: SyncReply, o: SyncOutcome) {
    reply.code == 200 && o.Accepted? && Regained(o.settles)
  }

  /** A candidate was tested or reloaded and then taken back, or not: a reload of the
      agent's own may be outstanding. */
  predicate ApplyRippled(reply: ApplyReply, o: ApplyOutcome) {
    if reply.code == 200 then Retracted(o.settle) else reply.error.Some? && reply.error.value.NginxRefused?
  }

  ghost predicate SyncRippled(reply: SyncReply, o: SyncOutcome) {
    if reply.code == 200 then o.Accepted? && AnyRetracted(o.settles)
    else reply.error.Some? && reply.error.value.NginxRefused?
  }

  /** What a reply to an apply says of nginx, between a and b. The first reload after a 200 was
      for the candidate. After a refusal nginx serves nothing but what it served, what is on
      disk or the candidate - and not the candidate, unless others asked for a reload or the
      rollback is in doubt. Nothing turned out as it did but for what has failed. */
  ghost predicate Answers(v: bool, a: X.Scene, b: X.Scene, candidate: map<string, Content>,
                          reply: ApplyReply, o: ApplyOutcome) {
    && X.Tells(v, a, b, ApplyConfirmed(reply, o), reply.code != 200 && !ApplyRippled(reply, o),
               ApplyRippled(reply, o), ApplyTrouble(reply, o))
    && (if reply.code == 200 then X.Sent(a, b, candidate)
        else X.Tried(a, b, candidate) && X.Withdrawn(v, a, b, reply.error))
    && X.Paid(v, a, b, ApplyCost(o))
  }

  lemma IdleAnswers(v: bool, a: X.Scene, b: X.Scene, candidate: map<string, Content>,
                    reply: ApplyReply, o: ApplyOutcome)
    requires X.Idle(a, b) && X.Paid(v, a, b, ApplyCost(o)) && reply.code != 200
    requires reply.error.Some? ==> !reply.error.value.NginxRefused?
    ensures Answers(v, a, b, candidate, reply, o)
  {
    X.IdleTells(v, a, b, ApplyTrouble(reply, o), reply.error);
  }

  lemma LookAnswers(v: bool, a: X.Scene, b: X.Scene, c: X.Scene, candidate: map<string, Content>,
                    reply: ApplyReply, o: ApplyOutcome)
    requires X.Idle(a, b) && Answers(v, b, c, candidate, reply, o)
    ensures Answers(v, a, c, candidate, reply, o)
  {
    X.LookTells(v, a, b, c, ApplyConfirmed(reply, o), reply.code != 200 && !ApplyRippled(reply, o),
                ApplyRippled(reply, o), ApplyTrouble(reply, o));
    X.LookTried(v, a, b, c, candidate, reply.error);
  }

  /** A candidate that was taken back, or not, ... */
  lemma DeclinedAnswers(v: bool, a: X.Scene, b: X.Scene, candidate: map<string, Content>, end: Attempt,
                        reply: ApplyReply, o: ApplyOutcome)
    requires X.Landed(v, a, b, end) && !end.Confirmed? && (end.Undone? ==> b.routes == a.routes)
    requires X.Tried(a, b, candidate) && o == NO_CHANGE.(attempt := end)
    requires reply == Refusal(if end.Blocked? then Io else NginxRefused(RollbackOf(end)))
    ensures Answers(v, a, b, candidate, reply, o)
  {
    X.DeclinedTells(v, a, b, end, reply.error, !end.Blocked?);
  }

  /** ... and one that was confirmed in b, and what came after it. */
  lemma ConfirmedAnswers(v: bool, a: X.Scene, b: X.Scene, c: X.Scene, reply: ApplyReply, o: ApplyOutcome)
    requires X.Landed(v, a, b, Confirmed) && o.attempt.Confirmed? && X.InStep(v, b, c, SettleTrouble(o.settle))
    requires !Retracted(o.settle) ==> X.Holding(v, b, c) && (v ==> X.Owed(b, c))
    requires X.Paid(v, b, c, ApplyCost(o)) && reply.code == 200
    ensures Answers(v, a, c, b.routes, reply, o)
  {
    if !Retracted(o.settle) { X.ConfirmedHolds(v, a, b, c); }
    X.ConfirmedTells(v, a, b, c, !Retracted(o.settle), Retracted(o.settle), SettleTrouble(o.settle));
    X.ConfirmedPaid(v, a, b, c, ApplyCost(o));
  }

  /** What a reply to a sync says of nginx, as Answers does for an apply; in between it may
      serve any state of the swap. */
  ghost predicate SyncAnswers(v: bool, a: X.Scene, b: X.Scene, desired: map<string, Content>,
                              reply: SyncReply, o: SyncOutcome) {
    && X.Tells(v, a, b, SyncConfirmed(reply, o), reply.code != 200 && !SyncRippled(reply, o) && !Unswapped(reply.error),
               SyncRippled(reply, o), SyncTrouble(reply, o))
    && (if reply.code == 200 then X.Sent(a, b, desired)
        else X.ServingMix(a, b, desired) && X.Withdrawn(v, a, b, reply.error))
  }

  lemma IdleSynced(v: bool, a: X.Scene, b: X.Scene, desired: map<string, Content>, reply: SyncReply, o: SyncOutcome)
    requires X.Idle(a, b) && reply.code != 200
    requires reply.error.Some? ==> !reply.error.value.NginxRefused? && !reply.error.value.SwapFailed?
    ensures SyncAnswers(v, a, b, desired, reply, o)
  {
    X.IdleTells(v, a, b, SyncTrouble(reply, o), reply.error);
  }

  lemma LookSynced(v: bool, a: X.Scene, b: X.Scene, c: X.Scene, desired: map<string, Content>,
                   reply: SyncReply, o: SyncOutcome)
    requires X.Idle(a, b) && SyncAnswers(v, b, c, desired, reply, o)
    ensures SyncAnswers(v, a, c, desired, reply, o)
  {
    X.LookTells(v, a, b, c, SyncConfirmed(reply, o),
                reply.code != 200 && !SyncRippled(reply, o) && !Unswapped(reply.error),
                SyncRippled(reply, o), SyncTrouble(reply, o));
    X.LookTried(v, a, b, c, desired, reply.error);
  }

  lemma HaltedSynced(v: bool, a: X.Scene, b: X.Scene, desired: map<string, Content>, end: Attempt, swapped: bool,
                     req: SyncRequest, reply: SyncReply, o: SyncOutcome)
    requires X.Landed(v, a, b, end) && (end.Undone? || end.Stranded?) && (end.Undone? ==> b.routes == a.routes)
    requires X.ServingMix(a, b, desired) && (!swapped ==> X.Owed(a, b))
    requires reply == SyncRefusal(req, if swapped then NginxRefused(RollbackOf(end)) else SwapFailed(RollbackOf(end)))
    ensures SyncAnswers(v, a, b, desired, reply, o)
  {
    X.DeclinedTells(v, a, b, end, reply.error, swapped);
  }

  lemma ConfirmedSynced(v: bool, a: X.Scene, b: X.Scene, c: X.Scene, reply: SyncReply, o: SyncOutcome)
    requires X.Landed(v, a, b, Confirmed) && reply.code == 200 && o.Accepted? && X.InStep(v, b, c, Wavering(o.settles))
    requires Regained(o.settles) ==> c.Signalled() && (v ==> c.running == c.Conf())
    requires v && !AnyRetracted(o.settles) ==> X.Owed(b, c)
    ensures SyncAnswers(v, a, c, b.routes, reply, o)
  {
    X.ConfirmedTells(v, a, b, c, Regained(o.settles), AnyRetracted(o.settles), Wavering(o.settles));
  }

  /** What /status shows of the last sync: those whose swap was written. */
  function SyncEvent(reply: SyncReply, last: Option<Event>): Option<Event> {
    if reply.code == 200 then Some(Event(true, "sync-all", None))
    else if reply.error.Some? && reply.error.value.NginxRefused? then Some(Event(false, "sync-all", reply.error))
    else last
  }

  /** What /status shows of the last apply: requests that reached nginx. */
  function ApplyEvent(r: Route, reply: ApplyReply, last: Option<Event>): Option<Event> {
    var detail := if r.desired == Absent then "remove " + r.fqdn else r.fqdn;
    if reply.code == 200 then Some(Event(true, detail, None))
    else if reply.error.Some? && reply.error.value.NginxRefused? then Some(Event(false, detail, reply.error))
    else last
  }

  class Manager {
    const cfg: Config
    const world: World
    const nginx: N.Exec
    const store: S.Store
    const certbot: B.Provider
    var lastApply: Option<Event>
    var lastSync: Option<Event>

    constructor (c: Config, n: N.Exec, s: S.Store, b: B.Provider)
      requires n.Valid() && s.Valid() && n.world == s.world == b.world
      ensures Valid() && cfg == c && nginx == n && store == s && certbot == b && world == n.world
      ensures lastApply == None && lastSync == None
    {
      cfg, world, nginx, store, certbot := c, n.world, n, s, b;
      lastApply, lastSync := None, None;
    }

    ghost predicate Valid()
      reads nginx, store, world
    {
      && nginx.world == world && store.world == world && certbot.world == world
      && nginx.Valid() && store.Valid()
    }

    // ---- what nginx is left running: Scenes, since the call began ----

    ghost function Now(): X.Scene
      reads world`routes, world`receipt, world`running
      reads world`pending, world`outside, world`faults, world`signals
    {
      X.Scene(world.routes, world.receipt, world.running, world.pending, world.outside, world.faults, world.signals)
    }

    twostate predicate Idle() reads world { X.Idle(old(Now()), Now()) }

    twostate predicate Smooth() reads world { X.Smooth(nginx.verified, old(Now()), Now()) }

    twostate predicate Fair() reads world { X.Fair(nginx.verified, old(Now()), Now()) }

    twostate predicate Paid(cost: nat) reads world { X.Paid(nginx.verified, old(Now()), Now(), cost) }

    twostate predicate Owed() reads world { X.Owed(old(Now()), Now()) }

    twostate predicate Changed() reads world { X.Changed(old(Now()), Now()) }

    twostate predicate Tested(verdict: X.Verdict)
      reads world
    {
      X.Tested(nginx.verified, old(Now()), Now(), verdict)
    }

    twostate predicate TakenBack(a: Attempt, ambiguous: bool)
      reads world
    {
      X.TakenBack(nginx.verified, old(Now()), Now(), a, ambiguous)
    }

    twostate predicate Landed(a: Attempt) reads world { X.Landed(nginx.verified, old(Now()), Now(), a) }

    twostate predicate Tried(candidate: map<string, Content>) reads world { X.Tried(old(Now()), Now(), candidate) }

    twostate predicate Holding() reads world { X.Holding(nginx.verified, old(Now()), Now()) }

    twostate predicate InStep(trouble: bool) reads world { X.InStep(nginx.verified, old(Now()), Now(), trouble) }

    // ---- test, reload, roll back ----

    /** testAndReload: only when the receipt of this very test is answered has it passed;
        nginx then runs exactly what is on disk. */
    method TestAndReload() returns (v: X.Verdict, out: string)
      requires Valid()
      modifies nginx`proofURI, nginx`proofExpected
      modifies world`receipt, world`others, world`used, world`approved, world`signals, world`wait
      modifies world`running, world`pending, world`outside, world`history, world`faults
      ensures Valid() && world.Atomic() && Tested(v) && (v.Passed? && nginx.verified ==> N.Vouched(world.running))
    {
      hide DirStream;
      out :| true;
      var tested := nginx.Test();
      if !tested {
        return X.TestFailed, out;
      }
      var reloaded := nginx.Reload();
      if !reloaded {
        return X.ReloadFailed, out + "\nreload failed";
      }
      v := X.Passed;
    }

    /** restoreAfterFailure, once the files have been put back or not: an ambiguous reload
        is answered by proving the old configuration again. */
    method RestoreAfterFailure(restored: bool, detail: string, ambiguous: bool) returns (a: Attempt, out: string)
      requires Valid()
      modifies nginx`proofURI, nginx`proofExpected
      modifies world`receipt, world`others, world`used, world`approved, world`signals, world`wait
      modifies world`running, world`pending, world`outside, world`history, world`faults
      ensures Valid() && world.Atomic() && world.Serving(world.routes)
      ensures if restored then TakenBack(a, ambiguous) && a == Undone(a.Undone? && a.confirmed)
              else a == Stranded && unchanged(world)
    {
      hide X.Tested, X.TakenBack;
      if !restored {
        return Stranded, detail + "\nrollback files failed";
      }
      X.StillTaken(nginx.verified, Now());
      if ambiguous {
        ghost var n := Now();
        var again, text := TestAndReload();
        X.TestedRoutes(nginx.verified, n, Now(), again);
        X.AgainTaken(nginx.verified, n, Now(), again);
        if !again.Passed? {
          return Undone(false), detail + "\nrollback reload unconfirmed: " + text;
        }
      }
      a, out := Undone(true), detail;
    }

    /** The file as it is before a change. */
    method Backup(name: string) returns (backup: Option<Content>, ok: bool)
      requires Valid() && IsRouteName(name)
      modifies world`running, world`pending, world`outside, world`history, world`faults
      ensures Valid() && Idle() && world.Atomic() && (!ok ==> old(world.faults) < world.faults)
      ensures backup == if ok && name in world.routes then Some(world.routes[name]) else None
    {
      backup, ok := ReadFileMaybe(world, name);
    }

    /** The candidate takes its place. */
    method Write(name: string, content: Content) returns (ok: bool)
      requires Valid() && IsRouteName(name)
      modifies world`routes, world`others, world`running, world`pending, world`outside, world`history, world`faults
      ensures Valid() && Changed() && world.Adopted() && world.Atomic() && (!ok ==> old(world.faults) < world.faults)
      ensures world.routes == if ok then old(world.routes)[name := content] else old(world.routes)
    {
      ok := WriteFile(world, name, content);
    }

    /** The candidate goes. */
    method Remove(name: string) returns (ok: bool)
      requires Valid() && IsRouteName(name)
      modifies world`routes, world`running, world`pending, world`outside, world`history, world`faults
      ensures Valid() && Changed() && world.Adopted() && world.Atomic() && (!ok ==> old(world.faults) < world.faults)
      ensures world.routes == if ok then old(world.routes) - {name} else old(world.routes)
    {
      var removed, missing := world.RemoveRoute(name);
      ok := removed || missing;
    }

    /** A file is put back. */
    method PutBack(name: string, backup: Option<Content>) returns (ok: bool)
      requires Valid() && IsRouteName(name)
      modifies world`routes, world`others, world`running, world`pending, world`outside, world`history, world`faults
      ensures Valid() && Changed() && world.Adopted() && world.Atomic() && (!ok ==> old(world.faults) < world.faults)
      ensures world.routes == if ok then Restored(old(world.routes), name, backup) else old(world.routes)
    {
      ok := RestoreFile(world, name, backup);
    }

    /** A candidate file is on disk: have nginx adopt it, or put the backup back. */
    method CommitFile(name: string, backup: Option<Content>) returns (a: Attempt, out: string)
      requires Valid() && IsRouteName(name)
      modifies nginx`proofURI, nginx`proofExpected
      modifies world`routes, world`receipt, world`others, world`used, world`approved, world`signals, world`wait
      modifies world`running, world`pending, world`outside, world`history, world`faults
      ensures Valid() && world.Atomic() && Landed(a) && !a.Blocked? && Tried(old(world.routes))
      ensures world.routes == if a.Undone? then Restored(old(world.routes), name, backup) else old(world.routes)
    {
      hide Valid, X.Changed, X.Tested, X.TakenBack, X.Landed, X.Tried, Restored, IsRouteName;
      ghost var n0 := Now();
      X.ChangedSelf(n0);
      var v, text := TestAndReload();
      ghost var n1 := Now();
      X.TestedRoutes(nginx.verified, n0, n1, v);
      if v.Passed? {
        X.LandPassed(nginx.verified, n0, n0, n1);
        return Confirmed, text;
      }
      a, out := TakeBack(name, backup, text, v.ReloadFailed?);
      X.LandFailed(nginx.verified, n0, n0, n1, Now(), v, a);
    }

    /** A candidate failed: the file is put back, and an ambiguous reload answered. */
    method TakeBack(name: string, backup: Option<Content>, detail: string, ambiguous: bool)
      returns (a: Attempt, out: string)
      requires Valid() && IsRouteName(name)
      modifies nginx`proofURI, nginx`proofExpected
      modifies world`routes, world`receipt, world`others, world`used, world`approved, world`signals, world`wait
      modifies world`running, world`pending, world`outside, world`history, world`faults
      ensures Valid() && world.Atomic() && TakenBack(a, ambiguous) && Tried(old(world.routes))
      ensures a == if a.Undone? then Undone(a.confirmed) else Stranded
      ensures world.routes == if a.Undone? then Restored(old(world.routes), name, backup) else old(world.routes)
    {
      hide Valid, X.TakenBack, IsRouteName, Restored;
      ghost var n0 := Now();
      var restored := PutBack(name, backup);
      ghost var n1 := Now();
      a, out := RestoreAfterFailure(restored, detail, ambiguous);
      if restored {
        X.BackWritten(nginx.verified, n0, n1, Now(), a, ambiguous);
      } else {
        X.BackFailed(nginx.verified, n0, n1, ambiguous);
      }
      X.BackTried(n0, n1, Now());
    }

    // ---- certificates ----

    /** Since the call began only files have moved, from what they were to the candidate or
        to what they are. */
    twostate predicate Offering(candidate: map<string, Content>)
      reads world
    {
      && old(world.history) <= world.history
      && Offered(old(world.View()), candidate, world.history, |old(world.history)|, world.View())
    }

    /** Every state since the call began is a point of pruning f's certificate. */
    twostate predicate Pruning(f: string)
      reads world
    {
      && old(world.history) <= world.history
      && PruneTraced(old(world.View()), f, world.history, |old(world.history)|, world.View())
    }

    /** ... of settling r's certificate. */
    twostate predicate Settling(r: Route, pair: CertPair, ready: bool)
      reads world
    {
      && old(world.history) <= world.history
      && SettleTraced(cfg, old(world.View()), r, pair, ready, world.history, |old(world.history)|, world.View())
    }

    /** The certificate state of f is written: the memory has moved, the file may have. */
    twostate predicate Marking(f: string, cert: CertState, error: string)
      reads world
    {
      && old(world.history) <= world.history
      && forall i | |old(world.history)| <= i < |world.history| ::
           || world.history[i] == SetCert(old(world.View()), f, cert, error, false)
           || world.history[i] == SetCert(old(world.View()), f, cert, error, true)
    }

    /** store.SetCert, as every caller uses it: the error is dropped. */
    method Mark(f: string, cert: CertState, error: string) returns (ghost stored: bool)
      requires Valid()
      modifies store`entries, world`memory, world`saved, world`running
      modifies world`pending, world`outside, world`history, world`faults
      ensures Valid() && world.Waited() && Marking(f, cert, error)
      ensures world.View() == SetCert(old(world.View()), f, cert, error, stored)
      ensures !stored ==> old(world.faults) < world.faults
    {
      stored := store.SetCert(f, cert, error);
    }

    /** pruneCert: called for a name whose vhost is off disk, no longer served by a
        confirmed nginx and not present in the store - never earlier. */
    method PruneCert(f: string) returns (ghost o: PruneOutcome)
      requires Valid() && FileName(f) !in world.routes && !EntryAt(world.memory, f).present
      requires nginx.verified ==> FileName(f) !in world.running.routes
      modifies store`entries, world`certs, world`lineages
      modifies world`memory, world`saved, world`running, world`pending, world`outside, world`history, world`faults
      ensures Valid() && world.Waited() && Pruning(f)
      ensures world.View() == PruneNext(old(world.View()), f, o)
      ensures old(world.faults) + PruneCost(o) <= world.faults
    {
      ghost var s, from := world.View(), |world.history|;
      o := Deleted;
      if !certbot.LineageExists(f) {
        return;
      }
      var err, certLeft, lineageLeft := certbot.Delete(f);
      ghost var m, past := world.View(), world.history;
      PruneDeleted(s, f, old(world.history), past, m);
      if err.Some? {
        ghost var stored := Mark(f, CertFailed, err.value);
        PruneNoted(s, f, past, from, m, world.history, err.value, stored);
        o := DeleteFailed(certLeft, lineageLeft, err.value, stored);
      }
    }

    /** Write a vhost and have nginx adopt it, or put the backup back: the part Apply and
        settleCert have in common. */
    method Serve(r: Route, pair: CertPair, ready: bool, v: Vhost, backup: Option<Content>)
      returns (a: Attempt, out: string)
      requires Valid() && IsRouteName(FileName(r.fqdn))
      requires RenderVhost(cfg, r, pair, ready) == Success(v)
      requires ready && !IsPlatform(r.certRef) ==> r.fqdn in world.certs
      requires backup.Some? ==> FileName(r.fqdn) in world.routes && world.routes[FileName(r.fqdn)] == backup.value
      modifies nginx`proofURI, nginx`proofExpected
      modifies world`routes, world`receipt, world`others, world`used, world`approved, world`signals, world`wait
      modifies world`running, world`pending, world`outside, world`history, world`faults
      ensures Valid() && Landed(a)
      ensures var candidate := old(world.routes)[FileName(r.fqdn) := Site(v)]; Tried(candidate) && Offering(candidate)
      ensures world.routes == match a
        case Blocked => old(world.routes)
        case Undone(_) => if backup.Some? then old(world.routes) else old(world.routes) - {FileName(r.fqdn)}
        case _ => old(world.routes)[FileName(r.fqdn) := Site(v)]
    {
      hide Valid, RenderVhost, IsRouteName, X.Changed, X.Landed, X.Tried;
      var fn := FileName(r.fqdn);
      ghost var s, n0 := world.View(), Now();
      var wrote := Write(fn, Site(v));
      ghost var n1 := Now();
      if !wrote {
        X.LandUnwritten(nginx.verified, n0, n1);
        return Blocked, "write failed";
      }
      RestoredBack(s.files, fn, Site(v), backup);
      a, out := CommitFile(fn, backup);
      X.LandWritten(nginx.verified, n0, n1, Now(), a);
    }

    /** The certificate is there: replace the challenge vhost by the HTTPS one. A backup
        that cannot be read is taken for a missing file. */
    method Upgrade(r: Route, pair: CertPair, v: Vhost)
      returns (a: Attempt, ghost readable: bool, out: string)
      requires Valid() && Hostname(r.fqdn) && r.fqdn in world.certs
      requires RenderVhost(cfg, r, pair, true) == Success(v)
      modifies nginx`proofURI, nginx`proofExpected
      modifies world`routes, world`receipt, world`others, world`used, world`approved, world`signals, world`wait
      modifies world`running, world`pending, world`outside, world`history, world`faults
      ensures Valid() && Offering(old(world.routes)[FileName(r.fqdn) := Site(v)])
      ensures (a.Blocked? || (a.Confirmed? && nginx.verified) ==> Owed())
      ensures a.Blocked? || a.Confirmed? ==> Holding()
      ensures a.Confirmed? ==> world.Signalled()
      ensures InStep(a.Stranded? || (a.Undone? && (!a.confirmed || !readable)))
      ensures nginx.verified && a.Confirmed? ==> world.running == world.Conf()
      ensures Paid(Cost(a) + One(!readable))
      ensures world.routes == match a
        case Blocked => old(world.routes)
        case Undone(_) => if readable then old(world.routes) else old(world.routes) - {FileName(r.fqdn)}
        case _ => old(world.routes)[FileName(r.fqdn) := Site(v)]
    {
      hide Valid, RenderVhost, Hostname, IsRouteName;
      var fn := FileName(r.fqdn);
      ReservedNames(r.fqdn, "");
      ghost var s := world.View();
      var backup, read := Backup(fn);
      readable := read;
      a, out := Serve(r, pair, true, v, backup);
      assert fn !in s.files ==> s.files - {fn} == s.files;
    }

    /** settleCert: certificate first, then the upgrade; what came of it is the name's
        certificate state, and never fails the request. */
    method SettleCert(r: Route, pair: CertPair, ready: bool) returns (ghost o: SettleOutcome)
      requires Valid() && Hostname(r.fqdn)
      modifies nginx`proofURI, nginx`proofExpected, store`entries
      modifies world`routes, world`receipt, world`others, world`used, world`approved, world`signals, world`wait
      modifies world`certs, world`lineages, world`memory, world`saved
      modifies world`running, world`pending, world`outside, world`history, world`faults
      ensures Valid() && Settling(r, pair, ready)
      ensures world.View() == SettleNext(cfg, old(world.View()), r, pair, ready, o)
      ensures InStep(SettleTrouble(o)) && (!Retracted(o) ==> Holding() && (nginx.verified ==> Owed()))
      ensures !ready && Upgraded(o) ==> world.Signalled() && (nginx.verified ==> world.running == world.Conf())
      ensures RenderVhost(cfg, r, pair, true).Success? ==> Paid(SettleCost(o))
    {
      hide Valid, SettleTraced, SettlePoint, SettleNext, RenderVhost, Hostname;
      ghost var s, from := world.View(), |world.history|;
      var cert, text := CertOK, "";
      o := NO_SETTLE;
      SettleBegin(cfg, s, r, pair, ready, world.history);
      if !ready {
        cert, text, o := Issue(r, pair);
      }
      ghost var m, past := world.View(), world.history;
      ghost var stored := Mark(r.fqdn, cert, text);
      SettleNoted(cfg, s, r, pair, ready, past, from, m, world.history, cert, text, stored);
      o := o.(stored := stored);
      SettleReady(cfg, s, r, pair, o);
    }

    /** certbot.Ensure, step by step. */
    method Obtain(f: string) returns (err: Option<string>, ghost issue: Issue)
      requires Valid()
      modifies world`certs, world`lineages, world`running, world`pending, world`outside, world`history, world`faults
      ensures Valid() && world.Waited() && world.Issuing(f)
      ensures world.View() == Ensured(old(world.View()), f, issue) && CertsCame(old(world.View()), f, world.View())
      ensures (err.None? <==> issue.Issued?) && (err.Some? ==> old(world.faults) < world.faults)
      ensures err.None? ==> f in world.certs
    {
      err, issue := certbot.Ensure(f);
    }

    /** The part of settleCert that waits for certbot and nginx. */
    method Issue(r: Route, pair: CertPair) returns (cert: CertState, text: string, ghost o: SettleOutcome)
      requires Valid() && Hostname(r.fqdn)
      modifies nginx`proofURI, nginx`proofExpected
      modifies world`routes, world`receipt, world`others, world`used, world`approved, world`signals, world`wait
      modifies world`certs, world`lineages
      modifies world`running, world`pending, world`outside, world`history, world`faults
      ensures Valid() && Settling(r, pair, false)
      ensures StoreKept(old(world.View()), world.View())
      ensures SettlePoint(cfg, old(world.View()), r, pair, false, world.View())
      ensures cert == CertFailed || (cert == CertOK && text == "")
      ensures cert == CertOK ==> Replacing(cfg, old(world.View()), r, pair, world.View())
      ensures forall stored: bool :: SettleNext(cfg, old(world.View()), r, pair, false, o.(stored := stored)) ==
                SetCert(world.View(), r.fqdn, cert, text, stored)
      ensures InStep(SettleTrouble(o)) && (!Retracted(o) ==> Holding() && (nginx.verified ==> Owed()))
      ensures Upgraded(o) ==> world.Signalled() && (nginx.verified ==> world.running == world.Conf())
      ensures RenderVhost(cfg, r, pair, true).Success? ==> Paid(SettleCost(o.(stored := true)))
    {
      hide Valid, SettleTraced, RenderVhost, Hostname, SettleNext;
      var f := r.fqdn;
      ghost var s, from := world.View(), |world.history|;
      var err, issue := Obtain(f);
      ghost var m, past := world.View(), world.history;
      SettleIssued(cfg, s, r, pair, old(world.history), past, m);
      var rendered := RenderVhost(cfg, r, pair, true);
      cert := CertFailed;
      if err.Some? || rendered.Failure? {
        text := if err.Some? then err.value else "not renderable";
        o := SettleOutcome(issue, true, Blocked, text, false);
        SettleStops(cfg, s, r, pair, o);
        return;
      }
      var upgrade, readable, out := Upgrade(r, pair, rendered.value);
      SettleOffered(cfg, s, r, pair, rendered.value, past, from, m, world.history, world.View());
      cert, text := if upgrade.Confirmed? then CertOK else CertFailed, if upgrade.Confirmed? then "" else out;
      o := SettleOutcome(issue, readable, upgrade, text, false);
      SettleUpgrades(cfg, s, r, pair, o, world.View());
    }

    /** Status handles GET /status: what the store holds, even in the middle of a mutation. */
    method Status() returns (response: StatusResponse)
      requires Valid()
      ensures Reported(world.memory.entries, response.routes, response.certs)
      ensures response.lastApply == lastApply && response.lastSync == lastSync
      ensures response.health == "ok" && response.capabilities == ["source-acl-v1"]
    {
      var routes, certs := StatusLists(store.entries);
      response := StatusResponse([P.CAPABILITY], "ok", lastApply, lastSync, routes, certs);
    }

    // ---- POST /apply ----

    /** Every state since the call began is a point of this apply, and what /status shows
        along the way never goes back. */
    twostate predicate Crossed(r: Route)
      reads world
    {
      && old(world.history) <= world.history
      && ApplyTraced(cfg, old(world.View()), r, world.history, |old(world.history)|, world.View())
    }

    twostate predicate Answered(candidate: map<string, Content>, reply: ApplyReply, o: ApplyOutcome)
      reads world
    {
      Answers(nginx.verified, old(Now()), Now(), candidate, reply, o)
    }

    /** The entry of f is written: the memory has moved, the file may have. */
    twostate predicate Entering(f: string, e: Entry)
      reads world
    {
      && old(world.history) <= world.history
      && forall i | |old(world.history)| <= i < |world.history| ::
           || world.history[i] == Record(old(world.View()), f, e, false)
           || world.history[i] == Record(old(world.View()), f, e, true)
    }

    /** store.Record, as Apply uses it: the error is dropped. */
    method Enter(f: string, e: Entry) returns (ghost stored: bool)
      requires Valid() && (f in world.memory.entries ==> world.memory.entries[f].generation <= e.generation)
      modifies store`entries, world`memory, world`saved, world`running
      modifies world`pending, world`outside, world`history, world`faults
      ensures Valid() && world.Waited() && Entering(f, e)
      ensures world.View() == Record(old(world.View()), f, e, stored)
      ensures !stored ==> old(world.faults) < world.faults
    {
      stored := store.Record(f, e);
    }

    /** Apply handles POST /apply. Whatever fails, the agent ends in the state and with
        the reply of ApplyNext, passes only through points of the request,
        and leaves a quiet nginx running what is on disk unless the reply or the
        certificate state tells of a rollback that failed or was not confirmed. */
    method Apply(r: Route) returns (reply: ApplyReply, ghost o: ApplyOutcome)
      requires Valid()
      modifies this`lastApply, nginx`proofURI, nginx`proofExpected, store`entries
      modifies world`routes, world`receipt, world`others, world`used, world`approved, world`signals, world`wait
      modifies world`certs, world`lineages, world`memory, world`saved
      modifies world`running, world`pending, world`outside, world`history, world`faults
      ensures Valid() && Crossed(r)
      ensures Stale(old(world.memory), r) || Validate(cfg, r).Some? ==> world.history == old(world.history)
      ensures (world.View(), reply) == ApplyNext(cfg, old(world.View()), r, o)
      ensures Answered(Candidate(cfg, old(world.View()), r), reply, o)
      ensures Smooth() && ValidRequest(cfg, r) && !Stale(old(world.memory), r) ==>
                reply.code == 200 && LocalOf(world.View(), r.fqdn) == Goal(cfg, r)
      ensures Fair() ==> !ApplyTrouble(reply, o) && (reply.code != 200 ==> world.View() == old(world.View()))
      ensures reply.code != 200 && !FilesLost(reply.error) ==> world.View() == old(world.View())
      ensures var entries := old(world.memory).entries;
              && (reply.code == 409 <==> r.fqdn in entries && r.generation <= entries[r.fqdn].generation)
              && (reply.code == 409 ==> reply == ApplyReply(409, false, entries[r.fqdn].generation, None))
      ensures reply.code == 200 ==>
                reply == ApplyReply(200, true, r.generation, None) && r.fqdn in world.memory.entries
                && world.memory.entries[r.fqdn].generation == r.generation
      ensures var detail := if r.desired == Absent then "remove " + r.fqdn else r.fqdn;
              lastApply == if reply.code == 200 then Some(Event(true, detail, None))
                           else if reply.error.Some? && reply.error.value.NginxRefused?
                             then Some(Event(false, detail, reply.error))
                           else old(lastApply)
    {
      hide ApplyTraced, Validate, RemoveNext, ServeNext;
      o := NO_CHANGE;
      ApplyLooked(cfg, world.View(), r, world.history, world.history);
      var applied := store.Generation(r.fqdn);
      if applied.Some? && r.generation <= applied.value {
        return ApplyReply(409, false, applied.value, None), o;
      }
      var invalid := Validate(cfg, r);
      if invalid.Some? {
        return Refusal(Rejected(invalid.value)), o;
      }
      ghost var s := world.View();
      reply, o := Change(r);
      ApplyRefused(cfg, s, r, o);
      FairApply(cfg, s, r, o);
      Replies.ApplyReplies(cfg, s, r, o);
      CleanReply(cfg, s, r, o);
    }

    /** Apply, once the request is known to be newer and valid. */
    method Change(r: Route) returns (reply: ApplyReply, ghost o: ApplyOutcome)
      requires Valid() && !Stale(world.memory, r) && Validate(cfg, r).None?
      modifies this`lastApply, nginx`proofURI, nginx`proofExpected, store`entries
      modifies world`routes, world`receipt, world`others, world`used, world`approved, world`signals, world`wait
      modifies world`certs, world`lineages, world`memory, world`saved
      modifies world`running, world`pending, world`outside, world`history, world`faults
      ensures Valid() && Crossed(r)
      ensures (world.View(), reply) == ApplyNext(cfg, old(world.View()), r, o)
      ensures Answered(Candidate(cfg, old(world.View()), r), reply, o)
      ensures lastApply == ApplyEvent(r, reply, old(lastApply))
    {
      hide Valid, ApplyTraced, Leq, Validate, RemoveNext, ServeNext, ApplyNext, Candidate, CleanApply, Stale;
      ValidateName(cfg, r);
      MutationNext(cfg, world.View(), r);
      hide X.Idle, Answers;
      ghost var s, from, n0 := world.View(), |world.history|, Now();
      var backup, read := Backup(FileName(r.fqdn));
      ghost var past, n1 := world.history, Now();
      ApplyLooked(cfg, s, r, old(world.history), past);
      if !read {
        o := NO_CHANGE.(attempt := Blocked);
        BlockedNext(cfg, s, r, o);
        IdleAnswers(nginx.verified, n0, n1, Candidate(cfg, s, r), Refusal(Io), o);
        return Refusal(Io), o;
      }
      if r.desired == Absent {
        reply, o := ApplyAbsent(r, backup);
      } else {
        reply, o := ApplyPresent(r, backup);
      }
      LookAnswers(nginx.verified, n0, n1, Now(), Candidate(cfg, s, r), reply, o);
      ApplyIsLater(cfg, s, r, o);
      ApplyAfterLook(cfg, s, r, past, from, world.history, world.View());
    }

    /** A confirmed removal, begun in state s, is recorded, then its certificate pruned. */
    method Retire(r: Route, ghost s: Sys, ghost from: nat) returns (ghost stored: bool, ghost prune: PruneOutcome)
      requires Valid() && r.desired == Absent && !Stale(s.memory, r) && Validate(cfg, r).None?
      requires world.View() == s.(files := Candidate(cfg, s, r)) && from <= |world.history|
      requires ApplyTraced(cfg, s, r, world.history, from, world.View())
      requires FileName(r.fqdn) !in world.routes && (nginx.verified ==> FileName(r.fqdn) !in world.running.routes)
      modifies store`entries, world`certs, world`lineages
      modifies world`memory, world`saved, world`running, world`pending, world`outside, world`history, world`faults
      ensures Valid() && Idle() && old(world.history) <= world.history
      ensures ApplyTraced(cfg, s, r, world.history, from, world.View())
      ensures world.View() == PruneNext(Record(old(world.View()), r.fqdn, EntryOf(r), stored), r.fqdn, prune)
      ensures old(world.faults) + One(!stored) + PruneCost(prune) <= world.faults
    {
      hide ApplyTraced, PruneTraced, PrunePoint, PruneNext, Candidate, Validate;
      ghost var past := world.history;
      stored := Enter(r.fqdn, EntryOf(r));
      EnteredSelf(cfg, s, r);
      ApplyEntered(cfg, s, r, past, from, world.history, stored);
      past := world.history;
      prune := PruneCert(r.fqdn);
      PruneIsPoint(Entered(cfg, s, r, stored), r.fqdn, prune);
      ApplyPruned(cfg, s, r, stored, past, from, world.history, world.View());
    }

    /** Remove a vhost and have nginx drop it, or put the backup back. */
    method Unserve(f: string, backup: Option<Content>) returns (a: Attempt, out: string)
      requires Valid() && IsRouteName(FileName(f))
      requires backup == if FileName(f) in world.routes then Some(world.routes[FileName(f)]) else None
      modifies nginx`proofURI, nginx`proofExpected
      modifies world`routes, world`receipt, world`others, world`used, world`approved, world`signals, world`wait
      modifies world`running, world`pending, world`outside, world`history, world`faults
      ensures Valid() && Landed(a)
      ensures Tried(old(world.routes) - {FileName(f)}) && Offering(old(world.routes) - {FileName(f)})
      ensures world.routes ==
                if a.Confirmed? || a.Stranded? then old(world.routes) - {FileName(f)} else old(world.routes)
    {
      hide Valid, IsRouteName, X.Changed, X.Landed, X.Tried;
      var fn := FileName(f);
      ghost var s, n0 := world.View(), Now();
      var removed := Remove(fn);
      ghost var n1 := Now();
      if !removed {
        X.LandUnwritten(nginx.verified, n0, n1);
        return Blocked, "remove failed";
      }
      RestoredGone(s.files, fn, backup);
      a, out := CommitFile(fn, backup);
      X.LandWritten(nginx.verified, n0, n1, Now(), a);
    }

    /** A change that came to nothing; /status shows it if nginx was asked. */
    method Decline(detail: string, attempt: Attempt) returns (reply: ApplyReply)
      requires !attempt.Confirmed?
      modifies this`lastApply
      ensures reply == Refusal(if attempt.Blocked? then Io else NginxRefused(RollbackOf(attempt)))
      ensures lastApply == if attempt.Blocked? then old(lastApply) else Some(Event(false, detail, reply.error))
    {
      if attempt.Blocked? {
        return Refusal(Io);
      }
      var error := NginxRefused(RollbackOf(attempt));
      lastApply := Some(Event(false, detail, Some(error)));
      reply := Refusal(error);
    }

    /** The ABSENT half of Apply. */
    method ApplyAbsent(r: Route, backup: Option<Content>) returns (reply: ApplyReply, ghost o: ApplyOutcome)
      requires Valid() && IsRouteName(FileName(r.fqdn)) && !Stale(world.memory, r) && r.desired == Absent
      requires Validate(cfg, r).None?
      requires backup == if FileName(r.fqdn) in world.routes then Some(world.routes[FileName(r.fqdn)]) else None
      modifies this`lastApply, nginx`proofURI, nginx`proofExpected, store`entries
      modifies world`routes, world`receipt, world`others, world`used, world`approved, world`signals, world`wait
      modifies world`certs, world`lineages, world`memory, world`saved
      modifies world`running, world`pending, world`outside, world`history, world`faults
      ensures Valid() && Crossed(r)
      ensures (world.View(), reply) == RemoveNext(old(world.View()), r, o)
      ensures Answered(Candidate(cfg, old(world.View()), r), reply, o)
      ensures lastApply == ApplyEvent(r, reply, old(lastApply))
    {
      hide Valid, ApplyTraced, Offered, IsRouteName, PruneNext, Record, Validate;
      var f, g := r.fqdn, r.generation;
      hide X.Landed, X.Idle, X.Tried, X.Holding, X.InStep, X.Owed, X.Steady, Answers;
      ghost var s, from, n0 := world.View(), |world.history|, Now();
      var attempt, text := Unserve(f, backup);
      ghost var n1 := Now();
      ApplyOffered(cfg, s, r, old(world.history), world.history, world.View());
      o := NO_CHANGE.(attempt := attempt);
      if !attempt.Confirmed? {
        reply := Decline("remove " + f, attempt);
        DeclinedAnswers(nginx.verified, n0, n1, Candidate(cfg, s, r), attempt, reply, o);
        return;
      }
      X.ConfirmedRuns(nginx.verified, n0, n1);
      ghost var stored, prune := Retire(r, s, from);
      lastApply := Some(Event(true, "remove " + f, None));
      reply, o := ApplyReply(200, true, g, None), o.(stored := stored, prune := prune);
      X.IdleSteady(nginx.verified, n1, Now());
      ConfirmedAnswers(nginx.verified, n0, n1, Now(), reply, o);
    }

    /** A confirmed vhost, offered in state s, is recorded, then its certificate settled. */
    method Adopt(r: Route, pair: CertPair, ready: bool, ghost s: Sys, ghost from: nat)
      returns (ghost stored: bool, ghost settle: SettleOutcome)
      requires Valid() && Hostname(r.fqdn) && r.desired != Absent && !Stale(s.memory, r) && Validate(cfg, r).None?
      requires CertPaths(cfg, r) == Success(pair) && ready == CertReady(s, r)
      requires RenderVhost(cfg, r, pair, ready).Success?
      requires world.View() == s.(files := Candidate(cfg, s, r)) && from <= |world.history|
      requires ApplyTraced(cfg, s, r, world.history, from, world.View())
      modifies nginx`proofURI, nginx`proofExpected, store`entries
      modifies world`routes, world`receipt, world`others, world`used, world`approved, world`signals, world`wait
      modifies world`certs, world`lineages, world`memory, world`saved
      modifies world`running, world`pending, world`outside, world`history, world`faults
      ensures Valid() && old(world.history) <= world.history && InStep(SettleTrouble(settle))
      ensures ApplyTraced(cfg, s, r, world.history, from, world.View())
      ensures !Retracted(settle) ==> Holding() && (nginx.verified ==> Owed())
      ensures Paid(One(!stored) + SettleCost(settle))
      ensures var s1 := Record(old(world.View()), r.fqdn, EntryOf(r), stored);
              world.View() == if IsPlatform(r.certRef) then s1 else SettleNext(cfg, s1, r, pair, ready, settle)
    {
      hide ApplyTraced, SettleTraced, SettlePoint, SettleNext, Hostname, Candidate, Validate, RenderVhost, CertPaths;
      ghost var past := world.history;
      stored := Enter(r.fqdn, EntryOf(r));
      EnteredSelf(cfg, s, r);
      ApplyEntered(cfg, s, r, past, from, world.history, stored);
      settle := NO_SETTLE;
      if !IsPlatform(r.certRef) {
        past := world.history;
        RenderAgain(cfg, r, pair, ready);
        settle := SettleCert(r, pair, ready);
        SettleIsPoint(cfg, Entered(cfg, s, r, stored), r, pair, ready, settle);
        ApplySettled(cfg, s, r, stored, past, from, world.history, world.View());
      }
    }

    /** The PRESENT half of Apply. */
    method ApplyPresent(r: Route, backup: Option<Content>) returns (reply: ApplyReply, ghost o: ApplyOutcome)
      requires Valid() && Hostname(r.fqdn) && !Stale(world.memory, r) && r.desired != Absent
      requires Validate(cfg, r).None?
      requires backup == if FileName(r.fqdn) in world.routes then Some(world.routes[FileName(r.fqdn)]) else None
      modifies this`lastApply, nginx`proofURI, nginx`proofExpected, store`entries
      modifies world`routes, world`receipt, world`others, world`used, world`approved, world`signals, world`wait
      modifies world`certs, world`lineages, world`memory, world`saved
      modifies world`running, world`pending, world`outside, world`history, world`faults
      ensures Valid() && Crossed(r)
      ensures (world.View(), reply) == ServeNext(cfg, old(world.View()), r, o)
      ensures Answered(Candidate(cfg, old(world.View()), r), reply, o)
      ensures lastApply == ApplyEvent(r, reply, old(lastApply))
    {
      hide ApplyTraced, Validate, Hostname, RenderVhost, SettleNext, Record;
      o := NO_CHANGE;
      ApplyLooked(cfg, world.View(), r, world.history, world.history);
      var paths := CertPaths(cfg, r);
      if paths.Failure? {
        return Refusal(Rejected(paths.error)), o;
      }
      var ready := IsPlatform(r.certRef) || certbot.Exists(r.fqdn);
      var rendered := RenderVhost(cfg, r, paths.value, ready);
      if rendered.Failure? {
        return Refusal(Rejected(rendered.error)), o;
      }
      reply, o := Publish(r, paths.value, ready, rendered.value, backup);
    }

    /** The rendered vhost is served, or things are as they were. */
    method Offer(r: Route, pair: CertPair, ready: bool, v: Vhost, backup: Option<Content>)
      returns (a: Attempt, out: string)
      requires Valid() && Hostname(r.fqdn) && !Stale(world.memory, r) && r.desired != Absent
      requires Validate(cfg, r).None?
      requires backup == if FileName(r.fqdn) in world.routes then Some(world.routes[FileName(r.fqdn)]) else None
      requires CertPaths(cfg, r) == Success(pair) && ready == CertReady(world.View(), r)
      requires RenderVhost(cfg, r, pair, ready) == Success(v)
      modifies nginx`proofURI, nginx`proofExpected
      modifies world`routes, world`receipt, world`others, world`used, world`approved, world`signals, world`wait
      modifies world`running, world`pending, world`outside, world`history, world`faults
      ensures Valid() && Crossed(r) && Landed(a) && Tried(Candidate(cfg, old(world.View()), r))
      ensures world.routes ==
                if a.Confirmed? || a.Stranded? then Candidate(cfg, old(world.View()), r) else old(world.routes)
    {
      hide Valid, ApplyTraced, Offered, Validate, Hostname, IsRouteName, RenderVhost, CertPaths, Candidate, Stale;
      ReservedNames(r.fqdn, "");
      ghost var s := world.View();
      CandidateSite(cfg, s, r, pair, v);
      a, out := Serve(r, pair, ready, v, backup);
      assert FileName(r.fqdn) !in s.files ==> s.files - {FileName(r.fqdn)} == s.files;
      ApplyOffered(cfg, s, r, old(world.history), world.history, world.View());
    }

    /** The rest of it, from writing the rendered vhost. */
    method Publish(r: Route, pair: CertPair, ready: bool, v: Vhost, backup: Option<Content>)
      returns (reply: ApplyReply, ghost o: ApplyOutcome)
      requires Valid() && Hostname(r.fqdn) && !Stale(world.memory, r) && r.desired != Absent
      requires Validate(cfg, r).None?
      requires backup == if FileName(r.fqdn) in world.routes then Some(world.routes[FileName(r.fqdn)]) else None
      requires CertPaths(cfg, r) == Success(pair) && ready == CertReady(world.View(), r)
      requires RenderVhost(cfg, r, pair, ready) == Success(v)
      modifies this`lastApply, nginx`proofURI, nginx`proofExpected, store`entries
      modifies world`routes, world`receipt, world`others, world`used, world`approved, world`signals, world`wait
      modifies world`certs, world`lineages, world`memory, world`saved
      modifies world`running, world`pending, world`outside, world`history, world`faults
      ensures Valid() && Crossed(r)
      ensures (world.View(), reply) == ServeNext(cfg, old(world.View()), r, o)
      ensures Answered(Candidate(cfg, old(world.View()), r), reply, o)
      ensures lastApply == ApplyEvent(r, reply, old(lastApply))
    {
      hide Valid, ApplyTraced, Validate, Hostname, RenderVhost;
      hide CertPaths, CertReady, SettleNext, Record, ServeNext, Candidate, Stale, FileName, EntryOf;
      var f, g := r.fqdn, r.generation;
      hide X.Landed, X.Tried, X.Holding, X.InStep, X.Owed, Answers, Retracted, SettleTrouble, SettleCost;
      ghost var s, from, n0 := world.View(), |world.history|, Now();
      CandidateSite(cfg, s, r, pair, v);
      var attempt, text := Offer(r, pair, ready, v, backup);
      ghost var n1 := Now();
      o := NO_CHANGE.(attempt := attempt);
      if !attempt.Confirmed? {
        ServeFails(cfg, s, r, pair, v, o, world.View());
        reply := Decline(f, attempt);
        DeclinedAnswers(nginx.verified, n0, n1, Candidate(cfg, s, r), attempt, reply, o);
        return;
      }
      ghost var stored, settle := Adopt(r, pair, ready, s, from);
      o := o.(stored := stored, settle := settle);
      ServeHolds(cfg, s, r, pair, v, o);
      lastApply := Some(Event(true, f, None));
      reply := ApplyReply(200, true, g, None);
      ConfirmedAnswers(nginx.verified, n0, n1, Now(), reply, o);
    }

    // ---- POST /sync-all ----

    /** The whole directory is rewritten. */
    method WriteDir(desired: map<string, Content>) returns (ok: bool)
      requires Valid() && forall n | n in desired :: IsRouteName(n)
      modifies world`routes, world`others, world`running, world`pending, world`outside, world`history, world`faults
      ensures Valid() && Changed() && SwappedSoFar(world, desired) && ServingMix(world, old(world.routes), desired)
      ensures if ok then world.routes == desired else old(world.faults) < world.faults
      ensures RouteNames(old(world.routes))
    {
      ok := WriteConfDir(world, desired);
    }

    /** And back again, */
    method RewriteDir(prior: map<string, Content>) returns (ok: bool)
      requires Valid() && forall n | n in prior :: IsRouteName(n)
      modifies world`routes, world`others, world`running, world`pending, world`outside, world`history, world`faults
      ensures Valid() && Changed() && SwappedSoFar(world, prior) && ServingMix(world, old(world.routes), prior)
      ensures if ok then world.routes == prior else old(world.faults) < world.faults
    {
      ok := RestoreConfDir(world, prior);
    }

    /** Put the whole directory back, in a swap to desired that began in state s. */
    method RestoreDir(prior: map<string, Content>, ghost s: Sys, ghost from: nat,
                      ghost desired: map<string, Content>, detail: string, ambiguous: bool)
      returns (a: Attempt, out: string)
      requires Valid() && prior == s.files && forall n | n in prior :: IsRouteName(n)
      requires from <= |world.history| && Swapping(s, world.View(), desired)
                 && AllSwapping(s, world.history, from, desired)
      modifies nginx`proofURI, nginx`proofExpected
      modifies world`routes, world`receipt, world`others, world`used, world`approved, world`signals, world`wait
      modifies world`running, world`pending, world`outside, world`history, world`faults
      ensures Valid() && old(world.history) <= world.history
      ensures Swapping(s, world.View(), desired) && AllSwapping(s, world.history, from, desired)
      ensures TakenBack(a, ambiguous) && ServingMix(world, prior, desired)
      ensures a == if a.Undone? then Undone(a.confirmed) else Stranded
      ensures a.Undone? ==> world.routes == prior
    {
      hide Valid, IsRouteName, X.Changed, X.TakenBack;
      ghost var mid, past, n0 := world.View(), world.history, Now();
      var restored := RewriteDir(prior);
      ghost var now, past', n1 := world.View(), world.history, Now();
      SwapBack(s, past, from, mid, now, past', desired);
      a, out := RestoreAfterFailure(restored, detail, ambiguous);
      if restored {
        X.BackWritten(nginx.verified, n0, n1, Now(), a, ambiguous);
      } else {
        X.BackFailed(nginx.verified, n0, n1, ambiguous);
      }
      SwapStep(s, past', from, now, world.View(), world.history, desired);
    }

    /** The swap, its test and reload, and the way back: all or nothing, unless the way
        back fails too. */
    method Swap(prior: map<string, Content>, desired: map<string, Content>)
      returns (swapped: bool, a: Attempt, out: string)
      requires Valid() && world.routes == prior && forall n | n in desired :: IsRouteName(n)
      modifies nginx`proofURI, nginx`proofExpected
      modifies world`routes, world`receipt, world`others, world`used, world`approved, world`signals, world`wait
      modifies world`running, world`pending, world`outside, world`history, world`faults
      ensures Valid() && Landed(a) && !a.Blocked? && SwappedSoFar(world, desired)
      ensures ServingMix(world, prior, desired) && (!swapped ==> Owed())
      ensures a.Confirmed? ==> swapped && world.routes == desired
      ensures a.Undone? ==> world.routes == prior
    {
      hide Valid, IsRouteName, DirStream, X.Changed, X.Tested, X.TakenBack, X.Landed, X.Calm;
      ghost var s, from, n0 := world.View(), |world.history|, Now();
      swapped := WriteDir(desired);
      ghost var n1 := Now();
      if !swapped {
        a, out := RestoreDir(prior, s, from, desired, "swap failed", false);
        X.LandHalfway(nginx.verified, n0, n1, Now(), a);
        return;
      }
      ghost var mid, past := world.View(), world.history;
      var v, text := TestAndReload();
      ghost var n2 := Now();
      X.TestedRoutes(nginx.verified, n1, n2, v);
      SwapStep(s, past, from, mid, world.View(), world.history, desired);
      if v.Passed? {
        X.LandPassed(nginx.verified, n0, n1, n2);
        return true, Confirmed, text;
      }
      a, out := RestoreDir(prior, s, from, desired, text, v.ReloadFailed?);
      X.LandFailed(nginx.verified, n0, n1, n2, Now(), v, a);
    }

    /** Every manifest entry is planned before any file is touched. */
    method PlanRoutes(prior: map<string, Content>, routes: seq<Route>) returns (plan: Result<Plan, Trouble>)
      requires Valid() && prior == world.routes
      ensures plan == PlanAll(cfg, world.View(), EMPTY_PLAN, routes)
      ensures plan.Failure? ==> plan.error.Rejected? || plan.error.DuplicateFqdn?
    {
      var desired: map<string, Content>, newEntries: map<string, Entry> := map[], map[];
      var pendingCustom: seq<Route>, staleKept: set<string> := [], {};
      ghost var s := world.View();
      for i := 0 to |routes|
        invariant PlanAll(cfg, s, EMPTY_PLAN, routes) ==
                    PlanAll(cfg, s, Plan(desired, newEntries, pendingCustom, staleKept), routes[i..])
      {
        var r := routes[i];
        assert routes[i..][0] == r && routes[i..][1..] == routes[i+1..];
        if r.desired == Absent {
          continue;
        }
        var invalid := Validate(cfg, r);
        if invalid.Some? {
          return Failure(Rejected(invalid.value));
        }
        var fn := FileName(r.fqdn);
        if fn in desired {
          return Failure(DuplicateFqdn(r.fqdn));
        }
        var applied := store.Generation(r.fqdn);
        if applied.Some? && r.generation < applied.value {
          var cur := store.entries[r.fqdn];
          if cur.present {
            if fn in prior {
              desired := desired[fn := prior[fn]];
            } else {
              cur := cur.(present := false);
            }
          }
          newEntries, staleKept := newEntries[r.fqdn := cur], staleKept + {r.fqdn};
          continue;
        }
        var paths := CertPaths(cfg, r);
        if paths.Failure? {
          return Failure(Rejected(paths.error));
        }
        var certReady := IsPlatform(r.certRef) || certbot.Exists(r.fqdn);
        var rendered := RenderVhost(cfg, r, paths.value, certReady);
        if rendered.Failure? {
          return Failure(Rejected(rendered.error));
        }
        desired := desired[fn := Site(rendered.value)];
        var cs := NoCert;
        if !IsPlatform(r.certRef) {
          cs := CertOK;
          if !certReady {
            cs, pendingCustom := CertPending, pendingCustom + [r];
          }
        }
        newEntries := newEntries[r.fqdn := Entry(r.generation, true, cs, "")];
      }
      plan := Success(Plan(desired, newEntries, pendingCustom, staleKept));
    }

    /** Every state since the call began is a point of this sync, and what /status shows
        along the way never goes back. */
    twostate predicate Traversed(req: SyncRequest)
      reads world
    {
      && old(world.history) <= world.history
      && SyncTraced(cfg, old(world.View()), req, world.history, |old(world.history)|, world.View())
    }

    /** Since the call began only the certificates of the given names were handled. */
    twostate predicate Handled(names: set<string>)
      reads world
    {
      && old(world.history) <= world.history
      && Beyond(old(world.View()), names, world.View())
      && BeyondTraced(old(world.View()), names, world.history, |old(world.history)|, world.View())
    }

    twostate predicate SyncAnswered(desired: map<string, Content>, reply: SyncReply, o: SyncOutcome)
      reads world
    {
      SyncAnswers(nginx.verified, old(Now()), Now(), desired, reply, o)
    }

    /** Prune the certificate of every name whose vhost the swap removed. */
    method PruneCerts(pruned: seq<string>) returns (ghost os: seq<PruneOutcome>)
      requires Valid() && (nginx.verified ==> world.running == world.Conf())
      requires forall f | f in pruned :: FileName(f) !in world.routes && !EntryAt(world.memory, f).present
      modifies store`entries, world`certs, world`lineages
      modifies world`memory, world`saved, world`running, world`pending, world`outside, world`history, world`faults
      ensures Valid() && Idle() && Handled(set f | f in pruned)
      ensures |os| == |pruned| && world.View() == PruneAll(old(world.View()), pruned, os)
      ensures old(world.faults) + PruneCosts(os) <= world.faults
    {
      hide PrunePoint, PruneTraced, PruneNext, Beyond, BeyondTraced;
      ghost var s, from, names := world.View(), |world.history|, set f | f in pruned;
      os := [];
      BeyondBegin(s, names, world.history);
      for i := 0 to |pruned|
        invariant Valid() && world.Waited() && Handled(names)
        invariant |os| == i && world.View() == PruneAll(s, pruned[..i], os)
        invariant old(world.faults) + PruneCosts(os) <= world.faults
      {
        var f := pruned[i];
        PruneAllFrame(s, pruned[..i], os);
        ghost var m, past := world.View(), world.history;
        assert EntryAt(m.memory, f).present == EntryAt(s.memory, f).present;
        ghost var o := PruneCert(f);
        PruneIsPoint(m, f, o);
        PruneBeyond(m, f, world.history, |past|, world.View());
        BeyondMoreTraced(s, names, past, from, m, {f}, world.history, world.View());
        PruneAllSnoc(s, pruned, i, os, o);
        PruneCostsSnoc(os, o);
        os := os + [o];
      }
      assert pruned[..|pruned|] == pruned;
    }

    /** One round of the settling loop. */
    method SettlePending(r: Route) returns (ghost o: SettleOutcome)
      requires Valid() && Settleable(cfg, r)
      modifies nginx`proofURI, nginx`proofExpected, store`entries
      modifies world`routes, world`receipt, world`others, world`used, world`approved, world`signals, world`wait
      modifies world`certs, world`lineages, world`memory, world`saved
      modifies world`running, world`pending, world`outside, world`history, world`faults
      ensures Valid() && Handled({r.fqdn})
      ensures world.View() == SettleOne(cfg, old(world.View()), r, o)
      ensures InStep(SettleTrouble(o)) && (!Retracted(o) ==> Holding() && (nginx.verified ==> Owed()))
      ensures CertPaths(cfg, r).Success? && Upgraded(o) ==>
                world.Signalled() && (nginx.verified ==> world.running == world.Conf())
      ensures Paid(SettleCost(o))
    {
      hide SettlePoint, SettleTraced, SettleNext, Beyond, BeyondTraced;
      ghost var s, past := world.View(), world.history;
      BeyondBegin(s, {r.fqdn}, past);
      o := NO_SETTLE;
      var paths := CertPaths(cfg, r);
      if paths.Failure? {
        return;
      }
      o := SettleCert(r, paths.value, false);
      SettleIsPoint(cfg, s, r, paths.value, false, o);
      SettleBeyond(cfg, s, r, paths.value, false, world.history, |past|, world.View());
    }

    /** Settle the certificate of every custom name that had none. */
    method SettleCerts(pendingCustom: seq<Route>) returns (ghost os: seq<SettleOutcome>)
      requires Valid() && forall r | r in pendingCustom :: Settleable(cfg, r) && CertPaths(cfg, r).Success?
      modifies nginx`proofURI, nginx`proofExpected, store`entries
      modifies world`routes, world`receipt, world`others, world`used, world`approved, world`signals, world`wait
      modifies world`certs, world`lineages, world`memory, world`saved
      modifies world`running, world`pending, world`outside, world`history, world`faults
      ensures Valid() && Handled(set r | r in pendingCustom :: r.fqdn)
      ensures |os| == |pendingCustom| && world.View() == SettleAll(cfg, old(world.View()), pendingCustom, os)
      ensures AllSettled(nginx.verified, old(Now()), Now(), os)
    {
      hide SettleNext, Beyond, BeyondTraced, Hostname, CertPaths, Settleable;
      hide Retracted, SettleTrouble, Upgraded, AllSettled, X.InStep, X.Paid, X.Holding, X.Owed;
      ghost var n0 := Now();
      ghost var s, from, names := world.View(), |world.history|, set r | r in pendingCustom :: r.fqdn;
      os := [];
      BeyondBegin(s, names, world.history);
      SettledNone(nginx.verified, n0);
      for i := 0 to |pendingCustom|
        invariant Valid() && Handled(names)
        invariant |os| == i && world.View() == SettleAll(cfg, s, pendingCustom[..i], os)
        invariant AllSettled(nginx.verified, n0, Now(), os)
      {
        ghost var m, past, n := world.View(), world.history, Now();
        assert pendingCustom[i] in pendingCustom;
        ghost var o := SettlePending(pendingCustom[i]);
        BeyondMoreTraced(s, names, past, from, m, {pendingCustom[i].fqdn}, world.history, world.View());
        SettleAllSnoc(cfg, s, pendingCustom, i, os, o);
        SettledMore(nginx.verified, n0, n, Now(), os, o);
        os := os + [o];
      }
      assert pendingCustom[..|pendingCustom|] == pendingCustom;
    }

    /** The snapshot generation the store holds. */
    method SnapshotGeneration() returns (last: int)
      requires Valid()
      ensures last == world.memory.snapshotGen
    {
      last := store.snapshotGen;
    }

    /** The files as they are before a swap. */
    method ReadPrior() returns (prior: Option<map<string, Content>>)
      requires Valid()
      modifies world`running, world`pending, world`outside, world`history, world`faults
      ensures Valid() && Idle() && world.Atomic()
      ensures if prior.Some? then prior.value == world.routes else old(world.faults) < world.faults
      ensures RouteNames(world.routes)
    {
      prior := ReadConfDir(world);
    }

    /** SyncAll handles POST /sync-all. Whatever fails, the agent ends in the state and
        with the reply of SyncNext and passes only through points of the sync. */
    method SyncAll(req: SyncRequest) returns (reply: SyncReply, ghost o: SyncOutcome)
      requires Valid()
      modifies this`lastSync, nginx`proofURI, nginx`proofExpected, store`entries, store`snapshotGen
      modifies world`routes, world`receipt, world`others, world`used, world`approved, world`signals, world`wait
      modifies world`certs, world`lineages, world`memory, world`saved
      modifies world`running, world`pending, world`outside, world`history, world`faults
      ensures Valid() && Traversed(req)
      ensures Fits(cfg, old(world.View()), req, o)
      ensures (world.View(), reply) == SyncNext(cfg, old(world.View()), req, o)
      ensures SyncAnswered(Planned(cfg, old(world.View()), req), reply, o)
      ensures !StaleSnapshot(old(world.memory), req) && PlanOf(cfg, old(world.View()), req).Success? ==>
                Paid(SyncCost(o))
      ensures Smooth() && !StaleSnapshot(old(world.memory), req) && PlanOf(cfg, old(world.View()), req).Success? ==>
                reply.code == 200 && CleanSync(o)
      ensures Fair() ==> !SyncTrouble(reply, o) && (reply.code != 200 ==> world.View() == old(world.View()))
      ensures reply.code != 200 && !FilesLost(reply.error) ==> world.View() == old(world.View())
      ensures var last := old(world.memory).snapshotGen;
              && (reply.code == 409 <==> last != 0 && req.snapshotGeneration <= last)
              && (reply.code == 409 ==> reply == SyncReply(409, false, last, [], [], None))
      ensures reply.code == 200 ==>
                reply.applied && reply.snapshotGeneration == world.memory.snapshotGen == req.snapshotGeneration
      ensures lastSync == if reply.code == 200 then Some(Event(true, "sync-all", None))
                          else if reply.error.Some? && reply.error.value.NginxRefused?
                            then Some(Event(false, "sync-all", reply.error))
                          else old(lastSync)
    {
      hide Valid, SyncTraced, PlanOf, SyncNext, Fits, IsRouteName, Mixed;
      hide CleanSync, Planned, Leq, FilesLost, SyncAnswers, X.Idle, SyncCost;
      ghost var s, from, n0 := world.View(), |world.history|, Now();
      o := Unread;
      SyncLooked(cfg, s, req, world.history, world.history);
      var last := SnapshotGeneration();
      if last != 0 && req.snapshotGeneration <= last {
        SyncStale(cfg, s, req, o);
        X.IdleSelf(n0);
        IdleSynced(nginx.verified, n0, n0, Planned(cfg, s, req), SyncReply(409, false, last, [], [], None), o);
        return SyncReply(409, false, last, [], [], None), o;
      }
      var prior := ReadPrior();
      ghost var past, n1 := world.history, Now();
      SyncLooked(cfg, s, req, old(world.history), past);
      if prior.None? {
        SyncUnread(cfg, s, req);
        IdleSynced(nginx.verified, n0, n1, Planned(cfg, s, req), SyncRefusal(req, Io), o);
        SyncUnpaid();
        return SyncRefusal(req, Io), o;
      }
      reply, o := Reconcile(req, prior.value);
      SyncIsLater(cfg, s, req, o);
      SyncTraceOn(cfg, s, req, past, from, s, world.history, world.View());
      SyncLeaves(cfg, s, req, o);
      FairSync(cfg, s, req, o);
      Replies.SyncReplies(cfg, s, req, o);
      if PlanOf(cfg, s, req).Success? { X.LookPaid(nginx.verified, n0, n1, Now(), SyncCost(o)); }
      LookSynced(nginx.verified, n0, n1, Now(), Planned(cfg, s, req), reply, o);
      CleanSyncReply(cfg, s, req, o);
    }

    /** SyncAll, once the directory has been read. */
    method Reconcile(req: SyncRequest, prior: map<string, Content>) returns (reply: SyncReply, ghost o: SyncOutcome)
      requires Valid() && prior == world.routes && !StaleSnapshot(world.memory, req)
      modifies this`lastSync, nginx`proofURI, nginx`proofExpected, store`entries, store`snapshotGen
      modifies world`routes, world`receipt, world`others, world`used, world`approved, world`signals, world`wait
      modifies world`certs, world`lineages, world`memory, world`saved
      modifies world`running, world`pending, world`outside, world`history, world`faults
      ensures Valid() && Traversed(req)
      ensures Fits(cfg, old(world.View()), req, o)
      ensures (world.View(), reply) == SyncNext(cfg, old(world.View()), req, o)
      ensures SyncAnswered(Planned(cfg, old(world.View()), req), reply, o)
      ensures PlanOf(cfg, old(world.View()), req).Success? ==> Paid(SyncCost(o))
      ensures lastSync == SyncEvent(reply, old(lastSync))
    {
      hide SyncTraced, SyncNext, Fits, PlanAll, Mixed, CleanSync;
      SyncLooked(cfg, world.View(), req, world.history, world.history);
      var plan := PlanRoutes(prior, req.routes);
      if plan.Failure? {
        o := Halted(false, Undone(true), prior);
        SyncRefused(cfg, world.View(), req, o);
        X.IdleSelf(Now());
        IdleSynced(nginx.verified, Now(), Now(), Planned(cfg, world.View(), req), SyncRefusal(req, plan.error), o);
        return SyncRefusal(req, plan.error), o;
      }
      reply, o := Carry(req, prior, plan.value);
    }

    /** The swap to a plan. */
    method SwapPlanned(req: SyncRequest, prior: map<string, Content>, p: Plan) returns (swapped: bool, a: Attempt)
      requires Valid() && world.routes == prior && forall n | n in p.desired :: IsRouteName(n)
      requires !StaleSnapshot(world.memory, req) && PlanOf(cfg, world.View(), req) == Success(p)
      modifies nginx`proofURI, nginx`proofExpected
      modifies world`routes, world`receipt, world`others, world`used, world`approved, world`signals, world`wait
      modifies world`running, world`pending, world`outside, world`history, world`faults
      ensures Valid() && Landed(a) && !a.Blocked? && Traversed(req) && Mixed(world.routes, prior, p.desired)
      ensures X.ServingMix(old(Now()), Now(), p.desired) && (!swapped ==> Owed())
      ensures a.Confirmed? ==> swapped && world.routes == p.desired
      ensures a.Undone? ==> world.routes == prior
    {
      hide SyncTraced, IsRouteName, PlanOf;
      ghost var from := |world.history|;
      var out;
      swapped, a, out := Swap(prior, p.desired);
      SwapTraced(cfg, old(world.View()), req, world.history, from, world.View());
    }

    /** SyncAll, once everything is planned. */
    method Carry(req: SyncRequest, prior: map<string, Content>, p: Plan)
      returns (reply: SyncReply, ghost o: SyncOutcome)
      requires Valid() && prior == world.routes && !StaleSnapshot(world.memory, req)
      requires PlanOf(cfg, world.View(), req) == Success(p)
      modifies this`lastSync, nginx`proofURI, nginx`proofExpected, store`entries, store`snapshotGen
      modifies world`routes, world`receipt, world`others, world`used, world`approved, world`signals, world`wait
      modifies world`certs, world`lineages, world`memory, world`saved
      modifies world`running, world`pending, world`outside, world`history, world`faults
      ensures Valid() && Traversed(req)
      ensures Fits(cfg, old(world.View()), req, o)
      ensures (world.View(), reply) == SyncNext(cfg, old(world.View()), req, o)
      ensures SyncAnswered(p.desired, reply, o)
      ensures Paid(SyncCost(o))
      ensures lastSync == SyncEvent(reply, old(lastSync))
    {
      hide SyncNext, Fits, PlanOf, IsRouteName, PrunedOf, Mixed;
      hide SyncTraced, AnyRetracted, Regained, Wavering, CleanSync, Leq, SyncAnswers, RollbackOf;
      hide X.Landed, X.InStep, X.Owed, X.ServingMix, SettleCosts, PruneCosts;
      ghost var s, from, n0 := world.View(), |world.history|, Now();
      var pruned := ListPruned(prior, p, s);
      PendingNames(cfg, s, req, p);
      var swapped, a := SwapPlanned(req, prior, p);
      ghost var n1 := Now();
      X.LandedPaid(nginx.verified, n0, n1, a);
      if !a.Confirmed? {
        var error := if swapped then NginxRefused(RollbackOf(a)) else SwapFailed(RollbackOf(a));
        o := Halted(swapped, a, world.routes);
        SyncHalted(cfg, s, req, p, o, world.View());
        HaltedSynced(nginx.verified, n0, n1, p.desired, a, swapped, req, SyncRefusal(req, error), o);
        if swapped {
          lastSync := Some(Event(false, "sync-all", Some(error)));
        }
        return SyncRefusal(req, error), o;
      }
      X.ConfirmedRuns(nginx.verified, n0, n1);
      ghost var mid, past := world.View(), world.history;
      reply, o := Conclude(req, p, pruned, s);
      ConfirmedSynced(nginx.verified, n0, n1, Now(), reply, o);
      X.ConfirmedPaid(nginx.verified, n0, n1, Now(), SyncCost(o));
      SyncTraceOn(cfg, s, req, past, from, mid, world.history, world.View());
      lastSync := Some(Event(true, "sync-all", None));
    }

    /** The rest of SyncAll, once nginx has confirmed the swap begun in state s. */
    method Conclude(req: SyncRequest, p: Plan, pruned: seq<string>, ghost s: Sys)
      returns (reply: SyncReply, ghost o: SyncOutcome)
      requires Valid() && RouteNames(s.files) && PlanOf(cfg, s, req) == Success(p) && pruned == PrunedOf(s, p)
      requires !StaleSnapshot(s.memory, req)
      requires world.View() == s.(files := p.desired) && world.Signalled()
      requires nginx.verified ==> world.running == world.Conf()
      requires forall r | r in p.pending :: Settleable(cfg, r) && CertPaths(cfg, r).Success?
      modifies nginx`proofURI, nginx`proofExpected, store`entries, store`snapshotGen
      modifies world`routes, world`receipt, world`others, world`used, world`approved, world`signals, world`wait
      modifies world`certs, world`lineages, world`memory, world`saved
      modifies world`running, world`pending, world`outside, world`history, world`faults
      ensures Valid() && old(world.history) <= world.history && Leq(s.memory, world.memory)
      ensures SyncTraced(cfg, s, req, world.history, |old(world.history)|, world.View())
      ensures Fits(cfg, s, req, o) && (world.View(), reply) == SyncNext(cfg, s, req, o)
      ensures reply.code == 200 && o.Accepted?
      ensures InStep(Wavering(o.settles)) && (nginx.verified && !AnyRetracted(o.settles) ==> Owed())
      ensures Regained(o.settles) ==> world.Signalled() && (nginx.verified ==> world.running == world.Conf())
      ensures Paid(SyncCost(o))
    {
      hide Valid, SyncTraced, SyncNext, Fits, PlanOf, PrunedOf, AnyRetracted;
      hide Regained, Wavering, CleanSync, Settleable, CertPaths, Leq, X.InStep, X.Paid, X.Owed;
      ghost var stored, prunes, settles := Accept(req, p, pruned, s);
      o := Accepted(stored, prunes, settles);
      var results := Results(p);
      SyncAccepted(cfg, s, req, p, o);
      reply := SyncReply(200, true, req.snapshotGeneration, pruned, results, None);
    }

    /** The store is replaced after a confirmed swap begun in state s. */
    method Install(req: SyncRequest, p: Plan, ghost s: Sys) returns (ghost stored: bool)
      requires Valid() && PlanOf(cfg, s, req) == Success(p) && !StaleSnapshot(s.memory, req)
      requires world.View() == s.(files := p.desired)
      modifies store`entries, store`snapshotGen
      modifies world`memory, world`saved, world`running, world`pending, world`outside, world`history, world`faults
      ensures Valid() && Idle() && old(world.faults) + One(!stored) <= world.faults
      ensures old(world.history) <= world.history && world.View() == Swapped(s, req, p, stored)
      ensures SyncTraced(cfg, s, req, world.history, |old(world.history)|, world.View())
    {
      hide Valid, SyncTraced, PlanOf;
      stored := Replace(p.entries, req.snapshotGeneration);
      ReplaceTraced(cfg, s, req, p, old(world.history), stored, world.history);
    }

    /** store.ReplaceAll, as SyncAll uses it: the error is dropped. */
    method Replace(entries: map<string, Entry>, gen: int) returns (ghost stored: bool)
      requires Valid()
      modifies store`entries, store`snapshotGen
      modifies world`memory, world`saved, world`running, world`pending, world`outside, world`history, world`faults
      ensures Valid() && world.Waited() && (!stored ==> old(world.faults) < world.faults)
      ensures var image := Replaced(old(world.memory), entries, gen);
              && world.View() == Persisted(old(world.View()), image, stored)
              && old(world.history) <= world.history
              && forall i | |old(world.history)| <= i < |world.history| ::
                   || world.history[i] == Persisted(old(world.View()), image, false)
                   || world.history[i] == Persisted(old(world.View()), image, true)
    {
      stored := store.ReplaceAll(entries, gen);
    }

    /** What it does to the state. */
    method Accept(req: SyncRequest, p: Plan, pruned: seq<string>, ghost s: Sys)
      returns (ghost stored: bool, ghost prunes: seq<PruneOutcome>, ghost settles: seq<SettleOutcome>)
      requires Valid() && RouteNames(s.files) && PlanOf(cfg, s, req) == Success(p) && pruned == PrunedOf(s, p)
      requires !StaleSnapshot(s.memory, req)
      requires world.View() == s.(files := p.desired) && world.Signalled()
      requires nginx.verified ==> world.running == world.Conf()
      requires forall r | r in p.pending :: Settleable(cfg, r) && CertPaths(cfg, r).Success?
      modifies nginx`proofURI, nginx`proofExpected, store`entries, store`snapshotGen
      modifies world`routes, world`receipt, world`others, world`used, world`approved, world`signals, world`wait
      modifies world`certs, world`lineages, world`memory, world`saved
      modifies world`running, world`pending, world`outside, world`history, world`faults
      ensures Valid() && old(world.history) <= world.history && Leq(s.memory, world.memory)
      ensures SyncTraced(cfg, s, req, world.history, |old(world.history)|, world.View())
      ensures |prunes| == |pruned| && |settles| == |p.pending|
      ensures world.View() == SettleAll(cfg, PruneAll(Swapped(s, req, p, stored), pruned, prunes), p.pending, settles)
      ensures InStep(Wavering(settles)) && (nginx.verified && !AnyRetracted(settles) ==> Owed())
      ensures Regained(settles) ==> world.Signalled() && (nginx.verified ==> world.running == world.Conf())
      ensures Paid(SyncCost(Accepted(stored, prunes, settles)))
    {
      hide Valid, SyncTraced, Beyond, BeyondTraced, Settleable, CertPaths, PlanOf, IsRouteName, PrunedOf, Reach, Leq;
      hide AnyRetracted, Regained, Wavering, Upgraded, PruneAll, SettleAll, Swapped;
      hide AllSettled, X.Idle, X.InStep, X.Paid, X.Owed, PruneCosts, SettleCosts;
      ghost var n0 := Now();
      stored := Install(req, p, s);
      ghost var n1 := Now();
      if nginx.verified { X.IdleRuns(n0, n1); }
      ghost var s1, past, reach := world.View(), world.history, Reach(s, p);
      SwappedFiles(s, req, p, stored);
      forall f | f in pruned ensures FileName(f) !in world.routes && !EntryAt(world.memory, f).present {
        PrunedAbsent(cfg, s, req, p, stored, f);
      }
      ReachNames(s, p);
      BeyondBegin(s1, reach, past);
      prunes := PruneCerts(pruned);
      BeyondMoreTraced(s1, reach, past, |past|, s1, (set f | f in pruned), world.history, world.View());
      ghost var s2, past', n2 := world.View(), world.history, Now();
      X.IdleTrans(n0, n1, n2);
      settles := SettleCerts(p.pending);
      IdleSettled(nginx.verified, n0, n2, Now(), One(!stored) + PruneCosts(prunes), settles);
      BeyondMoreTraced(s1, reach, past', |past|, s2, (set r | r in p.pending :: r.fqdn), world.history, world.View());
      HandledTraced(cfg, s, req, p, stored, past, |old(world.history)|, world.history, world.View());
    }
  }

  /** The files a sync puts before nginx. */
  function Planned(c: Config, s: Sys, req: SyncRequest): map<string, Content> {
    match PlanOf(c, s, req)
    case Failure(_) => s.files
    case Success(p) => p.desired
  }

  predicate Unswapped(error: Option<Trouble>) { error.Some? && error.value.SwapFailed? }

  /** With no failed call everything that a sync does succeeds. */
  lemma CleanSyncReply(c: Config, s: Sys, req: SyncRequest, o: SyncOutcome)
    requires Fits(c, s, req, o)
    ensures SyncCost(o) == 0 && !StaleSnapshot(s.memory, req) && PlanOf(c, s, req).Success? ==>
              SyncNext(c, s, req, o).1.code == 200 && CleanSync(o)
  {
    if SyncCost(o) == 0 && !StaleSnapshot(s.memory, req) && PlanOf(c, s, req).Success? { FreeSync(o); }
  }

  /** One failed call is never enough to leave anything in doubt: the way back from it
      succeeds, and is known to have. */
  lemma FairApply(c: Config, s: Sys, r: Route, o: ApplyOutcome)
    ensures var (m, reply) := ApplyNext(c, s, r, o);
            ApplyCost(o) <= 1 ==> !ApplyTrouble(reply, o) && (reply.code != 200 ==> m == s)
  {}

  lemma {:induction false} WaveringCosts(os: seq<SettleOutcome>)
    ensures SettleCosts(os) >= (if Wavering(os) then 2 else if AnyRetracted(os) then 1 else 0)
  {
    if os != [] {
      var last, front := os[|os|-1], os[..|os|-1];
      assert os == front + [last];
      SettlesSnoc(front, last);
      WaveringCosts(front);
    }
  }

  lemma FairSync(c: Config, s: Sys, req: SyncRequest, o: SyncOutcome)
    requires Fits(c, s, req, o)
    ensures var (m, reply) := SyncNext(c, s, req, o);
            (!StaleSnapshot(s.memory, req) && PlanOf(c, s, req).Success? ==> SyncCost(o) <= 1) ==>
              !SyncTrouble(reply, o) && (reply.code != 200 ==> m == s)
  {
    hide PlanAll, PruneAll, SettleAll, PrunedOf, ResultsOf, Wavering, SettleCosts, PruneCosts;
    if o.Accepted? { WaveringCosts(o.settles); }
    PlanErrors(c, s, EMPTY_PLAN, req.routes);
  }

  lemma SyncUnpaid()
    ensures SyncCost(Unread) == 1
  {}

  lemma ReachNames(s: Sys, p: Plan)
    ensures (set f | f in PrunedOf(s, p)) <= Reach(s, p) && (set r | r in p.pending :: r.fqdn) <= Reach(s, p)
  {}

  lemma ApplyIsLater(c: Config, s: Sys, r: Route, o: ApplyOutcome)
    ensures Leq(s.memory, ApplyNext(c, s, r, o).0.memory)
  {
    ApplyIsPoint(c, s, r, o);
    ApplyPointForward(c, s, r, ApplyNext(c, s, r, o).0);
  }

  lemma SyncIsLater(c: Config, s: Sys, req: SyncRequest, o: SyncOutcome)
    requires RouteNames(s.files) && Fits(c, s, req, o)
    ensures Leq(s.memory, SyncNext(c, s, req, o).0.memory)
  {
    SyncIsPoint(c, s, req, o);
    SyncPointForward(c, s, req, SyncNext(c, s, req, o).0);
  }

  /** How a vhost that renders ends when nginx does not confirm it, ... */
  lemma ServeFails(c: Config, s: Sys, r: Route, pair: CertPair, v: Vhost, o: ApplyOutcome, m: Sys)
    requires CertPaths(c, r) == Success(pair) && RenderVhost(c, r, pair, CertReady(s, r)) == Success(v)
    requires !o.attempt.Confirmed? && m == s.(files := m.files)
    requires m.files == if o.attempt.Stranded? then s.files[FileName(r.fqdn) := Site(v)] else s.files
    ensures ServeNext(c, s, r, o) ==
              (m, Refusal(if o.attempt.Blocked? then Io else NginxRefused(RollbackOf(o.attempt))))
  {}

  /** ... and when it does. */
  lemma ServeHolds(c: Config, s: Sys, r: Route, pair: CertPair, v: Vhost, o: ApplyOutcome)
    requires CertPaths(c, r) == Success(pair) && RenderVhost(c, r, pair, CertReady(s, r)) == Success(v)
    requires o.attempt.Confirmed? && r.desired != Absent
    ensures var written := s.(files := s.files[FileName(r.fqdn) := Site(v)]);
            var s1 := Record(written, r.fqdn, EntryOf(r), o.stored);
            ServeNext(c, s, r, o) ==
              (if IsPlatform(r.certRef) then s1 else SettleNext(c, s1, r, pair, CertReady(s, r), o.settle),
               ApplyReply(200, true, r.generation, None))
  {
    hide SettleNext, Record;
  }

  lemma CandidateSite(c: Config, s: Sys, r: Route, pair: CertPair, v: Vhost)
    requires r.desired != Absent && CertPaths(c, r) == Success(pair)
    requires RenderVhost(c, r, pair, CertReady(s, r)) == Success(v)
    ensures Candidate(c, s, r) == s.files[FileName(r.fqdn) := Site(v)]
  {}

  /** The certificate makes no difference to whether a vhost renders. */
  lemma RenderAgain(c: Config, r: Route, pair: CertPair, ready: bool)
    ensures RenderVhost(c, r, pair, true).Success? <==> RenderVhost(c, r, pair, ready).Success?
  {}

  lemma CleanReply(c: Config, s: Sys, r: Route, o: ApplyOutcome)
    ensures var (m, reply) := ApplyNext(c, s, r, o);
            CleanApply(o) && ValidRequest(c, r) && !Stale(s.memory, r) ==>
              reply.code == 200 && LocalOf(m, r.fqdn) == Goal(c, r)
  {
    if CleanApply(o) && ValidRequest(c, r) && !Stale(s.memory, r) {
      CleanCode(c, s, r, o);
      CleanApplyAt(c, s, r, o);
    }
  }

  lemma ApplyRefused(c: Config, s: Sys, r: Route, o: ApplyOutcome)
    ensures var (m, reply) := ApplyNext(c, s, r, o);
            reply.code != 200 && !FilesLost(reply.error) ==> m == s
  {
    if ApplyNext(c, s, r, o).1.code != 200 { ApplyAllOrNothing(c, s, r, o); }
  }

  lemma SyncLeaves(c: Config, s: Sys, req: SyncRequest, o: SyncOutcome)
    requires Fits(c, s, req, o)
    ensures var (m, reply) := SyncNext(c, s, req, o);
            reply.code != 200 && !FilesLost(reply.error) ==> m == s
  {
    if SyncNext(c, s, req, o).1.code != 200 { SyncAllOrNothing(c, s, req, o); }
  }

  lemma SyncStale(c: Config, s: Sys, req: SyncRequest, o: SyncOutcome)
    requires StaleSnapshot(s.memory, req) && o.Unread?
    ensures Fits(c, s, req, o)
    ensures SyncNext(c, s, req, o) == (s, SyncReply(409, false, s.memory.snapshotGen, [], [], None))
  {}

  lemma SyncUnread(c: Config, s: Sys, req: SyncRequest)
    requires !StaleSnapshot(s.memory, req)
    ensures Fits(c, s, req, Unread) && SyncNext(c, s, req, Unread) == (s, SyncRefusal(req, Io))
  {}

  lemma SyncRefused(c: Config, s: Sys, req: SyncRequest, o: SyncOutcome)
    requires !StaleSnapshot(s.memory, req) && !o.Unread? && PlanOf(c, s, req).Failure?
    ensures Fits(c, s, req, o) && SyncNext(c, s, req, o) == (s, SyncRefusal(req, PlanOf(c, s, req).error))
  {}

  lemma SyncHalted(c: Config, s: Sys, req: SyncRequest, p: Plan, o: SyncOutcome, m: Sys)
    requires !StaleSnapshot(s.memory, req) && PlanOf(c, s, req) == Success(p)
    requires o.Halted? && (o.attempt.Undone? || o.attempt.Stranded?) && o.residue == m.files
    requires m == s.(files := m.files) && Mixed(m.files, s.files, p.desired)
    requires o.attempt.Undone? ==> m.files == s.files
    ensures Fits(c, s, req, o)
    ensures var error := if o.swapped then NginxRefused(RollbackOf(o.attempt)) else SwapFailed(RollbackOf(o.attempt));
            SyncNext(c, s, req, o) == (m, SyncRefusal(req, error))
  {}

  lemma SyncAccepted(c: Config, s: Sys, req: SyncRequest, p: Plan, o: SyncOutcome)
    requires !StaleSnapshot(s.memory, req) && PlanOf(c, s, req) == Success(p) && o.Accepted?
    requires |o.prunes| == |PrunedOf(s, p)| && |o.settles| == |p.pending|
    ensures Fits(c, s, req, o)
    ensures SyncNext(c, s, req, o) ==
              (SettleAll(c, PruneAll(Swapped(s, req, p, o.stored), PrunedOf(s, p), o.prunes), p.pending, o.settles),
               SyncReply(200, true, req.snapshotGeneration, PrunedOf(s, p), ResultsOf(p), None))
  {}

  lemma ValidateName(c: Config, r: Route)
    requires Validate(c, r).None?
    ensures Hostname(r.fqdn) && IsRouteName(FileName(r.fqdn))
  {
    ReservedNames(r.fqdn, "");
  }

  lemma MutationNext(c: Config, s: Sys, r: Route)
    requires !Stale(s.memory, r) && Validate(c, r).None?
    ensures forall o ::
              ApplyNext(c, s, r, o) == if r.desired == Absent then RemoveNext(s, r, o) else ServeNext(c, s, r, o)
  {}

  lemma BlockedNext(c: Config, s: Sys, r: Route, o: ApplyOutcome)
    requires !Stale(s.memory, r) && Validate(c, r).None? && o.attempt.Blocked?
    ensures ApplyNext(c, s, r, o) == (s, Refusal(Io))
  {}

  lemma RestoredGone(files: map<string, Content>, name: string, backup: Option<Content>)
    requires backup == if name in files then Some(files[name]) else None
    ensures Restored(files - {name}, name, backup) == files
  {}

  lemma SettleStops(c: Config, s: Sys, r: Route, pair: CertPair, o: SettleOutcome)
    requires o.issue.IssueFailed? || RenderVhost(c, r, pair, true).Failure?
    ensures forall stored: bool :: SettleNext(c, s, r, pair, false, o.(stored := stored)) ==
              SetCert(Ensured(s, r.fqdn, o.issue), r.fqdn, CertFailed, o.error, stored)
  {}

  lemma SettleUpgrades(c: Config, s: Sys, r: Route, pair: CertPair, o: SettleOutcome, m: Sys)
    requires o.issue.Issued? && RenderVhost(c, r, pair, true).Success?
    requires m == Ensured(s, r.fqdn, o.issue).(files := m.files)
    requires m.files == match o.upgrade
      case Blocked => s.files
      case Undone(_) => if o.readable then s.files else s.files - {FileName(r.fqdn)}
      case _ => s.files[FileName(r.fqdn) := Site(RenderVhost(c, r, pair, true).value)]
    ensures forall stored: bool :: SettleNext(c, s, r, pair, false, o.(stored := stored)) ==
              if o.upgrade.Confirmed? then SetCert(m, r.fqdn, CertOK, "", stored)
              else SetCert(m, r.fqdn, CertFailed, o.error, stored)
  {}

  lemma SettleReady(c: Config, s: Sys, r: Route, pair: CertPair, o: SettleOutcome)
    ensures SettleNext(c, s, r, pair, true, o) == SetCert(s, r.fqdn, CertOK, "", o.stored)
  {}
}
