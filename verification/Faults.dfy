/** How many outside calls must have failed for things to turn out as they did. */
module Faults {
  import opened Lifecycle
  import opened Agreement
  import opened Convergence

  function One(failed: bool): nat { if failed then 1 else 0 }

  /** A candidate is taken back only if its test or reload failed, and the way back fails
      only if something fails again. */
  function Cost(a: Attempt): nat {
    match a
    case Confirmed => 0
    case Blocked => 1
    case Undone(confirmed) => 1 + One(!confirmed)
    case Stranded => 2
  }

  function SettleCost(o: SettleOutcome): nat {
    (if o.issue.Issued? then Cost(o.upgrade) + One(!o.readable) else 1) + One(!o.stored)
  }

  function PruneCost(o: PruneOutcome): nat { if o.Deleted? then 0 else 1 + One(!o.stored) }

  function ApplyCost(o: ApplyOutcome): nat {
    Cost(o.attempt) + One(!o.stored) + SettleCost(o.settle) + PruneCost(o.prune)
  }

  function PruneCosts(os: seq<PruneOutcome>): nat {
    if os == [] then 0 else PruneCosts(os[..|os|-1]) + PruneCost(os[|os|-1])
  }

  function SettleCosts(os: seq<SettleOutcome>): nat {
    if os == [] then 0 else SettleCosts(os[..|os|-1]) + SettleCost(os[|os|-1])
  }

  function SyncCost(o: SyncOutcome): nat {
    match o
    case Unread => 1
    case Halted(_, attempt, _) => Cost(attempt)
    case Accepted(stored, prunes, settles) => One(!stored) + PruneCosts(prunes) + SettleCosts(settles)
  }

  lemma PruneCostsSnoc(os: seq<PruneOutcome>, o: PruneOutcome)
    ensures PruneCosts(os + [o]) == PruneCosts(os) + PruneCost(o)
  {
    assert (os + [o])[..|os|] == os;
  }

  lemma SettleCostsSnoc(os: seq<SettleOutcome>, o: SettleOutcome)
    ensures SettleCosts(os + [o]) == SettleCosts(os) + SettleCost(o)
  {
    assert (os + [o])[..|os|] == os;
  }

  lemma {:induction false} FreePrunes(os: seq<PruneOutcome>)
    requires PruneCosts(os) == 0
    ensures forall o | o in os :: o.Deleted?
  {
    if os != [] {
      assert os == os[..|os|-1] + [os[|os|-1]];
      FreePrunes(os[..|os|-1]);
    }
  }

  lemma {:induction false} FreeSettles(os: seq<SettleOutcome>)
    requires SettleCosts(os) == 0
    ensures forall o | o in os :: Upgraded(o) && o.stored
  {
    if os != [] {
      assert os == os[..|os|-1] + [os[|os|-1]];
      FreeSettles(os[..|os|-1]);
    }
  }

  lemma FreeSync(o: SyncOutcome)
    requires SyncCost(o) == 0
    ensures CleanSync(o) || (o.Halted? && !o.attempt.Undone? && !o.attempt.Stranded?)
  {
    if o.Accepted? {
      FreePrunes(o.prunes);
      FreeSettles(o.settles);
    }
  }
}
