/**
 A license that has lapsed or is frozen is served no lease: over whole runs, until an extension, or
 until it is unfrozen.
 */
module Lapse {
  import opened Wrappers
  import opened Licensing
  import opened Consumption
  import opened Evolution
  import opened Leases
  import PaidTime

  // ----- lapsed -----

  predicate Lapsed(s: State, l: Id) {
    l in s.licenses && s.licenses[l].expiresAt.Some? && s.licenses[l].expiresAt.value < s.now
  }

  /** Every lease is minted for a license that is active and has not lapsed at that moment. */
  lemma MintedUnlapsed(s: State, e: Event)
    requires Consistent(s) && Next(s, e).leases != s.leases
    ensures var t := Next(s, e);
      && |t.leases| > 0 && t.leases[|t.leases| - 1].device.license in t.licenses
      && var lic := t.licenses[t.leases[|t.leases| - 1].device.license];
      && lic.status == Active && (lic.expiresAt == None || lic.expiresAt.value >= t.now)
  {
    StepMints(s, e);
  }

  lemma RunStaysLapsed(ss: seq<State>, es: seq<Event>, l: Id, i: nat)
    requires Run(ss, es) && Initial(ss[0]) && 0 < i <= |es| && Lapsed(ss[i - 1], l)
    requires PaidTime.DaysAdded(ss[i - 1], es[i - 1], l) == 0
    ensures Lapsed(ss[i], l)
  {
    RunMints(ss, es, i);
    PaidTime.RunExtends(ss, es, l, i);
  }

  lemma RunMintsUnlapsed(ss: seq<State>, es: seq<Event>, l: Id, i: nat)
    requires Run(ss, es) && Initial(ss[0]) && 0 < i <= |es| && Lapsed(ss[i], l)
    ensures NoneSince(ss[i - 1], ss[i], l)
  {
    RunMints(ss, es, i);
  }

  lemma NoneSinceThen(s: State, t: State, u: State, l: Id)
    requires NoneSince(s, t, l) && NoneSince(t, u, l)
    ensures NoneSince(s, u, l)
  {
  }

  /** From the moment a license has lapsed, no request mints a lease for it until it is extended. */
  lemma {:induction false} LapsedMintsNothing(ss: seq<State>, es: seq<Event>, l: Id, i: nat, j: nat)
    requires Run(ss, es) && Initial(ss[0]) && i <= j <= |es| && Lapsed(ss[i], l)
    requires forall k :: i <= k < j ==> PaidTime.DaysAdded(ss[k], es[k], l) == 0
    ensures Lapsed(ss[j], l) && NoneSince(ss[i], ss[j], l)
  {
    if i < j {
      LapsedMintsNothing(ss, es, l, i, j - 1);
      RunStaysLapsed(ss, es, l, j);
      RunMintsUnlapsed(ss, es, l, j);
      NoneSinceThen(ss[i], ss[j - 1], ss[j], l);
    }
  }

  // ----- frozen -----

  /** The request is an accepted unfreezing of license l, or of its card. */
  ghost predicate Unfreezes(s: State, e: Event, l: Id) {
    && l in s.licenses && Apply(s, e).1 == Done
    && match e
       case LicenseAction(_, m, action) => m == l && action == Unfreeze
       case CardAction(_, c, action) => c == s.licenses[l].originCard && action == Unfreeze
       case _ => false
  }

  /** The request is an accepted freezing of license l, or of its card. */
  ghost predicate Freezes(s: State, e: Event, l: Id) {
    && l in s.licenses && Apply(s, e).1 == Done
    && match e
       case LicenseAction(_, m, action) => m == l && action == Freeze
       case CardAction(_, c, action) => c == s.licenses[l].originCard && action == Freeze
       case _ => false
  }

  /** License l is there before and after, with the same status. */
  predicate StatusKept(s: State, t: State, l: Id) {
    l in s.licenses ==> l in t.licenses && t.licenses[l].status == s.licenses[l].status
  }

  lemma ActivateKeepsStatus(s: State, r: Activation, l: Id)
    requires ActivateTables(s, r).Ok?
    ensures StatusKept(s, ActivateTables(s, r).value.state, l)
  {
  }

  lemma ActivateStepKeepsStatus(s: State, r: Activation, rejected: Option<Error>, seat: Seat, l: Id)
    ensures StatusKept(s, ActivateStep(s, r, rejected, seat).0, l)
  {
    if rejected.None? && ActivateTables(s, r).Ok? {
      ActivateKeepsStatus(s, r, l);
    }
  }

  lemma RedeemKeepsStatus(s: State, pub: string, c: Id, unreadable: Option<Error>, rejected: Option<Error>, l: Id)
    ensures StatusKept(s, RedeemStep(s, pub, c, unreadable, rejected).0, l)
  {
  }

  lemma ClientsKeepStatus(s: State, e: Event, l: Id)
    requires FromClient(e)
    ensures StatusKept(s, Next(s, e), l)
  {
    match e
    case Activate(r, rejected, seat) =>
      assert Next(s, e) == ActivateStep(s, r, rejected, seat).0;
      ActivateStepKeepsStatus(s, r, rejected, seat, l);
    case Heartbeat(pub, claimed, rejected, banned, version, versionBanned, seat) =>
      assert Next(s, e) == HeartbeatStep(s, pub, claimed, rejected, banned, version, versionBanned, seat).0;
      HeartbeatOnlyMints(s, pub, claimed, rejected, banned, version, versionBanned, seat);
    case Redeem(pub, c, unreadable, rejected) =>
      assert Next(s, e) == RedeemStep(s, pub, c, unreadable, rejected).0;
      RedeemKeepsStatus(s, pub, c, unreadable, rejected, l);
    case _ =>
  }

  lemma UpdatePlanKeepsStatus(s: State, p: Id, changes: Plan, l: Id)
    ensures StatusKept(s, UpdatePlanStep(s, p, changes).0, l)
  {
  }

  lemma PlansKeepStatus(s: State, e: Event, l: Id)
    requires e.UpdatePlan? || e.PlanStatus?
    ensures StatusKept(s, Next(s, e), l)
  {
    match e
    case UpdatePlan(p, changes) =>
      assert Next(s, e) == UpdatePlanStep(s, p, changes).0;
      UpdatePlanKeepsStatus(s, p, changes, l);
    case PlanStatus(p, status) => assert Next(s, e) == PlanStatusStep(s, p, status).0;
    case _ =>
  }

  lemma MoneyKeepsStatus(s: State, e: Event, l: Id)
    requires e.DeletePlan? || e.CreateCardBatch? || e.AgentAdjustBalance?
    ensures StatusKept(s, Next(s, e), l)
  {
    match e
    case CreateCardBatch(r) =>
      assert Next(s, e) == CreateCardBatchStep(s, r).0;
      BatchRows(s, r);
    case DeletePlan(p) => assert Next(s, e) == DeletePlanStep(s, p).0;
    case AgentAdjustBalance(a, amount) =>
      assert Next(s, e) == AdjustBalanceStep(s, a, amount).0;
      AdjustTouchesMoney(s, a, amount);
    case _ =>
  }

  /** Only an accepted unfreezing makes an inactive license active. */
  lemma OnlyUnfreezingActivates(s: State, e: Event, l: Id)
    requires Consistent(s) && l in s.licenses && s.licenses[l].status != Active && !Unfreezes(s, e, l)
    ensures l in Next(s, e).licenses && Next(s, e).licenses[l].status != Active
  {
    if FromClient(e) {
      ClientsKeepStatus(s, e, l);
    } else if e.CardAction? {
      CardActionActivates(s, e, l);
    } else if e.LicenseAction? {
      LicenseActionActivates(s, e, l);
    } else if e.UpdatePlan? || e.PlanStatus? {
      PlansKeepStatus(s, e, l);
    } else if !e.UnbindDevice? && !e.AdminExtendLicense? {
      MoneyKeepsStatus(s, e, l);
    }
  }

  lemma CardActionActivates(s: State, e: Event, l: Id)
    requires Consistent(s) && l in s.licenses && s.licenses[l].status != Active && !Unfreezes(s, e, l) && e.CardAction?
    ensures l in Next(s, e).licenses && Next(s, e).licenses[l].status != Active
  {
    assert LicenseOk(s, l);
    assert Apply(s, e) == CardActionStep(s, e.caller, e.card, e.action);
    if e.card in s.cards && s.cards[e.card].license == Some(l) {
      assert CardOk(s, e.card);
    }
  }

  lemma LicenseActionActivates(s: State, e: Event, l: Id)
    requires l in s.licenses && s.licenses[l].status != Active && !Unfreezes(s, e, l) && e.LicenseAction?
    ensures l in Next(s, e).licenses && Next(s, e).licenses[l].status != Active
  {
    assert Apply(s, e) == LicenseActionStep(s, e.caller, e.license, e.action);
  }

  /** An accepted freezing leaves the license frozen. */
  lemma FreezingFreezes(s: State, e: Event, l: Id)
    requires Consistent(s) && Freezes(s, e, l)
    ensures l in Next(s, e).licenses && Next(s, e).licenses[l].status == Frozen
  {
    assert LicenseOk(s, l);
    if e.CardAction? {
      assert Apply(s, e) == CardActionStep(s, e.caller, e.card, e.action);
      assert CardOk(s, e.card);
    } else {
      assert Apply(s, e) == LicenseActionStep(s, e.caller, e.license, e.action);
    }
  }

  lemma RunFreezes(ss: seq<State>, es: seq<Event>, l: Id, i: nat)
    requires Run(ss, es) && Initial(ss[0]) && i < |es| && Freezes(ss[i], es[i], l)
    ensures l in ss[i + 1].licenses && ss[i + 1].licenses[l].status == Frozen
  {
    Reachable(ss, es, i);
    FreezingFreezes(ss[i], es[i], l);
    assert ss[i + 1] == Next(ss[i], es[i]);
  }

  lemma RunStaysInactive(ss: seq<State>, es: seq<Event>, l: Id, i: nat)
    requires Run(ss, es) && Initial(ss[0]) && 0 < i <= |es|
    requires l in ss[i - 1].licenses && ss[i - 1].licenses[l].status != Active && !Unfreezes(ss[i - 1], es[i - 1], l)
    ensures l in ss[i].licenses && ss[i].licenses[l].status != Active
  {
    Reachable(ss, es, i - 1);
    OnlyUnfreezingActivates(ss[i - 1], es[i - 1], l);
  }

  lemma {:induction false} StaysInactive(ss: seq<State>, es: seq<Event>, l: Id, i: nat, j: nat)
    requires Run(ss, es) && Initial(ss[0]) && i <= j <= |es| && l in ss[i].licenses && ss[i].licenses[l].status != Active
    requires forall k :: i <= k < j ==> !Unfreezes(ss[k], es[k], l)
    ensures l in ss[j].licenses && ss[j].licenses[l].status != Active
  {
    if i < j {
      StaysInactive(ss, es, l, i, j - 1);
      RunStaysInactive(ss, es, l, j);
    }
  }

  /** After an accepted freezing of a license or its card, no request mints a lease for it until an
      accepted unfreezing. */
  lemma FrozenMintsNothing(ss: seq<State>, es: seq<Event>, l: Id, i: nat, j: nat)
    requires Run(ss, es) && Initial(ss[0]) && i < j <= |es| && Freezes(ss[i], es[i], l)
    requires forall k :: i < k < j ==> !Unfreezes(ss[k], es[k], l)
    ensures NoneSince(ss[i + 1], ss[j], l) && l in ss[j].licenses && ss[j].licenses[l].status != Active
  {
    RunFreezes(ss, es, l, i);
    forall k | i + 1 <= k <= j ensures l in ss[k].licenses && ss[k].licenses[l].status != Active {
      StaysInactive(ss, es, l, i + 1, k);
    }
    InactiveMintsNothing(ss, es, l, i + 1, j);
  }
}
