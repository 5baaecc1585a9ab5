/**
 Paid time is conserved: over any run, what a license was granted is what it has used while it was
 unexpired plus what is left.
 */
module PaidTime {
  import opened Wrappers
  import opened Licensing
  import opened Consumption

  /** Time left on a license; a license without expiry has none to conserve. */
  function Remaining(s: State, l: Id): (r: int)
    ensures r >= 0
  {
    if l in s.licenses && s.licenses[l].expiresAt.Some? && s.licenses[l].expiresAt.value > s.now
    then s.licenses[l].expiresAt.value - s.now else 0
  }

  /** The part of a step's duration during which the license was unexpired. */
  function Elapsed(s: State, e: Event, l: Id): int {
    if e.Tick? then if e.dt < Remaining(s, l) then e.dt else Remaining(s, l) else 0
  }

  /** Days bought or given for license l in this step. */
  ghost function DaysAdded(s: State, e: Event, l: Id): int {
    match e
    case Redeem(pub, c, _, _) =>
      if Apply(s, e).1.Done? && HolderOf(s.devices, pub).Some? && HolderOf(s.devices, pub).value.license == l
         && c in s.cards && s.cards[c].plan in s.plans
      then s.plans[s.cards[c].plan].durationDays else 0
    case AdminExtendLicense(_, m, days) => if Apply(s, e).1.Done? && m == l then days else 0
    case _ => 0
  }

  /** The time a first activation grants: the plan's days, or the rest of a fixed term that began when
      the card was made. */
  function PlanGrant(plan: Plan, card: Card, now: int): int {
    match plan.kind
    case Duration => plan.durationDays * DAY
    case Fixed => plan.fixedExpiryDays * DAY - (now - card.createdAt)
    case _ => 0
  }

  ghost function GrantAt(s: State, r: Activation, t: State, l: Id): int {
    if l !in s.licenses && l in t.licenses && r.card in s.cards && s.cards[r.card].plan in s.plans
    then PlanGrant(s.plans[s.cards[r.card].plan], s.cards[r.card], s.now) else 0
  }

  ghost function InitialGrant(s: State, e: Event, l: Id): int {
    if e.Activate? then GrantAt(s, e.request, Next(s, e), l) else 0
  }

  ghost function Granted(s: State, e: Event, l: Id): int {
    InitialGrant(s, e, l) + DaysAdded(s, e, l) * DAY
  }

  // ----- one step -----

  /** License l is there before and after, with the same expiry. */
  predicate TermsKept(s: State, t: State, l: Id) {
    && (l in t.licenses <==> l in s.licenses)
    && (l in s.licenses && l in t.licenses ==> t.licenses[l].expiresAt == s.licenses[l].expiresAt)
  }

  ghost predicate SameTerms(s: State, t: State) {
    t.now == s.now && forall l :: TermsKept(s, t, l)
  }

  lemma SameRemaining(s: State, t: State, l: Id)
    requires SameTerms(s, t)
    ensures Remaining(t, l) == Remaining(s, l)
  {
    assert TermsKept(s, t, l);
  }

  lemma BatchTerms(s: State, r: BatchRequest)
    ensures SameTerms(s, CreateCardBatchStep(s, r).0)
  {
    BatchRows(s, r);
  }

  lemma HeartbeatTerms(s: State, pub: string, claimed: DeviceKey, rejected: Option<Error>, banned: bool,
                       version: string, versionBanned: bool, seat: Seat)
    ensures SameTerms(s, HeartbeatStep(s, pub, claimed, rejected, banned, version, versionBanned, seat).0)
  {
    HeartbeatOnlyMints(s, pub, claimed, rejected, banned, version, versionBanned, seat);
  }

  lemma CardActionTerms(s: State, caller: Caller, c: Id, action: Action)
    ensures SameTerms(s, CardActionStep(s, caller, c, action).0)
  {
  }

  lemma LicenseActionTerms(s: State, caller: Caller, l: Id, action: Action)
    ensures SameTerms(s, LicenseActionStep(s, caller, l, action).0)
  {
  }

  lemma UpdatePlanTerms(s: State, p: Id, changes: Plan)
    ensures SameTerms(s, UpdatePlanStep(s, p, changes).0)
  {
  }

  lemma PlanStatusTerms(s: State, p: Id, status: string)
    ensures SameTerms(s, PlanStatusStep(s, p, status).0)
  {
  }

  predicate SellsTime(e: Event) {
    e.Activate? || e.Redeem? || e.AdminExtendLicense? || e.Tick?
  }

  lemma ActionSteps(s: State, e: Event)
    requires e.CardAction? || e.LicenseAction? || e.UnbindDevice?
    ensures SameTerms(s, Next(s, e))
  {
    match e
    case CardAction(caller, c, action) =>
      assert Next(s, e) == CardActionStep(s, caller, c, action).0;
      CardActionTerms(s, caller, c, action);
    case LicenseAction(caller, l, action) =>
      assert Next(s, e) == LicenseActionStep(s, caller, l, action).0;
      LicenseActionTerms(s, caller, l, action);
    case _ =>
  }

  lemma CatalogSteps(s: State, e: Event)
    requires e.UpdatePlan? || e.PlanStatus? || e.DeletePlan? || e.CreateCardBatch? || e.AgentAdjustBalance?
    ensures SameTerms(s, Next(s, e))
  {
    match e
    case UpdatePlan(p, changes) =>
      assert Next(s, e) == UpdatePlanStep(s, p, changes).0;
      UpdatePlanTerms(s, p, changes);
    case PlanStatus(p, status) =>
      assert Next(s, e) == PlanStatusStep(s, p, status).0;
      PlanStatusTerms(s, p, status);
    case CreateCardBatch(r) =>
      assert Next(s, e) == CreateCardBatchStep(s, r).0;
      BatchTerms(s, r);
    case DeletePlan(p) => assert Next(s, e) == DeletePlanStep(s, p).0;
    case AgentAdjustBalance(a, amount) =>
      assert Next(s, e) == AdjustBalanceStep(s, a, amount).0;
      AdjustTouchesMoney(s, a, amount);
    case _ =>
  }

  lemma ClientSteps(s: State, e: Event)
    requires e.Heartbeat? || e.Deactivate? || e.UserBindCard?
    ensures SameTerms(s, Next(s, e))
  {
    match e
    case Heartbeat(pub, claimed, rejected, banned, version, versionBanned, seat) =>
      assert Next(s, e) == HeartbeatStep(s, pub, claimed, rejected, banned, version, versionBanned, seat).0;
      HeartbeatTerms(s, pub, claimed, rejected, banned, version, versionBanned, seat);
    case _ =>
  }

  lemma OtherSteps(s: State, e: Event)
    requires !SellsTime(e)
    ensures SameTerms(s, Next(s, e))
  {
    if e.Heartbeat? || e.Deactivate? || e.UserBindCard? {
      ClientSteps(s, e);
    } else if e.CardAction? || e.LicenseAction? || e.UnbindDevice? {
      ActionSteps(s, e);
    } else {
      CatalogSteps(s, e);
    }
  }

  lemma FirstActivationTime(s: State, r: Activation, card: Card, plan: Plan, l: Id)
    requires FirstActivation(s, r, card, plan).Ok? && ValidPlan(plan)
    ensures var t := FirstActivation(s, r, card, plan).value.state;
      && r.newLicense !in s.licenses && t.licenses.Keys == s.licenses.Keys + {r.newLicense}
      && Remaining(t, l) == Remaining(s, l) + if l == r.newLicense then PlanGrant(plan, card, s.now) else 0
  {
  }

  lemma ReactivationTerms(s: State, r: Activation, key: DeviceKey, lic: License, plan: Plan)
    requires key in s.devices && Reactivation(s, r, key, lic, plan).Ok?
    ensures SameTerms(s, Reactivation(s, r, key, lic, plan).value.state)
  {
  }

  lemma NewDeviceTerms(s: State, r: Activation, key: DeviceKey, lic: License, plan: Plan)
    requires key.license in s.licenses && s.licenses[key.license] == lic
    requires key !in s.devices && NewDevice(s, r, key, lic, plan).Ok?
    ensures SameTerms(s, NewDevice(s, r, key, lic, plan).value.state)
  {
  }

  /** A first activation adds one license with its plan's time; a later one changes no terms. */
  lemma TablesTime(s: State, r: Activation, l: Id)
    requires Consistent(s) && ActivateTables(s, r).Ok?
    ensures var t := ActivateTables(s, r).value.state; var card := s.cards[r.card];
      if card.status == Unused
      then && r.newLicense !in s.licenses && t.licenses.Keys == s.licenses.Keys + {r.newLicense}
           && Remaining(t, l) == Remaining(s, l) + if l == r.newLicense then PlanGrant(s.plans[card.plan], card, s.now) else 0
      else SameTerms(s, t)
  {
    var card := s.cards[r.card];
    assert CardOk(s, r.card) && PlanOk(s, card.plan);
    if card.status == Unused {
      FirstActivationTime(s, r, card, s.plans[card.plan], l);
    } else {
      var lic, key := s.licenses[card.license.value], DeviceKey(card.license.value, r.fingerprint);
      if key in s.devices {
        ReactivationTerms(s, r, key, lic, s.plans[card.plan]);
      } else {
        NewDeviceTerms(s, r, key, lic, s.plans[card.plan]);
      }
    }
  }

  /** Committing the tables, and perhaps a lease, is all an accepted activation does. */
  lemma ActivateCommits(s: State, r: Activation, rejected: Option<Error>, seat: Seat)
    ensures var t := ActivateStep(s, r, rejected, seat).0;
      if rejected.Some? || ActivateTables(s, r).Fail? then t == s
      else var mid := ActivateTables(s, r).value.state; t == mid.(leases := t.leases)
  {
  }

  lemma ActivateStepTime(s: State, r: Activation, rejected: Option<Error>, seat: Seat, l: Id)
    requires Consistent(s)
    ensures var t := ActivateStep(s, r, rejected, seat).0; Remaining(t, l) == Remaining(s, l) + GrantAt(s, r, t, l)
  {
    ActivateCommits(s, r, rejected, seat);
    if rejected.None? && ActivateTables(s, r).Ok? {
      TablesTime(s, r, l);
      if s.cards[r.card].status != Unused {
        SameRemaining(s, ActivateTables(s, r).value.state, l);
        assert TermsKept(s, ActivateTables(s, r).value.state, l);
      }
    }
  }

  lemma ActivationTime(s: State, e: Event, l: Id)
    requires Consistent(s) && e.Activate?
    ensures Remaining(Next(s, e), l) == Remaining(s, l) + InitialGrant(s, e, l)
  {
    assert Next(s, e) == ActivateStep(s, e.request, e.rejected, e.seat).0;
    ActivateStepTime(s, e.request, e.rejected, e.seat, l);
  }

  lemma ExtensionTime(s: State, t: State, m: Id, days: int, l: Id)
    requires m in s.licenses && days >= 0 && t.now == s.now
    requires t.licenses == s.licenses[m := s.licenses[m].(expiresAt := Some(Extended(s.licenses[m].expiresAt, s.now, days)))]
    ensures Remaining(t, l) == Remaining(s, l) + if l == m then days * DAY else 0
  {
  }

  /** What an accepted redemption does. */
  lemma RedeemDone(s: State, pub: string, c: Id, unreadable: Option<Error>, rejected: Option<Error>)
    ensures var (t, reply) := RedeemStep(s, pub, c, unreadable, rejected);
      if reply.Refused? then t == s
      else && HolderOf(s.devices, pub).Some? && c in s.cards && s.cards[c].plan in s.plans && t.now == s.now
           && var m, days := HolderOf(s.devices, pub).value.license, s.plans[s.cards[c].plan].durationDays;
           && days > 0 && m in s.licenses
           && t.licenses == s.licenses[m := s.licenses[m].(expiresAt := Some(Extended(s.licenses[m].expiresAt, s.now, days)))]
  {
  }

  lemma RedeemTime(s: State, e: Event, l: Id)
    requires e.Redeem?
    ensures Remaining(Next(s, e), l) == Remaining(s, l) + DaysAdded(s, e, l) * DAY
  {
    RedeemDone(s, e.pub, e.card, e.unreadable, e.rejected);
    if Apply(s, e).1.Done? {
      ExtensionTime(s, Next(s, e), HolderOf(s.devices, e.pub).value.license, s.plans[s.cards[e.card].plan].durationDays, l);
    }
  }

  lemma ExtendTime(s: State, e: Event, l: Id)
    requires e.AdminExtendLicense?
    ensures Remaining(Next(s, e), l) == Remaining(s, l) + DaysAdded(s, e, l) * DAY
  {
    if Apply(s, e).1.Done? {
      ExtensionTime(s, Next(s, e), e.license, e.days, l);
    }
  }

  lemma StepConserves(s: State, e: Event, l: Id)
    requires Consistent(s)
    ensures Remaining(Next(s, e), l) + Elapsed(s, e, l) == Remaining(s, l) + Granted(s, e, l)
  {
    if e.Activate? {
      ActivationTime(s, e, l);
    } else if e.Redeem? {
      RedeemTime(s, e, l);
    } else if e.AdminExtendLicense? {
      ExtendTime(s, e, l);
    } else if !e.Tick? {
      OtherSteps(s, e);
      SameRemaining(s, Next(s, e), l);
    }
  }

  // ----- whole runs -----

  ghost function TotalElapsed(ss: seq<State>, es: seq<Event>, l: Id, i: nat, j: nat): int
    requires |ss| == |es| + 1 && i <= j <= |es|
    decreases j
  {
    if i == j then 0 else TotalElapsed(ss, es, l, i, j - 1) + Elapsed(ss[j - 1], es[j - 1], l)
  }

  ghost function TotalGranted(ss: seq<State>, es: seq<Event>, l: Id, i: nat, j: nat): int
    requires |ss| == |es| + 1 && i <= j <= |es|
    decreases j
  {
    if i == j then 0 else TotalGranted(ss, es, l, i, j - 1) + Granted(ss[j - 1], es[j - 1], l)
  }

  lemma RunConserves(ss: seq<State>, es: seq<Event>, l: Id, i: nat)
    requires Run(ss, es) && Initial(ss[0]) && 0 < i <= |es|
    ensures Remaining(ss[i], l) + Elapsed(ss[i - 1], es[i - 1], l) == Remaining(ss[i - 1], l) + Granted(ss[i - 1], es[i - 1], l)
  {
    Reachable(ss, es, i - 1);
    StepConserves(ss[i - 1], es[i - 1], l);
  }

  /** Used plus left is what was there plus what was granted, between any two points of any run. */
  lemma {:induction false} TimeConserved(ss: seq<State>, es: seq<Event>, l: Id, i: nat, j: nat)
    requires Run(ss, es) && Initial(ss[0]) && i <= j <= |es|
    ensures TotalElapsed(ss, es, l, i, j) + Remaining(ss[j], l) == Remaining(ss[i], l) + TotalGranted(ss, es, l, i, j)
  {
    if i < j {
      TimeConserved(ss, es, l, i, j - 1);
      RunConserves(ss, es, l, j);
    }
  }

  /** This step extends license l, which has already lapsed. */
  ghost predicate Revives(s: State, e: Event, l: Id) {
    DaysAdded(s, e, l) != 0 && l in s.licenses && Expired(s.licenses[l], s.now)
  }

  ghost predicate NeverRevived(ss: seq<State>, es: seq<Event>, l: Id, i: nat, j: nat)
    requires |ss| == |es| + 1 && i <= j <= |es|
  {
    forall k :: i <= k < j ==> !Revives(ss[k], es[k], l)
  }

  ghost function TotalDays(ss: seq<State>, es: seq<Event>, l: Id, i: nat, j: nat): int
    requires |ss| == |es| + 1 && i <= j <= |es|
    decreases j
  {
    if i == j then 0 else TotalDays(ss, es, l, i, j - 1) + DaysAdded(ss[j - 1], es[j - 1], l)
  }

  /** The expiry in t is at least that many days later than in s, and exactly so unless l had lapsed. */
  ghost predicate Later(s: State, t: State, l: Id, days: int, revived: bool) {
    && l in s.licenses && l in t.licenses && s.licenses[l].expiresAt.Some? && t.licenses[l].expiresAt.Some?
    && var was, expiry := s.licenses[l].expiresAt.value, t.licenses[l].expiresAt.value;
    && expiry >= was + days * DAY && (expiry == was + days * DAY <==> !revived)
  }

  lemma ExtensionLater(s: State, t: State, m: Id, days: int, l: Id)
    requires m in s.licenses && days > 0 && l in s.licenses && s.licenses[l].expiresAt.Some?
    requires t.licenses == s.licenses[m := s.licenses[m].(expiresAt := Some(Extended(s.licenses[m].expiresAt, s.now, days)))]
    ensures Later(s, t, l, if l == m then days else 0, l == m && Expired(s.licenses[l], s.now))
  {
  }

  lemma RedeemExtends(s: State, e: Event, l: Id)
    requires l in s.licenses && s.licenses[l].expiresAt.Some? && e.Redeem?
    ensures Later(s, Next(s, e), l, DaysAdded(s, e, l), Revives(s, e, l))
  {
    RedeemDone(s, e.pub, e.card, e.unreadable, e.rejected);
    if Apply(s, e).1.Done? {
      ExtensionLater(s, Next(s, e), HolderOf(s.devices, e.pub).value.license, s.plans[s.cards[e.card].plan].durationDays, l);
    }
  }

  lemma AdminExtendDone(s: State, caller: Caller, m: Id, days: int)
    ensures var (t, reply) := AdminExtendStep(s, caller, m, days);
      if reply.Refused? then t == s
      else && m in s.licenses && days > 0
           && t == s.(licenses := s.licenses[m := s.licenses[m].(expiresAt := Some(Extended(s.licenses[m].expiresAt, s.now, days)))])
  {
  }

  lemma AdminExtends(s: State, e: Event, l: Id)
    requires l in s.licenses && s.licenses[l].expiresAt.Some? && e.AdminExtendLicense?
    ensures Later(s, Next(s, e), l, DaysAdded(s, e, l), Revives(s, e, l))
  {
    AdminExtendDone(s, e.caller, e.license, e.days);
    if Apply(s, e).1.Done? {
      ExtensionLater(s, Next(s, e), e.license, e.days, l);
    }
  }

  lemma StepExtends(s: State, e: Event, l: Id)
    requires Consistent(s) && l in s.licenses && s.licenses[l].expiresAt.Some?
    ensures Later(s, Next(s, e), l, DaysAdded(s, e, l), Revives(s, e, l))
  {
    if e.Redeem? {
      RedeemExtends(s, e, l);
    } else if e.AdminExtendLicense? {
      AdminExtends(s, e, l);
    } else if !e.Tick? {
      KeptExpiry(s, e, l);
    }
  }

  lemma KeptExpiry(s: State, e: Event, l: Id)
    requires Consistent(s) && l in s.licenses && !e.Redeem? && !e.AdminExtendLicense?
    ensures l in Next(s, e).licenses && Next(s, e).licenses[l].expiresAt == s.licenses[l].expiresAt
  {
    if e.Activate? {
      if e.rejected.None? && ActivateTables(s, e.request).Ok? {
        ActivationExpiry(s, e.request, l);
      }
    } else if !e.Tick? {
      OtherSteps(s, e);
      assert TermsKept(s, Next(s, e), l);
    }
  }

  lemma ActivationExpiry(s: State, r: Activation, l: Id)
    requires Consistent(s) && l in s.licenses && ActivateTables(s, r).Ok?
    ensures var t := ActivateTables(s, r).value.state; l in t.licenses && t.licenses[l].expiresAt == s.licenses[l].expiresAt
  {
    if s.cards[r.card].status != Unused {
      TablesTime(s, r, l);
      assert TermsKept(s, ActivateTables(s, r).value.state, l);
    }
  }

  lemma RunExtends(ss: seq<State>, es: seq<Event>, l: Id, i: nat)
    requires Run(ss, es) && Initial(ss[0]) && 0 < i <= |es|
    requires l in ss[i - 1].licenses && ss[i - 1].licenses[l].expiresAt.Some?
    ensures Later(ss[i - 1], ss[i], l, DaysAdded(ss[i - 1], es[i - 1], l), Revives(ss[i - 1], es[i - 1], l))
  {
    Reachable(ss, es, i - 1);
    StepExtends(ss[i - 1], es[i - 1], l);
  }

  lemma LaterStill(s: State, t: State, u: State, l: Id, d: int, e: int, r: bool, r': bool)
    requires Later(s, t, l, d, r) && Later(t, u, l, e, r')
    ensures Later(s, u, l, d + e, r || r')
  {
  }

  lemma RevivedYet(ss: seq<State>, es: seq<Event>, l: Id, i: nat, j: nat)
    requires |ss| == |es| + 1 && i < j <= |es|
    ensures NeverRevived(ss, es, l, i, j) <==> NeverRevived(ss, es, l, i, j - 1) && !Revives(ss[j - 1], es[j - 1], l)
  {
  }

  /** The expiry is the first one plus all days added, in any order, exactly when no extension came
      after a lapse; otherwise it is later. */
  lemma {:induction false} ExpiryIsSum(ss: seq<State>, es: seq<Event>, l: Id, i: nat, j: nat)
    requires Run(ss, es) && Initial(ss[0]) && i <= j <= |es|
    requires l in ss[i].licenses && ss[i].licenses[l].expiresAt.Some?
    ensures Later(ss[i], ss[j], l, TotalDays(ss, es, l, i, j), !NeverRevived(ss, es, l, i, j))
  {
    if i < j {
      ExpiryIsSum(ss, es, l, i, j - 1);
      RunExtends(ss, es, l, j);
      RevivedYet(ss, es, l, i, j);
      LaterStill(ss[i], ss[j - 1], ss[j], l, TotalDays(ss, es, l, i, j - 1), DaysAdded(ss[j - 1], es[j - 1], l),
                 !NeverRevived(ss, es, l, i, j - 1), Revives(ss[j - 1], es[j - 1], l));
    }
  }
}
