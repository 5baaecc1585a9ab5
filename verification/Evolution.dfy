/**
 What a request may change about the rows that were there before it, and what no sequence of
 requests ever changes: consumed cards stay consumed by the same consumer, revoked and voided stay
 revoked and voided, histories only grow.
 */
module Evolution {
  import opened Wrappers
  import opened Licensing
  import opened Consumption

  predicate Consumed(s: State, c: Id) {
    c in s.cards && (s.cards[c].license.Some? || s.cards[c].usedBy.Some? || Renewed(s.renewals, c))
  }

  predicate Kept(s: State, c: Id)
    requires c in s.cards
  {
    Consumed(s, c) || s.cards[c].status.Terminal() || s.cards[c].status == Depleted
  }

  /** A consumed card keeps its consumer, a revoked, voided or depleted card its status; none is deleted,
      and a card with a license is never depleted later. */
  predicate CardEvolves(s: State, t: State, c: Id)
    requires c in s.cards
  {
    && (Consumed(s, c) ==>
          && c in t.cards && t.cards[c].license == s.cards[c].license && t.cards[c].usedBy == s.cards[c].usedBy
          && (Renewed(s.renewals, c) <==> Renewed(t.renewals, c)))
    && (s.cards[c].status.Terminal() || s.cards[c].status == Depleted ==>
          c in t.cards && t.cards[c].status == s.cards[c].status)
    && (s.cards[c].license.Some? ==> c in t.cards && (t.cards[c].status == Depleted <==> s.cards[c].status == Depleted))
  }

  /** A license keeps its origin and plan; its policy version grows whenever its plan row changes. */
  predicate LicenseEvolves(s: State, t: State, l: Id)
    requires l in s.licenses
  {
    && l in t.licenses && s.licenses[l].plan in s.plans
    && var was, lic := s.licenses[l], t.licenses[l];
    && lic.originCard == was.originCard && lic.plan == was.plan && lic.product == was.product
    && (was.status.Terminal() ==> lic.status == was.status)
    && (was.expiresAt.Some? ==> lic.expiresAt.Some?)
    && (was.usesLeft.Some? <==> lic.usesLeft.Some?)
    && was.plan in t.plans && t.plans[was.plan].kind == s.plans[was.plan].kind
    && was.policyVersion <= lic.policyVersion
    && (lic.policyVersion == was.policyVersion ==> t.plans[was.plan] == s.plans[was.plan])
  }

  ghost predicate Evolves(s: State, t: State)
    requires Consistent(s)
  {
    && (forall c {:trigger CardEvolves(s, t, c)} :: c in s.cards ==> CardEvolves(s, t, c))
    && (forall l {:trigger LicenseEvolves(s, t, l)} :: l in s.licenses ==> LicenseOk(s, l) && LicenseEvolves(s, t, l))
    && s.devices.Keys <= t.devices.Keys && s.now <= t.now
    && s.leases <= t.leases && s.renewals <= t.renewals && s.ledger <= t.ledger
  }

  lemma EvolvesTransitive(s: State, t: State, u: State)
    requires Consistent(s) && Consistent(t) && Evolves(s, t) && Evolves(t, u)
    ensures Evolves(s, u)
  {
    forall c | c in s.cards ensures CardEvolves(s, u, c) {
      assert CardEvolves(s, t, c);
      assert c in t.cards ==> CardEvolves(t, u, c);
    }
    forall l | l in s.licenses ensures LicenseOk(s, l) && LicenseEvolves(s, u, l) {
      assert LicenseEvolves(s, t, l) && LicenseEvolves(t, u, l);
    }
  }

  // ----- each way of changing the tables -----

  lemma SameCards(s: State, t: State)
    requires t.cards == s.cards && t.renewals == s.renewals
    ensures forall c :: c in s.cards ==> CardEvolves(s, t, c)
  {
  }

  lemma SameLicenses(s: State, t: State)
    requires Consistent(s) && t.plans == s.plans && forall l :: l in s.licenses ==> l in t.licenses && t.licenses[l] == s.licenses[l]
    ensures forall l :: l in s.licenses ==> LicenseOk(s, l) && LicenseEvolves(s, t, l)
  {
    forall l | l in s.licenses ensures LicenseOk(s, l) && LicenseEvolves(s, t, l) {
      assert LicenseOk(s, l);
    }
  }

  /** Only cards that nobody consumed and that are in no final status change or go. */
  lemma LooseCards(s: State, t: State)
    requires t.renewals == s.renewals
    requires forall c :: c in s.cards && Kept(s, c) ==> c in t.cards && t.cards[c] == s.cards[c]
    ensures forall c :: c in s.cards ==> CardEvolves(s, t, c)
  {
  }

  lemma LicenseRowEvolves(s: State, t: State, l: Id, lic: License)
    requires Consistent(s) && l in s.licenses && t.plans == s.plans && t.licenses == s.licenses[l := lic]
    requires var was := s.licenses[l];
      && lic.originCard == was.originCard && lic.plan == was.plan && lic.product == was.product
      && (was.status.Terminal() ==> lic.status == was.status)
      && (was.expiresAt.Some? ==> lic.expiresAt.Some?) && (was.usesLeft.Some? <==> lic.usesLeft.Some?)
      && lic.policyVersion == was.policyVersion
    ensures forall m :: m in s.licenses ==> LicenseOk(s, m) && LicenseEvolves(s, t, m)
  {
    forall m | m in s.licenses ensures LicenseOk(s, m) && LicenseEvolves(s, t, m) {
      assert LicenseOk(s, m);
    }
  }

  lemma PlanRowEvolves(s: State, t: State, p: Id, plan: Plan)
    requires Consistent(s) && p in s.plans && t == s.(plans := s.plans[p := plan], licenses := Touched(s.licenses, p))
    requires plan.kind == s.plans[p].kind
    ensures Evolves(s, t)
  {
    SameCards(s, t);
    forall m | m in s.licenses ensures LicenseOk(s, m) && LicenseEvolves(s, t, m) {
      assert LicenseOk(s, m);
    }
  }

  // ----- each request -----

  lemma FirstActivationEvolves(s: State, r: Activation)
    requires Consistent(s) && r.card in s.cards && s.cards[r.card].status == Unused
    requires var card := s.cards[r.card]; card.plan in s.plans && FirstActivation(s, r, card, s.plans[card.plan]).Ok?
    ensures var card := s.cards[r.card]; Evolves(s, FirstActivation(s, r, card, s.plans[card.plan]).value.state)
  {
    var t := FirstActivation(s, r, s.cards[r.card], s.plans[s.cards[r.card].plan]).value.state;
    assert CardOk(s, r.card);
    LooseCards(s, t);
    SameLicenses(s, t);
  }

  lemma NewDeviceEvolves(s: State, r: Activation, key: DeviceKey, lic: License, plan: Plan)
    requires Consistent(s) && key !in s.devices && key.license in s.licenses && s.licenses[key.license] == lic
    requires lic.plan in s.plans && s.plans[lic.plan] == plan && NewDevice(s, r, key, lic, plan).Ok?
    ensures Evolves(s, NewDevice(s, r, key, lic, plan).value.state)
  {
    var t := NewDevice(s, r, key, lic, plan).value.state;
    SameCards(s, t);
    assert LicenseOk(s, key.license);
    assert s.licenses[key.license := lic] == s.licenses;
    LicenseRowEvolves(s, t, key.license, t.licenses[key.license]);
  }

  lemma DevicesEvolve(s: State, t: State)
    requires Consistent(s) && t == s.(devices := t.devices) && s.devices.Keys <= t.devices.Keys
    ensures Evolves(s, t)
  {
    SameCards(s, t);
    SameLicenses(s, t);
  }

  lemma LeasesEvolve(s: State, t: State)
    requires Consistent(s) && t == s.(leases := t.leases) && s.leases <= t.leases
    ensures Evolves(s, t)
  {
    SameCards(s, t);
    SameLicenses(s, t);
  }

  lemma ActivateEvolves(s: State, r: Activation)
    requires Consistent(s) && ActivateTables(s, r).Ok?
    ensures Evolves(s, ActivateTables(s, r).value.state)
  {
    var card := s.cards[r.card];
    var plan := s.plans[card.plan];
    if card.status == Unused {
      FirstActivationEvolves(s, r);
    } else {
      var l := card.license.value;
      var lic, key := s.licenses[l], DeviceKey(l, r.fingerprint);
      assert CardOk(s, r.card) && LicenseOk(s, l);
      if key in s.devices {
        DevicesEvolve(s, Reactivation(s, r, key, lic, plan).value.state);
      } else {
        NewDeviceEvolves(s, r, key, lic, plan);
      }
    }
  }

  lemma ActivateStepEvolves(s: State, r: Activation, rejected: Option<Error>, seat: Seat)
    requires Consistent(s)
    ensures Evolves(s, ActivateStep(s, r, rejected, seat).0)
  {
    if rejected.None? && ActivateTables(s, r).Ok? {
      var mid := ActivateTables(s, r).value.state;
      ActivateKeeps(s, r);
      ActivateEvolves(s, r);
      LeasesEvolve(mid, ActivateStep(s, r, rejected, seat).0);
      EvolvesTransitive(s, mid, ActivateStep(s, r, rejected, seat).0);
    } else {
      DevicesEvolve(s, s);
    }
  }

  lemma RenewalEvolves(s: State, t: State, l: Id, c: Id, r: Renewal, expiry: int)
    requires Consistent(s) && l in s.licenses && c in s.cards && s.cards[c].status == Unused && r.card == c
    requires t == s.(licenses := s.licenses[l := s.licenses[l].(expiresAt := Some(expiry))],
                     cards := s.cards[c := s.cards[c].(status := Depleted)], renewals := s.renewals + [r])
    ensures Evolves(s, t)
  {
    forall d | d in s.cards ensures CardEvolves(s, t, d) {
      assert CardOk(s, d);
      RenewedBy(s.renewals, r, d);
    }
    LicenseRowEvolves(s, t, l, t.licenses[l]);
  }

  lemma RedeemStepEvolves(s: State, pub: string, c: Id, unreadable: Option<Error>, rejected: Option<Error>)
    requires Consistent(s)
    ensures Evolves(s, RedeemStep(s, pub, c, unreadable, rejected).0)
  {
    var t := RedeemStep(s, pub, c, unreadable, rejected).0;
    DevicesEvolve(s, s);
    if unreadable.None? && HolderOf(s.devices, pub).Some? && rejected.None? {
      var key := HolderOf(s.devices, pub).value;
      if RedeemTables(s, key, c).Ok? {
        var mid := RedeemTables(s, key, c).value;
        var l, r := key.license, mid.renewals[|s.renewals|];
        RenewalRows(s, mid, l, c, r, mid.licenses[l].expiresAt.value);
        RenewalEvolves(s, mid, l, c, r, mid.licenses[l].expiresAt.value);
        LeasesEvolve(mid, t);
        EvolvesTransitive(s, mid, t);
      }
    }
  }

  lemma UserBindCardEvolves(s: State, u: Id, c: Id, badToken: bool, rejected: Option<Error>)
    requires Consistent(s)
    ensures Evolves(s, UserBindCardStep(s, u, c, badToken, rejected).0)
  {
    var t := UserBindCardStep(s, u, c, badToken, rejected).0;
    if t != s {
      assert CardOk(s, c);
    }
    LooseCards(s, t);
    SameLicenses(s, t);
  }

  lemma CardActionEvolves(s: State, caller: Caller, c: Id, action: Action)
    requires Consistent(s)
    ensures Evolves(s, CardActionStep(s, caller, c, action).0)
  {
    var t := CardActionStep(s, caller, c, action).0;
    if t == s {
      DevicesEvolve(s, t);
    } else {
      assert CardOk(s, c);
      CardRowEvolves(s, t, c, CardStatusAfter(s.cards[c], action));
      if s.cards[c].license.Some? {
        var l := s.cards[c].license.value;
        LicenseRowEvolves(s, t, l, t.licenses[l]);
      } else {
        SameLicenses(s, t);
      }
    }
  }

  /** One card changes from a status that is not final. */
  lemma CardRowEvolves(s: State, t: State, c: Id, to: Status)
    requires c in s.cards && !s.cards[c].status.Terminal() && s.cards[c].status != Depleted && to != Depleted
    requires t.cards == s.cards[c := s.cards[c].(status := to)] && t.renewals == s.renewals
    ensures forall d :: d in s.cards ==> CardEvolves(s, t, d)
  {
  }

  lemma LicenseActionEvolves(s: State, caller: Caller, l: Id, action: Action)
    requires Consistent(s)
    ensures Evolves(s, LicenseActionStep(s, caller, l, action).0)
  {
    var t := LicenseActionStep(s, caller, l, action).0;
    if t == s {
      DevicesEvolve(s, t);
    } else {
      assert LicenseOk(s, l);
      if action == Revoke || action == Void {
        CardRowEvolves(s, t, s.licenses[l].originCard, Verdict(action));
      } else {
        SameCards(s, t);
      }
      LicenseRowEvolves(s, t, l, t.licenses[l]);
    }
  }

  lemma AdminExtendEvolves(s: State, caller: Caller, l: Id, days: int)
    requires Consistent(s)
    ensures Evolves(s, AdminExtendStep(s, caller, l, days).0)
  {
    var t := AdminExtendStep(s, caller, l, days).0;
    if t == s {
      DevicesEvolve(s, t);
    } else {
      SameCards(s, t);
      LicenseRowEvolves(s, t, l, t.licenses[l]);
    }
  }

  lemma UpdatePlanEvolves(s: State, p: Id, changes: Plan)
    requires Consistent(s)
    ensures Evolves(s, UpdatePlanStep(s, p, changes).0)
  {
    var t := UpdatePlanStep(s, p, changes).0;
    if t == s {
      DevicesEvolve(s, t);
    } else {
      PlanRowEvolves(s, t, p, Merged(s.plans[p], changes));
    }
  }

  lemma PlanStatusEvolves(s: State, p: Id, status: string)
    requires Consistent(s)
    ensures Evolves(s, PlanStatusStep(s, p, status).0)
  {
    var t := PlanStatusStep(s, p, status).0;
    if t == s {
      DevicesEvolve(s, t);
    } else {
      PlanRowEvolves(s, t, p, t.plans[p]);
    }
  }

  lemma DeletePlanEvolves(s: State, p: Id)
    requires Consistent(s)
    ensures Evolves(s, DeletePlanStep(s, p).0)
  {
    var t := DeletePlanStep(s, p).0;
    if t == s {
      DevicesEvolve(s, t);
    } else {
      forall c | c in s.cards && Kept(s, c) ensures c in t.cards && t.cards[c] == s.cards[c] {
        assert CardOk(s, c);
      }
      LooseCards(s, t);
      forall m | m in s.licenses ensures LicenseOk(s, m) && LicenseEvolves(s, t, m) {
        assert LicenseOk(s, m);
      }
    }
  }

  lemma CreateCardBatchEvolves(s: State, r: BatchRequest)
    requires Consistent(s)
    ensures Evolves(s, CreateCardBatchStep(s, r).0)
  {
    BatchRows(s, r);
    BatchLedger(s, r);
    var t := CreateCardBatchStep(s, r).0;
    if t == s {
      DevicesEvolve(s, t);
    } else {
      LooseCards(s, t);
      SameLicenses(s, t);
    }
  }

  lemma BatchLedger(s: State, r: BatchRequest)
    ensures s.ledger <= CreateCardBatchStep(s, r).0.ledger
  {
  }

  lemma HeartbeatEvolves(s: State, pub: string, claimed: DeviceKey, rejected: Option<Error>, banned: bool,
                         version: string, versionBanned: bool, seat: Seat)
    requires Consistent(s)
    ensures Evolves(s, HeartbeatStep(s, pub, claimed, rejected, banned, version, versionBanned, seat).0)
  {
    HeartbeatOnlyMints(s, pub, claimed, rejected, banned, version, versionBanned, seat);
    LeasesEvolve(s, HeartbeatStep(s, pub, claimed, rejected, banned, version, versionBanned, seat).0);
  }

  lemma AdjustBalanceEvolves(s: State, a: Id, amount: int)
    requires Consistent(s)
    ensures Evolves(s, AdjustBalanceStep(s, a, amount).0)
  {
    AdjustTouchesMoney(s, a, amount);
    SameCards(s, AdjustBalanceStep(s, a, amount).0);
    SameLicenses(s, AdjustBalanceStep(s, a, amount).0);
  }

  lemma TickEvolves(s: State, dt: nat)
    requires Consistent(s)
    ensures Evolves(s, s.(now := s.now + dt))
  {
    SameCards(s, s.(now := s.now + dt));
    SameLicenses(s, s.(now := s.now + dt));
  }

  lemma DeactivateEvolves(s: State, pub: string, rejected: Option<Error>)
    requires Consistent(s)
    ensures Evolves(s, DeactivateStep(s, pub, rejected).0)
  {
    DevicesEvolve(s, DeactivateStep(s, pub, rejected).0);
  }

  lemma UnbindDeviceEvolves(s: State, caller: Caller, key: DeviceKey)
    requires Consistent(s)
    ensures Evolves(s, UnbindDeviceStep(s, caller, key).0)
  {
    DevicesEvolve(s, UnbindDeviceStep(s, caller, key).0);
  }

  /** Requests of clients, and passing time. */
  predicate FromClient(e: Event) {
    e.Tick? || e.Activate? || e.Heartbeat? || e.Redeem? || e.Deactivate? || e.UserBindCard?
  }

  lemma ClientStepEvolves(s: State, e: Event)
    requires Consistent(s) && FromClient(e)
    ensures Evolves(s, Next(s, e))
  {
    match e
    case Tick(dt) => TickEvolves(s, dt);
    case Activate(r, rejected, seat) =>
      assert Next(s, e) == ActivateStep(s, r, rejected, seat).0;
      ActivateStepEvolves(s, r, rejected, seat);
    case Heartbeat(pub, claimed, rejected, banned, version, versionBanned, seat) =>
      assert Next(s, e) == HeartbeatStep(s, pub, claimed, rejected, banned, version, versionBanned, seat).0;
      HeartbeatEvolves(s, pub, claimed, rejected, banned, version, versionBanned, seat);
    case Redeem(pub, c, unreadable, rejected) =>
      assert Next(s, e) == RedeemStep(s, pub, c, unreadable, rejected).0;
      RedeemStepEvolves(s, pub, c, unreadable, rejected);
    case Deactivate(pub, rejected) =>
      assert Next(s, e) == DeactivateStep(s, pub, rejected).0;
      DeactivateEvolves(s, pub, rejected);
    case UserBindCard(u, c, badToken, rejected) =>
      assert Next(s, e) == UserBindCardStep(s, u, c, badToken, rejected).0;
      UserBindCardEvolves(s, u, c, badToken, rejected);
    case _ =>
  }

  lemma CatalogStepEvolves(s: State, e: Event)
    requires Consistent(s)
    requires e.CreateCardBatch? || e.AgentAdjustBalance? || e.DeletePlan?
    ensures Evolves(s, Next(s, e))
  {
    match e
    case DeletePlan(p) =>
      assert Next(s, e) == DeletePlanStep(s, p).0;
      DeletePlanEvolves(s, p);
    case CreateCardBatch(r) =>
      assert Next(s, e) == CreateCardBatchStep(s, r).0;
      CreateCardBatchEvolves(s, r);
    case AgentAdjustBalance(a, amount) =>
      assert Next(s, e) == AdjustBalanceStep(s, a, amount).0;
      AdjustBalanceEvolves(s, a, amount);
    case _ =>
  }

  lemma PlanStepEvolves(s: State, e: Event)
    requires Consistent(s) && (e.UpdatePlan? || e.PlanStatus?)
    ensures Evolves(s, Next(s, e))
  {
    match e
    case UpdatePlan(p, changes) =>
      assert Next(s, e) == UpdatePlanStep(s, p, changes).0;
      UpdatePlanEvolves(s, p, changes);
    case PlanStatus(p, status) =>
      assert Next(s, e) == PlanStatusStep(s, p, status).0;
      PlanStatusEvolves(s, p, status);
    case _ =>
  }

  lemma ActionStepEvolves(s: State, e: Event)
    requires Consistent(s) && (e.CardAction? || e.LicenseAction? || e.UnbindDevice? || e.AdminExtendLicense?)
    ensures Evolves(s, Next(s, e))
  {
    match e
    case CardAction(caller, c, action) =>
      assert Next(s, e) == CardActionStep(s, caller, c, action).0;
      CardActionEvolves(s, caller, c, action);
    case LicenseAction(caller, l, action) =>
      assert Next(s, e) == LicenseActionStep(s, caller, l, action).0;
      LicenseActionEvolves(s, caller, l, action);
    case UnbindDevice(caller, key) =>
      assert Next(s, e) == UnbindDeviceStep(s, caller, key).0;
      UnbindDeviceEvolves(s, caller, key);
    case AdminExtendLicense(caller, l, days) =>
      assert Next(s, e) == AdminExtendStep(s, caller, l, days).0;
      AdminExtendEvolves(s, caller, l, days);
    case _ =>
  }

  lemma StepEvolves(s: State, e: Event)
    requires Consistent(s)
    ensures Evolves(s, Next(s, e))
  {
    if FromClient(e) {
      ClientStepEvolves(s, e);
    } else if e.CardAction? || e.LicenseAction? || e.UnbindDevice? || e.AdminExtendLicense? {
      ActionStepEvolves(s, e);
    } else if e.UpdatePlan? || e.PlanStatus? {
      PlanStepEvolves(s, e);
    } else {
      CatalogStepEvolves(s, e);
    }
  }

  lemma NextEvolves(s: State, e: Event, t: State)
    requires Consistent(s) && t == Next(s, e)
    ensures Evolves(s, t)
  {
    StepEvolves(s, e);
  }

  lemma RunNextEvolves(ss: seq<State>, es: seq<Event>, i: nat)
    requires Run(ss, es) && 0 < i <= |es| && Consistent(ss[i - 1])
    ensures Evolves(ss[i - 1], ss[i])
  {
    NextEvolves(ss[i - 1], es[i - 1], ss[i]);
  }

  lemma RunStepEvolves(ss: seq<State>, es: seq<Event>, i: nat)
    requires Run(ss, es) && Initial(ss[0]) && 0 < i <= |es|
    ensures Consistent(ss[i - 1]) && Consistent(ss[i]) && Evolves(ss[i - 1], ss[i])
  {
    Reachable(ss, es, i - 1);
    Reachable(ss, es, i);
    RunNextEvolves(ss, es, i);
  }

  /** Between any two states of a run. */
  lemma {:induction false} RunEvolves(ss: seq<State>, es: seq<Event>, i: nat, j: nat)
    requires Run(ss, es) && Initial(ss[0]) && i <= j <= |es|
    ensures Consistent(ss[i]) && Consistent(ss[j]) && Evolves(ss[i], ss[j])
  {
    if i == j {
      Reachable(ss, es, i);
      DevicesEvolve(ss[i], ss[i]);
    } else {
      RunEvolves(ss, es, i, j - 1);
      RunStepEvolves(ss, es, j);
      EvolvesTransitive(ss[i], ss[j - 1], ss[j]);
    }
  }

  // ----- single consumption -----

  /** In every reachable state a card has at most one consumer, none if it is unused; card.license and
      originCard are inverse; and no card has two renewal rows. */
  lemma SingleConsumption(ss: seq<State>, es: seq<Event>, i: nat, c: Id)
    requires Run(ss, es) && Initial(ss[0]) && i <= |es| && c in ss[i].cards
    ensures var s := ss[i]; var card := s.cards[c];
      && !(card.license.Some? && card.usedBy.Some?) && !(card.license.Some? && Renewed(s.renewals, c))
      && !(card.usedBy.Some? && Renewed(s.renewals, c))
      && (card.status == Unused ==> !Consumed(s, c))
      && (forall l :: card.license == Some(l) <==> l in s.licenses && s.licenses[l].originCard == c)
      && (forall m, n :: 0 <= m < n < |s.renewals| ==> s.renewals[m].card != s.renewals[n].card)
  {
    var s := ss[i];
    Reachable(ss, es, i);
    assert CardOk(s, c);
    forall l | l in s.licenses && s.licenses[l].originCard == c ensures s.cards[c].license == Some(l) {
      assert LicenseOk(s, l);
    }
    forall m, n | 0 <= m < n < |s.renewals| ensures s.renewals[m].card != s.renewals[n].card {
      assert RenewalOk(s, n);
    }
  }

  /** A consumed card is there in every later state, with the same consumer, and never unused again. */
  lemma ConsumedForever(ss: seq<State>, es: seq<Event>, i: nat, j: nat, c: Id)
    requires Run(ss, es) && Initial(ss[0]) && i <= j <= |es| && Consumed(ss[i], c)
    ensures Consumed(ss[j], c) && ss[j].cards[c].status != Unused
    ensures ss[j].cards[c].license == ss[i].cards[c].license && ss[j].cards[c].usedBy == ss[i].cards[c].usedBy
    ensures Renewed(ss[j].renewals, c) <==> Renewed(ss[i].renewals, c)
  {
    RunEvolves(ss, es, i, j);
    assert CardEvolves(ss[i], ss[j], c);
    assert CardOk(ss[j], c);
  }

  /** So at most one step of a run consumes a given card. */
  lemma ConsumedOnce(ss: seq<State>, es: seq<Event>, i: nat, j: nat, c: Id)
    requires Run(ss, es) && Initial(ss[0]) && i < |es| && j < |es|
    requires !Consumed(ss[i], c) && Consumed(ss[i + 1], c) && !Consumed(ss[j], c) && Consumed(ss[j + 1], c)
    ensures i == j
  {
    if i < j {
      ConsumedForever(ss, es, i + 1, j, c);
    }
    if j < i {
      ConsumedForever(ss, es, j + 1, i, c);
    }
  }

  // ----- terminal states -----

  /** A license and its card are revoked together and voided together, in every reachable state. */
  lemma TerminalLockstep(ss: seq<State>, es: seq<Event>, i: nat, l: Id)
    requires Run(ss, es) && Initial(ss[0]) && i <= |es| && l in ss[i].licenses
    ensures var s := ss[i]; var lic := s.licenses[l];
      && lic.originCard in s.cards
      && (s.cards[lic.originCard].status == Revoked <==> lic.status == Revoked)
      && (s.cards[lic.originCard].status == Voided <==> lic.status == Voided)
  {
    Reachable(ss, es, i);
    assert LicenseOk(ss[i], l);
  }

  /** Revoked and voided absorb every later step. */
  lemma TerminalForever(ss: seq<State>, es: seq<Event>, i: nat, j: nat, l: Id)
    requires Run(ss, es) && Initial(ss[0]) && i <= j <= |es|
    requires l in ss[i].licenses && ss[i].licenses[l].status.Terminal()
    ensures l in ss[j].licenses && ss[j].licenses[l].status == ss[i].licenses[l].status
    ensures ss[j].licenses[l].originCard == ss[i].licenses[l].originCard
    ensures var c := ss[j].licenses[l].originCard; c in ss[j].cards && ss[j].cards[c].status == ss[i].licenses[l].status
  {
    RunEvolves(ss, es, i, j);
    assert LicenseEvolves(ss[i], ss[j], l);
    TerminalLockstep(ss, es, j, l);
  }

  /** For every caller that may see it, revoking a license takes effect exactly when neither it nor its
      card is in a final status, and so does revoking its card: a depleted card shields its license. */
  lemma RevocationEffective(s: State, caller: Caller, l: Id, action: Action)
    requires Consistent(s) && l in s.licenses && (action == Revoke || action == Void)
    ensures LicenseOk(s, l)
    ensures !AgentDenied(caller, s.licenses[l].agent) ==>
              (LicenseActionStep(s, caller, l, action).1.Done? <==>
                !s.licenses[l].status.Terminal() && s.cards[s.licenses[l].originCard].status != Depleted)
    ensures !AgentDenied(caller, s.cards[s.licenses[l].originCard].agent) ==>
              (CardActionStep(s, caller, s.licenses[l].originCard, action).1.Done? <==>
                !s.licenses[l].status.Terminal() && s.cards[s.licenses[l].originCard].status != Depleted)
  {
    assert LicenseOk(s, l);
  }

  /** And once its card is depleted, no sequence of requests ever revokes or voids a license. */
  lemma DepletedShields(ss: seq<State>, es: seq<Event>, i: nat, j: nat, l: Id)
    requires Run(ss, es) && Initial(ss[0]) && i <= j <= |es| && l in ss[i].licenses
    requires ss[i].licenses[l].originCard in ss[i].cards && ss[i].cards[ss[i].licenses[l].originCard].status == Depleted
    ensures l in ss[j].licenses && !ss[j].licenses[l].status.Terminal()
  {
    RunEvolves(ss, es, i, j);
    var c := ss[i].licenses[l].originCard;
    assert CardEvolves(ss[i], ss[j], c) && LicenseEvolves(ss[i], ss[j], l);
    TerminalLockstep(ss, es, j, l);
  }
}
