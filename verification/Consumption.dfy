/**
 What every reachable state of the tables satisfies: rows refer to each other in both directions, a
 card is consumed at most once and for one purpose, and a card and its license are revoked or voided
 together.
 */
module Consumption {
  import opened Wrappers
  import opened Licensing

  predicate Renewed(renewals: seq<Renewal>, c: Id) {
    exists i :: 0 <= i < |renewals| && renewals[i].card == c
  }

  predicate PlanOk(s: State, p: Id)
    requires p in s.plans
  {
    ValidPlan(s.plans[p]) && StorablePlan(s.plans[p]) && s.plans[p].product in s.products
  }

  /** A card has at most one of a license, a user and a renewal, and its status says whether it has any. */
  predicate CardOk(s: State, c: Id)
    requires c in s.cards
  {
    var card := s.cards[c];
    && card.plan in s.plans && card.product in s.products
    && (card.license.Some? ==> card.license.value in s.licenses && s.licenses[card.license.value].originCard == c)
    && (card.license.Some? ==> card.usedBy.None? && !Renewed(s.renewals, c))
    && (card.usedBy.Some? ==> card.status == Depleted && !Renewed(s.renewals, c))
    && (Renewed(s.renewals, c) ==> card.status == Depleted)
    && (card.activatedAt.Some? <==> card.license.Some? || card.usedBy.Some?)
    && (card.status == Unused ==> card.activatedAt.None?)
    && (card.status == Active ==> card.license.Some?)
  }

  /** The license and the card it came from name each other, share a plan, and are terminal together. */
  predicate LicenseOk(s: State, l: Id)
    requires l in s.licenses
  {
    var lic := s.licenses[l];
    && lic.plan in s.plans && lic.originCard in s.cards
    && lic.status in {Active, Frozen, Revoked, Voided}
    && (lic.usesLeft.Some? <==> s.plans[lic.plan].kind.Uses?)
    && (lic.usesLeft.Some? ==> lic.usesLeft.value >= 0)
    && var card := s.cards[lic.originCard];
    && card.license == Some(l) && card.plan == lic.plan
    && (card.status == Revoked <==> lic.status == Revoked)
    && (card.status == Voided <==> lic.status == Voided)
  }

  predicate RenewalOk(s: State, i: nat)
    requires i < |s.renewals|
  {
    && s.renewals[i].card in s.cards
    && forall j :: 0 <= j < i ==> s.renewals[j].card != s.renewals[i].card
  }

  ghost predicate Consistent(s: State) {
    && (forall p {:trigger PlanOk(s, p)} :: p in s.plans ==> PlanOk(s, p))
    && (forall c {:trigger CardOk(s, c)} :: c in s.cards ==> CardOk(s, c))
    && (forall l {:trigger LicenseOk(s, l)} :: l in s.licenses ==> LicenseOk(s, l))
    && (forall k :: k in s.devices ==> k.license in s.licenses)
    && (forall i {:trigger RenewalOk(s, i)} :: 0 <= i < |s.renewals| ==> RenewalOk(s, i))
  }

  // ----- each way of changing the tables -----

  lemma OtherRows(s: State, t: State)
    requires Consistent(s)
    requires t.plans == s.plans && t.products == s.products && t.cards == s.cards && t.licenses == s.licenses
    requires t.renewals == s.renewals && forall k :: k in t.devices ==> k.license in s.licenses
    ensures Consistent(t)
  {
    forall p | p in t.plans ensures PlanOk(t, p) { assert PlanOk(s, p); }
    forall c | c in t.cards ensures CardOk(t, c) { assert CardOk(s, c); }
    forall l | l in t.licenses ensures LicenseOk(t, l) { assert LicenseOk(s, l); }
    forall i | 0 <= i < |t.renewals| ensures RenewalOk(t, i) { assert RenewalOk(s, i); }
  }

  /** A license row changed without touching what other rows say about it. */
  lemma LicenseRow(s: State, t: State, l: Id, lic: License)
    requires Consistent(s) && l in s.licenses
    requires t == s.(licenses := s.licenses[l := lic])
    requires var was := s.licenses[l]; lic.plan == was.plan && lic.originCard == was.originCard && lic.status == was.status
    requires lic.usesLeft.Some? <==> s.licenses[l].usesLeft.Some?
    requires lic.usesLeft.Some? ==> lic.usesLeft.value >= 0
    ensures Consistent(t)
  {
    forall p | p in t.plans ensures PlanOk(t, p) { assert PlanOk(s, p); }
    forall c | c in t.cards ensures CardOk(t, c) { assert CardOk(s, c); }
    forall m | m in t.licenses ensures LicenseOk(t, m) { assert LicenseOk(s, m); }
    forall i | 0 <= i < |t.renewals| ensures RenewalOk(t, i) { assert RenewalOk(s, i); }
  }

  /** A card and a license that belong together change status together. */
  lemma StatusRows(s: State, t: State, c: Id, to: Status, l: Id, licTo: Status)
    requires Consistent(s) && c in s.cards && l in s.licenses && s.cards[c].license == Some(l)
    requires t == s.(cards := s.cards[c := s.cards[c].(status := to)], licenses := s.licenses[l := s.licenses[l].(status := licTo)])
    requires to != Unused && licTo in {Active, Frozen, Revoked, Voided}
    requires (to == Revoked <==> licTo == Revoked) && (to == Voided <==> licTo == Voided)
    ensures Consistent(t)
  {
    assert CardOk(s, c);
    forall p | p in t.plans ensures PlanOk(t, p) { assert PlanOk(s, p); }
    forall d | d in t.cards ensures CardOk(t, d) { assert CardOk(s, d); }
    forall m | m in t.licenses ensures LicenseOk(t, m) { assert LicenseOk(s, m); }
    forall i | 0 <= i < |t.renewals| ensures RenewalOk(t, i) { assert RenewalOk(s, i); }
  }

  /** A card no license came from changes status. */
  lemma LooseCardStatus(s: State, t: State, c: Id, to: Status)
    requires Consistent(s) && c in s.cards && s.cards[c].license.None? && s.cards[c].status != Depleted
    requires t == s.(cards := s.cards[c := s.cards[c].(status := to)])
    requires to in {Unused, Frozen, Revoked, Voided} && (to == Unused ==> s.cards[c].activatedAt.None?)
    ensures Consistent(t)
  {
    assert CardOk(s, c);
    forall p | p in t.plans ensures PlanOk(t, p) { assert PlanOk(s, p); }
    forall d | d in t.cards ensures CardOk(t, d) { assert CardOk(s, d); }
    forall m | m in t.licenses ensures LicenseOk(t, m) { assert LicenseOk(s, m); }
    forall i | 0 <= i < |t.renewals| ensures RenewalOk(t, i) { assert RenewalOk(s, i); }
  }

  lemma FirstActivationKeeps(s: State, r: Activation)
    requires Consistent(s) && r.card in s.cards && s.cards[r.card].status == Unused
    requires var card := s.cards[r.card]; card.plan in s.plans && FirstActivation(s, r, card, s.plans[card.plan]).Ok?
    ensures var card := s.cards[r.card]; Consistent(FirstActivation(s, r, card, s.plans[card.plan]).value.state)
  {
    var t := FirstActivation(s, r, s.cards[r.card], s.plans[s.cards[r.card].plan]).value.state;
    assert CardOk(s, r.card);
    forall p | p in t.plans ensures PlanOk(t, p) { assert PlanOk(s, p); }
    forall d | d in t.cards ensures CardOk(t, d) { assert CardOk(s, d); }
    forall m | m in t.licenses ensures LicenseOk(t, m) { assert m in s.licenses ==> LicenseOk(s, m); }
    forall i | 0 <= i < |t.renewals| ensures RenewalOk(t, i) { assert RenewalOk(s, i); }
  }

  lemma NewDeviceKeeps(s: State, r: Activation, key: DeviceKey, lic: License, plan: Plan)
    requires Consistent(s) && key !in s.devices && key.license in s.licenses && s.licenses[key.license] == lic
    requires lic.plan in s.plans && s.plans[lic.plan] == plan && NewDevice(s, r, key, lic, plan).Ok?
    ensures Consistent(NewDevice(s, r, key, lic, plan).value.state)
  {
    var t := NewDevice(s, r, key, lic, plan).value.state;
    assert LicenseOk(s, key.license);
    var left := if plan.kind.Uses? then lic.(usesLeft := Some(lic.usesLeft.value - 1)) else lic;
    var mid := s.(licenses := s.licenses[key.license := left]);
    LicenseRow(s, mid, key.license, left);
    assert t.licenses == mid.licenses;
    OtherRows(mid, t);
  }

  lemma ReactivationKeeps(s: State, r: Activation, key: DeviceKey, lic: License, plan: Plan)
    requires Consistent(s) && key in s.devices && Reactivation(s, r, key, lic, plan).Ok?
    ensures Consistent(Reactivation(s, r, key, lic, plan).value.state)
  {
    OtherRows(s, Reactivation(s, r, key, lic, plan).value.state);
  }

  lemma ActivateKeeps(s: State, r: Activation)
    requires Consistent(s) && ActivateTables(s, r).Ok?
    ensures Consistent(ActivateTables(s, r).value.state)
  {
    var card := s.cards[r.card];
    var plan := s.plans[card.plan];
    if card.status == Unused {
      FirstActivationKeeps(s, r);
    } else {
      var l := card.license.value;
      var lic, key := s.licenses[l], DeviceKey(l, r.fingerprint);
      assert CardOk(s, r.card) && LicenseOk(s, l);
      if key in s.devices {
        ReactivationKeeps(s, r, key, lic, plan);
      } else {
        NewDeviceKeeps(s, r, key, lic, plan);
      }
    }
  }

  lemma ActivateStepKeeps(s: State, r: Activation, rejected: Option<Error>, seat: Seat)
    requires Consistent(s)
    ensures Consistent(ActivateStep(s, r, rejected, seat).0)
  {
    if rejected.None? && ActivateTables(s, r).Ok? {
      ActivateKeeps(s, r);
      OtherRows(ActivateTables(s, r).value.state, ActivateStep(s, r, rejected, seat).0);
    }
  }

  lemma RenewedBy(renewals: seq<Renewal>, r: Renewal, c: Id)
    ensures Renewed(renewals + [r], c) <==> Renewed(renewals, c) || r.card == c
  {
    var more := renewals + [r];
    assert more[|renewals|] == r;
    assert forall i :: 0 <= i < |renewals| ==> more[i] == renewals[i];
  }

  /** The renewal card c goes to license l, whose expiry becomes expiry. */
  lemma RenewalRows(s: State, t: State, l: Id, c: Id, r: Renewal, expiry: int)
    requires Consistent(s) && l in s.licenses && c in s.cards && s.cards[c].status == Unused && r.card == c
    requires t == s.(licenses := s.licenses[l := s.licenses[l].(expiresAt := Some(expiry))],
                     cards := s.cards[c := s.cards[c].(status := Depleted)], renewals := s.renewals + [r])
    ensures Consistent(t)
  {
    assert CardOk(s, c);
    forall i | 0 <= i < |t.renewals| ensures RenewalOk(t, i) {
      assert forall j :: 0 <= j < |s.renewals| ==> s.renewals[j].card != c;
      assert i < |s.renewals| ==> RenewalOk(s, i);
    }
    forall p | p in t.plans ensures PlanOk(t, p) { assert PlanOk(s, p); }
    forall d | d in t.cards ensures CardOk(t, d) {
      assert CardOk(s, d);
      RenewedBy(s.renewals, r, d);
    }
    forall m | m in t.licenses ensures LicenseOk(t, m) { assert LicenseOk(s, m); }
  }

  lemma RedeemStepKeeps(s: State, pub: string, c: Id, unreadable: Option<Error>, rejected: Option<Error>)
    requires Consistent(s)
    ensures Consistent(RedeemStep(s, pub, c, unreadable, rejected).0)
  {
    var t := RedeemStep(s, pub, c, unreadable, rejected).0;
    if unreadable.None? && HolderOf(s.devices, pub).Some? && rejected.None? {
      var key := HolderOf(s.devices, pub).value;
      if RedeemTables(s, key, c).Ok? {
        var mid := RedeemTables(s, key, c).value;
        RenewalRows(s, mid, key.license, c, mid.renewals[|s.renewals|], mid.licenses[key.license].expiresAt.value);
        OtherRows(mid, t);
      }
    }
  }

  lemma UserBindCardKeeps(s: State, u: Id, c: Id, badToken: bool, rejected: Option<Error>)
    requires Consistent(s)
    ensures Consistent(UserBindCardStep(s, u, c, badToken, rejected).0)
  {
    var t := UserBindCardStep(s, u, c, badToken, rejected).0;
    if t != s {
      assert CardOk(s, c);
      forall p | p in t.plans ensures PlanOk(t, p) { assert PlanOk(s, p); }
      forall d | d in t.cards ensures CardOk(t, d) { assert CardOk(s, d); }
      forall m | m in t.licenses ensures LicenseOk(t, m) { assert LicenseOk(s, m); }
      forall i | 0 <= i < |t.renewals| ensures RenewalOk(t, i) { assert RenewalOk(s, i); }
    }
  }

  lemma CardActionKeeps(s: State, caller: Caller, c: Id, action: Action)
    requires Consistent(s)
    ensures Consistent(CardActionStep(s, caller, c, action).0)
  {
    var t := CardActionStep(s, caller, c, action).0;
    if t != s {
      var card := s.cards[c];
      assert CardOk(s, c);
      if card.license.Some? {
        StatusRows(s, t, c, CardStatusAfter(card, action), card.license.value, LicenseStatusAfter(action));
      } else {
        LooseCardStatus(s, t, c, CardStatusAfter(card, action));
      }
    }
  }

  lemma LicenseActionKeeps(s: State, caller: Caller, l: Id, action: Action)
    requires Consistent(s)
    ensures Consistent(LicenseActionStep(s, caller, l, action).0)
  {
    var t := LicenseActionStep(s, caller, l, action).0;
    if t != s {
      assert LicenseOk(s, l) && CardOk(s, s.licenses[l].originCard);
      var c := s.licenses[l].originCard;
      assert s.cards[c := s.cards[c]] == s.cards;
      StatusRows(s, t, c, if action == Revoke || action == Void then Verdict(action) else s.cards[c].status,
                 l, LicenseStatusAfter(action));
    }
  }

  /** A plan row changes and its licenses are touched. */
  lemma PlanRow(s: State, t: State, p: Id, plan: Plan)
    requires Consistent(s) && p in s.plans
    requires t == s.(plans := s.plans[p := plan], licenses := Touched(s.licenses, p))
    requires plan.kind == s.plans[p].kind && plan.product == s.plans[p].product && ValidPlan(plan) && StorablePlan(plan)
    ensures Consistent(t)
  {
    assert PlanOk(s, p);
    forall q | q in t.plans ensures PlanOk(t, q) { assert q in s.plans ==> PlanOk(s, q); }
    forall d | d in t.cards ensures CardOk(t, d) { assert CardOk(s, d); }
    forall m | m in t.licenses ensures LicenseOk(t, m) { assert LicenseOk(s, m); }
    forall i | 0 <= i < |t.renewals| ensures RenewalOk(t, i) { assert RenewalOk(s, i); }
  }

  lemma UpdatePlanKeeps(s: State, p: Id, changes: Plan)
    requires Consistent(s)
    ensures Consistent(UpdatePlanStep(s, p, changes).0)
  {
    var t := UpdatePlanStep(s, p, changes).0;
    if t != s {
      PlanRow(s, t, p, Merged(s.plans[p], changes));
    }
  }

  lemma PlanStatusKeeps(s: State, p: Id, status: string)
    requires Consistent(s)
    ensures Consistent(PlanStatusStep(s, p, status).0)
  {
    var t := PlanStatusStep(s, p, status).0;
    if t != s {
      assert PlanOk(s, p);
      PlanRow(s, t, p, t.plans[p]);
    }
  }

  lemma AdminExtendKeeps(s: State, caller: Caller, l: Id, days: int)
    requires Consistent(s)
    ensures Consistent(AdminExtendStep(s, caller, l, days).0)
  {
    var t := AdminExtendStep(s, caller, l, days).0;
    if t != s {
      assert LicenseOk(s, l);
      LicenseRow(s, t, l, t.licenses[l]);
    }
  }

  lemma DeletePlanKeeps(s: State, p: Id)
    requires Consistent(s)
    ensures Consistent(DeletePlanStep(s, p).0)
  {
    var t := DeletePlanStep(s, p).0;
    if t != s {
      forall q | q in t.plans ensures PlanOk(t, q) { assert PlanOk(s, q); }
      forall d | d in t.cards ensures CardOk(t, d) { assert CardOk(s, d); }
      forall m | m in t.licenses ensures LicenseOk(t, m) {
        assert LicenseOk(s, m) && CardOk(s, s.licenses[m].originCard);
      }
      forall i | 0 <= i < |t.renewals| ensures RenewalOk(t, i) {
        assert RenewalOk(s, i) && CardOk(s, s.renewals[i].card);
      }
    }
  }

  lemma NewCards(s: State, t: State, made: map<Id, Card>)
    requires Consistent(s)
    requires t.plans == s.plans && t.products == s.products && t.licenses == s.licenses && t.renewals == s.renewals
    requires t.devices == s.devices && t.cards == s.cards + made
    requires forall c :: c in made ==> c !in s.cards && made[c].plan in s.plans && made[c].product in s.products
    requires forall c :: c in made ==> made[c].status == Unused && made[c].license.None? && made[c].usedBy.None?
    requires forall c :: c in made ==> made[c].activatedAt.None?
    ensures Consistent(t)
  {
    forall p | p in t.plans ensures PlanOk(t, p) { assert PlanOk(s, p); }
    forall i | 0 <= i < |t.renewals| ensures RenewalOk(t, i) { assert RenewalOk(s, i); }
    forall d | d in t.cards ensures CardOk(t, d) {
      if d in made {
        forall i | 0 <= i < |s.renewals| ensures s.renewals[i].card != d { assert RenewalOk(s, i); }
      } else {
        assert CardOk(s, d);
      }
    }
    forall m | m in t.licenses ensures LicenseOk(t, m) { assert LicenseOk(s, m); }
  }

  /** The rows a batch adds. */
  ghost function Made(s: State, r: BatchRequest): map<Id, Card>
    requires CardKindOf(r.kind).Some?
  {
    map c | c in r.generated :: NewCard(s, r, CardKindOf(r.kind).value)
  }

  lemma BatchRows(s: State, r: BatchRequest)
    ensures var t := CreateCardBatchStep(s, r).0;
            t == s || (&& BatchError(s, r).None? && t.cards == s.cards + Made(s, r)
                       && (forall c :: c in r.generated ==> c !in s.cards)
                       && t == s.(cards := t.cards, batches := t.batches, balances := t.balances, ledger := t.ledger))
  {
  }

  lemma CreateCardBatchKeeps(s: State, r: BatchRequest)
    requires Consistent(s)
    ensures Consistent(CreateCardBatchStep(s, r).0)
  {
    BatchRows(s, r);
    var t := CreateCardBatchStep(s, r).0;
    if t != s {
      NewCards(s, t, Made(s, r));
    }
  }

  lemma HeartbeatOnlyMints(s: State, pub: string, claimed: DeviceKey, rejected: Option<Error>, banned: bool,
                           version: string, versionBanned: bool, seat: Seat)
    ensures var t := HeartbeatStep(s, pub, claimed, rejected, banned, version, versionBanned, seat).0;
            t == s.(leases := t.leases) && s.leases <= t.leases
  {
  }

  lemma HeartbeatKeeps(s: State, pub: string, claimed: DeviceKey, rejected: Option<Error>, banned: bool,
                       version: string, versionBanned: bool, seat: Seat)
    requires Consistent(s)
    ensures Consistent(HeartbeatStep(s, pub, claimed, rejected, banned, version, versionBanned, seat).0)
  {
    HeartbeatOnlyMints(s, pub, claimed, rejected, banned, version, versionBanned, seat);
    OtherRows(s, HeartbeatStep(s, pub, claimed, rejected, banned, version, versionBanned, seat).0);
  }

  lemma DeactivateKeeps(s: State, pub: string, rejected: Option<Error>)
    requires Consistent(s)
    ensures Consistent(DeactivateStep(s, pub, rejected).0)
  {
    OtherRows(s, DeactivateStep(s, pub, rejected).0);
  }

  lemma UnbindDeviceKeeps(s: State, caller: Caller, key: DeviceKey)
    requires Consistent(s)
    ensures Consistent(UnbindDeviceStep(s, caller, key).0)
  {
    OtherRows(s, UnbindDeviceStep(s, caller, key).0);
  }

  lemma AdjustTouchesMoney(s: State, a: Id, amount: int)
    ensures var t := AdjustBalanceStep(s, a, amount).0;
            t == s.(balances := t.balances, ledger := t.ledger) && s.ledger <= t.ledger
  {
  }

  lemma AdjustBalanceKeeps(s: State, a: Id, amount: int)
    requires Consistent(s)
    ensures Consistent(AdjustBalanceStep(s, a, amount).0)
  {
    AdjustTouchesMoney(s, a, amount);
    OtherRows(s, AdjustBalanceStep(s, a, amount).0);
  }

  /** Every request keeps the tables consistent. */
  lemma ConsistentKept(s: State, e: Event)
    requires Consistent(s)
    ensures Consistent(Next(s, e))
  {
    var t := Next(s, e);
    match e
    case Activate(r, rejected, seat) => ActivateStepKeeps(s, r, rejected, seat);
    case Redeem(pub, c, unreadable, rejected) => RedeemStepKeeps(s, pub, c, unreadable, rejected);
    case UserBindCard(u, c, badToken, rejected) => UserBindCardKeeps(s, u, c, badToken, rejected);
    case CardAction(caller, c, action) => CardActionKeeps(s, caller, c, action);
    case LicenseAction(caller, l, action) => LicenseActionKeeps(s, caller, l, action);
    case AdminExtendLicense(caller, l, days) => AdminExtendKeeps(s, caller, l, days);
    case UpdatePlan(p, changes) => UpdatePlanKeeps(s, p, changes);
    case PlanStatus(p, status) => PlanStatusKeeps(s, p, status);
    case DeletePlan(p) => DeletePlanKeeps(s, p);
    case CreateCardBatch(r) => CreateCardBatchKeeps(s, r);
    case Tick(_) => OtherRows(s, t);
    case Heartbeat(pub, claimed, rejected, banned, version, versionBanned, seat) =>
      HeartbeatKeeps(s, pub, claimed, rejected, banned, version, versionBanned, seat);
    case Deactivate(pub, rejected) => DeactivateKeeps(s, pub, rejected);
    case UnbindDevice(caller, key) => UnbindDeviceKeeps(s, caller, key);
    case AgentAdjustBalance(a, amount) => AdjustBalanceKeeps(s, a, amount);
  }

  lemma InitialConsistent(s: State)
    requires Initial(s)
    ensures Consistent(s)
  {
  }

  lemma NextConsistent(s: State, e: Event, t: State)
    requires Consistent(s) && t == Next(s, e)
    ensures Consistent(t)
  {
    ConsistentKept(s, e);
  }

  lemma RunConsistent(ss: seq<State>, es: seq<Event>, i: nat)
    requires Run(ss, es) && 0 < i <= |es| && Consistent(ss[i - 1])
    ensures Consistent(ss[i])
  {
    NextConsistent(ss[i - 1], es[i - 1], ss[i]);
  }

  lemma {:induction false} Reachable(ss: seq<State>, es: seq<Event>, i: nat)
    requires Run(ss, es) && Initial(ss[0]) && i <= |es|
    ensures Consistent(ss[i])
  {
    if i == 0 {
      InitialConsistent(ss[0]);
    } else {
      Reachable(ss, es, i - 1);
      RunConsistent(ss, es, i);
    }
  }
}
