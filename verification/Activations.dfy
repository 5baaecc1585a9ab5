/**
 What an activation answers, when, and what it leaves behind, in plain terms: for an unused card, for
 a machine seen before, and for another machine.
 */
module Activations {
  import opened Wrappers
  import opened Licensing
  import opened Consumption
  import opened Answers

  /** No active device has this public key, except perhaps k. */
  ghost predicate KeyFree(s: State, pub: string, k: Option<DeviceKey>) {
    forall j :: j in s.devices && s.devices[j].active && s.devices[j].pub == pub ==> Some(j) == k
  }

  predicate OnSale(s: State, card: Card) {
    card.plan in s.plans && card.product in s.products && s.products[card.product] && s.plans[card.plan].active
  }

  // ----- an unused card -----

  function Term(plan: Plan, card: Card, now: int): Option<int> {
    if plan.kind == Duration then Some(now + plan.durationDays * 24 * 60 * 60 * 1000)
    else if plan.kind == Fixed then Some(card.createdAt + plan.fixedExpiryDays * 24 * 60 * 60 * 1000)
    else None
  }

  /** A fixed term must not be over, a plan of uses must have one, and the drawn id and the key are free. */
  ghost predicate Startable(s: State, r: Activation, card: Card, plan: Plan) {
    && card.kind == LicenseCard
    && (plan.kind == Fixed ==> card.createdAt + plan.fixedExpiryDays * 24 * 60 * 60 * 1000 >= s.now)
    && (plan.kind == Uses ==> plan.usesTotal >= 1)
    && r.newLicense !in s.licenses && DeviceKey(r.newLicense, r.fingerprint) !in s.devices && KeyFree(s, r.pub, None)
  }

  lemma Free(s: State, pub: string)
    ensures HolderOf(s.devices, pub) == None <==> KeyFree(s, pub, None)
  {
    if HolderOf(s.devices, pub) == None {
      forall j | j in s.devices && s.devices[j].active ensures s.devices[j].pub != pub {
        assert !Holds(s.devices, j, pub);
      }
    }
  }

  /** The first activation of a card: it gives the card's owner, product and plan a license with the
      plan's term and uses, less one for the first device, which has the requesting key. */
  lemma FirstExactly(s: State, r: Activation, card: Card, plan: Plan)
    ensures FirstActivation(s, r, card, plan).Ok? <==> Startable(s, r, card, plan)
    ensures FirstActivation(s, r, card, plan).Ok? ==>
      var b := FirstActivation(s, r, card, plan).value; var k := DeviceKey(r.newLicense, r.fingerprint);
      var left := if plan.kind == Uses then Some(plan.usesTotal - 1) else None;
      && b.device == k
      && b.state == s.(
           licenses := s.licenses[r.newLicense := License(card.product, card.plan, card.agent, r.card, Active, left,
                                                          Term(plan, card, s.now), 1)],
           cards := s.cards[r.card := card.(status := if left == Some(0) then Depleted else Active,
                                            license := Some(r.newLicense), activatedAt := Some(s.now))],
           devices := s.devices[k := Device(r.pub, r.kty, true)])
  {
    Free(s, r.pub);
  }

  // ----- a card in use -----

  /** The same machine gets the new key if no other active device has it; nothing else changes. */
  lemma SameMachineExactly(s: State, r: Activation, k: DeviceKey, lic: License, plan: Plan)
    requires k in s.devices
    ensures Reactivation(s, r, k, lic, plan).Ok?
            <==> (s.devices[k].pub == r.pub && s.devices[k].kty == r.kty) || KeyFree(s, r.pub, Some(k))
    ensures Reactivation(s, r, k, lic, plan).Ok? ==>
      var b := Reactivation(s, r, k, lic, plan).value;
      b.device == k && b.state == s.(devices := s.devices[k := Device(r.pub, r.kty, s.devices[k].active)])
  {
    if forall j :: j != k ==> !Holds(s.devices, j, r.pub) {
      forall j | j in s.devices && s.devices[j].active && s.devices[j].pub == r.pub ensures Some(j) == Some(k) {
        assert Holds(s.devices, j, r.pub);
      }
    }
    assert s.devices[k := s.devices[k]] == s.devices;
  }

  /** Another machine is bound exactly within the device limit, while a use is left if the plan has uses,
      and with a free key; it takes one use. */
  lemma NewMachineExactly(s: State, r: Activation, k: DeviceKey, lic: License, plan: Plan)
    requires k !in s.devices && k.license in s.licenses && s.licenses[k.license] == lic
    ensures var active := set j | j in s.devices && j.license == k.license && s.devices[j].active;
      NewDevice(s, r, k, lic, plan).Ok? <==>
        && |active| < plan.deviceLimit && (plan.kind == Uses ==> lic.usesLeft.Some? && lic.usesLeft.value >= 1)
        && KeyFree(s, r.pub, None)
    ensures NewDevice(s, r, k, lic, plan).Ok? ==>
      var b := NewDevice(s, r, k, lic, plan).value;
      && b.device == k && b.state.devices == s.devices[k := Device(r.pub, r.kty, true)]
      && b.state == s.(devices := b.state.devices, licenses := b.state.licenses)
      && b.state.licenses == if plan.kind == Uses then s.licenses[k.license := lic.(usesLeft := Some(lic.usesLeft.value - 1))]
                             else s.licenses
  {
    Free(s, r.pub);
    assert ActiveDevices(s.devices, k.license) == set j | j in s.devices && j.license == k.license && s.devices[j].active;
  }

  // ----- the card decides -----

  /** What the tables answer about each status of a card on sale. */
  lemma CardDecides(s: State, r: Activation)
    requires Consistent(s) && r.card in s.cards && OnSale(s, s.cards[r.card])
    ensures var card := s.cards[r.card]; var plan := s.plans[card.plan]; var a := ActivateTables(s, r);
      && (card.status == Unused ==> a == FirstActivation(s, r, card, plan))
      && (card.status == Frozen ==> a == Fail(CardFrozen)) && (card.status == Depleted ==> a == Fail(CardDepleted))
      && (card.status == Revoked ==> a == Fail(CardRevoked)) && (card.status == Voided ==> a == Fail(CardVoided))
  {
  }

  lemma CardInUseDecides(s: State, r: Activation)
    requires Consistent(s) && r.card in s.cards && OnSale(s, s.cards[r.card]) && s.cards[r.card].status == Active
    ensures s.cards[r.card].license.Some? && s.cards[r.card].license.value in s.licenses
    ensures var card := s.cards[r.card]; var plan := s.plans[card.plan]; var l := card.license.value;
      var lic := s.licenses[l]; var k := DeviceKey(l, r.fingerprint); var a := ActivateTables(s, r);
      var valid := lic.status == Active && (lic.expiresAt == None || lic.expiresAt.value >= s.now);
      && (lic.status == Frozen ==> a == Fail(LicenseFrozen)) && (lic.status == Revoked ==> a == Fail(LicenseRevoked))
      && (lic.status == Voided ==> a == Fail(LicenseVoided))
      && (lic.status == Active && !valid ==> a == Fail(LicenseExpired))
      && (valid && k in s.devices ==> a == Reactivation(s, r, k, lic, plan))
      && (valid && k !in s.devices ==> a == NewDevice(s, r, k, lic, plan))
  {
    assert CardOk(s, r.card);
    assert LicenseOk(s, s.cards[r.card].license.value);
  }

  lemma OffSale(s: State, r: Activation)
    requires r.card !in s.cards || !OnSale(s, s.cards[r.card])
    ensures ActivateTables(s, r).Fail?
    ensures r.card !in s.cards ==> ActivateTables(s, r) == Fail(CardNotFound)
    ensures r.card in s.cards && s.cards[r.card].plan in s.plans && s.cards[r.card].product in s.products ==>
              ActivateTables(s, r) == Fail(if !s.products[s.cards[r.card].product] then ProductRetired else PlanRetired)
  {
  }

  /** The call commits what the tables allow. It answers Done, with one lease, exactly if nothing outside
      refused and the seats could be asked; if they could not, the binding stays without a lease. */
  lemma ActivateExactly(s: State, r: Activation, rejected: Option<Error>, seat: Seat)
    ensures var (t, reply) := ActivateStep(s, r, rejected, seat); var a := ActivateTables(s, r);
      && (reply == Done <==> rejected == None && a.Ok? && seat != Failed)
      && (rejected != None || a.Fail? ==> t == s)
      && (rejected == None && a.Ok? ==>
            && t.devices == a.value.state.devices && t.cards == a.value.state.cards && t.licenses == a.value.state.licenses
            && t.leases == if seat == Failed then a.value.state.leases
                           else a.value.state.leases + [LeaseOf(s.now, a.value.device, a.value.license, a.value.plan)])
  {
  }
}
