/**
 What every request answers, when, and what it leaves behind, in plain terms: conditions a caller can
 check in the tables, statuses and amounts by their values.
 */
module Answers {
  import opened Wrappers
  import opened Licensing
  import opened Consumption
  import opened Devices
  import Version

  /** The caller is an agent, and not the owner. */
  predicate Barred(caller: Caller, owner: Option<Id>) {
    match caller
    case Admin => false
    case Agent(id) => id == None || id != owner
  }

  /** now plus so many days, or that many days after a later instant. */
  function DaysLater(from: Option<int>, now: int, days: int): int {
    var start := if from.Some? && from.value >= now then from.value else now;
    start + days * 24 * 60 * 60 * 1000
  }

  function LeaseOf(now: int, k: DeviceKey, lic: License, plan: Plan): Lease {
    Lease(k, now / 1000, now / 1000 + plan.leaseTtl, if lic.expiresAt == None then 0 else lic.expiresAt.value / 1000,
          lic.policyVersion, plan.features, plan.heartbeatSec, plan.offlineGrace)
  }

  // ----- Heartbeat -----

  /** The active device k holds the public key. */
  ghost predicate Known(s: State, pub: string, k: DeviceKey) {
    PubsUnique(s) && k in s.devices && s.devices[k].active && s.devices[k].pub == pub
  }

  lemma KnownHolder(s: State, pub: string, k: DeviceKey)
    requires Known(s, pub, k)
    ensures HolderOf(s.devices, pub) == Some(k)
  {
    HolderIs(s, pub, k);
  }

  predicate RightVersion(version: string, versionBanned: bool, minVersion: string) {
    version == "" || (Version.IsVersion(version) && !versionBanned
                      && (minVersion == "" || Version.Compare(Version.Key(version), Version.Key(minVersion)) >= 0))
  }

  /** A heartbeat is granted exactly to the device itself, on an active license that has not lapsed, from
      an accepted client, while there is a seat or no answer about seats. */
  lemma HeartbeatExactly(s: State, pub: string, k: DeviceKey, claimed: DeviceKey, rejected: Option<Error>, banned: bool,
                         version: string, versionBanned: bool, seat: Seat)
    requires Known(s, pub, k) && k.license in s.licenses && s.licenses[k.license].plan in s.plans
    ensures var (t, reply) := HeartbeatStep(s, pub, claimed, rejected, banned, version, versionBanned, seat);
      var lic := s.licenses[k.license]; var plan := s.plans[lic.plan];
      && (reply == Done <==> claimed == k && rejected == None && !banned && lic.status == Active
                             && (lic.expiresAt == None || lic.expiresAt.value >= s.now)
                             && RightVersion(version, versionBanned, plan.minVersion) && seat != Full)
      && t == if reply == Done then s.(leases := s.leases + [LeaseOf(s.now, k, lic, plan)]) else s
  {
    KnownHolder(s, pub, k);
  }

  /** What an authentic, unbanned device is told about its license. */
  lemma HeartbeatRefusals(s: State, pub: string, k: DeviceKey, version: string, versionBanned: bool, seat: Seat)
    requires Known(s, pub, k) && k.license in s.licenses && s.licenses[k.license].plan in s.plans
    requires s.licenses[k.license].status in {Active, Frozen, Revoked, Voided}
    ensures var reply := HeartbeatStep(s, pub, k, None, false, version, versionBanned, seat).1; var lic := s.licenses[k.license];
      && (reply == Refused(LicenseFrozen) <==> lic.status == Frozen)
      && (reply == Refused(LicenseRevoked) <==> lic.status == Revoked)
      && (reply == Refused(LicenseVoided) <==> lic.status == Voided)
      && (reply == Refused(LicenseExpired) <==> lic.status == Active && lic.expiresAt.Some? && lic.expiresAt.value < s.now)
  {
    KnownHolder(s, pub, k);
  }

  lemma UnknownKeyRefused(s: State, pub: string, claimed: DeviceKey, banned: bool, version: string, versionBanned: bool, seat: Seat,
                          c: Id, rejected: Option<Error>)
    requires forall k :: k in s.devices && s.devices[k].active ==> s.devices[k].pub != pub
    ensures HeartbeatStep(s, pub, claimed, rejected, banned, version, versionBanned, seat) == (s, Refused(DeviceNotFound))
    ensures RedeemStep(s, pub, c, None, rejected) == (s, Refused(DeviceNotFound))
    ensures DeactivateStep(s, pub, rejected) == (s, Refused(DeviceNotFound))
  {
    assert forall k :: !Holds(s.devices, k, pub);
  }

  // ----- Redeem -----

  predicate Redeemable(s: State, k: DeviceKey, c: Id) {
    && k.license in s.licenses && c in s.cards
    && var lic, card := s.licenses[k.license], s.cards[c];
    && lic.status == Active && lic.expiresAt != None
    && card.kind == RenewalCard && card.status == Unused && card.product == lic.product
    && card.plan in s.plans && s.plans[card.plan].durationDays > 0
    && lic.plan in s.plans && s.plans[lic.plan].active
  }

  lemma RedeemTablesExactly(s: State, k: DeviceKey, c: Id)
    ensures RedeemTables(s, k, c).Ok? <==> Redeemable(s, k, c)
    ensures RedeemTables(s, k, c).Ok? ==>
      var lic, card := s.licenses[k.license], s.cards[c]; var days := s.plans[card.plan].durationDays;
      var expiry := Some(DaysLater(lic.expiresAt, s.now, days));
      RedeemTables(s, k, c).value == s.(
        licenses := s.licenses[k.license := lic.(expiresAt := expiry)], cards := s.cards[c := card.(status := Depleted)],
        renewals := s.renewals + [Renewal(k.license, c, days, lic.expiresAt, expiry)])
  {
  }

  /** A renewal card is redeemed exactly if it is unused, of the license's product and worth some days,
      and the license is active with an expiry under an active plan; it adds the card plan's days. */
  lemma RedeemExactly(s: State, pub: string, k: DeviceKey, c: Id, unreadable: Option<Error>, rejected: Option<Error>)
    requires Known(s, pub, k)
    ensures var (t, reply) := RedeemStep(s, pub, c, unreadable, rejected);
      && (reply == Done <==> unreadable == None && rejected == None && Redeemable(s, k, c))
      && (reply != Done ==> t == s)
      && (reply == Done ==> var lic, card := s.licenses[k.license], s.cards[c];
           && k.license in t.licenses && c in t.cards && t.cards[c] == card.(status := Depleted)
           && t.licenses[k.license] ==
                lic.(expiresAt := Some(DaysLater(lic.expiresAt, s.now, s.plans[card.plan].durationDays)))
           && t.leases == s.leases + [LeaseOf(s.now, k, lic, s.plans[lic.plan])])
  {
    KnownHolder(s, pub, k);
    RedeemTablesExactly(s, k, c);
  }

  // ----- Deactivate, UnbindDevice -----

  /** The device of the key, and no other, is unbound unless something outside refuses. */
  lemma DeactivateExactly(s: State, pub: string, k: DeviceKey, rejected: Option<Error>)
    requires Known(s, pub, k)
    ensures DeactivateStep(s, pub, rejected)
         == if rejected == None then (s.(devices := s.devices[k := Device(pub, s.devices[k].kty, false)]), Done)
            else (s, Refused(rejected.value))
  {
    KnownHolder(s, pub, k);
  }

  lemma UnbindDeviceExactly(s: State, caller: Caller, k: DeviceKey)
    requires k in s.devices ==> k.license in s.licenses
    ensures UnbindDeviceStep(s, caller, k)
         == if k in s.devices && s.devices[k].active && !Barred(caller, s.licenses[k.license].agent)
            then (s.(devices := s.devices[k := Device(s.devices[k].pub, s.devices[k].kty, false)]), Done)
            else (s, Refused(DeviceNotFound))
  {
  }

  // ----- UserBindCard -----

  predicate Bindable(s: State, u: Id, c: Id) {
    && u in s.users && s.users[u].active && c in s.cards
    && var card := s.cards[c];
    && card.kind == LicenseCard && card.status == Unused && card.license == None && card.usedBy == None
    && card.product == s.users[u].product && card.plan in s.plans && s.plans[card.plan].durationDays > 0
  }

  /** A license card is spent on a user exactly if it is unused, of the user's product and worth some
      days; the user then has these days from now or from a later expiry. */
  lemma UserBindCardExactly(s: State, u: Id, c: Id, badToken: bool, rejected: Option<Error>)
    ensures var (t, reply) := UserBindCardStep(s, u, c, badToken, rejected);
      && (reply == Done <==> !badToken && rejected == None && Bindable(s, u, c))
      && t == if reply != Done then s
              else s.(cards := s.cards[c := s.cards[c].(status := Depleted, usedBy := Some(u), activatedAt := Some(s.now))],
                      users := s.users[u := s.users[u].(
                        expiresAt := DaysLater(Some(s.users[u].expiresAt), s.now, s.plans[s.cards[c].plan].durationDays))])
  {
  }

  // ----- freezing and revoking -----

  /** The status each action is for. */
  predicate Leads(action: Action, to: Status) {
    match action
    case Freeze => to == Frozen
    case Unfreeze => to == Active
    case Revoke => to == Revoked
    case Void => to == Voided
    case Unknown => false
  }

  /** An action on a license that the caller may see: accepted exactly from these statuses, it leaves the
      license in this one; a revocation takes the card along. */
  lemma LicenseActionExactly(s: State, caller: Caller, l: Id, action: Action, to: Status)
    requires Consistent(s) && l in s.licenses && !Barred(caller, s.licenses[l].agent) && Leads(action, to)
    ensures LicenseOk(s, l)
    ensures var (t, reply) := LicenseActionStep(s, caller, l, action);
      var lic := s.licenses[l]; var card := s.cards[lic.originCard];
      && (action == Freeze ==> (reply == Done <==> lic.status == Active))
      && (action == Unfreeze ==> (reply == Done <==> lic.status == Frozen))
      && (action in {Revoke, Void} ==> (reply == Done <==> lic.status in {Active, Frozen} && card.status != Depleted))
      && t == if reply != Done then s
              else s.(licenses := s.licenses[l := lic.(status := to)],
                      cards := if action in {Revoke, Void} then s.cards[lic.originCard := card.(status := to)] else s.cards)
  {
    assert LicenseOk(s, l);
  }

  lemma LicenseActionBarred(s: State, caller: Caller, l: Id, action: Action)
    requires l !in s.licenses || Barred(caller, s.licenses[l].agent) || action == Unknown
    ensures LicenseActionStep(s, caller, l, action).0 == s && LicenseActionStep(s, caller, l, action).1 != Done
  {
  }

  /** The same for a card without a license: it goes back to unused when unfrozen. */
  lemma LooseCardActionExactly(s: State, caller: Caller, c: Id, action: Action, to: Status)
    requires Consistent(s) && c in s.cards && !Barred(caller, s.cards[c].agent) && Leads(action, to) && s.cards[c].license == None
    ensures var (t, reply) := CardActionStep(s, caller, c, action); var card := s.cards[c];
      && (action == Freeze ==> (reply == Done <==> card.status == Unused))
      && (action == Unfreeze ==> (reply == Done <==> card.status == Frozen))
      && (action in {Revoke, Void} ==> (reply == Done <==> card.status in {Unused, Frozen}))
      && t == if reply != Done then s
              else s.(cards := s.cards[c := card.(status := if action == Unfreeze then Unused else to)])
  {
    assert CardOk(s, c);
    LooseStatus(s, c);
  }

  lemma LooseStatus(s: State, c: Id)
    requires Consistent(s) && c in s.cards && s.cards[c].license == None
    ensures s.cards[c].status != Active && (s.cards[c].status == Frozen ==> s.cards[c].activatedAt == None)
  {
    assert CardOk(s, c);
  }

  /** And for a card with a license: both change together, or the call is refused. */
  lemma CardActionExactly(s: State, caller: Caller, c: Id, action: Action, to: Status, l: Id)
    requires Consistent(s) && c in s.cards && !Barred(caller, s.cards[c].agent) && Leads(action, to)
    requires s.cards[c].license == Some(l)
    ensures l in s.licenses
    ensures var (t, reply) := CardActionStep(s, caller, c, action); var card, lic := s.cards[c], s.licenses[l];
      && (action == Freeze ==> (reply == Done <==> card.status == Active && lic.status == Active))
      && (action == Unfreeze ==> (reply == Done <==> card.status == Frozen && lic.status == Frozen))
      && (action in {Revoke, Void} ==> (reply == Done <==> card.status in {Active, Frozen}))
      && t == if reply != Done then s
              else s.(cards := s.cards[c := card.(status := to)], licenses := s.licenses[l := lic.(status := to)])
  {
    assert CardOk(s, c);
    assert LicenseOk(s, l);
  }

  lemma CardActionBarred(s: State, caller: Caller, c: Id, action: Action)
    requires c !in s.cards || Barred(caller, s.cards[c].agent) || action == Unknown
    ensures CardActionStep(s, caller, c, action).0 == s && CardActionStep(s, caller, c, action).1 != Done
  {
  }

  // ----- AdminExtendLicense -----

  lemma AdminExtendExactly(s: State, caller: Caller, l: Id, days: int)
    ensures var (t, reply) := AdminExtendStep(s, caller, l, days);
      && (reply == Done <==> 1 <= days <= 36500 && l in s.licenses && !Barred(caller, s.licenses[l].agent)
                             && s.licenses[l].status !in {Revoked, Voided})
      && t == if reply != Done then s
              else s.(licenses := s.licenses[l := s.licenses[l].(
                        expiresAt := Some(DaysLater(s.licenses[l].expiresAt, s.now, days)))])
  {
  }

  // ----- plans -----

  function OrElse(n: int, m: int): int {
    if n == 0 then m else n
  }

  /** The submitted limits are in range for a plan of this kind. */
  predicate InRange(kind: PlanKind, p: Plan, heartbeatSec: int, leaseTtl: int, rebindCooldown: int, monthlyRebind: int) {
    && (kind == Duration ==> p.durationDays > 0) && (kind == Fixed ==> p.fixedExpiryDays > 0) && (kind == Uses ==> p.usesTotal > 0)
    && 0 <= p.durationDays <= 36500 && 0 <= p.fixedExpiryDays <= 2147483647 && 0 <= p.usesTotal <= 2147483647
    && 1 <= p.deviceLimit <= 100 && 1 <= p.concurrentLimit <= 100 && 0 <= p.offlineGrace <= 604800
    && 60 <= leaseTtl <= 86400 && 10 <= heartbeatSec <= 3600
    && 0 <= rebindCooldown <= 2147483647 && 0 <= monthlyRebind <= 2147483647 && 0 <= p.priceCents <= 9223372036854775807
  }

  /** An update is accepted exactly if its values, zeros filled from the old row, are in range; then they
      are the row's, but for product, kind and status, and every license of the plan has a new version. */
  lemma UpdatePlanExactly(s: State, p: Id, x: Plan)
    requires p in s.plans
    ensures var (t, reply) := UpdatePlanStep(s, p, x); var was := s.plans[p];
      var hb, ttl := OrElse(x.heartbeatSec, was.heartbeatSec), OrElse(x.leaseTtl, was.leaseTtl);
      var cooldown, rebinds := OrElse(x.rebindCooldown, was.rebindCooldown), OrElse(x.monthlyRebind, was.monthlyRebind);
      && (reply == Done <==> InRange(was.kind, x, hb, ttl, cooldown, rebinds))
      && (reply != Done ==> t == s)
      && (reply == Done ==>
           && t == s.(plans := t.plans, licenses := t.licenses)
           && t.plans == s.plans[p := Plan(was.product, was.kind, x.durationDays, x.fixedExpiryDays, x.usesTotal, x.deviceLimit,
                                           x.concurrentLimit, x.features, x.offlineGrace, ttl, hb, cooldown, rebinds,
                                           x.minVersion, x.priceCents, was.active)]
           && VersionsRaised(s, t, p))
  {
  }

  /** Exactly the licenses of the plan have the next policy version, and nothing else about them changed. */
  ghost predicate VersionsRaised(s: State, t: State, p: Id) {
    t.licenses.Keys == s.licenses.Keys
    && forall l :: l in s.licenses ==>
         t.licenses[l] == s.licenses[l].(policyVersion := s.licenses[l].policyVersion + if s.licenses[l].plan == p then 1 else 0)
  }

  lemma PlanStatusExactly(s: State, p: Id, status: string)
    ensures var (t, reply) := PlanStatusStep(s, p, status);
      && (reply == Done <==> p in s.plans && (status == "active" || status == "retired"))
      && (reply != Done ==> t == s)
      && (reply == Done ==> t == s.(plans := t.plans, licenses := t.licenses) && VersionsRaised(s, t, p)
                            && t.plans == s.plans[p := s.plans[p].(active := status == "active")])
  {
  }

  /** A plan goes exactly if it is retired and neither a license nor a card with a history has it; its
      unused cards and its batches go with it, and all else stays. */
  lemma DeletePlanExactly(s: State, p: Id)
    ensures var (t, reply) := DeletePlanStep(s, p);
      && (reply == Done <==> && p in s.plans && !s.plans[p].active
                             && (forall l :: l in s.licenses ==> s.licenses[l].plan != p)
                             && (forall c :: c in s.cards && s.cards[c].plan == p ==> s.cards[c].status == Unused))
      && (reply != Done ==> t == s)
      && (reply == Done ==>
           && t == s.(plans := t.plans, cards := t.cards, batches := t.batches)
           && (forall q :: q in t.plans <==> q in s.plans && q != p) && (forall q :: q in t.plans ==> t.plans[q] == s.plans[q])
           && (forall c :: c in t.cards <==> c in s.cards && s.cards[c].plan != p)
           && (forall c :: c in t.cards ==> t.cards[c] == s.cards[c])
           && (forall b :: b in t.batches <==> b in s.batches && s.batches[b].plan != p)
           && (forall b :: b in t.batches ==> t.batches[b] == s.batches[b]))
  {
  }

  // ----- batches and balances -----

  /** The request may be made at all: size, kind, catalog and grant. */
  predicate Orderly(s: State, r: BatchRequest) {
    && 1 <= r.quantity <= 100000 && r.prefixOk && r.kind in {"", "license", "renewal"} && r.plan != ""
    && r.plan in s.plans && r.product in s.products && s.plans[r.plan].product == r.product
    && s.products[r.product] && s.plans[r.plan].active
    && (r.caller == Admin || (r.caller.id != None && r.granted))
  }

  /** The drawn values do not collide, and the agent exists. */
  ghost predicate Insertable(s: State, r: BatchRequest) {
    && |r.generated| == r.quantity && (forall i, j :: 0 <= i < j < |r.generated| ==> r.generated[i] != r.generated[j])
    && (forall i :: 0 <= i < |r.generated| ==> r.generated[i] !in s.cards) && r.newBatch !in s.batches
    && (r.agent == None || r.agent.value in s.balances)
  }

  predicate Payable(s: State, r: BatchRequest)
    requires r.plan in s.plans
  {
    var cost := r.quantity * s.plans[r.plan].priceCents;
    r.agent == None || s.plans[r.plan].priceCents <= 0
    || (cost <= 9223372036854775807 && r.agent.value in s.balances && cost <= s.balances[r.agent.value])
  }

  lemma OrderlyExactly(s: State, r: BatchRequest)
    ensures BatchError(s, r) == None <==> Orderly(s, r) && |r.generated| == r.quantity
  {
  }

  lemma NoCollision(s: State, r: BatchRequest)
    requires Orderly(s, r) && |r.generated| == r.quantity
    ensures Insertable(s, r) <==> && !(r.agent.Some? && r.agent.value !in s.balances) && r.newBatch !in s.batches
                                  && Distinct(r.generated) && !(exists c :: c in r.generated && c in s.cards)
  {
  }

  /** A batch is made exactly if the request is orderly, can be inserted, and can be paid for. */
  lemma BatchExactly(s: State, r: BatchRequest)
    ensures var reply := CreateCardBatchStep(s, r).1;
            reply == Done <==> Orderly(s, r) && Insertable(s, r) && Payable(s, r)
  {
    OrderlyExactly(s, r);
    if Orderly(s, r) && |r.generated| == r.quantity {
      NoCollision(s, r);
    }
  }

  /** Each of its cards is new, unused, and as ordered. */
  lemma BatchCardsExactly(s: State, r: BatchRequest)
    requires CreateCardBatchStep(s, r).1 == Done
    ensures var t := CreateCardBatchStep(s, r).0;
      var kind := if r.kind == "renewal" then RenewalCard else LicenseCard;
      forall i :: 0 <= i < |r.generated| ==>
        && r.generated[i] in t.cards
        && t.cards[r.generated[i]] == Card(r.product, r.plan, r.agent, kind, Unused, None, None, None, s.now)
  {
    BatchRows(s, r);
    OrderlyExactly(s, r);
  }

  /** A balance is adjusted exactly by a non-zero amount that keeps it between 0 and the 64-bit maximum. */
  lemma AdjustExactly(s: State, a: Id, amount: int)
    ensures var (t, reply) := AdjustBalanceStep(s, a, amount);
      && (reply == Done <==> amount != 0 && a in s.balances && 0 <= s.balances[a] + amount <= 9223372036854775807)
      && t == if reply != Done then s
              else s.(balances := s.balances[a := s.balances[a] + amount],
                      ledger := s.ledger + [Transaction(a, amount, s.balances[a] + amount,
                                                        if amount > 0 then TopUp else Adjust, None)])
  {
  }

  /** What a request short of money is told. */
  lemma PoorRefused(s: State, r: BatchRequest, a: Id, amount: int)
    ensures Orderly(s, r) && Insertable(s, r) && !Payable(s, r) && r.quantity * s.plans[r.plan].priceCents <= 9223372036854775807 ==>
              CreateCardBatchStep(s, r) == (s, Refused(InsufficientBalance))
    ensures a !in s.balances && amount != 0 ==> AdjustBalanceStep(s, a, amount) == (s, Refused(AgentNotFound))
    ensures a in s.balances && amount != 0 && s.balances[a] + amount < 0 ==>
              AdjustBalanceStep(s, a, amount) == (s, Refused(InsufficientBalance))
  {
    OrderlyExactly(s, r);
    if Orderly(s, r) && |r.generated| == r.quantity {
      NoCollision(s, r);
    }
  }
}
