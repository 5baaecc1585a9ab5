/**
 Outstanding leases: who gets one, how long one can outlive a revocation or a freeze, and what its
 policy version says about the policy in it.
 */
module Leases {
  import opened Wrappers
  import opened Licensing
  import opened Consumption
  import opened Evolution

  /** The policy a lease carries to the client. */
  predicate SamePolicy(x: Lease, y: Lease) {
    x.features == y.features && x.heartbeatSec == y.heartbeatSec && x.grace == y.grace
  }

  predicate CarriesPlan(x: Lease, plan: Plan) {
    x.features == plan.features && x.heartbeatSec == plan.heartbeatSec && x.grace == plan.offlineGrace
  }

  /** x was minted in the step that led from s to t. */
  ghost predicate MintedFor(s: State, t: State, x: Lease) {
    && t.leases == s.leases + [x] && t.now == s.now
    && x.device in t.devices && x.device.license in t.licenses
    && (x.device.license in s.licenses ==> s.licenses[x.device.license].status == Active)
    && var lic := t.licenses[x.device.license];
    && lic.status == Active && lic.plan in t.plans && (lic.expiresAt.Some? ==> lic.expiresAt.value >= t.now)
    && x.iat == Unix(t.now) && x.exp == x.iat + t.plans[lic.plan].leaseTtl
    && x.policy == lic.policyVersion && CarriesPlan(x, t.plans[lic.plan])
  }

  ghost predicate Mints(s: State, t: State) {
    t.leases == s.leases || (|t.leases| > 0 && MintedFor(s, t, t.leases[|t.leases| - 1]))
  }

  // ----- the three minting requests -----

  /** The activated license is active, was active if it existed, keeps its policy version and expiry,
      and has not lapsed. */
  ghost predicate Activates(s: State, b: Bound) {
    var l := b.device.license;
    && b.device in b.state.devices && l in b.state.licenses && b.state.now == s.now && b.state.leases == s.leases
    && b.state.plans == s.plans && b.state.licenses[l].status == Active
    && (l in s.licenses ==> s.licenses[l].status == Active)
    && b.license.policyVersion == b.state.licenses[l].policyVersion
    && b.license.expiresAt == b.state.licenses[l].expiresAt
    && (b.license.expiresAt.Some? ==> b.license.expiresAt.value >= s.now)
    && b.state.licenses[l].plan in s.plans && b.plan == s.plans[b.state.licenses[l].plan]
    && (b.state.devices[b.device].active <==> (b.device in s.devices ==> s.devices[b.device].active))
  }

  lemma FirstActivates(s: State, r: Activation, card: Card, plan: Plan)
    requires card.plan in s.plans && s.plans[card.plan] == plan && FirstActivation(s, r, card, plan).Ok? && ValidPlan(plan)
    ensures Activates(s, FirstActivation(s, r, card, plan).value)
  {
  }

  lemma AgainActivates(s: State, r: Activation, key: DeviceKey, lic: License, plan: Plan)
    requires key.license in s.licenses && s.licenses[key.license] == lic && lic.status == Active
    requires !Expired(lic, s.now) && lic.plan in s.plans && s.plans[lic.plan] == plan
    requires key in s.devices && Reactivation(s, r, key, lic, plan).Ok?
    ensures Activates(s, Reactivation(s, r, key, lic, plan).value)
  {
  }

  lemma NewDeviceActivates(s: State, r: Activation, key: DeviceKey, lic: License, plan: Plan)
    requires key.license in s.licenses && s.licenses[key.license] == lic && lic.status == Active
    requires !Expired(lic, s.now) && lic.plan in s.plans && s.plans[lic.plan] == plan
    requires key !in s.devices && NewDevice(s, r, key, lic, plan).Ok?
    ensures Activates(s, NewDevice(s, r, key, lic, plan).value)
  {
  }

  lemma ActivationLicense(s: State, r: Activation)
    requires Consistent(s) && ActivateTables(s, r).Ok?
    ensures Activates(s, ActivateTables(s, r).value)
  {
    var card := s.cards[r.card];
    var plan := s.plans[card.plan];
    assert CardOk(s, r.card) && PlanOk(s, card.plan);
    if card.status == Unused {
      FirstActivates(s, r, card, plan);
    } else {
      var l := card.license.value;
      assert LicenseOk(s, l);
      var key := DeviceKey(l, r.fingerprint);
      if key in s.devices {
        AgainActivates(s, r, key, s.licenses[l], plan);
      } else {
        NewDeviceActivates(s, r, key, s.licenses[l], plan);
      }
    }
  }

  /** Reactivation does not bind again: the device given a lease is active exactly unless its row was
      there and unbound, so an unbound machine still gets a lease, and keeps being unbound. */
  lemma LeasedDeviceActive(s: State, r: Activation)
    requires Consistent(s) && ActivateTables(s, r).Ok?
    ensures var b := ActivateTables(s, r).value;
      && b.device in b.state.devices
      && (b.state.devices[b.device].active <==> (b.device in s.devices ==> s.devices[b.device].active))
  {
    ActivationLicense(s, r);
  }

  lemma ActivateMints(s: State, r: Activation, rejected: Option<Error>, seat: Seat)
    requires Consistent(s)
    ensures Mints(s, ActivateStep(s, r, rejected, seat).0)
  {
    if rejected.None? && ActivateTables(s, r).Ok? {
      ActivationLicense(s, r);
    }
  }

  lemma HeartbeatMints(s: State, pub: string, claimed: DeviceKey, rejected: Option<Error>, banned: bool,
                       version: string, versionBanned: bool, seat: Seat)
    ensures Mints(s, HeartbeatStep(s, pub, claimed, rejected, banned, version, versionBanned, seat).0)
  {
  }

  lemma RedeemMints(s: State, pub: string, c: Id, unreadable: Option<Error>, rejected: Option<Error>)
    ensures Mints(s, RedeemStep(s, pub, c, unreadable, rejected).0)
  {
  }

  lemma BatchMintsNothing(s: State, r: BatchRequest)
    ensures CreateCardBatchStep(s, r).0.leases == s.leases
  {
    BatchRows(s, r);
  }

  lemma OthersMintNothing(s: State, e: Event)
    requires !e.Activate? && !e.Heartbeat? && !e.Redeem?
    ensures Next(s, e).leases == s.leases
  {
    if e.CreateCardBatch? {
      BatchMintsNothing(s, e.batchRequest);
    }
  }

  lemma StepMints(s: State, e: Event)
    requires Consistent(s)
    ensures Mints(s, Next(s, e))
  {
    match e
    case Activate(r, rejected, seat) => ActivateMints(s, r, rejected, seat);
    case Heartbeat(pub, claimed, rejected, banned, version, versionBanned, seat) =>
      HeartbeatMints(s, pub, claimed, rejected, banned, version, versionBanned, seat);
    case Redeem(pub, c, unreadable, rejected) => RedeemMints(s, pub, c, unreadable, rejected);
    case _ => OthersMintNothing(s, e);
  }

  // ----- the license expiry in a lease -----

  function ExpirySeconds(lic: License): int {
    if lic.expiresAt.None? then 0 else Unix(lic.expiresAt.value)
  }

  /** If the step minted a lease, it tells the license's expiry after the step exactly if stale is false,
      and else an earlier one. */
  ghost predicate Tells(s: State, t: State, stale: bool) {
    t.leases != s.leases ==>
      (&& |t.leases| > 0 && t.leases[|t.leases| - 1].device.license in t.licenses
       && var x := t.leases[|t.leases| - 1]; var expiry := ExpirySeconds(t.licenses[x.device.license]);
       && (x.licExp == expiry <==> !stale) && (stale ==> x.licExp < expiry))
  }

  lemma ActivationExpiryCurrent(s: State, r: Activation, rejected: Option<Error>, seat: Seat)
    requires Consistent(s)
    ensures Tells(s, ActivateStep(s, r, rejected, seat).0, false)
  {
    if rejected.None? && ActivateTables(s, r).Ok? {
      ActivationLicense(s, r);
    }
  }

  lemma HeartbeatExpiryCurrent(s: State, pub: string, claimed: DeviceKey, rejected: Option<Error>, banned: bool,
                               version: string, versionBanned: bool, seat: Seat)
    ensures Tells(s, HeartbeatStep(s, pub, claimed, rejected, banned, version, versionBanned, seat).0, false)
  {
  }

  /** An extension is at least a day, so it shows in whole seconds. */
  lemma ExtensionShows(was: int, now: int, days: int)
    requires days > 0
    ensures Unix(was) < Unix(Extended(Some(was), now, days))
  {
  }

  lemma RedeemExpiryStale(s: State, pub: string, c: Id, unreadable: Option<Error>, rejected: Option<Error>)
    ensures Tells(s, RedeemStep(s, pub, c, unreadable, rejected).0, true)
  {
    var t := RedeemStep(s, pub, c, unreadable, rejected).0;
    if t.leases != s.leases {
      var m := HolderOf(s.devices, pub).value.license;
      ExtensionShows(s.licenses[m].expiresAt.value, s.now, s.plans[s.cards[c].plan].durationDays);
    }
  }

  /** A fresh lease tells the client the license's current expiry exactly if it was not a redemption that
      minted it; a redemption's lease tells an earlier one. */
  lemma LeaseExpiryCurrent(s: State, e: Event)
    requires Consistent(s)
    ensures Tells(s, Next(s, e), e.Redeem?)
  {
    match e
    case Activate(r, rejected, seat) =>
      assert Next(s, e) == ActivateStep(s, r, rejected, seat).0;
      ActivationExpiryCurrent(s, r, rejected, seat);
    case Heartbeat(pub, claimed, rejected, banned, version, versionBanned, seat) =>
      assert Next(s, e) == HeartbeatStep(s, pub, claimed, rejected, banned, version, versionBanned, seat).0;
      HeartbeatExpiryCurrent(s, pub, claimed, rejected, banned, version, versionBanned, seat);
    case Redeem(pub, c, unreadable, rejected) =>
      assert Next(s, e) == RedeemStep(s, pub, c, unreadable, rejected).0;
      RedeemExpiryStale(s, pub, c, unreadable, rejected);
    case _ => OthersMintNothing(s, e);
  }

  // ----- every lease against the current tables -----

  /** x belongs to a known license, its version is not ahead of it, and a current version carries the current policy. */
  predicate LeaseOk(s: State, x: Lease) {
    && x.device.license in s.licenses && x.iat <= Unix(s.now)
    && var lic := s.licenses[x.device.license];
    && lic.plan in s.plans && x.policy <= lic.policyVersion
    && (x.policy == lic.policyVersion ==> CarriesPlan(x, s.plans[lic.plan]))
  }

  /** Of two leases of one license, the later has no smaller version, and equal versions mean equal policies. */
  predicate Ordered(x: Lease, y: Lease) {
    x.device.license == y.device.license ==> x.policy <= y.policy && (x.policy == y.policy ==> SamePolicy(x, y))
  }

  ghost predicate LeasesOk(s: State) {
    && (forall i :: 0 <= i < |s.leases| ==> LeaseOk(s, s.leases[i]))
    && (forall i, j :: 0 <= i < j < |s.leases| ==> Ordered(s.leases[i], s.leases[j]))
  }

  lemma LeaseStays(s: State, t: State, x: Lease)
    requires Consistent(s) && Evolves(s, t) && LeaseOk(s, x)
    ensures LeaseOk(t, x)
  {
    assert LicenseEvolves(s, t, x.device.license);
  }

  lemma LeasesStep(s: State, t: State)
    requires Consistent(s) && Evolves(s, t) && Mints(s, t) && LeasesOk(s)
    ensures LeasesOk(t)
  {
    forall i | 0 <= i < |t.leases| ensures LeaseOk(t, t.leases[i]) {
      if i < |s.leases| {
        assert t.leases[i] == s.leases[i];
        LeaseStays(s, t, s.leases[i]);
      }
    }
    forall i, j | 0 <= i < j < |t.leases| ensures Ordered(t.leases[i], t.leases[j]) {
      assert t.leases[i] == s.leases[i];
      if j < |s.leases| {
        assert Ordered(s.leases[i], s.leases[j]);
      } else {
        LeaseStays(s, t, s.leases[i]);
      }
    }
  }

  lemma {:induction false} LeasesReachable(ss: seq<State>, es: seq<Event>, i: nat)
    requires Run(ss, es) && Initial(ss[0]) && i <= |es|
    ensures LeasesOk(ss[i])
  {
    if i > 0 {
      LeasesReachable(ss, es, i - 1);
      RunMints(ss, es, i);
      LeasesStep(ss[i - 1], ss[i]);
    }
  }

  lemma RunMints(ss: seq<State>, es: seq<Event>, i: nat)
    requires Run(ss, es) && Initial(ss[0]) && 0 < i <= |es|
    ensures Consistent(ss[i - 1]) && Evolves(ss[i - 1], ss[i]) && Mints(ss[i - 1], ss[i])
  {
    RunStepEvolves(ss, es, i);
    StepMints(ss[i - 1], es[i - 1]);
  }

  /** The policy version identifies the policy, whichever requests minted the two leases and whatever
      happened between them, and versions never fall in minting order. */
  lemma PolicyIdentified(ss: seq<State>, es: seq<Event>, i: nat, j: nat)
    requires Run(ss, es) && Initial(ss[0]) && i < j < |ss[|es|].leases|
    requires ss[|es|].leases[i].device.license == ss[|es|].leases[j].device.license
    ensures ss[|es|].leases[i].policy <= ss[|es|].leases[j].policy
    ensures ss[|es|].leases[i].policy == ss[|es|].leases[j].policy ==> SamePolicy(ss[|es|].leases[i], ss[|es|].leases[j])
  {
    LeasesReachable(ss, es, |es|);
    assert Ordered(ss[|es|].leases[i], ss[|es|].leases[j]);
  }

  // ----- revocation and freeze -----

  /** No lease of l is among the ones minted since. */
  ghost predicate NoneSince(s: State, t: State, l: Id) {
    s.leases <= t.leases && forall n :: |s.leases| <= n < |t.leases| ==> t.leases[n].device.license != l
  }

  /** While l stays inactive no request mints a lease for it. */
  lemma {:induction false} InactiveMintsNothing(ss: seq<State>, es: seq<Event>, l: Id, i: nat, j: nat)
    requires Run(ss, es) && Initial(ss[0]) && i <= j <= |es|
    requires forall k :: i <= k <= j ==> l in ss[k].licenses && ss[k].licenses[l].status != Active
    ensures NoneSince(ss[i], ss[j], l)
  {
    if i < j {
      InactiveMintsNothing(ss, es, l, i, j - 1);
      RunMints(ss, es, j);
    }
  }

  /** Every lease of l ends within maxTtl of the present, if no plan row of l ever allowed more. */
  lemma {:induction false} LeasesEnd(ss: seq<State>, es: seq<Event>, l: Id, i: nat, maxTtl: int)
    requires Run(ss, es) && Initial(ss[0]) && i <= |es|
    requires forall k :: 0 <= k <= i && l in ss[k].licenses && ss[k].licenses[l].plan in ss[k].plans ==>
               ss[k].plans[ss[k].licenses[l].plan].leaseTtl <= maxTtl
    ensures forall n :: 0 <= n < |ss[i].leases| && ss[i].leases[n].device.license == l ==>
              ss[i].leases[n].exp <= Unix(ss[i].now) + maxTtl
  {
    if i > 0 {
      LeasesEnd(ss, es, l, i - 1, maxTtl);
      RunMints(ss, es, i);
      UnixMonotone(ss[i - 1].now, ss[i].now);
    }
  }

  lemma UnixMonotone(t: int, u: int)
    requires t <= u
    ensures Unix(t) <= Unix(u)
  {
  }

  /** Revocation horizon: once l is revoked or voided at step i, every lease of l that any later state
      knows ends at most the largest lease time of its plan after that moment. */
  lemma RevocationHorizon(ss: seq<State>, es: seq<Event>, l: Id, i: nat, j: nat, maxTtl: int)
    requires Run(ss, es) && Initial(ss[0]) && i <= j <= |es|
    requires l in ss[i].licenses && ss[i].licenses[l].status.Terminal()
    requires forall k :: 0 <= k <= i && l in ss[k].licenses && ss[k].licenses[l].plan in ss[k].plans ==>
               ss[k].plans[ss[k].licenses[l].plan].leaseTtl <= maxTtl
    ensures NoneSince(ss[i], ss[j], l)
    ensures forall n :: 0 <= n < |ss[j].leases| && ss[j].leases[n].device.license == l ==>
              ss[j].leases[n].exp <= Unix(ss[i].now) + maxTtl
  {
    forall k | i <= k <= j ensures l in ss[k].licenses && ss[k].licenses[l].status != Active {
      RunEvolves(ss, es, i, k);
      assert LicenseEvolves(ss[i], ss[k], l);
    }
    InactiveMintsNothing(ss, es, l, i, j);
    LeasesEnd(ss, es, l, i, maxTtl);
  }

  /** The same bound for a freeze, for as long as the license is not active again. */
  lemma FreezeHorizon(ss: seq<State>, es: seq<Event>, l: Id, i: nat, j: nat, maxTtl: int)
    requires Run(ss, es) && Initial(ss[0]) && i <= j <= |es|
    requires forall k :: i <= k <= j ==> l in ss[k].licenses && ss[k].licenses[l].status == Frozen
    requires forall k :: 0 <= k <= i && l in ss[k].licenses && ss[k].licenses[l].plan in ss[k].plans ==>
               ss[k].plans[ss[k].licenses[l].plan].leaseTtl <= maxTtl
    ensures forall n :: 0 <= n < |ss[j].leases| && ss[j].leases[n].device.license == l ==>
              n < |ss[i].leases| && ss[j].leases[n].exp <= Unix(ss[i].now) + maxTtl
  {
    InactiveMintsNothing(ss, es, l, i, j);
    LeasesEnd(ss, es, l, i, maxTtl);
  }
}
