/**
 Devices and uses: uses are conserved, active devices stay within the plan's limit, and an active
 public key names one device.
 */
module Devices {
  import opened Sets
  import opened Wrappers
  import opened Licensing
  import opened Consumption
  import Evolution

  ghost predicate PubsUnique(s: State) {
    forall j, k :: j in s.devices && k in s.devices ==>
      (s.devices[j].active && s.devices[k].active && s.devices[j].pub == s.devices[k].pub ==> j == k)
  }

  /** The unique index on active public keys decides which device a key names. */
  lemma HolderIs(s: State, pub: string, k: DeviceKey)
    requires PubsUnique(s) && Holds(s.devices, k, pub)
    ensures HolderOf(s.devices, pub) == Some(k)
  {
  }

  lemma NoHolder(s: State, pub: string)
    requires forall k :: !Holds(s.devices, k, pub)
    ensures HolderOf(s.devices, pub) == None
  {
  }

  /** Uses still available plus devices that ever took one. */
  function UsesAccounted(s: State, l: Id): int
    requires l in s.licenses && s.licenses[l].usesLeft.Some?
  {
    s.licenses[l].usesLeft.value + |BoundDevices(s.devices, l)|
  }

  // ----- requests that bind nothing -----

  /** The device row k is there before and after, with the same key, and is active only if it was. */
  predicate NotBound(s: State, t: State, k: DeviceKey) {
    && (k in t.devices <==> k in s.devices)
    && (k in s.devices && k in t.devices ==>
          t.devices[k].pub == s.devices[k].pub && (t.devices[k].active ==> s.devices[k].active))
  }

  predicate NotConsumed(s: State, t: State, l: Id) {
    && (l in t.licenses <==> l in s.licenses)
    && (l in s.licenses && l in t.licenses ==> t.licenses[l].usesLeft == s.licenses[l].usesLeft)
  }

  ghost predicate BindsNothing(s: State, t: State) {
    (forall k :: NotBound(s, t, k)) && (forall l :: NotConsumed(s, t, l))
  }

  lemma HeartbeatBindsNothing(s: State, pub: string, claimed: DeviceKey, rejected: Option<Error>, banned: bool,
                              version: string, versionBanned: bool, seat: Seat)
    ensures BindsNothing(s, HeartbeatStep(s, pub, claimed, rejected, banned, version, versionBanned, seat).0)
  {
    HeartbeatOnlyMints(s, pub, claimed, rejected, banned, version, versionBanned, seat);
  }

  lemma RedeemBindsNothing(s: State, pub: string, c: Id, unreadable: Option<Error>, rejected: Option<Error>)
    ensures BindsNothing(s, RedeemStep(s, pub, c, unreadable, rejected).0)
  {
  }

  lemma CardActionBindsNothing(s: State, caller: Caller, c: Id, action: Action)
    ensures BindsNothing(s, CardActionStep(s, caller, c, action).0)
  {
  }

  lemma LicenseActionBindsNothing(s: State, caller: Caller, l: Id, action: Action)
    ensures BindsNothing(s, LicenseActionStep(s, caller, l, action).0)
  {
  }

  lemma UpdatePlanBindsNothing(s: State, p: Id, changes: Plan)
    ensures BindsNothing(s, UpdatePlanStep(s, p, changes).0)
  {
    var t := UpdatePlanStep(s, p, changes).0;
    if t != s {
      assert t.devices == s.devices && t.licenses == Touched(s.licenses, p);
    }
  }

  lemma PlanStatusBindsNothing(s: State, p: Id, status: string)
    ensures BindsNothing(s, PlanStatusStep(s, p, status).0)
  {
  }

  lemma AdminExtendBindsNothing(s: State, caller: Caller, l: Id, days: int)
    ensures BindsNothing(s, AdminExtendStep(s, caller, l, days).0)
  {
  }

  lemma DeletePlanBindsNothing(s: State, p: Id)
    ensures BindsNothing(s, DeletePlanStep(s, p).0)
  {
  }

  lemma UnbindingBindsNothing(s: State, caller: Caller, key: DeviceKey, pub: string, rejected: Option<Error>)
    ensures BindsNothing(s, UnbindDeviceStep(s, caller, key).0)
    ensures BindsNothing(s, DeactivateStep(s, pub, rejected).0)
  {
  }

  lemma UserBindCardBindsNothing(s: State, u: Id, c: Id, badToken: bool, rejected: Option<Error>)
    ensures BindsNothing(s, UserBindCardStep(s, u, c, badToken, rejected).0)
  {
  }

  lemma BatchBindsNothing(s: State, r: BatchRequest)
    ensures BindsNothing(s, CreateCardBatchStep(s, r).0)
  {
    BatchRows(s, r);
  }

  lemma ClientsBindNothing(s: State, e: Event)
    requires !e.Activate? && Evolution.FromClient(e)
    ensures BindsNothing(s, Next(s, e))
  {
    match e
    case Heartbeat(pub, claimed, rejected, banned, version, versionBanned, seat) =>
      assert Next(s, e) == HeartbeatStep(s, pub, claimed, rejected, banned, version, versionBanned, seat).0;
      HeartbeatBindsNothing(s, pub, claimed, rejected, banned, version, versionBanned, seat);
    case Redeem(pub, c, unreadable, rejected) =>
      assert Next(s, e) == RedeemStep(s, pub, c, unreadable, rejected).0;
      RedeemBindsNothing(s, pub, c, unreadable, rejected);
    case Deactivate(pub, rejected) =>
      assert Next(s, e) == DeactivateStep(s, pub, rejected).0;
      UnbindingBindsNothing(s, Admin, DeviceKey("", ""), pub, rejected);
    case UserBindCard(u, c, badToken, rejected) =>
      assert Next(s, e) == UserBindCardStep(s, u, c, badToken, rejected).0;
      UserBindCardBindsNothing(s, u, c, badToken, rejected);
    case _ =>
  }

  lemma ActionsBindNothing(s: State, e: Event)
    requires e.CardAction? || e.LicenseAction? || e.UnbindDevice? || e.AdminExtendLicense?
    ensures BindsNothing(s, Next(s, e))
  {
    match e
    case CardAction(caller, c, action) =>
      assert Next(s, e) == CardActionStep(s, caller, c, action).0;
      CardActionBindsNothing(s, caller, c, action);
    case LicenseAction(caller, l, action) =>
      assert Next(s, e) == LicenseActionStep(s, caller, l, action).0;
      LicenseActionBindsNothing(s, caller, l, action);
    case UnbindDevice(caller, key) =>
      assert Next(s, e) == UnbindDeviceStep(s, caller, key).0;
      UnbindingBindsNothing(s, caller, key, "", None);
    case AdminExtendLicense(caller, l, days) =>
      assert Next(s, e) == AdminExtendStep(s, caller, l, days).0;
      AdminExtendBindsNothing(s, caller, l, days);
    case _ =>
  }

  lemma CatalogBindsNothing(s: State, e: Event)
    requires e.UpdatePlan? || e.PlanStatus? || e.DeletePlan? || e.CreateCardBatch? || e.AgentAdjustBalance?
    ensures BindsNothing(s, Next(s, e))
  {
    match e
    case UpdatePlan(p, changes) =>
      assert Next(s, e) == UpdatePlanStep(s, p, changes).0;
      UpdatePlanBindsNothing(s, p, changes);
    case PlanStatus(p, status) =>
      assert Next(s, e) == PlanStatusStep(s, p, status).0;
      PlanStatusBindsNothing(s, p, status);
    case CreateCardBatch(r) =>
      assert Next(s, e) == CreateCardBatchStep(s, r).0;
      BatchBindsNothing(s, r);
    case DeletePlan(p) =>
      assert Next(s, e) == DeletePlanStep(s, p).0;
      DeletePlanBindsNothing(s, p);
    case AgentAdjustBalance(a, amount) =>
      assert Next(s, e) == AdjustBalanceStep(s, a, amount).0;
      AdjustTouchesMoney(s, a, amount);
    case _ =>
  }

  lemma OthersBindNothing(s: State, e: Event)
    requires !e.Activate?
    ensures BindsNothing(s, Next(s, e))
  {
    if Evolution.FromClient(e) {
      ClientsBindNothing(s, e);
    } else if e.CardAction? || e.LicenseAction? || e.UnbindDevice? || e.AdminExtendLicense? {
      ActionsBindNothing(s, e);
    } else {
      CatalogBindsNothing(s, e);
    }
  }

  lemma SameBindings(s: State, t: State, l: Id)
    requires BindsNothing(s, t)
    ensures BoundDevices(t.devices, l) == BoundDevices(s.devices, l)
    ensures |ActiveDevices(t.devices, l)| <= |ActiveDevices(s.devices, l)|
    ensures PubsUnique(s) ==> PubsUnique(t)
  {
    forall k ensures NotBound(s, t, k) {}
    assert ActiveDevices(t.devices, l) <= ActiveDevices(s.devices, l) by {
      forall k | k in ActiveDevices(t.devices, l) ensures k in ActiveDevices(s.devices, l) {
        assert NotBound(s, t, k);
      }
    }
    assert BoundDevices(t.devices, l) == BoundDevices(s.devices, l) by {
      forall k ensures k in BoundDevices(t.devices, l) <==> k in BoundDevices(s.devices, l) {
        assert NotBound(s, t, k);
      }
    }
    SubsetSize(ActiveDevices(t.devices, l), ActiveDevices(s.devices, l));
    if PubsUnique(s) {
      forall j, k | j in t.devices && k in t.devices && t.devices[j].active && t.devices[k].active
                    && t.devices[j].pub == t.devices[k].pub
        ensures j == k {
        assert NotBound(s, t, j) && NotBound(s, t, k);
      }
    }
  }

  // ----- activation -----

  /** A row for key is added, or the public key in it replaced, and nobody else is active with that key. */
  lemma KeyRow(s: State, t: State, key: DeviceKey, dev: Device)
    requires PubsUnique(s) && t.devices == s.devices[key := dev]
    requires forall k :: k != key ==> !Holds(s.devices, k, dev.pub)
    ensures PubsUnique(t)
  {
    assert forall k :: k != key && k in s.devices && s.devices[k].active ==> s.devices[k].pub != dev.pub || Holds(s.devices, k, dev.pub);
  }

  /** One more device for its own license, none for the others. */
  lemma AddedDevice(s: State, t: State, key: DeviceKey, dev: Device, l: Id)
    requires key !in s.devices && t.devices == s.devices[key := dev] && dev.active
    ensures |BoundDevices(t.devices, l)| == |BoundDevices(s.devices, l)| + if l == key.license then 1 else 0
    ensures |ActiveDevices(t.devices, l)| == |ActiveDevices(s.devices, l)| + if l == key.license then 1 else 0
  {
    if l == key.license {
      assert BoundDevices(t.devices, l) == BoundDevices(s.devices, l) + {key};
      assert ActiveDevices(t.devices, l) == ActiveDevices(s.devices, l) + {key};
    } else {
      assert BoundDevices(t.devices, l) == BoundDevices(s.devices, l);
      assert ActiveDevices(t.devices, l) == ActiveDevices(s.devices, l);
    }
  }

  lemma ReplacedKey(s: State, t: State, key: DeviceKey, dev: Device, l: Id)
    requires key in s.devices && t.devices == s.devices[key := dev] && dev.active == s.devices[key].active
    ensures BoundDevices(t.devices, l) == BoundDevices(s.devices, l)
    ensures ActiveDevices(t.devices, l) == ActiveDevices(s.devices, l)
  {
  }

  /** What binding a device may do to the accounts of license l. */
  ghost predicate Accounted(s: State, t: State, l: Id) {
    && (l in s.licenses && s.licenses[l].usesLeft.Some? ==>
          l in t.licenses && t.licenses[l].usesLeft.Some? && UsesAccounted(t, l) == UsesAccounted(s, l))
    && (|ActiveDevices(t.devices, l)| <= |ActiveDevices(s.devices, l)|
        || (&& l in t.licenses && t.licenses[l].plan in t.plans
            && |ActiveDevices(t.devices, l)| <= t.plans[t.licenses[l].plan].deviceLimit))
  }

  lemma NoDevicesYet(s: State, l: Id)
    requires Consistent(s) && l !in s.licenses
    ensures BoundDevices(s.devices, l) == {} && ActiveDevices(s.devices, l) == {}
  {
  }

  lemma FirstActivationBinds(s: State, r: Activation, card: Card, plan: Plan, l: Id)
    requires Consistent(s) && PubsUnique(s) && card.plan in s.plans && s.plans[card.plan] == plan
    requires FirstActivation(s, r, card, plan).Ok?
    ensures var t := FirstActivation(s, r, card, plan).value.state;
      && PubsUnique(t) && Accounted(s, t, l)
      && (plan.kind.Uses? ==> r.newLicense in t.licenses && t.licenses[r.newLicense].usesLeft.Some?
                              && UsesAccounted(t, r.newLicense) == plan.usesTotal)
  {
    var t := FirstActivation(s, r, card, plan).value.state;
    var key := DeviceKey(r.newLicense, r.fingerprint);
    var dev := Device(r.pub, r.kty, true);
    assert PlanOk(s, card.plan);
    KeyRow(s, t, key, dev);
    AddedDevice(s, t, key, dev, l);
    AddedDevice(s, t, key, dev, r.newLicense);
    NoDevicesYet(s, r.newLicense);
  }

  lemma NewDeviceBinds(s: State, r: Activation, key: DeviceKey, lic: License, plan: Plan, l: Id)
    requires PubsUnique(s) && key !in s.devices && key.license in s.licenses && s.licenses[key.license] == lic
    requires lic.plan in s.plans && s.plans[lic.plan] == plan && (lic.usesLeft.Some? <==> plan.kind.Uses?)
    requires NewDevice(s, r, key, lic, plan).Ok?
    ensures var t := NewDevice(s, r, key, lic, plan).value.state; PubsUnique(t) && Accounted(s, t, l)
  {
    var t := NewDevice(s, r, key, lic, plan).value.state;
    var dev := Device(r.pub, r.kty, true);
    KeyRow(s, t, key, dev);
    AddedDevice(s, t, key, dev, l);
  }

  lemma ReactivationBinds(s: State, r: Activation, key: DeviceKey, lic: License, plan: Plan, l: Id)
    requires PubsUnique(s) && key in s.devices && Reactivation(s, r, key, lic, plan).Ok?
    ensures var t := Reactivation(s, r, key, lic, plan).value.state; PubsUnique(t) && Accounted(s, t, l)
  {
    var t := Reactivation(s, r, key, lic, plan).value.state;
    if t != s {
      KeyRow(s, t, key, t.devices[key]);
      ReplacedKey(s, t, key, t.devices[key], l);
    }
  }

  lemma TablesBind(s: State, r: Activation, l: Id)
    requires Consistent(s) && PubsUnique(s) && ActivateTables(s, r).Ok?
    ensures var t := ActivateTables(s, r).value.state; PubsUnique(t) && Accounted(s, t, l)
  {
    var card := s.cards[r.card];
    assert CardOk(s, r.card);
    if card.status == Unused {
      FirstActivationBinds(s, r, card, s.plans[card.plan], l);
    } else {
      var m := card.license.value;
      var lic, key := s.licenses[m], DeviceKey(m, r.fingerprint);
      assert LicenseOk(s, m);
      if key in s.devices {
        ReactivationBinds(s, r, key, lic, s.plans[card.plan], l);
      } else {
        NewDeviceBinds(s, r, key, lic, s.plans[card.plan], l);
      }
    }
  }

  lemma ActivateBinds(s: State, r: Activation, rejected: Option<Error>, seat: Seat, l: Id)
    requires Consistent(s) && PubsUnique(s)
    ensures var t := ActivateStep(s, r, rejected, seat).0; PubsUnique(t) && Accounted(s, t, l)
  {
    var t := ActivateStep(s, r, rejected, seat).0;
    if rejected.None? && ActivateTables(s, r).Ok? {
      TablesBind(s, r, l);
      var mid := ActivateTables(s, r).value.state;
      assert t.devices == mid.devices && t.licenses == mid.licenses && t.plans == mid.plans;
    }
  }

  lemma NothingBound(s: State, t: State, l: Id)
    requires PubsUnique(s) && BindsNothing(s, t)
    ensures PubsUnique(t) && Accounted(s, t, l)
  {
    SameBindings(s, t, l);
    assert NotConsumed(s, t, l);
  }

  lemma StepBinds(s: State, e: Event, l: Id)
    requires Consistent(s) && PubsUnique(s)
    ensures PubsUnique(Next(s, e)) && Accounted(s, Next(s, e), l)
  {
    if e.Activate? {
      ActivateBinds(s, e.request, e.rejected, e.seat, l);
    } else {
      OthersBindNothing(s, e);
      NothingBound(s, Next(s, e), l);
    }
  }

  // ----- whole runs -----

  lemma RunStepBinds(ss: seq<State>, es: seq<Event>, l: Id, i: nat)
    requires Run(ss, es) && Initial(ss[0]) && 0 < i <= |es| && Consistent(ss[i - 1]) && PubsUnique(ss[i - 1])
    ensures PubsUnique(ss[i]) && Accounted(ss[i - 1], ss[i], l)
  {
    StepBinds(ss[i - 1], es[i - 1], l);
  }

  /** In every reachable state a public key has at most one active device. */
  lemma {:induction false} PubsStayUnique(ss: seq<State>, es: seq<Event>, i: nat)
    requires Run(ss, es) && Initial(ss[0]) && i <= |es|
    ensures PubsUnique(ss[i])
  {
    if i > 0 {
      Reachable(ss, es, i - 1);
      PubsStayUnique(ss, es, i - 1);
      RunStepBinds(ss, es, "", i);
    }
  }

  lemma RunBinds(ss: seq<State>, es: seq<Event>, l: Id, i: nat)
    requires Run(ss, es) && Initial(ss[0]) && 0 < i <= |es|
    ensures Accounted(ss[i - 1], ss[i], l)
  {
    Reachable(ss, es, i - 1);
    PubsStayUnique(ss, es, i - 1);
    RunStepBinds(ss, es, l, i);
  }

  /** Uses are neither lost nor made: the account of a license is the same at any two points. */
  lemma {:induction false} UsesConserved(ss: seq<State>, es: seq<Event>, l: Id, i: nat, j: nat)
    requires Run(ss, es) && Initial(ss[0]) && i <= j <= |es|
    requires l in ss[i].licenses && ss[i].licenses[l].usesLeft.Some?
    ensures l in ss[j].licenses && ss[j].licenses[l].usesLeft.Some?
    ensures UsesAccounted(ss[j], l) == UsesAccounted(ss[i], l)
  {
    if i < j {
      UsesConserved(ss, es, l, i, j - 1);
      RunBinds(ss, es, l, j);
    }
  }

  /** If the plan of l never allows more than limit devices, l never has more than limit active ones. */
  lemma {:induction false} DeviceBound(ss: seq<State>, es: seq<Event>, l: Id, j: nat, limit: nat)
    requires Run(ss, es) && Initial(ss[0]) && j <= |es|
    requires forall k :: 0 <= k <= j && l in ss[k].licenses && ss[k].licenses[l].plan in ss[k].plans ==>
               ss[k].plans[ss[k].licenses[l].plan].deviceLimit <= limit
    ensures |ActiveDevices(ss[j].devices, l)| <= limit
  {
    if j > 0 {
      DeviceBound(ss, es, l, j - 1, limit);
      RunBinds(ss, es, l, j);
    }
  }

  /** The step that created license l: a first activation of an unused card. */
  ghost predicate Creates(s: State, e: Event, l: Id) {
    && l !in s.licenses && e.Activate? && e.rejected.None?
    && e.request.newLicense == l && e.request.card in s.cards && s.cards[e.request.card].status == Unused
    && s.cards[e.request.card].plan in s.plans
    && var first := FirstActivation(s, e.request, s.cards[e.request.card], s.plans[s.cards[e.request.card].plan]);
    && first.Ok? && ActivateTables(s, e.request) == first
  }

  lemma LaterActivationsCreateNone(s: State, r: Activation)
    requires ActivateTables(s, r).Ok? && s.cards[r.card].status != Unused
    ensures ActivateTables(s, r).value.state.licenses.Keys == s.licenses.Keys
  {
  }

  lemma FirstActivationCreates(s: State, r: Activation)
    requires ActivateTables(s, r).Ok? && s.cards[r.card].status == Unused
    ensures var first := FirstActivation(s, r, s.cards[r.card], s.plans[s.cards[r.card].plan]);
            ActivateTables(s, r) == first && first.value.state.licenses.Keys == s.licenses.Keys + {r.newLicense}
  {
  }

  lemma ActivationCreates(s: State, r: Activation, rejected: Option<Error>, seat: Seat, l: Id)
    requires l !in s.licenses && l in ActivateStep(s, r, rejected, seat).0.licenses
    ensures Creates(s, Activate(r, rejected, seat), l)
  {
    if s.cards[r.card].status == Unused {
      FirstActivationCreates(s, r);
    } else {
      LaterActivationsCreateNone(s, r);
    }
  }

  lemma NothingCreated(s: State, e: Event, l: Id)
    requires !e.Activate?
    ensures l in Next(s, e).licenses <==> l in s.licenses
  {
    OthersBindNothing(s, e);
    assert NotConsumed(s, Next(s, e), l);
  }

  lemma OnlyActivationCreates(s: State, e: Event, l: Id)
    requires l !in s.licenses && l in Next(s, e).licenses
    ensures Creates(s, e, l)
  {
    if e.Activate? {
      ActivationCreates(s, e.request, e.rejected, e.seat, l);
    } else {
      NothingCreated(s, e, l);
    }
  }

  lemma RunCreates(ss: seq<State>, es: seq<Event>, l: Id, j: nat)
    requires Run(ss, es) && 0 < j <= |es| && l !in ss[j - 1].licenses && l in ss[j].licenses
    ensures Creates(ss[j - 1], es[j - 1], l)
  {
    OnlyActivationCreates(ss[j - 1], es[j - 1], l);
  }

  lemma NothingAtFirst(ss: seq<State>, es: seq<Event>, l: Id, j: nat)
    requires Run(ss, es) && Initial(ss[0]) && j <= |es| && l in ss[j].licenses
    ensures j > 0
  {
  }

  /** Every license was created by one activation of the run. */
  lemma {:induction false} Origin(ss: seq<State>, es: seq<Event>, l: Id, j: nat) returns (i: nat)
    requires Run(ss, es) && Initial(ss[0]) && j <= |es| && l in ss[j].licenses
    ensures i < j && Creates(ss[i], es[i], l)
  {
    NothingAtFirst(ss, es, l, j);
    if l in ss[j - 1].licenses {
      i := Origin(ss, es, l, j - 1);
    } else {
      RunCreates(ss, es, l, j);
      i := j - 1;
    }
  }

  /** In every reachable state a uses license accounts for exactly the uses its plan granted on activation. */
  lemma UsesGranted(ss: seq<State>, es: seq<Event>, l: Id, j: nat)
    requires Run(ss, es) && Initial(ss[0]) && j <= |es| && l in ss[j].licenses && ss[j].licenses[l].usesLeft.Some?
    ensures exists i :: 0 <= i < j && Creates(ss[i], es[i], l)
              && UsesAccounted(ss[j], l) == ss[i].plans[ss[i].cards[es[i].request.card].plan].usesTotal
  {
    var i := Origin(ss, es, l, j);
    Reachable(ss, es, i);
    PubsStayUnique(ss, es, i);
    var r := es[i].request;
    var card := ss[i].cards[r.card];
    var plan := ss[i].plans[card.plan];
    FirstActivationBinds(ss[i], r, card, plan, l);
    var mid := FirstActivation(ss[i], r, card, plan).value.state;
    assert ss[i + 1] == Next(ss[i], es[i]);
    assert ss[i + 1].licenses == mid.licenses && ss[i + 1].devices == mid.devices;
    if plan.kind.Uses? {
      UsesConserved(ss, es, l, i + 1, j);
    } else {
      NoUsesLater(ss, es, l, i + 1, j);
    }
  }

  lemma {:induction false} NoUsesLater(ss: seq<State>, es: seq<Event>, l: Id, i: nat, j: nat)
    requires Run(ss, es) && Initial(ss[0]) && i <= j <= |es|
    requires l in ss[i].licenses && ss[i].licenses[l].usesLeft.None?
    ensures l in ss[j].licenses && ss[j].licenses[l].usesLeft.None?
  {
    Evolution.RunEvolves(ss, es, i, j);
    assert Evolution.LicenseEvolves(ss[i], ss[j], l);
  }

  // ----- which cards are depleted -----

  /** The plan, as it was at the creating step, had a single use. */
  ghost predicate SingleUse(s: State, e: Event) {
    && e.Activate? && e.request.card in s.cards && s.cards[e.request.card].plan in s.plans
    && var plan := s.plans[s.cards[e.request.card].plan];
    && plan.kind.Uses? && plan.usesTotal == 1
  }

  lemma CreatedCard(s: State, r: Activation, seat: Seat, l: Id)
    requires Creates(s, Activate(r, None, seat), l)
    ensures var t := ActivateStep(s, r, None, seat).0;
      && l in t.licenses && t.licenses[l].originCard == r.card && r.card in t.cards && t.cards[r.card].license == Some(l)
      && (t.cards[r.card].status == Depleted <==> SingleUse(s, Activate(r, None, seat)))
  {
  }

  lemma RunCreatedCard(ss: seq<State>, es: seq<Event>, i: nat, l: Id)
    requires Run(ss, es) && i < |es| && Creates(ss[i], es[i], l)
    ensures var t, c := ss[i + 1], es[i].request.card;
      && l in t.licenses && t.licenses[l].originCard == c && c in t.cards && t.cards[c].license == Some(l)
      && (t.cards[c].status == Depleted <==> SingleUse(ss[i], es[i]))
  {
    assert ss[i + 1] == Next(ss[i], es[i]);
    assert Next(ss[i], es[i]) == ActivateStep(ss[i], es[i].request, None, es[i].seat).0;
    CreatedCard(ss[i], es[i].request, es[i].seat, l);
  }

  /** In every state after its creation, the card of a license is depleted exactly if the plan it was
      created under had a single use; using up a larger plan leaves the card in use. */
  lemma DepletedExactly(ss: seq<State>, es: seq<Event>, i: nat, j: nat, l: Id)
    requires Run(ss, es) && Initial(ss[0]) && i < j <= |es| && Creates(ss[i], es[i], l)
    ensures l in ss[j].licenses && ss[j].licenses[l].originCard in ss[j].cards
    ensures ss[j].cards[ss[j].licenses[l].originCard].status == Depleted <==> SingleUse(ss[i], es[i])
  {
    var c := es[i].request.card;
    RunCreatedCard(ss, es, i, l);
    CardStaysAsCreated(ss, es, i + 1, j, l, c);
  }

  lemma CardStaysAsCreated(ss: seq<State>, es: seq<Event>, i: nat, j: nat, l: Id, c: Id)
    requires Run(ss, es) && Initial(ss[0]) && i <= j <= |es| && l in ss[i].licenses && ss[i].licenses[l].originCard == c
    requires c in ss[i].cards && ss[i].cards[c].license == Some(l)
    ensures l in ss[j].licenses && ss[j].licenses[l].originCard == c && c in ss[j].cards
    ensures ss[j].cards[c].status == Depleted <==> ss[i].cards[c].status == Depleted
  {
    Evolution.RunEvolves(ss, es, i, j);
    assert Evolution.CardEvolves(ss[i], ss[j], c) && Evolution.LicenseEvolves(ss[i], ss[j], l);
  }

  /** So an administrator can revoke or void a license, at any time, exactly if it is not in a final
      status and was not created under a plan with a single use. */
  lemma RevocableExactly(ss: seq<State>, es: seq<Event>, i: nat, j: nat, l: Id, action: Action)
    requires Run(ss, es) && Initial(ss[0]) && i < j <= |es| && Creates(ss[i], es[i], l)
    requires action == Revoke || action == Void
    ensures l in ss[j].licenses
    ensures LicenseActionStep(ss[j], Admin, l, action).1.Done? <==>
              !ss[j].licenses[l].status.Terminal() && !SingleUse(ss[i], es[i])
  {
    DepletedExactly(ss, es, i, j, l);
    Reachable(ss, es, j);
    Evolution.RevocationEffective(ss[j], Admin, l, action);
  }
}
