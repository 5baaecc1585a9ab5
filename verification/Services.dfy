/**
 The service calls: statements issued one after the other, inside transactions that roll back. Each
 method's new tables and answer are exactly those of the state machine's step.
 */
module Services {
  import opened Wrappers
  import opened Decimal
  import opened Licensing
  import opened Devices
  import opened Store
  import Version

  /** What an activation transaction hands to buildResult. */
  datatype Issue = Issue(device: DeviceKey, license: License, plan: Plan)

  /** The transaction's outcome is the specified one; after a failure the tables are about to be rolled back. */
  ghost predicate Commits(spec: Result<Bound, Error>, after: State, r: Result<Issue, Error>) {
    match spec
    case Fail(e) => r == Fail(e)
    case Ok(b) => r == Ok(Issue(b.device, b.license, b.plan)) && after == b.state
  }

  class Service {
    const q: Queries

    constructor (q: Queries)
      ensures this.q == q
    {
      this.q := q;
    }

    // ----- Activate -----

    method FirstActivationTx(r: Activation, card: Card, plan: Plan) returns (issue: Result<Issue, Error>)
      requires r.card in q.cards && q.cards[r.card] == card && card.status == Unused
      modifies q
      ensures Commits(FirstActivation(old(q.Snapshot()), r, card, plan), q.Snapshot(), issue)
    {
      if card.kind != LicenseCard {
        return Fail(CardNotUsable);
      }
      var usesLeft: Option<int>, expiresAt: Option<int> := None, None;
      match plan.kind {
        case Duration => expiresAt := Some(q.now + plan.durationDays * DAY);
        case Fixed =>
          expiresAt := Some(card.createdAt + plan.fixedExpiryDays * DAY);
          if card.createdAt + plan.fixedExpiryDays * DAY < q.now {
            return Fail(CardNotUsable);
          }
        case Uses => usesLeft := Some(plan.usesTotal);
        case Permanent =>
      }
      var lic := License(card.product, card.plan, card.agent, r.card, Active, usesLeft, expiresAt, 1);
      issue := OpenLicenseTx(r, lic, card, plan);
    }

    method OpenLicenseTx(r: Activation, license: License, card: Card, plan: Plan) returns (issue: Result<Issue, Error>)
      requires r.card in q.cards && q.cards[r.card] == card && card.status == Unused
      requires license == License(card.product, card.plan, card.agent, r.card, Active,
                                  if plan.kind.Uses? then Some(plan.usesTotal) else None, license.expiresAt, 1)
      modifies q
      ensures Commits(OpenLicense(old(q.Snapshot()), r, card, plan, license.expiresAt), q.Snapshot(), issue)
    {
      var lic := license;
      var e := q.CreateLicense(r.newLicense, lic);
      if e.Some? {
        return Fail(e.value);
      }
      if plan.kind.Uses? {
        var left := TakeFirstUse(r.newLicense, r.card);
        if left.Fail? {
          return Fail(left.error);
        }
        lic := lic.(usesLeft := Some(left.value));
      }
      var key := DeviceKey(r.newLicense, r.fingerprint);
      e := BindFirst(r, key);
      if e.Some? {
        return Fail(e.value);
      }
      assert q.licenses == old(q.licenses)[r.newLicense := lic];
      assert q.cards == old(q.cards)[r.card := card.(
        status := if lic.usesLeft == Some(0) then Depleted else Active, license := Some(r.newLicense), activatedAt := Some(q.now))];
      return Ok(Issue(key, lic, plan));
    }

    method BindFirst(r: Activation, key: DeviceKey) returns (e: Option<Error>)
      requires r.card in q.cards && q.cards[r.card].status in {Unused, Depleted}
      modifies q
      ensures e == if key in old(q.devices) || HolderOf(old(q.devices), r.pub).Some? then Some(UniqueViolation) else None
      ensures e.None? ==> q.Snapshot() == old(q.Snapshot()).(
        devices := old(q.devices)[key := Device(r.pub, r.kty, true)],
        cards := old(q.cards)[r.card := old(q.cards)[r.card].(
                   status := if old(q.cards)[r.card].status == Depleted then Depleted else Active,
                   license := Some(r.newLicense), activatedAt := Some(q.now))])
    {
      e := q.CreateDevice(key, r.pub, r.kty);
      if e.None? {
        q.SetCardActivated(r.card, r.newLicense, q.now);
      }
    }

    /** Binding the first device takes a use; taking the last one depletes the card. */
    method TakeFirstUse(l: Id, c: Id) returns (left: Result<int, Error>)
      requires l in q.licenses && q.licenses[l].usesLeft.Some? && c in q.cards
      modifies q
      ensures var total := old(q.licenses)[l].usesLeft.value;
        if total <= 0 then left == Fail(NoRows)
        else && left == Ok(total - 1)
             && q.Snapshot() == old(q.Snapshot()).(
                  licenses := old(q.licenses)[l := old(q.licenses)[l].(usesLeft := Some(total - 1))],
                  cards := if total == 1 then old(q.cards)[c := old(q.cards)[c].(status := Depleted)] else old(q.cards))
    {
      left := q.ConsumeLicenseUse(l);
      if left.Ok? && left.value == 0 {
        var e := q.SetCardStatus(c, Depleted);
        if e.Some? {
          return Fail(NoRows);
        }
      }
    }

    method SameDeviceTx(r: Activation, key: DeviceKey, lic: License, plan: Plan) returns (issue: Result<Issue, Error>)
      requires key in q.devices
      modifies q
      ensures Commits(Reactivation(old(q.Snapshot()), r, key, lic, plan), q.Snapshot(), issue)
    {
      var dev := q.devices[key];
      if dev.pub != r.pub || dev.kty != r.kty {
        var e := q.RotateDevicePub(key, r.pub, r.kty);
        if e.Some? {
          return Fail(e.value);
        }
      }
      return Ok(Issue(key, lic, plan));
    }

    method NewDeviceTx(r: Activation, key: DeviceKey, lic: License, plan: Plan) returns (issue: Result<Issue, Error>)
      requires key !in q.devices && key.license in q.licenses && q.licenses[key.license] == lic
      modifies q
      ensures Commits(NewDevice(old(q.Snapshot()), r, key, lic, plan), q.Snapshot(), issue)
    {
      if |ActiveDevices(q.devices, key.license)| >= plan.deviceLimit {
        return Fail(DeviceLimit);
      }
      if plan.kind.Uses? {
        var left := q.ConsumeLicenseUse(key.license);
        if left.Fail? {
          return Fail(CardDepleted);
        }
      }
      var e := q.CreateDevice(key, r.pub, r.kty);
      if e.Some? {
        return Fail(e.value);
      }
      return Ok(Issue(key, lic, plan));
    }

    method ActivateTx(r: Activation) returns (issue: Result<Issue, Error>)
      modifies q
      ensures Commits(ActivateTables(old(q.Snapshot()), r), q.Snapshot(), issue)
    {
      if r.card !in q.cards {
        return Fail(CardNotFound);
      }
      var card := q.cards[r.card];
      if card.plan !in q.plans || card.product !in q.products {
        return Fail(NoRows);
      }
      var plan := q.plans[card.plan];
      if !q.products[card.product] {
        return Fail(ProductRetired);
      }
      if !plan.active {
        return Fail(PlanRetired);
      }
      match card.status {
        case Unused => issue := FirstActivationTx(r, card, plan);
        case Active =>
          if card.license.None? || card.license.value !in q.licenses {
            return Fail(NoRows);
          }
          var lic := q.licenses[card.license.value];
          if lic.status != Active {
            return Fail(MapLicenseErr(lic.status));
          }
          if lic.expiresAt.Some? && lic.expiresAt.value < q.now {
            return Fail(LicenseExpired);
          }
          var key := DeviceKey(card.license.value, r.fingerprint);
          if key in q.devices {
            issue := SameDeviceTx(r, key, lic, plan);
          } else {
            issue := NewDeviceTx(r, key, lic, plan);
          }
        case _ => return Fail(MapCardErr(card.status));
      }
    }

    method Mint(key: DeviceKey, lic: License, plan: Plan)
      modifies q`leases
      ensures q.leases == old(q.leases) + [LeaseFor(q.now, key, lic, plan)]
    {
      var licExp := 0;
      if lic.expiresAt.Some? {
        licExp := Unix(lic.expiresAt.value);
      }
      var iat := Unix(q.now);
      q.leases := q.leases + [Lease(key, iat, iat + plan.leaseTtl, licExp, lic.policyVersion,
                                    plan.features, plan.heartbeatSec, plan.offlineGrace)];
    }

    method Activate(r: Activation, rejected: Option<Error>, seat: Seat) returns (reply: Reply)
      modifies q
      ensures (q.Snapshot(), reply) == ActivateStep(old(q.Snapshot()), r, rejected, seat)
    {
      if rejected.Some? {
        return Refused(rejected.value);
      }
      var before := q.Snapshot();
      var issue := ActivateTx(r);
      if issue.Fail? {
        q.Rollback(before);
        return Refused(issue.error);
      }
      if seat.Failed? {
        return Refused(RateLimited);
      }
      Mint(issue.value.device, issue.value.license, issue.value.plan);
      return Done;
    }

    // ----- Heartbeat, Redeem, Deactivate, UserBindCard -----

    method TooOldClient(version: string, minVersion: string) returns (r: bool)
      ensures r == TooOld(version, minVersion)
    {
      if minVersion == "" || version == "" {
        return false;
      }
      var c := Version.CompareVersion(version, minVersion);
      return c < 0;
    }

    method Heartbeat(pub: string, claimed: DeviceKey, rejected: Option<Error>, banned: bool,
                     version: string, versionBanned: bool, seat: Seat) returns (reply: Reply)
      requires PubsUnique(q.Snapshot())
      modifies q
      ensures (q.Snapshot(), reply)
           == HeartbeatStep(old(q.Snapshot()), pub, claimed, rejected, banned, version, versionBanned, seat)
    {
      var dev := q.GetDeviceByPub(pub);
      if dev.None? {
        NoHolder(q.Snapshot(), pub);
        return Refused(DeviceNotFound);
      }
      var key := dev.value;
      HolderIs(q.Snapshot(), pub, key);
      if key != claimed {
        return Refused(BadSignature);
      }
      if rejected.Some? {
        return Refused(rejected.value);
      }
      if key.license !in q.licenses {
        return Refused(NoRows);
      }
      var lic := q.licenses[key.license];
      if banned {
        return Refused(Banned);
      }
      if lic.status != Active {
        return Refused(MapLicenseErr(lic.status));
      }
      if lic.expiresAt.Some? && lic.expiresAt.value < q.now {
        return Refused(LicenseExpired);
      }
      if lic.plan !in q.plans {
        return Refused(NoRows);
      }
      var plan := q.plans[lic.plan];
      if version != "" && !Version.IsVersion(version) {
        return Refused(VersionTooOld);
      }
      if version != "" && versionBanned {
        return Refused(Banned);
      }
      var tooOld := TooOldClient(version, plan.minVersion);
      if tooOld {
        return Refused(VersionTooOld);
      }
      if seat.Full? {
        return Refused(ConcurrentLimit);
      }
      Mint(key, lic, plan);
      return Done;
    }

    method RedeemTx(key: DeviceKey, c: Id) returns (e: Option<Error>)
      modifies q
      ensures match RedeemTables(old(q.Snapshot()), key, c)
              case Fail(x) => e == Some(x)
              case Ok(t) => e == None && q.Snapshot() == t
    {
      if key.license !in q.licenses {
        return Some(NoRows);
      }
      var lic := q.licenses[key.license];
      if lic.status != Active {
        return Some(MapLicenseErr(lic.status));
      }
      if lic.expiresAt.None? {
        return Some(CardNotUsable);
      }
      if c !in q.cards {
        return Some(CardNotFound);
      }
      var card := q.cards[c];
      if card.kind != RenewalCard || card.product != lic.product {
        return Some(CardNotUsable);
      }
      if card.status != Unused {
        return Some(MapCardErr(card.status));
      }
      if card.plan !in q.plans {
        return Some(NoRows);
      }
      var plan := q.plans[card.plan];
      if plan.durationDays <= 0 {
        return Some(CardNotUsable);
      }
      if lic.plan !in q.plans {
        return Some(NoRows);
      }
      if !q.plans[lic.plan].active {
        return Some(PlanRetired);
      }
      var expiry := q.ExtendLicense(key.license, plan.durationDays);
      if expiry.Fail? {
        return Some(NoRows);
      }
      e := q.SetCardStatus(c, Depleted);
      if e.Some? {
        return;
      }
      q.renewals := q.renewals + [Renewal(key.license, c, plan.durationDays, lic.expiresAt, Some(expiry.value))];
      return None;
    }

    /** The lease is filled in from the license row as it was read before the extension. */
    method Redeem(pub: string, c: Id, unreadable: Option<Error>, rejected: Option<Error>) returns (reply: Reply)
      requires PubsUnique(q.Snapshot())
      modifies q
      ensures (q.Snapshot(), reply) == RedeemStep(old(q.Snapshot()), pub, c, unreadable, rejected)
    {
      if unreadable.Some? {
        return Refused(unreadable.value);
      }
      var dev := q.GetDeviceByPub(pub);
      if dev.None? {
        NoHolder(q.Snapshot(), pub);
        return Refused(DeviceNotFound);
      }
      var key := dev.value;
      HolderIs(q.Snapshot(), pub, key);
      if rejected.Some? {
        return Refused(rejected.value);
      }
      var before := q.Snapshot();
      var e := RedeemTx(key, c);
      if e.Some? {
        q.Rollback(before);
        return Refused(e.value);
      }
      Mint(key, before.licenses[key.license], before.plans[before.licenses[key.license].plan]);
      return Done;
    }

    method Deactivate(pub: string, rejected: Option<Error>) returns (reply: Reply)
      requires PubsUnique(q.Snapshot())
      modifies q
      ensures (q.Snapshot(), reply) == DeactivateStep(old(q.Snapshot()), pub, rejected)
    {
      var dev := q.GetDeviceByPub(pub);
      if dev.None? {
        NoHolder(q.Snapshot(), pub);
        return Refused(DeviceNotFound);
      }
      HolderIs(q.Snapshot(), pub, dev.value);
      if rejected.Some? {
        return Refused(rejected.value);
      }
      var e := q.UnbindDevice(dev.value);
      if e.Some? {
        return Refused(DeviceUnbound);
      }
      return Done;
    }

    method UserBindCard(u: Id, c: Id, badToken: bool, rejected: Option<Error>) returns (reply: Reply)
      modifies q
      ensures (q.Snapshot(), reply) == UserBindCardStep(old(q.Snapshot()), u, c, badToken, rejected)
    {
      if badToken || u !in q.users {
        return Refused(BadSignature);
      }
      if !q.users[u].active {
        return Refused(UserDisabled);
      }
      if rejected.Some? {
        return Refused(rejected.value);
      }
      var before := q.Snapshot();
      var e := UserBindCardTx(u, c);
      if e.Some? {
        q.Rollback(before);
        return Refused(e.value);
      }
      return Done;
    }

    method UserBindCardTx(u: Id, c: Id) returns (e: Option<Error>)
      requires u in q.users && q.users[u].active
      modifies q
      ensures var (t, reply) := UserBindCardStep(old(q.Snapshot()), u, c, false, None);
        if e.Some? then reply == Refused(e.value) else reply == Done && q.Snapshot() == t
    {
      if c !in q.cards {
        return Some(CardNotFound);
      }
      var card := q.cards[c];
      if card.product != q.users[u].product || card.kind != LicenseCard {
        return Some(CardNotUsable);
      }
      if card.status != Unused || card.license.Some? || card.usedBy.Some? {
        return Some(MapCardErr(card.status));
      }
      if card.plan !in q.plans {
        return Some(NoRows);
      }
      var days := q.plans[card.plan].durationDays;
      if days <= 0 {
        return Some(CardNotUsable);
      }
      e := q.MarkCardUsedByUser(c, u);
      if e.Some? {
        return Some(CardNotUsable);
      }
      e := q.ExtendEndUser(u, days);
    }

    // ----- administration -----

    method CardActionTx(c: Id, card: Card, action: Action, from: Option<Status>, target: Status) returns (e: Option<Error>)
      requires c in q.cards && q.cards[c] == card && target == CardStatusAfter(card, action)
      requires match action
               case Freeze => from == Some(card.status) && card.status in {Active, Unused}
               case Unfreeze => from == Some(card.status) && card.status == Frozen
               case Unknown => false
               case _ => from.None? && !card.status.Terminal()
      modifies q
      ensures e == CardActionError(old(q.Snapshot()), card, action)
      ensures e.None? ==> q.Snapshot() == CardActionStep(old(q.Snapshot()), Admin, c, action).0
    {
      if from.Some? {
        e := q.TransitionCardStatus(c, from.value, target);
      } else {
        e := q.TransitionCardToTerminal(c, target);
      }
      if e.Some? || card.license.None? {
        return;
      }
      var l := card.license.value;
      match action {
        case Freeze => e := q.TransitionLicense(l, Active, Frozen);
        case Unfreeze => e := q.TransitionLicense(l, Frozen, Active);
        case Revoke | Void => e := q.TransitionLicenseTerminal(l, target);
        case Unknown =>
      }
    }

    method CardAction(caller: Caller, c: Id, action: Action) returns (reply: Reply)
      modifies q
      ensures (q.Snapshot(), reply) == CardActionStep(old(q.Snapshot()), caller, c, action)
    {
      if c !in q.cards {
        return Refused(NoRows);
      }
      var card := q.cards[c];
      if AgentDenied(caller, card.agent) {
        return Refused(CardNotFound);
      }
      var from: Option<Status>, target := None, Revoked;
      match action {
        case Freeze =>
          if card.status != Active && card.status != Unused {
            return Refused(CardNotUsable);
          }
          from, target := Some(card.status), Frozen;
        case Unfreeze =>
          if card.status != Frozen {
            return Refused(CardNotUsable);
          }
          from, target := Some(Frozen), Unused;
          if card.activatedAt.Some? {
            target := Active;
          }
        case Unknown => return Refused(Invalid);
        case _ =>
          if card.status == Revoked || card.status == Voided {
            return Refused(CardNotUsable);
          }
          if action == Void {
            target := Voided;
          }
      }
      var before := q.Snapshot();
      var e := CardActionTx(c, card, action, from, target);
      if e.Some? {
        q.Rollback(before);
        return Refused(e.value);
      }
      return Done;
    }

    method LicenseActionTx(l: Id, lic: License, action: Action, target: Status) returns (e: Option<Error>)
      requires l in q.licenses && q.licenses[l] == lic && target == LicenseStatusAfter(action)
      requires match action
               case Freeze => lic.status == Active
               case Unfreeze => lic.status == Frozen
               case Unknown => false
               case _ => !lic.status.Terminal()
      modifies q
      ensures e == LicenseActionError(old(q.Snapshot()), lic, action)
      ensures e.None? ==> q.Snapshot() == LicenseActionStep(old(q.Snapshot()), Admin, l, action).0
    {
      if action == Freeze || action == Unfreeze {
        e := q.TransitionLicense(l, lic.status, target);
        return;
      }
      e := q.TransitionLicenseTerminal(l, target);
      if e.Some? {
        return;
      }
      e := q.TransitionCardToTerminal(lic.originCard, target);
    }

    method LicenseAction(caller: Caller, l: Id, action: Action) returns (reply: Reply)
      modifies q
      ensures (q.Snapshot(), reply) == LicenseActionStep(old(q.Snapshot()), caller, l, action)
    {
      if l !in q.licenses {
        return Refused(NoRows);
      }
      var lic := q.licenses[l];
      if AgentDenied(caller, lic.agent) {
        return Refused(CardNotFound);
      }
      var target := Revoked;
      match action {
        case Freeze =>
          if lic.status != Active {
            return Refused(LicenseRevoked);
          }
          target := Frozen;
        case Unfreeze =>
          if lic.status != Frozen {
            return Refused(LicenseRevoked);
          }
          target := Active;
        case Unknown => return Refused(Invalid);
        case _ =>
          if lic.status == Revoked || lic.status == Voided {
            return Refused(LicenseRevoked);
          }
          if action == Void {
            target := Voided;
          }
      }
      var before := q.Snapshot();
      var e := LicenseActionTx(l, lic, action, target);
      if e.Some? {
        q.Rollback(before);
        return Refused(e.value);
      }
      return Done;
    }

    method UnbindDevice(caller: Caller, key: DeviceKey) returns (reply: Reply)
      modifies q
      ensures (q.Snapshot(), reply) == UnbindDeviceStep(old(q.Snapshot()), caller, key)
    {
      if key !in q.devices {
        return Refused(DeviceNotFound);
      }
      if key.license !in q.licenses {
        return Refused(NoRows);
      }
      if AgentDenied(caller, q.licenses[key.license].agent) {
        return Refused(DeviceNotFound);
      }
      var e := q.UnbindDevice(key);
      if e.Some? {
        return Refused(DeviceNotFound);
      }
      return Done;
    }

    method AdminExtendLicense(caller: Caller, l: Id, days: int) returns (reply: Reply)
      modifies q
      ensures (q.Snapshot(), reply) == AdminExtendStep(old(q.Snapshot()), caller, l, days)
    {
      if days <= 0 || days > 36500 {
        return Refused(Invalid);
      }
      if l !in q.licenses {
        return Refused(NoRows);
      }
      var lic := q.licenses[l];
      if AgentDenied(caller, lic.agent) {
        return Refused(CardNotFound);
      }
      if lic.status == Revoked || lic.status == Voided {
        return Refused(LicenseRevoked);
      }
      var expiry := q.ExtendLicense(l, days);
      if expiry.Fail? {
        return Refused(NoRows);
      }
      return Done;
    }

    // ----- plans -----

    method UpdatePlan(id: Id, changes: Plan) returns (reply: Reply)
      modifies q
      ensures (q.Snapshot(), reply) == UpdatePlanStep(old(q.Snapshot()), id, changes)
    {
      if id !in q.plans {
        return Refused(NoRows);
      }
      var was := q.plans[id];
      var plan := changes.(product := was.product, kind := was.kind, active := was.active);
      if plan.heartbeatSec == 0 {
        plan := plan.(heartbeatSec := was.heartbeatSec);
      }
      if plan.leaseTtl == 0 {
        plan := plan.(leaseTtl := was.leaseTtl);
      }
      if plan.rebindCooldown == 0 {
        plan := plan.(rebindCooldown := was.rebindCooldown);
      }
      if plan.monthlyRebind == 0 {
        plan := plan.(monthlyRebind := was.monthlyRebind);
      }
      if !ValidPlan(plan) || plan.priceCents < 0 {
        return Refused(Invalid);
      }
      var before := q.Snapshot();
      var e := q.UpdatePlan(id, plan);
      if e.Some? {
        q.Rollback(before);
        return Refused(e.value);
      }
      q.TouchLicensesPolicy(id);
      TouchedRows(before.licenses, q.licenses, id);
      return Done;
    }

    method PlanStatus(id: Id, status: string) returns (reply: Reply)
      modifies q
      ensures (q.Snapshot(), reply) == PlanStatusStep(old(q.Snapshot()), id, status)
    {
      if status != "active" && status != "retired" {
        return Refused(Invalid);
      }
      var before := q.Snapshot();
      var e := q.SetPlanStatus(id, status == "active");
      if e.Some? {
        q.Rollback(before);
        return Refused(e.value);
      }
      q.TouchLicensesPolicy(id);
      TouchedRows(before.licenses, q.licenses, id);
      return Done;
    }

    /** CountPlanLicenses and CountPlanLiveCards. */
    method CountsPositive(id: Id) returns (inUse: bool)
      ensures inUse <==> PlanInUseBy(q.Snapshot(), id)
    {
      var licenses := set l | l in q.licenses && q.licenses[l].plan == id;
      var live := set c | c in q.cards && q.cards[c].plan == id && q.cards[c].status != Unused;
      inUse := |licenses| > 0 || |live| > 0;
      if inUse {
        assert exists x :: x in licenses || x in live;
      } else {
        assert licenses == {} && live == {};
        assert forall l :: l in q.licenses && q.licenses[l].plan == id ==> l in licenses;
        assert forall c :: c in q.cards && q.cards[c].plan == id && q.cards[c].status != Unused ==> c in live;
      }
    }

    method DeletePlan(id: Id) returns (reply: Reply)
      modifies q
      ensures (q.Snapshot(), reply) == DeletePlanStep(old(q.Snapshot()), id)
    {
      if id !in q.plans {
        return Refused(NoRows);
      }
      if q.plans[id].active {
        return Refused(PlanNotRetired);
      }
      var inUse := CountsPositive(id);
      if inUse {
        return Refused(PlanInUse);
      }
      ghost var before := q.Snapshot();
      q.VoidAndDeleteUnusedCards(id);
      RemainingCards(before.cards, q.cards, id);
      q.DeleteBatchesByPlan(id);
      RemainingBatches(before.batches, q.batches, id);
      var e := q.DeletePlan(id);
      RemainingPlans(before.plans, q.plans, id);
      return if e.Some? then Refused(NoRows) else Done;
    }

    // ----- batches and balances -----

    method ChargeTx(r: BatchRequest, price: int) returns (e: Option<Error>)
      requires r.agent.Some? && r.agent.value in q.balances && price > 0 && r.quantity >= 1
      modifies q`balances, q`ledger
      ensures var cost := r.quantity * price; var a := r.agent.value; var balance := old(q.balances)[a];
        if cost > INT64_MAX then e == Some(Invalid)
        else if balance < cost then e == Some(InsufficientBalance)
        else && e.None? && q.balances == old(q.balances)[a := balance - cost]
             && q.ledger == old(q.ledger) + [Transaction(a, -cost, balance - cost, BatchPurchase, Some(r.newBatch))]
    {
      QuotientGuard(r.quantity, price, INT64_MAX);
      if r.quantity > INT64_MAX / price {
        return Some(Invalid);
      }
      var cost := r.quantity * price;
      var after := q.DeductAgentBalance(r.agent.value, cost);
      if after.Fail? {
        return Some(InsufficientBalance);
      }
      q.InsertAgentTransaction(Transaction(r.agent.value, -cost, after.value, BatchPurchase, Some(r.newBatch)));
      return None;
    }

    method BatchChecks(r: BatchRequest) returns (e: Option<Error>)
      ensures e == BatchError(q.Snapshot(), r)
    {
      if r.quantity < 1 || r.quantity > 100_000 {
        return Some(Invalid);
      }
      if !r.prefixOk {
        return Some(Invalid);
      }
      if CardKindOf(r.kind).None? || r.plan == "" {
        return Some(Invalid);
      }
      if r.plan !in q.plans || r.product !in q.products {
        return Some(NoRows);
      }
      if q.plans[r.plan].product != r.product {
        return Some(Invalid);
      }
      if !q.products[r.product] {
        return Some(ProductRetired);
      }
      if !q.plans[r.plan].active {
        return Some(PlanRetired);
      }
      if r.caller.Agent? && (r.caller.id.None? || !r.granted) {
        return Some(ProductNotGranted);
      }
      if |r.generated| != r.quantity {
        return Some(Invalid);
      }
      return None;
    }

    method CreateCardBatch(r: BatchRequest) returns (reply: Reply)
      modifies q
      ensures (q.Snapshot(), reply) == CreateCardBatchStep(old(q.Snapshot()), r)
    {
      var e := BatchChecks(r);
      if e.Some? {
        return Refused(e.value);
      }
      var before := q.Snapshot();
      e := q.CreateBatch(r, CardKindOf(r.kind).value);
      if e.Some? {
        q.Rollback(before);
        return Refused(e.value);
      }
      var price := q.plans[r.plan].priceCents;
      if r.agent.Some? && price > 0 {
        e := ChargeTx(r, price);
        if e.Some? {
          q.Rollback(before);
          return Refused(e.value);
        }
      }
      return Done;
    }

    method AgentAdjustBalance(a: Id, amount: int) returns (reply: Reply)
      modifies q
      ensures (q.Snapshot(), reply) == AdjustBalanceStep(old(q.Snapshot()), a, amount)
    {
      if amount == 0 {
        return Refused(Invalid);
      }
      var kind := TopUp;
      if amount < 0 {
        kind := Adjust;
      }
      if a !in q.balances {
        return Refused(AgentNotFound);
      }
      var after := q.TopUpAgentBalance(a, amount);
      if after.Fail? {
        return Refused(if after.error == NoRows then InsufficientBalance else after.error);
      }
      q.InsertAgentTransaction(Transaction(a, amount, after.value, kind, None));
      return Done;
    }
  }

  /** The guard by division is the guard on the product. */
  lemma QuotientGuard(n: int, price: int, max: int)
    requires price > 0 && n >= 1 && max >= 0
    ensures n > max / price <==> n * price > max
    ensures n * price > 0
  {
    var k := max / price;
    if n > k {
      assert n * price >= (k + 1) * price;
    } else {
      assert n * price <= k * price;
    }
  }
}
