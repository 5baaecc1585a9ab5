/**
 The licensing engine as a state machine: tables, requests, and what each request does. A service
 call is one atomic step. Instants are milliseconds, a day is 24 hours. Requests carry the outcomes
 of what lies outside the tables: envelopes, signatures, replay checks, bans, and the seat script.
 */
module Licensing {
  import opened Wrappers
  import opened Decimal
  import Version

  type Id = string

  const DAY := 86_400_000
  const INT32_MAX := 0x7fff_ffff

  // ----- tables -----

  /** Card statuses; licenses use Active, Frozen, Revoked and Voided. */
  datatype Status = Unused | Active | Frozen | Revoked | Voided | Depleted {
    predicate Terminal() { this == Revoked || this == Voided }
  }

  datatype PlanKind = Duration | Fixed | Permanent | Uses
  datatype CardKind = LicenseCard | RenewalCard

  datatype Plan = Plan(
    product: Id, kind: PlanKind, durationDays: int, fixedExpiryDays: int, usesTotal: int,
    deviceLimit: int, concurrentLimit: int, features: seq<string>, offlineGrace: int, leaseTtl: int,
    heartbeatSec: int, rebindCooldown: int, monthlyRebind: int, minVersion: string, priceCents: int, active: bool)

  datatype Card = Card(
    product: Id, plan: Id, agent: Option<Id>, kind: CardKind, status: Status,
    license: Option<Id>, usedBy: Option<Id>, activatedAt: Option<int>, createdAt: int)

  datatype License = License(
    product: Id, plan: Id, agent: Option<Id>, originCard: Id, status: Status,
    usesLeft: Option<int>, expiresAt: Option<int>, policyVersion: int)

  /** Devices are unique per license and fingerprint, so that pair names the row. */
  datatype DeviceKey = DeviceKey(license: Id, fingerprint: string)
  datatype Device = Device(pub: string, kty: string, active: bool)

  datatype EndUser = EndUser(product: Id, active: bool, expiresAt: int)
  datatype Batch = Batch(agent: Option<Id>, plan: Id, quantity: int)

  datatype TransactionKind = TopUp | Adjust | BatchPurchase
  datatype Transaction = Transaction(agent: Id, amount: int, balanceAfter: int, kind: TransactionKind, batch: Option<Id>)

  datatype Renewal = Renewal(license: Id, card: Id, days: int, oldExpiry: Option<int>, newExpiry: Option<int>)

  /** The claims of a minted lease; licExp is 0 for a license without expiry. */
  datatype Lease = Lease(
    device: DeviceKey, iat: int, exp: int, licExp: int, policy: int,
    features: seq<string>, heartbeatSec: int, grace: int)

  /** products maps a product to whether it is active. */
  datatype State = State(
    now: int, products: map<Id, bool>, plans: map<Id, Plan>, cards: map<Id, Card>, licenses: map<Id, License>,
    devices: map<DeviceKey, Device>, users: map<Id, EndUser>, balances: map<Id, int>, batches: map<Id, Batch>,
    ledger: seq<Transaction>, renewals: seq<Renewal>, leases: seq<Lease>)

  // ----- requests and answers -----

  datatype Error =
    | CardNotFound | CardNotUsable | CardFrozen | CardRevoked | CardVoided | CardDepleted
    | LicenseFrozen | LicenseRevoked | LicenseVoided | LicenseExpired
    | DeviceLimit | ConcurrentLimit | DeviceNotFound | DeviceUnbound
    | BadSignature | RateLimited | Banned | VersionTooOld
    | PlanRetired | PlanInUse | PlanNotRetired | ProductRetired | ProductNotGranted
    | InsufficientBalance | AgentNotFound | UserDisabled
    | NoRows | UniqueViolation | ForeignKeyViolation | CheckViolation | OutOfRange
    | Invalid                 // an error without a code of its own
    | Outside(name: string)   // an error decided outside the tables

  datatype Seat = Admitted | Full | Failed
  datatype Caller = Admin | Agent(id: Option<Id>)
  datatype Action = Freeze | Unfreeze | Revoke | Void | Unknown

  datatype Activation = Activation(card: Id, pub: string, kty: string, fingerprint: string, newLicense: Id)
  datatype BatchRequest = BatchRequest(
    caller: Caller, granted: bool, prefixOk: bool, product: Id, plan: Id, agent: Option<Id>, kind: string, quantity: int,
    newBatch: Id, generated: seq<Id>)

  /** Passing time is a step of its own; newLicense, newBatch and generated are the random values drawn. */
  datatype Event =
    | Tick(dt: nat)
    | Activate(request: Activation, rejected: Option<Error>, seat: Seat)
    | Heartbeat(pub: string, claimed: DeviceKey, rejected: Option<Error>, banned: bool,
                version: string, versionBanned: bool, seat: Seat)
    | Redeem(pub: string, card: Id, unreadable: Option<Error>, rejected: Option<Error>)
    | Deactivate(pub: string, rejected: Option<Error>)
    | UserBindCard(user: Id, card: Id, badToken: bool, rejected: Option<Error>)
    | CardAction(caller: Caller, card: Id, action: Action)
    | LicenseAction(caller: Caller, license: Id, action: Action)
    | UnbindDevice(caller: Caller, device: DeviceKey)
    | AdminExtendLicense(caller: Caller, license: Id, days: int)
    | UpdatePlan(plan: Id, changes: Plan)
    | PlanStatus(plan: Id, status: string)
    | DeletePlan(plan: Id)
    | CreateCardBatch(batchRequest: BatchRequest)
    | AgentAdjustBalance(agent: Id, amount: int)

  datatype Reply = Done | Refused(error: Error)

  function MapCardErr(status: Status): Error {
    match status
    case Frozen => CardFrozen
    case Revoked => CardRevoked
    case Voided => CardVoided
    case Depleted => CardDepleted
    case _ => CardNotUsable
  }

  function MapLicenseErr(status: Status): Error {
    match status
    case Frozen => LicenseFrozen
    case Voided => LicenseVoided
    case _ => LicenseRevoked
  }

  /** agentDenied: an agent may only see its own resources. */
  predicate AgentDenied(caller: Caller, owner: Option<Id>) {
    caller.Agent? && (caller.id.None? || owner != caller.id)
  }

  function Unix(t: int): int {
    t / 1000
  }

  predicate Expired(lic: License, now: int) {
    lic.expiresAt.Some? && lic.expiresAt.value < now
  }

  function Extended(expiresAt: Option<int>, now: int, days: int): int {
    (if expiresAt.None? || expiresAt.value < now then now else expiresAt.value) + days * DAY
  }

  // ----- devices -----

  predicate Holds(devices: map<DeviceKey, Device>, k: DeviceKey, pub: string) {
    k in devices && devices[k].active && devices[k].pub == pub
  }

  /** The active device with this public key. */
  ghost function HolderOf(devices: map<DeviceKey, Device>, pub: string): (r: Option<DeviceKey>)
    ensures r.Some? ==> Holds(devices, r.value, pub)
    ensures r.None? ==> forall k :: !Holds(devices, k, pub)
  {
    if k :| Holds(devices, k, pub) then Some(k) else None
  }

  function ActiveDevices(devices: map<DeviceKey, Device>, license: Id): set<DeviceKey> {
    set k | k in devices && k.license == license && devices[k].active
  }

  function BoundDevices(devices: map<DeviceKey, Device>, license: Id): set<DeviceKey> {
    set k | k in devices && k.license == license
  }

  // ----- leases -----

  /** The lease as every minting path fills it in. */
  function LeaseFor(now: int, device: DeviceKey, lic: License, plan: Plan): Lease {
    Lease(device, Unix(now), Unix(now) + plan.leaseTtl, if lic.expiresAt.None? then 0 else Unix(lic.expiresAt.value),
          lic.policyVersion, plan.features, plan.heartbeatSec, plan.offlineGrace)
  }

  function Minted(s: State, lease: Lease): State {
    s.(leases := s.leases + [lease])
  }

  // ----- Activate -----

  /** A committed activation: the tables, the device, and what buildResult reads. */
  datatype Bound = Bound(state: State, device: DeviceKey, license: License, plan: Plan)

  function InitialExpiry(plan: Plan, card: Card, now: int): Option<int> {
    match plan.kind
    case Duration => Some(now + plan.durationDays * DAY)
    case Fixed => Some(card.createdAt + plan.fixedExpiryDays * DAY)
    case _ => None
  }

  ghost function FirstActivation(s: State, r: Activation, card: Card, plan: Plan): Result<Bound, Error> {
    var expiry := InitialExpiry(plan, card, s.now);
    if card.kind != LicenseCard then Fail(CardNotUsable)
    else if plan.kind.Fixed? && expiry.value < s.now then Fail(CardNotUsable)
    else OpenLicense(s, r, card, plan, expiry)
  }

  /** The new license, its first device, which takes a use, and the card that is now in use or spent. */
  ghost function OpenLicense(s: State, r: Activation, card: Card, plan: Plan, expiry: Option<int>): Result<Bound, Error> {
    var key := DeviceKey(r.newLicense, r.fingerprint);
    if r.newLicense in s.licenses then Fail(UniqueViolation)
    else if plan.kind.Uses? && plan.usesTotal <= 0 then Fail(NoRows)
    else if key in s.devices || HolderOf(s.devices, r.pub).Some? then Fail(UniqueViolation)
    else
      var usesLeft := if plan.kind.Uses? then Some(plan.usesTotal - 1) else None;
      var lic := License(card.product, card.plan, card.agent, r.card, Active, usesLeft, expiry, 1);
      var used := card.(status := if usesLeft == Some(0) then Depleted else Active,
                        license := Some(r.newLicense), activatedAt := Some(s.now));
      Ok(Bound(s.(licenses := s.licenses[r.newLicense := lic], cards := s.cards[r.card := used],
                  devices := s.devices[key := Device(r.pub, r.kty, true)]),
               key, lic, plan))
  }

  /** The same machine again: its key is replaced if it changed; an unbound device stays unbound. */
  ghost function Reactivation(s: State, r: Activation, key: DeviceKey, lic: License, plan: Plan): Result<Bound, Error>
    requires key in s.devices
  {
    var dev := s.devices[key];
    if dev.pub == r.pub && dev.kty == r.kty then Ok(Bound(s, key, lic, plan))
    else if exists k :: k != key && Holds(s.devices, k, r.pub) then Fail(NoRows)
    else Ok(Bound(s.(devices := s.devices[key := dev.(pub := r.pub, kty := r.kty)]), key, lic, plan))
  }

  ghost function NewDevice(s: State, r: Activation, key: DeviceKey, lic: License, plan: Plan): Result<Bound, Error>
    requires key !in s.devices
  {
    if |ActiveDevices(s.devices, key.license)| >= plan.deviceLimit then Fail(DeviceLimit)
    else if plan.kind.Uses? && (lic.usesLeft.None? || lic.usesLeft.value <= 0) then Fail(CardDepleted)
    else if HolderOf(s.devices, r.pub).Some? then Fail(UniqueViolation)
    else
      var licenses := if plan.kind.Uses? then s.licenses[key.license := lic.(usesLeft := Some(lic.usesLeft.value - 1))]
                      else s.licenses;
      Ok(Bound(s.(licenses := licenses, devices := s.devices[key := Device(r.pub, r.kty, true)]), key, lic, plan))
  }

  ghost function ActivateTables(s: State, r: Activation): Result<Bound, Error> {
    if r.card !in s.cards then Fail(CardNotFound)
    else
      var card := s.cards[r.card];
      if card.plan !in s.plans || card.product !in s.products then Fail(NoRows)
      else
        var plan := s.plans[card.plan];
        if !s.products[card.product] then Fail(ProductRetired)
        else if !plan.active then Fail(PlanRetired)
        else if card.status == Unused then FirstActivation(s, r, card, plan)
        else if card.status != Active then Fail(MapCardErr(card.status))
        else if card.license.None? || card.license.value !in s.licenses then Fail(NoRows)
        else
          var lic := s.licenses[card.license.value];
          var key := DeviceKey(card.license.value, r.fingerprint);
          if lic.status != Active then Fail(MapLicenseErr(lic.status))
          else if Expired(lic, s.now) then Fail(LicenseExpired)
          else if key in s.devices then Reactivation(s, r, key, lic, plan)
          else NewDevice(s, r, key, lic, plan)
  }

  /** When the seat script fails the binding is committed and no lease is given out. */
  ghost function ActivateStep(s: State, r: Activation, rejected: Option<Error>, seat: Seat): (State, Reply) {
    if rejected.Some? then (s, Refused(rejected.value))
    else
      match ActivateTables(s, r)
      case Fail(e) => (s, Refused(e))
      case Ok(b) =>
        if seat.Failed? then (b.state, Refused(RateLimited))
        else (Minted(b.state, LeaseFor(s.now, b.device, b.license, b.plan)), Done)
  }

  // ----- Heartbeat, Redeem, Deactivate, UserBindCard -----

  predicate TooOld(version: string, minVersion: string) {
    minVersion != "" && version != "" && Version.Compare(Version.Key(version), Version.Key(minVersion)) < 0
  }

  ghost function HeartbeatStep(s: State, pub: string, claimed: DeviceKey, rejected: Option<Error>, banned: bool,
                               version: string, versionBanned: bool, seat: Seat): (State, Reply) {
    match HolderOf(s.devices, pub)
    case None => (s, Refused(DeviceNotFound))
    case Some(key) =>
      if key != claimed then (s, Refused(BadSignature))
      else if rejected.Some? then (s, Refused(rejected.value))
      else if key.license !in s.licenses then (s, Refused(NoRows))
      else
        var lic := s.licenses[key.license];
        if banned then (s, Refused(Banned))
        else if lic.status != Active then (s, Refused(MapLicenseErr(lic.status)))
        else if Expired(lic, s.now) then (s, Refused(LicenseExpired))
        else if lic.plan !in s.plans then (s, Refused(NoRows))
        else
          var plan := s.plans[lic.plan];
          if version != "" && !Version.IsVersion(version) then (s, Refused(VersionTooOld))
          else if version != "" && versionBanned then (s, Refused(Banned))
          else if TooOld(version, plan.minVersion) then (s, Refused(VersionTooOld))
          else if seat.Full? then (s, Refused(ConcurrentLimit))
          else (Minted(s, LeaseFor(s.now, key, lic, plan)), Done)
  }

  ghost function RedeemStep(s: State, pub: string, c: Id, unreadable: Option<Error>, rejected: Option<Error>): (State, Reply) {
    if unreadable.Some? then (s, Refused(unreadable.value))
    else
      match HolderOf(s.devices, pub)
      case None => (s, Refused(DeviceNotFound))
      case Some(key) =>
        if rejected.Some? then (s, Refused(rejected.value))
        else
          match RedeemTables(s, key, c)
          case Fail(e) => (s, Refused(e))
          case Ok(after) =>
            var lic := s.licenses[key.license];
            (Minted(after, LeaseFor(s.now, key, lic, s.plans[lic.plan])), Done)
  }

  ghost function RedeemTables(s: State, key: DeviceKey, c: Id): (r: Result<State, Error>)
    ensures r.Ok? ==> key.license in s.licenses && s.licenses[key.license].plan in s.plans
  {
    if key.license !in s.licenses then Fail(NoRows)
    else
      var lic := s.licenses[key.license];
      if lic.status != Active then Fail(MapLicenseErr(lic.status))
      else if lic.expiresAt.None? then Fail(CardNotUsable)
      else if c !in s.cards then Fail(CardNotFound)
      else
        var card := s.cards[c];
        if card.kind != RenewalCard || card.product != lic.product then Fail(CardNotUsable)
        else if card.status != Unused then Fail(MapCardErr(card.status))
        else if card.plan !in s.plans then Fail(NoRows)
        else
          var days := s.plans[card.plan].durationDays;
          if days <= 0 then Fail(CardNotUsable)
          else if lic.plan !in s.plans then Fail(NoRows)
          else if !s.plans[lic.plan].active then Fail(PlanRetired)
          else
            var expiry := Some(Extended(lic.expiresAt, s.now, days));
            Ok(s.(licenses := s.licenses[key.license := lic.(expiresAt := expiry)],
                  cards := s.cards[c := card.(status := Depleted)],
                  renewals := s.renewals + [Renewal(key.license, c, days, lic.expiresAt, expiry)]))
  }

  ghost function DeactivateStep(s: State, pub: string, rejected: Option<Error>): (State, Reply) {
    match HolderOf(s.devices, pub)
    case None => (s, Refused(DeviceNotFound))
    case Some(key) =>
      if rejected.Some? then (s, Refused(rejected.value))
      else (s.(devices := s.devices[key := s.devices[key].(active := false)]), Done)
  }

  function UserBindCardStep(s: State, u: Id, c: Id, badToken: bool, rejected: Option<Error>): (State, Reply) {
    if badToken || u !in s.users then (s, Refused(BadSignature))
    else if !s.users[u].active then (s, Refused(UserDisabled))
    else if rejected.Some? then (s, Refused(rejected.value))
    else if c !in s.cards then (s, Refused(CardNotFound))
    else
      var user, card := s.users[u], s.cards[c];
      if card.product != user.product || card.kind != LicenseCard then (s, Refused(CardNotUsable))
      else if card.status != Unused || card.license.Some? || card.usedBy.Some? then (s, Refused(MapCardErr(card.status)))
      else if card.plan !in s.plans then (s, Refused(NoRows))
      else
        var days := s.plans[card.plan].durationDays;
        if days <= 0 then (s, Refused(CardNotUsable))
        else
          (s.(cards := s.cards[c := card.(status := Depleted, usedBy := Some(u), activatedAt := Some(s.now))],
              users := s.users[u := user.(expiresAt := Extended(Some(user.expiresAt), s.now, days))]), Done)
  }

  // ----- administration -----

  function Verdict(action: Action): Status {
    if action == Void then Voided else Revoked
  }

  /** What the tables must allow for a card action to reach its commit. */
  function CardActionError(s: State, card: Card, action: Action): Option<Error> {
    var licStatus := if card.license.Some? && card.license.value in s.licenses
                     then Some(s.licenses[card.license.value].status) else None;
    match action
    case Freeze =>
      if card.status != Active && card.status != Unused then Some(CardNotUsable)
      else if card.license.Some? && licStatus != Some(Active) then Some(NoRows) else None
    case Unfreeze =>
      if card.status != Frozen then Some(CardNotUsable)
      else if card.license.Some? && licStatus != Some(Frozen) then Some(NoRows) else None
    case Revoke | Void =>
      if card.status.Terminal() then Some(CardNotUsable)
      else if card.status == Depleted then Some(NoRows)
      else if card.license.Some? && (licStatus.None? || licStatus.value.Terminal()) then Some(NoRows) else None
    case Unknown => Some(Invalid)
  }

  function CardStatusAfter(card: Card, action: Action): Status {
    match action
    case Freeze => Frozen
    case Unfreeze => if card.activatedAt.Some? then Active else Unused
    case _ => Verdict(action)
  }

  function LicenseStatusAfter(action: Action): Status {
    match action
    case Freeze => Frozen
    case Unfreeze => Active
    case _ => Verdict(action)
  }

  function CardActionStep(s: State, caller: Caller, c: Id, action: Action): (State, Reply) {
    if c !in s.cards then (s, Refused(NoRows))
    else
      var card := s.cards[c];
      if AgentDenied(caller, card.agent) then (s, Refused(CardNotFound))
      else
        match CardActionError(s, card, action)
        case Some(e) => (s, Refused(e))
        case None =>
          var licenses := if card.license.Some? && card.license.value in s.licenses
                          then s.licenses[card.license.value :=
                                 s.licenses[card.license.value].(status := LicenseStatusAfter(action))]
                          else s.licenses;
          (s.(cards := s.cards[c := card.(status := CardStatusAfter(card, action))], licenses := licenses), Done)
  }

  function LicenseActionError(s: State, lic: License, action: Action): Option<Error> {
    match action
    case Freeze => if lic.status != Active then Some(LicenseRevoked) else None
    case Unfreeze => if lic.status != Frozen then Some(LicenseRevoked) else None
    case Revoke | Void =>
      if lic.status.Terminal() then Some(LicenseRevoked)
      else if lic.originCard !in s.cards then Some(NoRows)
      else
        var was := s.cards[lic.originCard].status;
        if was.Terminal() || was == Depleted then Some(NoRows) else None
    case Unknown => Some(Invalid)
  }

  /** Revoking also revokes the card the license came from; freezing leaves the card alone. */
  function LicenseActionStep(s: State, caller: Caller, l: Id, action: Action): (State, Reply) {
    if l !in s.licenses then (s, Refused(NoRows))
    else
      var lic := s.licenses[l];
      if AgentDenied(caller, lic.agent) then (s, Refused(CardNotFound))
      else
        match LicenseActionError(s, lic, action)
        case Some(e) => (s, Refused(e))
        case None =>
          var cards := if action == Revoke || action == Void
                       then s.cards[lic.originCard := s.cards[lic.originCard].(status := Verdict(action))]
                       else s.cards;
          (s.(licenses := s.licenses[l := lic.(status := LicenseStatusAfter(action))], cards := cards), Done)
  }

  function UnbindDeviceStep(s: State, caller: Caller, key: DeviceKey): (State, Reply) {
    if key !in s.devices then (s, Refused(DeviceNotFound))
    else if key.license !in s.licenses then (s, Refused(NoRows))
    else if AgentDenied(caller, s.licenses[key.license].agent) || !s.devices[key].active then (s, Refused(DeviceNotFound))
    else (s.(devices := s.devices[key := s.devices[key].(active := false)]), Done)
  }

  function AdminExtendStep(s: State, caller: Caller, l: Id, days: int): (State, Reply) {
    if days <= 0 || days > 36500 then (s, Refused(Invalid))
    else if l !in s.licenses then (s, Refused(NoRows))
    else
      var lic := s.licenses[l];
      if AgentDenied(caller, lic.agent) then (s, Refused(CardNotFound))
      else if lic.status.Terminal() then (s, Refused(LicenseRevoked))
      else (s.(licenses := s.licenses[l := lic.(expiresAt := Some(Extended(lic.expiresAt, s.now, days)))]), Done)
  }

  // ----- plans -----

  /** validatePlan. */
  predicate ValidPlan(p: Plan) {
    && (p.kind.Duration? ==> p.durationDays > 0)
    && (p.kind.Fixed? ==> p.fixedExpiryDays > 0)
    && (p.kind.Uses? ==> p.usesTotal > 0)
    && p.deviceLimit >= 1 && p.concurrentLimit >= 1
  }

  /** The CHECK constraints and column ranges of table plans. */
  predicate StorablePlan(p: Plan) {
    && 0 <= p.durationDays <= 36500 && 0 <= p.fixedExpiryDays <= INT32_MAX && 0 <= p.usesTotal <= INT32_MAX
    && 1 <= p.deviceLimit <= 100 && 1 <= p.concurrentLimit <= 100
    && 0 <= p.offlineGrace <= 604800 && 60 <= p.leaseTtl <= 86400 && 10 <= p.heartbeatSec <= 3600
    && 0 <= p.rebindCooldown <= INT32_MAX && 0 <= p.monthlyRebind <= INT32_MAX
    && 0 <= p.priceCents <= INT64_MAX
  }

  /** The submitted values with product, kind and status kept, and zeros filled from the old row. */
  function Merged(old_: Plan, p: Plan): Plan {
    p.(product := old_.product, kind := old_.kind, active := old_.active,
       heartbeatSec := if p.heartbeatSec == 0 then old_.heartbeatSec else p.heartbeatSec,
       leaseTtl := if p.leaseTtl == 0 then old_.leaseTtl else p.leaseTtl,
       rebindCooldown := if p.rebindCooldown == 0 then old_.rebindCooldown else p.rebindCooldown,
       monthlyRebind := if p.monthlyRebind == 0 then old_.monthlyRebind else p.monthlyRebind)
  }

  /** TouchLicensesPolicy. */
  function Touched(licenses: map<Id, License>, plan: Id): map<Id, License> {
    map l | l in licenses ::
      if licenses[l].plan == plan then licenses[l].(policyVersion := licenses[l].policyVersion + 1) else licenses[l]
  }

  function UpdatePlanStep(s: State, p: Id, changes: Plan): (State, Reply) {
    if p !in s.plans then (s, Refused(NoRows))
    else
      var plan := Merged(s.plans[p], changes);
      if !ValidPlan(plan) || plan.priceCents < 0 then (s, Refused(Invalid))
      else if !StorablePlan(plan) then (s, Refused(CheckViolation))
      else (s.(plans := s.plans[p := plan], licenses := Touched(s.licenses, p)), Done)
  }

  function PlanStatusStep(s: State, p: Id, status: string): (State, Reply) {
    if status != "active" && status != "retired" then (s, Refused(Invalid))
    else if p !in s.plans then (s, Refused(NoRows))
    else
      (s.(plans := s.plans[p := s.plans[p].(active := status == "active")], licenses := Touched(s.licenses, p)), Done)
  }

  /** Some license or some card with a history belongs to the plan. */
  predicate PlanInUseBy(s: State, p: Id) {
    || (exists l :: l in s.licenses && s.licenses[l].plan == p)
    || (exists c :: c in s.cards && s.cards[c].plan == p && s.cards[c].status != Unused)
  }

  /** The cards left when the plan's unused ones are deleted. */
  function WithoutUnused(cards: map<Id, Card>, p: Id): map<Id, Card> {
    map c | c in cards && !(cards[c].plan == p && cards[c].status == Unused) :: cards[c]
  }

  function PlansWithout(plans: map<Id, Plan>, p: Id): map<Id, Plan> {
    map q | q in plans && q != p :: plans[q]
  }

  function WithoutPlan(batches: map<Id, Batch>, p: Id): map<Id, Batch> {
    map b | b in batches && batches[b].plan != p :: batches[b]
  }

  function DeletePlanStep(s: State, p: Id): (State, Reply) {
    if p !in s.plans then (s, Refused(NoRows))
    else if s.plans[p].active then (s, Refused(PlanNotRetired))
    else if PlanInUseBy(s, p) then (s, Refused(PlanInUse))
    else
      (s.(cards := WithoutUnused(s.cards, p), batches := WithoutPlan(s.batches, p), plans := PlansWithout(s.plans, p)), Done)
  }

  // ----- card batches and balances -----

  function CardKindOf(kind: string): Option<CardKind> {
    if kind == "" || kind == "license" then Some(LicenseCard)
    else if kind == "renewal" then Some(RenewalCard) else None
  }

  function NewCard(s: State, r: BatchRequest, kind: CardKind): Card {
    Card(r.product, r.plan, r.agent, kind, Unused, None, None, None, s.now)
  }

  ghost predicate Distinct(ids: seq<Id>) {
    forall i, j :: 0 <= i < j < |ids| ==> ids[i] != ids[j]
  }

  /** The first of the checks made before the transaction to fail. */
  function BatchError(s: State, r: BatchRequest): Option<Error> {
    if r.quantity < 1 || r.quantity > 100_000 || !r.prefixOk || CardKindOf(r.kind).None? || r.plan == "" then Some(Invalid)
    else if r.plan !in s.plans || r.product !in s.products then Some(NoRows)
    else if s.plans[r.plan].product != r.product then Some(Invalid)
    else if !s.products[r.product] then Some(ProductRetired)
    else if !s.plans[r.plan].active then Some(PlanRetired)
    else if r.caller.Agent? && (r.caller.id.None? || !r.granted) then Some(ProductNotGranted)
    else if |r.generated| != r.quantity then Some(Invalid)
    else None
  }

  ghost function CreateCardBatchStep(s: State, r: BatchRequest): (State, Reply) {
    if BatchError(s, r).Some? then (s, Refused(BatchError(s, r).value))
    else if r.agent.Some? && r.agent.value !in s.balances then (s, Refused(ForeignKeyViolation))
    else if r.newBatch in s.batches || !Distinct(r.generated) || exists c :: c in r.generated && c in s.cards then
      (s, Refused(UniqueViolation))
    else
      var made := map c | c in r.generated :: NewCard(s, r, CardKindOf(r.kind).value);
      var after := s.(batches := s.batches[r.newBatch := Batch(r.agent, r.plan, r.quantity)], cards := s.cards + made);
      var price := s.plans[r.plan].priceCents;
      if r.agent.None? || price <= 0 then (after, Done)
      else
        var cost := r.quantity * price;
        var balance := s.balances[r.agent.value];
        if cost > INT64_MAX then (s, Refused(Invalid))
        else if balance < cost then (s, Refused(InsufficientBalance))
        else
          (after.(balances := s.balances[r.agent.value := balance - cost],
                  ledger := s.ledger + [Transaction(r.agent.value, -cost, balance - cost, BatchPurchase, Some(r.newBatch))]),
           Done)
  }

  function AdjustBalanceStep(s: State, a: Id, amount: int): (State, Reply) {
    if amount == 0 then (s, Refused(Invalid))
    else if a !in s.balances then (s, Refused(AgentNotFound))
    else
      var after := s.balances[a] + amount;
      if after > INT64_MAX then (s, Refused(OutOfRange))
      else if after < 0 then (s, Refused(InsufficientBalance))
      else
        (s.(balances := s.balances[a := after],
            ledger := s.ledger + [Transaction(a, amount, after, if amount < 0 then Adjust else TopUp, None)]), Done)
  }

  // ----- runs -----

  ghost function Apply(s: State, e: Event): (State, Reply) {
    match e
    case Tick(dt) => (s.(now := s.now + dt), Done)
    case Activate(request, rejected, seat) => ActivateStep(s, request, rejected, seat)
    case Heartbeat(pub, claimed, rejected, banned, version, versionBanned, seat) =>
      HeartbeatStep(s, pub, claimed, rejected, banned, version, versionBanned, seat)
    case Redeem(pub, card, unreadable, rejected) => RedeemStep(s, pub, card, unreadable, rejected)
    case Deactivate(pub, rejected) => DeactivateStep(s, pub, rejected)
    case UserBindCard(user, card, badToken, rejected) => UserBindCardStep(s, user, card, badToken, rejected)
    case CardAction(caller, card, action) => CardActionStep(s, caller, card, action)
    case LicenseAction(caller, license, action) => LicenseActionStep(s, caller, license, action)
    case UnbindDevice(caller, device) => UnbindDeviceStep(s, caller, device)
    case AdminExtendLicense(caller, license, days) => AdminExtendStep(s, caller, license, days)
    case UpdatePlan(plan, changes) => UpdatePlanStep(s, plan, changes)
    case PlanStatus(plan, status) => PlanStatusStep(s, plan, status)
    case DeletePlan(plan) => DeletePlanStep(s, plan)
    case CreateCardBatch(request) => CreateCardBatchStep(s, request)
    case AgentAdjustBalance(agent, amount) => AdjustBalanceStep(s, agent, amount)
  }

  ghost function Next(s: State, e: Event): State {
    Apply(s, e).0
  }

  /** Before the first request: products, plans, users and agents without balance, but nothing sold. */
  ghost predicate Initial(s: State) {
    && s.cards == map[] && s.licenses == map[] && s.devices == map[] && s.batches == map[]
    && s.ledger == [] && s.renewals == [] && s.leases == []
    && (forall p :: p in s.plans ==> ValidPlan(s.plans[p]) && StorablePlan(s.plans[p]) && s.plans[p].product in s.products)
    && (forall a :: a in s.balances ==> s.balances[a] == 0)
  }

  /** ss[i + 1] is the state after request es[i]. */
  ghost predicate Run(ss: seq<State>, es: seq<Event>) {
    |ss| == |es| + 1 && forall i {:trigger Next(ss[i], es[i])} :: 0 <= i < |es| ==> ss[i + 1] == Next(ss[i], es[i])
  }
}
