/**
 Runs that show what the licensing engine lets happen: a license nobody can revoke, a lease for an
 unbound device, and a lease that tells an outdated expiry.
 */
module Witnesses {
  import opened Wrappers
  import opened Licensing
  import opened Leases

  /** One product, one plan, nothing sold. */
  function Shop(plan: Plan): State {
    State(0, map["product" := true], map["plan" := plan], map[], map[], map[], map[], map[], map[], [], [], [])
  }

  /** A plan for one device, of this kind and length. */
  function PlanOf(kind: PlanKind, days: int, uses: int): Plan {
    Plan("product", kind, days, 0, uses, 1, 1, [], 0, 60, 10, 0, 0, "", 0, true)
  }

  predicate Sellable(plan: Plan) {
    ValidPlan(plan) && StorablePlan(plan) && plan.product == "product" && plan.active && !plan.kind.Fixed?
  }

  /** A run goes on with one more request. */
  lemma Continues(ss: seq<State>, es: seq<Event>, e: Event, t: State)
    requires Run(ss, es) && t == Next(ss[|es|], e)
    ensures Run(ss + [t], es + [e])
  {
    var ss', es' := ss + [t], es + [e];
    forall i | 0 <= i < |es'| ensures ss'[i + 1] == Next(ss'[i], es'[i]) {
      if i < |es| {
        assert ss'[i] == ss[i] && es'[i] == es[i] && ss'[i + 1] == ss[i + 1];
        assert ss[i + 1] == Next(ss[i], es[i]);
      }
    }
  }

  lemma Starting(plan: Plan)
    requires Sellable(plan)
    ensures Initial(Shop(plan)) && Run([Shop(plan)], [])
  {
  }

  // ----- selling one card -----

  function Making(card: Id, kind: string): BatchRequest {
    BatchRequest(Admin, true, true, "product", "plan", None, kind, 1, card, [card])
  }

  function Fresh(kind: CardKind): Card {
    Card("product", "plan", None, kind, Unused, None, None, None, 0)
  }

  function Stocked(plan: Plan): State {
    Shop(plan).(cards := map["card" := Fresh(LicenseCard)], batches := map["card" := Batch(None, "plan", 1)])
  }

  lemma Stocks(plan: Plan)
    requires Sellable(plan)
    ensures Next(Shop(plan), CreateCardBatch(Making("card", "license"))) == Stocked(plan)
  {
    var made := map c | c in ["card"] :: NewCard(Shop(plan), Making("card", "license"), LicenseCard);
    assert made == map["card" := Fresh(LicenseCard)];
    assert Shop(plan).cards + made == made;
  }

  // ----- activating it -----

  const MACHINE := DeviceKey("license", "machine")
  const FIRST := Activation("card", "pub", "ed25519", "machine", "license")

  function Issued(plan: Plan): License {
    License("product", "plan", None, "card", Active, if plan.kind.Uses? then Some(plan.usesTotal - 1) else None,
            if plan.kind.Duration? then Some(plan.durationDays * DAY) else None, 1)
  }

  function UsedCard(plan: Plan): Card {
    Fresh(LicenseCard).(status := if plan.kind.Uses? && plan.usesTotal == 1 then Depleted else Active,
                        license := Some("license"), activatedAt := Some(0))
  }

  /** s with the card activated on one machine, and its lease. */
  function Running(s: State, plan: Plan): State {
    s.(cards := s.cards["card" := UsedCard(plan)], licenses := map["license" := Issued(plan)],
       devices := map[MACHINE := Device("pub", "ed25519", true)],
       leases := [LeaseFor(0, MACHINE, Issued(plan), plan)])
  }

  lemma NobodyHolds(pub: string)
    ensures HolderOf(map[], pub) == None
  {
    assert forall k :: !Holds(map[], k, pub);
  }

  lemma Starts(s: State, plan: Plan)
    requires Sellable(plan) && s.now == 0 && s.products == Shop(plan).products && s.plans == Shop(plan).plans
    requires s.licenses == map[] && s.devices == map[] && s.leases == []
    requires "card" in s.cards && s.cards["card"] == Fresh(LicenseCard)
    ensures ActivateStep(s, FIRST, None, Admitted).0 == Running(s, plan)
  {
    NobodyHolds("pub");
    var first := FirstActivation(s, FIRST, Fresh(LicenseCard), plan);
    assert s.licenses["license" := Issued(plan)] == map["license" := Issued(plan)];
    assert s.devices[MACHINE := Device("pub", "ed25519", true)] == map[MACHINE := Device("pub", "ed25519", true)];
    assert ActivateTables(s, FIRST) == first;
    assert first.Ok? && first.value.license == Issued(plan);
    assert first.value.state.cards == Running(s, plan).cards;
    assert s.leases + [LeaseFor(0, MACHINE, Issued(plan), plan)] == Running(s, plan).leases;
  }

  // ----- a license nobody can revoke -----

  const ONE_USE: Plan := PlanOf(Uses, 0, 1)

  lemma SpentCardShields() returns (ss: seq<State>, es: seq<Event>)
    ensures Run(ss, es) && Initial(ss[0]) && |es| == 3
    ensures "license" in ss[2].licenses && ss[2].licenses["license"].status == Active
    ensures es[2] == LicenseAction(Admin, "license", Revoke) && Apply(ss[2], es[2]).1 == Refused(NoRows)
    ensures ss[3] == ss[2]
  {
    var running := Running(Stocked(ONE_USE), ONE_USE);
    ss, es := Begin(ONE_USE);
    RevokeRefused(running);
    Continues(ss, es, LicenseAction(Admin, "license", Revoke), running);
    ss, es := ss + [running], es + [LicenseAction(Admin, "license", Revoke)];
  }

  lemma RevokeRefused(s: State)
    requires s == Running(Stocked(ONE_USE), ONE_USE)
    ensures Apply(s, LicenseAction(Admin, "license", Revoke)) == (s, Refused(NoRows))
  {
    assert s.cards["card"].status == Depleted && s.licenses["license"].status == Active;
    assert LicenseActionStep(s, Admin, "license", Revoke) == (s, Refused(NoRows));
  }

  /** A batch of one card, and its activation. */
  lemma Begin(plan: Plan) returns (ss: seq<State>, es: seq<Event>)
    requires Sellable(plan)
    ensures Run(ss, es) && ss == [Shop(plan), Stocked(plan), Running(Stocked(plan), plan)] && Initial(ss[0])
    ensures |es| == 2
  {
    Starting(plan);
    Stocks(plan);
    Continues([Shop(plan)], [], CreateCardBatch(Making("card", "license")), Stocked(plan));
    ss, es := [Shop(plan)] + [Stocked(plan)], [] + [CreateCardBatch(Making("card", "license"))];
    NextStarts(Stocked(plan), plan);
    Continues(ss, es, Activate(FIRST, None, Admitted), Running(Stocked(plan), plan));
    ss, es := ss + [Running(Stocked(plan), plan)], es + [Activate(FIRST, None, Admitted)];
  }

  lemma NextStarts(s: State, plan: Plan)
    requires Sellable(plan) && s.now == 0 && s.products == Shop(plan).products && s.plans == Shop(plan).plans
    requires s.licenses == map[] && s.devices == map[] && s.leases == []
    requires "card" in s.cards && s.cards["card"] == Fresh(LicenseCard)
    ensures Next(s, Activate(FIRST, None, Admitted)) == Running(s, plan)
  {
    Starts(s, plan);
  }

  // ----- a lease for an unbound device -----

  const FOREVER: Plan := PlanOf(Permanent, 0, 0)

  function Unbound(s: State): State {
    s.(devices := map[MACHINE := Device("pub", "ed25519", false)])
  }

  lemma Unbinds(s: State)
    requires s.devices == map[MACHINE := Device("pub", "ed25519", true)]
    ensures Next(s, Deactivate("pub", None)) == Unbound(s)
  {
    assert Holds(s.devices, MACHINE, "pub");
    assert HolderOf(s.devices, "pub") == Some(MACHINE);
    assert s.devices[MACHINE := s.devices[MACHINE].(active := false)] == Unbound(s).devices;
  }

  lemma StartsAgain(s: State, plan: Plan)
    requires Sellable(plan) && plan.kind.Permanent? && s == Unbound(Running(Stocked(plan), plan))
    ensures Next(s, Activate(FIRST, None, Admitted)) == Minted(s, LeaseFor(0, MACHINE, Issued(plan), plan))
  {
    assert s.licenses["license"] == Issued(plan);
    assert Reactivation(s, FIRST, MACHINE, Issued(plan), plan) == Ok(Bound(s, MACHINE, Issued(plan), plan));
  }

  lemma UnboundDeviceLeased() returns (ss: seq<State>, es: seq<Event>)
    ensures Run(ss, es) && Initial(ss[0]) && |es| == 4
    ensures MACHINE in ss[3].devices && !ss[3].devices[MACHINE].active
    ensures ss[4].devices == ss[3].devices && |ss[4].leases| == |ss[3].leases| + 1
    ensures ss[4].leases[|ss[3].leases|].device == MACHINE
  {
    var running := Running(Stocked(FOREVER), FOREVER);
    var unbound := Unbound(running);
    var again := Minted(unbound, LeaseFor(0, MACHINE, Issued(FOREVER), FOREVER));
    ss, es := Begin(FOREVER);
    Unbinds(running);
    Continues(ss, es, Deactivate("pub", None), unbound);
    ss, es := ss + [unbound], es + [Deactivate("pub", None)];
    StartsAgain(unbound, FOREVER);
    Continues(ss, es, Activate(FIRST, None, Admitted), again);
    ss, es := ss + [again], es + [Activate(FIRST, None, Admitted)];
  }

  // ----- a lease that tells an outdated expiry -----

  const MONTH: Plan := PlanOf(Duration, 30, 0)

  function Restocked(plan: Plan): State {
    Stocked(plan).(cards := map["card" := Fresh(LicenseCard), "more" := Fresh(RenewalCard)],
                   batches := map["card" := Batch(None, "plan", 1), "more" := Batch(None, "plan", 1)])
  }

  lemma OneMoreCard(plan: Plan)
    requires Sellable(plan)
    ensures CreateCardBatchStep(Stocked(plan), Making("more", "renewal")).0 == Restocked(plan)
  {
    var r := Making("more", "renewal");
    assert "more"[0] != "card"[0];
    assert BatchError(Stocked(plan), r).None?;
    var made := map c | c in r.generated :: NewCard(Stocked(plan), r, RenewalCard);
    assert "more" in r.generated && made == map["more" := Fresh(RenewalCard)];
    assert Stocked(plan).cards + made == Restocked(plan).cards;
    assert Stocked(plan).batches["more" := Batch(None, "plan", 1)] == Restocked(plan).batches;
  }

  lemma Restocks(plan: Plan)
    requires Sellable(plan)
    ensures Next(Stocked(plan), CreateCardBatch(Making("more", "renewal"))) == Restocked(plan)
  {
    OneMoreCard(plan);
  }

  /** What the redemption of the renewal card leaves. */
  function Renewed(s: State): State {
    var lic := Issued(MONTH);
    s.(licenses := map["license" := lic.(expiresAt := Some(60 * DAY))],
       cards := s.cards["more" := Fresh(RenewalCard).(status := Depleted)],
       renewals := [Renewal("license", "more", 30, lic.expiresAt, Some(60 * DAY))],
       leases := s.leases + [LeaseFor(0, MACHINE, lic, MONTH)])
  }

  lemma Renews(s: State)
    requires s == Running(Restocked(MONTH), MONTH)
    ensures Next(s, Redeem("pub", "more", None, None)) == Renewed(s)
  {
    assert Holds(s.devices, MACHINE, "pub");
    assert HolderOf(s.devices, "pub") == Some(MACHINE);
    assert s.licenses["license"] == Issued(MONTH) && s.cards["more"] == Fresh(RenewalCard);
    var extended := Issued(MONTH).(expiresAt := Some(60 * DAY));
    assert Extended(Issued(MONTH).expiresAt, s.now, 30) == 60 * DAY;
    assert s.licenses["license" := extended] == map["license" := extended];
    var row := Renewal("license", "more", 30, Issued(MONTH).expiresAt, Some(60 * DAY));
    assert s.renewals + [row] == [row];
    assert RedeemTables(s, MACHINE, "more") == Ok(Renewed(s).(leases := s.leases));
  }

  /** A batch of a license card, a batch of a renewal card, and the first one's activation. */
  lemma BeginRestocked() returns (ss: seq<State>, es: seq<Event>)
    ensures Run(ss, es) && |es| == 3 && Initial(ss[0])
    ensures ss == [Shop(MONTH), Stocked(MONTH), Restocked(MONTH), Running(Restocked(MONTH), MONTH)]
  {
    var stocked, restocked := Stocked(MONTH), Restocked(MONTH);
    Starting(MONTH);
    Stocks(MONTH);
    Continues([Shop(MONTH)], [], CreateCardBatch(Making("card", "license")), stocked);
    ss, es := [Shop(MONTH)] + [stocked], [] + [CreateCardBatch(Making("card", "license"))];
    Restocks(MONTH);
    Continues(ss, es, CreateCardBatch(Making("more", "renewal")), restocked);
    ss, es := ss + [restocked], es + [CreateCardBatch(Making("more", "renewal"))];
    NextStarts(restocked, MONTH);
    Continues(ss, es, Activate(FIRST, None, Admitted), Running(restocked, MONTH));
    ss, es := ss + [Running(restocked, MONTH)], es + [Activate(FIRST, None, Admitted)];
  }

  lemma RedemptionTellsOldExpiry() returns (ss: seq<State>, es: seq<Event>)
    ensures Run(ss, es) && Initial(ss[0]) && |es| == 4 && es[3].Redeem?
    ensures "license" in ss[4].licenses && |ss[4].leases| == |ss[3].leases| + 1
    ensures ss[4].leases[|ss[3].leases|].licExp < ExpirySeconds(ss[4].licenses["license"])
  {
    var running := Running(Restocked(MONTH), MONTH);
    ss, es := BeginRestocked();
    Renews(running);
    Continues(ss, es, Redeem("pub", "more", None, None), Renewed(running));
    ss, es := ss + [Renewed(running)], es + [Redeem("pub", "more", None, None)];
  }
}
