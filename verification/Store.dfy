/**
 The store: one field per table, and the guarded statements that change them. A statement that finds
 no row to change reports NoRows and changes nothing.
 */
module Store {
  import opened Wrappers
  import opened Decimal
  import opened Licensing

  class Queries {
    var now: int
    var products: map<Id, bool>
    var plans: map<Id, Plan>
    var cards: map<Id, Card>
    var licenses: map<Id, License>
    var devices: map<DeviceKey, Device>
    var users: map<Id, EndUser>
    var balances: map<Id, int>
    var batches: map<Id, Batch>
    var ledger: seq<Transaction>
    var renewals: seq<Renewal>
    var leases: seq<Lease>

    function Snapshot(): State
      reads this
    {
      State(now, products, plans, cards, licenses, devices, users, balances, batches, ledger, renewals, leases)
    }

    /** Undo everything since the snapshot: a transaction's rollback. */
    method Rollback(s: State)
      modifies this
      ensures Snapshot() == s
    {
      RestoreSales(s);
      now, products, plans, users := s.now, s.products, s.plans, s.users;
      balances, batches, ledger := s.balances, s.batches, s.ledger;
    }

    method RestoreSales(s: State)
      modifies this`cards, this`licenses, this`devices, this`renewals, this`leases
      ensures cards == s.cards && licenses == s.licenses && devices == s.devices
      ensures renewals == s.renewals && leases == s.leases
    {
      cards, licenses, devices, renewals, leases := s.cards, s.licenses, s.devices, s.renewals, s.leases;
    }

    // ----- cards -----

    method SetCardStatus(id: Id, status: Status) returns (r: Option<Error>)
      modifies this`cards
      ensures r == if id in old(cards) then None else Some(NoRows)
      ensures cards == if r.None? then old(cards)[id := old(cards)[id].(status := status)] else old(cards)
    {
      if id !in cards {
        return Some(NoRows);
      }
      cards := cards[id := cards[id].(status := status)];
      return None;
    }

    method TransitionCardStatus(id: Id, from: Status, to: Status) returns (r: Option<Error>)
      modifies this`cards
      ensures r == if id in old(cards) && old(cards)[id].status == from then None else Some(NoRows)
      ensures cards == if r.None? then old(cards)[id := old(cards)[id].(status := to)] else old(cards)
    {
      if id !in cards || cards[id].status != from {
        return Some(NoRows);
      }
      cards := cards[id := cards[id].(status := to)];
      return None;
    }

    method TransitionCardToTerminal(id: Id, to: Status) returns (r: Option<Error>)
      modifies this`cards
      ensures r == if id in old(cards) && old(cards)[id].status !in {Revoked, Voided, Depleted} then None else Some(NoRows)
      ensures cards == if r.None? then old(cards)[id := old(cards)[id].(status := to)] else old(cards)
    {
      if id !in cards || cards[id].status in {Revoked, Voided, Depleted} {
        return Some(NoRows);
      }
      cards := cards[id := cards[id].(status := to)];
      return None;
    }

    /** A depleted card keeps its status; a card in any other status than unused or depleted is left alone. */
    method SetCardActivated(id: Id, license: Id, at: int)
      modifies this`cards
      ensures cards == if id in old(cards) && old(cards)[id].status in {Unused, Depleted}
                       then old(cards)[id := old(cards)[id].(
                              status := if old(cards)[id].status == Depleted then Depleted else Active,
                              license := Some(license), activatedAt := Some(at))]
                       else old(cards)
    {
      if id in cards && cards[id].status in {Unused, Depleted} {
        var status := if cards[id].status == Depleted then Depleted else Active;
        cards := cards[id := cards[id].(status := status, license := Some(license), activatedAt := Some(at))];
      }
    }

    method MarkCardUsedByUser(id: Id, user: Id) returns (r: Option<Error>)
      modifies this`cards
      ensures r == if id in old(cards) && old(cards)[id].status == Unused && old(cards)[id].license.None?
                      && old(cards)[id].usedBy.None? then None else Some(NoRows)
      ensures cards == if r.None?
                       then old(cards)[id := old(cards)[id].(usedBy := Some(user), status := Depleted, activatedAt := Some(now))]
                       else old(cards)
    {
      if id !in cards || cards[id].status != Unused || cards[id].license.Some? || cards[id].usedBy.Some? {
        return Some(NoRows);
      }
      cards := cards[id := cards[id].(usedBy := Some(user), status := Depleted, activatedAt := Some(now))];
      return None;
    }

    // ----- licenses -----

    method CreateLicense(id: Id, lic: License) returns (r: Option<Error>)
      modifies this`licenses
      ensures r == if id in old(licenses) then Some(UniqueViolation) else None
      ensures licenses == if r.None? then old(licenses)[id := lic] else old(licenses)
    {
      if id in licenses {
        return Some(UniqueViolation);
      }
      licenses := licenses[id := lic];
      return None;
    }

    method TransitionLicense(id: Id, from: Status, to: Status) returns (r: Option<Error>)
      modifies this`licenses
      ensures r == if id in old(licenses) && old(licenses)[id].status == from then None else Some(NoRows)
      ensures licenses == if r.None? then old(licenses)[id := old(licenses)[id].(status := to)] else old(licenses)
    {
      if id !in licenses || licenses[id].status != from {
        return Some(NoRows);
      }
      licenses := licenses[id := licenses[id].(status := to)];
      return None;
    }

    method TransitionLicenseTerminal(id: Id, to: Status) returns (r: Option<Error>)
      modifies this`licenses
      ensures r == if id in old(licenses) && !old(licenses)[id].status.Terminal() then None else Some(NoRows)
      ensures licenses == if r.None? then old(licenses)[id := old(licenses)[id].(status := to)] else old(licenses)
    {
      if id !in licenses || licenses[id].status.Terminal() {
        return Some(NoRows);
      }
      licenses := licenses[id := licenses[id].(status := to)];
      return None;
    }

    /** Takes one use while there is one, and tells how many are left. */
    method ConsumeLicenseUse(id: Id) returns (left: Result<int, Error>)
      modifies this`licenses
      ensures left.Ok? <==> id in old(licenses) && old(licenses)[id].usesLeft.Some? && old(licenses)[id].usesLeft.value > 0
      ensures left.Ok? ==> old(licenses)[id].usesLeft == Some(left.value + 1)
                           && licenses == old(licenses)[id := old(licenses)[id].(usesLeft := Some(left.value))]
      ensures left.Fail? ==> left.error == NoRows && licenses == old(licenses)
    {
      if id !in licenses || licenses[id].usesLeft.None? || licenses[id].usesLeft.value <= 0 {
        return Fail(NoRows);
      }
      var n := licenses[id].usesLeft.value - 1;
      licenses := licenses[id := licenses[id].(usesLeft := Some(n))];
      return Ok(n);
    }

    /** The days count from the present if the license has lapsed or had no expiry. */
    method ExtendLicense(id: Id, days: int) returns (expiry: Result<int, Error>)
      modifies this`licenses
      ensures expiry == if id in old(licenses) then Ok(Extended(old(licenses)[id].expiresAt, now, days)) else Fail(NoRows)
      ensures licenses == if expiry.Ok? then old(licenses)[id := old(licenses)[id].(expiresAt := Some(expiry.value))]
                          else old(licenses)
    {
      if id !in licenses {
        return Fail(NoRows);
      }
      var was := licenses[id].expiresAt;
      var t;
      match was {
        case None => t := now + days * DAY;
        case Some(e) =>
          if e < now {
            t := now + days * DAY;
          } else {
            t := e + days * DAY;
          }
      }
      licenses := licenses[id := licenses[id].(expiresAt := Some(t))];
      return Ok(t);
    }

    method TouchLicensesPolicy(plan: Id)
      modifies this`licenses
      ensures licenses.Keys == old(licenses).Keys
      ensures forall l :: l in licenses ==>
                if old(licenses)[l].plan == plan
                then licenses[l] == old(licenses)[l].(policyVersion := old(licenses)[l].policyVersion + 1)
                else licenses[l] == old(licenses)[l]
    {
      licenses := Touched(licenses, plan);
    }

    // ----- devices -----

    method GetDeviceByPub(pub: string) returns (k: Option<DeviceKey>)
      ensures k.Some? ==> Holds(devices, k.value, pub)
      ensures k.None? ==> forall j :: !Holds(devices, j, pub)
    {
      if j :| j in devices && devices[j].active && devices[j].pub == pub {
        return Some(j);
      }
      return None;
    }

    /** The table's two uniqueness rules: one row per license and fingerprint, one active row per public key. */
    method CreateDevice(key: DeviceKey, pub: string, kty: string) returns (r: Option<Error>)
      modifies this`devices
      ensures r == if key in old(devices) || exists k :: Holds(old(devices), k, pub) then Some(UniqueViolation) else None
      ensures devices == if r.None? then old(devices)[key := Device(pub, kty, true)] else old(devices)
    {
      var holder := GetDeviceByPub(pub);
      if key in devices || holder.Some? {
        return Some(UniqueViolation);
      }
      devices := devices[key := Device(pub, kty, true)];
      return None;
    }

    method RotateDevicePub(key: DeviceKey, pub: string, kty: string) returns (r: Option<Error>)
      modifies this`devices
      ensures r == if key !in old(devices) || exists k :: k != key && Holds(old(devices), k, pub) then Some(NoRows) else None
      ensures devices == if r.None? then old(devices)[key := old(devices)[key].(pub := pub, kty := kty)] else old(devices)
    {
      if key !in devices {
        return Some(NoRows);
      }
      if k :| k in devices && k != key && devices[k].active && devices[k].pub == pub {
        assert Holds(devices, k, pub);
        return Some(NoRows);
      }
      devices := devices[key := devices[key].(pub := pub, kty := kty)];
      return None;
    }

    method UnbindDevice(key: DeviceKey) returns (r: Option<Error>)
      modifies this`devices
      ensures r == if key in old(devices) && old(devices)[key].active then None else Some(NoRows)
      ensures devices == if r.None? then old(devices)[key := old(devices)[key].(active := false)] else old(devices)
    {
      if key !in devices || !devices[key].active {
        return Some(NoRows);
      }
      devices := devices[key := devices[key].(active := false)];
      return None;
    }

    // ----- users, renewals, plans -----

    method ExtendEndUser(id: Id, days: int) returns (r: Option<Error>)
      modifies this`users
      ensures r == if id in old(users) then None else Some(NoRows)
      ensures users == if r.None?
                       then old(users)[id := old(users)[id].(expiresAt := Extended(Some(old(users)[id].expiresAt), now, days))]
                       else old(users)
    {
      if id !in users {
        return Some(NoRows);
      }
      var e := users[id].expiresAt;
      users := users[id := users[id].(expiresAt := if e < now then now + days * DAY else e + days * DAY)];
      return None;
    }

    method UpdatePlan(id: Id, plan: Plan) returns (r: Option<Error>)
      modifies this`plans
      ensures r == if id !in old(plans) then Some(NoRows) else if StorablePlan(plan) then None else Some(CheckViolation)
      ensures plans == if r.None? then old(plans)[id := plan] else old(plans)
    {
      if id !in plans {
        return Some(NoRows);
      }
      if !StorablePlan(plan) {
        return Some(CheckViolation);
      }
      plans := plans[id := plan];
      return None;
    }

    method SetPlanStatus(id: Id, active: bool) returns (r: Option<Error>)
      modifies this`plans
      ensures r == if id in old(plans) then None else Some(NoRows)
      ensures plans == if r.None? then old(plans)[id := old(plans)[id].(active := active)] else old(plans)
    {
      if id !in plans {
        return Some(NoRows);
      }
      plans := plans[id := plans[id].(active := active)];
      return None;
    }

    method VoidAndDeleteUnusedCards(plan: Id)
      modifies this`cards
      ensures forall c :: c in cards <==> c in old(cards) && (old(cards)[c].plan != plan || old(cards)[c].status != Unused)
      ensures forall c :: c in cards ==> cards[c] == old(cards)[c]
    {
      cards := WithoutUnused(cards, plan);
    }

    method DeleteBatchesByPlan(plan: Id)
      modifies this`batches
      ensures forall b :: b in batches <==> b in old(batches) && old(batches)[b].plan != plan
      ensures forall b :: b in batches ==> batches[b] == old(batches)[b]
    {
      batches := WithoutPlan(batches, plan);
    }

    method DeletePlan(id: Id) returns (r: Option<Error>)
      modifies this`plans
      ensures r == if id in old(plans) then None else Some(NoRows)
      ensures forall p :: p in plans <==> p in old(plans) && p != id
      ensures forall p :: p in plans ==> plans[p] == old(plans)[p]
    {
      if id !in plans {
        return Some(NoRows);
      }
      plans := PlansWithout(plans, id);
      return None;
    }

    // ----- batches and balances -----

    method CreateBatch(r: BatchRequest, kind: CardKind) returns (e: Option<Error>)
      modifies this`batches, this`cards
      ensures e == if r.agent.Some? && r.agent.value !in balances then Some(ForeignKeyViolation)
                   else if r.newBatch in old(batches) || Collides(r.generated, old(cards)) then Some(UniqueViolation) else None
      ensures e.None? ==> batches == old(batches)[r.newBatch := Batch(r.agent, r.plan, r.quantity)]
      ensures e.None? ==> cards == old(cards) + Rows(r.generated, NewCard(old(Snapshot()), r, kind))
    {
      if r.agent.Some? && r.agent.value !in balances {
        return Some(ForeignKeyViolation);
      }
      if r.newBatch in batches {
        return Some(UniqueViolation);
      }
      batches := batches[r.newBatch := Batch(r.agent, r.plan, r.quantity)];
      e := InsertCards(r.generated, Card(r.product, r.plan, r.agent, kind, Unused, None, None, None, now));
    }

    /** Inserts the cards one by one, stopping at the first that collides. */
    method InsertCards(ids: seq<Id>, row: Card) returns (e: Option<Error>)
      modifies this`cards
      ensures e == if Collides(ids, old(cards)) then Some(UniqueViolation) else None
      ensures e.None? ==> cards == old(cards) + Rows(ids, row)
    {
      var i := 0;
      while i < |ids|
        invariant 0 <= i <= |ids|
        invariant !Collides(ids[..i], old(cards))
        invariant cards == old(cards) + Rows(ids[..i], row)
      {
        NextRow(ids, i, row, old(cards));
        if ids[i] in cards {
          return Some(UniqueViolation);
        }
        cards := cards[ids[i] := row];
        i := i + 1;
      }
      assert ids[..i] == ids;
      return None;
    }

    method DeductAgentBalance(agent: Id, amount: int) returns (after: Result<int, Error>)
      modifies this`balances
      ensures after == if amount <= 0 then Fail(Invalid)
                       else if agent in old(balances) && old(balances)[agent] >= amount then Ok(old(balances)[agent] - amount)
                       else Fail(NoRows)
      ensures balances == if after.Ok? then old(balances)[agent := after.value] else old(balances)
    {
      if amount <= 0 {
        return Fail(Invalid);
      }
      if agent !in balances || balances[agent] < amount {
        return Fail(NoRows);
      }
      balances := balances[agent := balances[agent] - amount];
      return Ok(balances[agent]);
    }

    method TopUpAgentBalance(agent: Id, amount: int) returns (after: Result<int, Error>)
      modifies this`balances
      ensures after == if agent !in old(balances) then Fail(NoRows)
                       else if old(balances)[agent] + amount > INT64_MAX then Fail(OutOfRange)
                       else if old(balances)[agent] + amount < 0 then Fail(NoRows)
                       else Ok(old(balances)[agent] + amount)
      ensures balances == if after.Ok? then old(balances)[agent := after.value] else old(balances)
    {
      if agent !in balances {
        return Fail(NoRows);
      }
      var sum := balances[agent] + amount;
      if sum > INT64_MAX {
        return Fail(OutOfRange);
      }
      if sum < 0 {
        return Fail(NoRows);
      }
      balances := balances[agent := sum];
      return Ok(sum);
    }

    method InsertAgentTransaction(row: Transaction)
      modifies this`ledger
      ensures ledger == old(ledger) + [row]
    {
      ledger := ledger + [row];
    }
  }

  // What the row-by-row effects amount to.

  lemma TouchedRows(was: map<Id, License>, after: map<Id, License>, plan: Id)
    requires after.Keys == was.Keys
    requires forall l :: l in after ==>
               if was[l].plan == plan then after[l] == was[l].(policyVersion := was[l].policyVersion + 1) else after[l] == was[l]
    ensures after == Touched(was, plan)
  {
  }

  lemma RemainingCards(was: map<Id, Card>, after: map<Id, Card>, plan: Id)
    requires forall c :: c in after <==> c in was && (was[c].plan != plan || was[c].status != Unused)
    requires forall c :: c in after ==> after[c] == was[c]
    ensures after == WithoutUnused(was, plan)
  {
  }

  lemma RemainingBatches(was: map<Id, Batch>, after: map<Id, Batch>, plan: Id)
    requires forall b :: b in after <==> b in was && was[b].plan != plan
    requires forall b :: b in after ==> after[b] == was[b]
    ensures after == WithoutPlan(was, plan)
  {
  }

  lemma RemainingPlans(was: map<Id, Plan>, after: map<Id, Plan>, id: Id)
    requires forall p :: p in after <==> p in was && p != id
    requires forall p :: p in after ==> after[p] == was[p]
    ensures after == PlansWithout(was, id)
  {
  }

  /** The rows inserted for some keys. */
  function Rows(ids: seq<Id>, row: Card): map<Id, Card> {
    map c | c in ids :: row
  }

  /** Inserting these keys breaks uniqueness, among themselves or with the old rows. */
  ghost predicate Collides(ids: seq<Id>, taken: map<Id, Card>) {
    !Distinct(ids) || exists c :: c in ids && c in taken
  }

  /** One more key collides exactly if its row is already there. */
  lemma NextRow(ids: seq<Id>, i: nat, row: Card, taken: map<Id, Card>)
    requires i < |ids| && !Collides(ids[..i], taken)
    ensures ids[i] in taken + Rows(ids[..i], row) ==> Collides(ids, taken)
    ensures ids[i] !in taken + Rows(ids[..i], row) ==>
              !Collides(ids[..i + 1], taken) && taken + Rows(ids[..i + 1], row) == (taken + Rows(ids[..i], row))[ids[i] := row]
  {
    var front, more := ids[..i], ids[..i + 1];
    assert more == front + [ids[i]];
    if ids[i] in front {
      var j :| 0 <= j < i && ids[j] == ids[i];
    }
  }
}
