/**
 Concurrent seats of one license (apps/license-api/internal/cache/cache.go, onlineScript) and the
 heartbeats that need one (apps/license-api/internal/service/heartbeat.go, steps 4 to 8), with Redis
 reachable and the plan's limits fixed. Instants are milliseconds; a lease expires at a whole second.
 */
module Seats {
  import opened Sets
  import opened SortedSets

  datatype Device = Device(id: string)

  datatype Plan = Plan(leaseTtl: nat, concurrentLimit: nat)

  datatype Reply = Full | Admitted | Renewed

  /** onlineScript. */
  function Script(seats: map<Device, int>, now: int, ttl: int, dev: Device, limit: int): (map<Device, int>, Reply) {
    var kept := Pruned(seats, now);
    if dev in kept then (kept[dev := now + ttl], Renewed)
    else if |kept| >= limit then (kept, Full)
    else (kept[dev := now + ttl], Admitted)
  }

  /** What happens to the license's seats. A heartbeat reads the clock once for its lease (checked)
      and again, no earlier, when it asks for a seat (at). Events are ordered by at. */
  datatype Event =
    | Heartbeat(dev: Device, checked: int, at: int)
    | Activation(dev: Device, at: int)
    | Drop(dev: Device, at: int)

  /** ZREM. */
  function Without(seats: map<Device, int>, dev: Device): map<Device, int> {
    map d | d in seats && d != dev :: seats[d]
  }

  function Step(plan: Plan, seats: map<Device, int>, e: Event): map<Device, int> {
    match e
    case Heartbeat(dev, _, at) => Script(seats, at, plan.leaseTtl * 1000, dev, plan.concurrentLimit).0
    case Activation(dev, at) => Script(seats, at, plan.leaseTtl * 1000, dev, plan.concurrentLimit).0
    case Drop(dev, _) => Without(seats, dev)
  }

  /** The seats after the first n events. */
  function Seated(plan: Plan, es: seq<Event>, n: nat): map<Device, int>
    requires n <= |es|
  {
    if n == 0 then map[] else Step(plan, Seated(plan, es, n - 1), es[n - 1])
  }

  ghost predicate Timely(es: seq<Event>) {
    && (forall i :: 0 <= i < |es| ==> 0 <= es[i].at && (es[i].Heartbeat? ==> 0 <= es[i].checked <= es[i].at))
    && (forall i, j :: 0 <= i < j < |es| ==> es[i].at <= es[j].at)
  }

  /** The expiry, in seconds, of the lease that a heartbeat checked at this instant is given. */
  function LeaseExp(plan: Plan, checked: int): int {
    checked / 1000 + plan.leaseTtl
  }

  /** Event i was a heartbeat or an activation of dev that found a seat. */
  predicate Seating(plan: Plan, es: seq<Event>, i: nat, dev: Device)
    requires i < |es|
  {
    && !es[i].Drop? && es[i].dev == dev
    && Script(Seated(plan, es, i), es[i].at, plan.leaseTtl * 1000, dev, plan.concurrentLimit).1 != Full
  }

  /** As a heartbeat, it was also given a lease. */
  predicate Leased(plan: Plan, es: seq<Event>, i: nat, dev: Device)
    requires i < |es|
  {
    es[i].Heartbeat? && Seating(plan, es, i, dev)
  }

  predicate DroppedSince(es: seq<Event>, i: nat, dev: Device) {
    exists j :: i < j < |es| && es[j].Drop? && es[j].dev == dev
  }

  /** dev, not dropped since, has a heartbeat lease that is unexpired at instant t. */
  predicate Holds(plan: Plan, es: seq<Event>, dev: Device, t: int) {
    exists i :: 0 <= i < |es| && Leased(plan, es, i, dev) && !DroppedSince(es, i, dev)
                && LeaseExp(plan, es[i].checked) * 1000 > t
  }

  class Online {
    var seats: map<Device, int>

    constructor ()
      ensures seats == map[]
    {
      seats := map[];
    }

    method RenewOnline(dev: Device, now: int, ttl: int, limit: int) returns (admitted: bool)
      modifies this
      ensures seats == Script(old(seats), now, ttl, dev, limit).0
      ensures admitted <==> Script(old(seats), now, ttl, dev, limit).1 != Full
    {
      seats := Pruned(seats, now);
      if dev in seats {
        seats := seats[dev := now + ttl];
        return true;
      }
      if |seats| >= limit {
        return false;
      }
      seats := seats[dev := now + ttl];
      admitted := true;
    }

    method DropOnline(dev: Device)
      modifies this
      ensures forall d :: d in seats <==> d in old(seats) && d != dev
      ensures forall d :: d in seats ==> seats[d] == old(seats)[d]
    {
      seats := Without(seats, dev);
    }

    /** The seat and lease part of a heartbeat: a lease exactly when there is a seat, expiring no
        later than the seat does. */
    method Heartbeat(plan: Plan, dev: Device, checked: int, at: int) returns (granted: bool, exp: int)
      requires checked <= at
      modifies this
      ensures seats == Step(plan, old(seats), Event.Heartbeat(dev, checked, at))
      ensures granted <==> Script(old(seats), at, plan.leaseTtl * 1000, dev, plan.concurrentLimit).1 != Full
      ensures granted ==> exp == LeaseExp(plan, checked) && dev in seats && exp * 1000 <= seats[dev]
    {
      exp := checked / 1000 + plan.leaseTtl;
      granted := RenewOnline(dev, at, plan.leaseTtl * 1000, plan.concurrentLimit);
    }
  }

  // ----- the bound -----

  lemma StepLimited(plan: Plan, seats: map<Device, int>, e: Event)
    requires |seats| <= plan.concurrentLimit
    ensures |Step(plan, seats, e)| <= plan.concurrentLimit
  {
    FewerKeys(Pruned(seats, e.at), seats);
    FewerKeys(Without(seats, e.dev), seats);
  }

  lemma {:induction false} SeatsLimited(plan: Plan, es: seq<Event>, n: nat)
    requires n <= |es|
    ensures |Seated(plan, es, n)| <= plan.concurrentLimit
  {
    if n > 0 {
      SeatsLimited(plan, es, n - 1);
      StepLimited(plan, Seated(plan, es, n - 1), es[n - 1]);
    }
  }

  lemma FewerKeys(a: map<Device, int>, b: map<Device, int>)
    requires a.Keys <= b.Keys
    ensures |a| <= |b|
  {
    SubsetSize(a.Keys, b.Keys);
  }

  /** One event leaves a seat that lasts to exp alone, or exp has passed, or the device is dropped. */
  lemma SeatKept(plan: Plan, seats: map<Device, int>, e: Event, dev: Device, exp: int)
    requires dev in seats && exp <= seats[dev] && exp <= e.at + plan.leaseTtl * 1000
    requires e.Drop? ==> e.dev != dev
    ensures exp <= e.at || (dev in Step(plan, seats, e) && exp <= Step(plan, seats, e)[dev])
  {
  }

  /** A heartbeat that is not refused leaves the device with a seat for the lease time. */
  lemma SeatTaken(plan: Plan, seats: map<Device, int>, dev: Device, at: int)
    requires Script(seats, at, plan.leaseTtl * 1000, dev, plan.concurrentLimit).1 != Full
    ensures var after := Script(seats, at, plan.leaseTtl * 1000, dev, plan.concurrentLimit).0;
            dev in after && after[dev] >= at + plan.leaseTtl * 1000
  {
  }

  /** After n events dev has a seat that lasts to exp, or that instant has passed. */
  predicate Covered(plan: Plan, es: seq<Event>, n: nat, dev: Device, exp: int)
    requires 0 < n <= |es|
  {
    exp <= es[n - 1].at || (dev in Seated(plan, es, n) && exp <= Seated(plan, es, n)[dev])
  }

  /** The events after i, up to the n-th, do not go back in time and do not drop dev. */
  predicate Undisturbed(es: seq<Event>, i: nat, n: nat, dev: Device)
    requires i < n <= |es|
  {
    n == i + 1
    || (&& Undisturbed(es, i, n - 1, dev)
        && es[i].at <= es[n - 1].at && es[n - 2].at <= es[n - 1].at && (es[n - 1].Drop? ==> es[n - 1].dev != dev))
  }

  lemma {:induction false} TimelyUndisturbed(es: seq<Event>, i: nat, n: nat, dev: Device)
    requires i < n <= |es| && Timely(es) && !DroppedSince(es, i, dev)
    ensures Undisturbed(es, i, n, dev)
  {
    if n > i + 1 {
      TimelyUndisturbed(es, i, n - 1, dev);
    }
  }

  lemma {:induction false} SeatLasts(plan: Plan, es: seq<Event>, i: nat, dev: Device, n: nat, exp: int)
    requires i < n <= |es| && Seating(plan, es, i, dev) && exp <= es[i].at + plan.leaseTtl * 1000
    requires Undisturbed(es, i, n, dev)
    ensures Covered(plan, es, n, dev, exp)
    decreases n
  {
    if i + 1 == n {
      SeatTaken(plan, Seated(plan, es, i), dev, es[i].at);
    } else {
      SeatLasts(plan, es, i, dev, n - 1, exp);
      if exp > es[n - 1].at {
        SeatKept(plan, Seated(plan, es, n - 1), es[n - 1], dev, exp);
      }
    }
  }

  /** A seat lasts as long as the lease it was taken for, unless the device is dropped. */
  lemma SeatCovers(plan: Plan, es: seq<Event>, i: nat, dev: Device, n: nat)
    requires Timely(es) && i < n <= |es| && Leased(plan, es, i, dev) && !DroppedSince(es, i, dev)
    ensures Covered(plan, es, n, dev, LeaseExp(plan, es[i].checked) * 1000)
  {
    LeaseWithinSeat(plan, es[i].checked, es[i].at);
    TimelyUndisturbed(es, i, n, dev);
    SeatLasts(plan, es, i, dev, n, LeaseExp(plan, es[i].checked) * 1000);
  }

  lemma LeaseWithinSeat(plan: Plan, checked: int, at: int)
    requires checked <= at
    ensures LeaseExp(plan, checked) * 1000 <= at + plan.leaseTtl * 1000
  {
  }

  /** At every instant after the events, the devices that hold an unexpired heartbeat lease are no
      more than the plan allows. */
  lemma SeatBound(plan: Plan, es: seq<Event>, t: int, devices: set<Device>)
    requires Timely(es) && (es != [] ==> es[|es| - 1].at <= t)
    requires forall d :: d in devices ==> Holds(plan, es, d, t)
    ensures |devices| <= plan.concurrentLimit
  {
    forall d | d in devices ensures d in Seated(plan, es, |es|) {
      var i :| 0 <= i < |es| && Leased(plan, es, i, d) && !DroppedSince(es, i, d)
               && LeaseExp(plan, es[i].checked) * 1000 > t;
      SeatCovers(plan, es, i, d, |es|);
    }
    SubsetSize(devices, Seated(plan, es, |es|).Keys);
    SeatsLimited(plan, es, |es|);
  }

  /** A device that renews while it still holds an unexpired heartbeat lease is never refused. */
  lemma HolderRenews(plan: Plan, es: seq<Event>, dev: Device, at: int)
    requires Timely(es) && (es != [] ==> es[|es| - 1].at <= at) && Holds(plan, es, dev, at)
    ensures Script(Seated(plan, es, |es|), at, plan.leaseTtl * 1000, dev, plan.concurrentLimit).1 == Renewed
  {
    var i :| 0 <= i < |es| && Leased(plan, es, i, dev) && !DroppedSince(es, i, dev)
             && LeaseExp(plan, es[i].checked) * 1000 > at;
    SeatCovers(plan, es, i, dev, |es|);
  }

  // ----- the seats by their history -----

  /** dev took or renewed a seat less than a lease time before t and was not dropped since. */
  ghost predicate Seats(plan: Plan, es: seq<Event>, n: nat, dev: Device, t: int)
    requires n <= |es|
  {
    exists i :: 0 <= i < n && SeatsFrom(plan, es, n, i, dev, t)
  }

  ghost predicate SeatsFrom(plan: Plan, es: seq<Event>, n: nat, i: nat, dev: Device, t: int)
    requires i < n <= |es|
  {
    Seating(plan, es, i, dev) && es[i].at + 1000 * plan.leaseTtl > t && !DroppedSince(es[..n], i, dev)
  }

  lemma SeatStep(plan: Plan, seats: map<Device, int>, e: Event, dev: Device)
    requires dev in Step(plan, seats, e)
    ensures e.dev != dev ==> dev in seats && Step(plan, seats, e)[dev] == seats[dev]
    ensures e.dev == dev ==> !e.Drop?
    ensures e.dev == dev && Script(seats, e.at, plan.leaseTtl * 1000, dev, plan.concurrentLimit).1 != Full ==>
              Step(plan, seats, e)[dev] == e.at + 1000 * plan.leaseTtl
    ensures e.dev == dev ==> Script(seats, e.at, plan.leaseTtl * 1000, dev, plan.concurrentLimit).1 != Full
  {
  }

  lemma StillUndropped(es: seq<Event>, n: nat, i: nat, dev: Device)
    requires i < n < |es| && !DroppedSince(es[..n], i, dev) && es[n].dev != dev
    ensures !DroppedSince(es[..n + 1], i, dev)
  {
    assert forall j :: 0 <= j < n ==> es[..n + 1][j] == es[..n][j];
    assert es[..n + 1][n] == es[n];
  }

  /** Every score in the set stems from an event that took or renewed the seat. */
  lemma {:induction false} ScoreStems(plan: Plan, es: seq<Event>, n: nat, dev: Device) returns (i: nat)
    requires n <= |es| && dev in Seated(plan, es, n)
    ensures i < n && Seating(plan, es, i, dev) && !DroppedSince(es[..n], i, dev)
    ensures Seated(plan, es, n)[dev] == es[i].at + 1000 * plan.leaseTtl
  {
    SeatStep(plan, Seated(plan, es, n - 1), es[n - 1], dev);
    if es[n - 1].dev == dev {
      i := n - 1;
    } else {
      i := ScoreStems(plan, es, n - 1, dev);
      StillUndropped(es, n - 1, i, dev);
    }
  }

  lemma HistorySeated(plan: Plan, es: seq<Event>, dev: Device, t: int)
    requires Timely(es) && (es != [] ==> es[|es| - 1].at <= t)
    ensures Seats(plan, es, |es|, dev, t) <==> dev in Seated(plan, es, |es|) && Seated(plan, es, |es|)[dev] > t
  {
    assert es[..|es|] == es;
    if Seats(plan, es, |es|, dev, t) {
      var i :| 0 <= i < |es| && SeatsFrom(plan, es, |es|, i, dev, t);
      TimelyUndisturbed(es, i, |es|, dev);
      SeatLasts(plan, es, i, dev, |es|, es[i].at + plan.leaseTtl * 1000);
    }
    if dev in Seated(plan, es, |es|) && Seated(plan, es, |es|)[dev] > t {
      var i := ScoreStems(plan, es, |es|, dev);
      assert SeatsFrom(plan, es, |es|, i, dev, t);
    }
  }

  /** The devices seated at t. */
  ghost function SeatedAt(plan: Plan, es: seq<Event>, t: int): set<Device> {
    set d | d in Seated(plan, es, |es|) && Seats(plan, es, |es|, d, t)
  }

  lemma ScoresPositive(plan: Plan, es: seq<Event>, dev: Device)
    requires Timely(es) && dev in Seated(plan, es, |es|)
    ensures Seated(plan, es, |es|)[dev] >= 0
  {
    var i := ScoreStems(plan, es, |es|, dev);
  }

  lemma PrunedSeated(plan: Plan, es: seq<Event>, t: int)
    requires Timely(es) && (es != [] ==> es[|es| - 1].at <= t) && 0 <= t
    ensures Pruned(Seated(plan, es, |es|), t).Keys == SeatedAt(plan, es, t)
  {
    var seats := Seated(plan, es, |es|);
    forall d ensures d in Pruned(seats, t) <==> d in SeatedAt(plan, es, t) {
      HistorySeated(plan, es, d, t);
      if d in seats {
        ScoresPositive(plan, es, d);
      }
    }
  }

  lemma ScriptAnswers(seats: map<Device, int>, t: int, ttl: int, dev: Device, limit: int)
    ensures var (after, reply) := Script(seats, t, ttl, dev, limit); var live := Pruned(seats, t).Keys;
      && (reply == Renewed <==> dev in live)
      && (reply == Admitted <==> dev !in live && |live| < limit)
      && after.Keys == (if reply == Full then live else live + {dev})
      && (reply != Full ==> after[dev] == t + ttl)
  {
    assert |Pruned(seats, t)| == |Pruned(seats, t).Keys|;
  }

  /** A seat is renewed exactly for a device seated by its history, and given to another exactly while
      fewer than limit devices are; it then lasts one lease time. */
  lemma AdmittedExactly(plan: Plan, es: seq<Event>, dev: Device, t: int)
    requires Timely(es) && (es != [] ==> es[|es| - 1].at <= t) && 0 <= t
    ensures var (after, reply) := Script(Seated(plan, es, |es|), t, plan.leaseTtl * 1000, dev, plan.concurrentLimit);
      && (reply == Renewed <==> Seats(plan, es, |es|, dev, t))
      && (reply == Admitted <==> !Seats(plan, es, |es|, dev, t) && |SeatedAt(plan, es, t)| < plan.concurrentLimit)
      && (reply != Full ==> dev in after && after[dev] == t + 1000 * plan.leaseTtl)
    ensures forall d :: Seats(plan, es, |es|, d, t) <==> d in SeatedAt(plan, es, t)
  {
    PrunedSeated(plan, es, t);
    ScriptAnswers(Seated(plan, es, |es|), t, plan.leaseTtl * 1000, dev, plan.concurrentLimit);
    forall d ensures Seats(plan, es, |es|, d, t) <==> d in SeatedAt(plan, es, t) {
      HistorySeated(plan, es, d, t);
    }
  }
}
