/**
 Sequence numbers of accepted requests rise: while Redis keeps a device's counter, and whenever the
 database decides. Activations count on a counter of their own and need Redis.
 */
module SequenceOrder {
  import opened Wrappers
  import opened Replay

  /** The name of the counter a request is checked against. */
  function CounterOf(e: Event): Device
    requires e.Checked?
  {
    if e.r.scope == "activate" then "activate:" + e.r.dev else e.r.dev
  }

  ghost predicate HasAtLeast(s: State, key: Device, v: int, until: int) {
    key in s.counters && v <= s.counters[key].value && until <= s.counters[key].until
  }

  // ----- one step -----

  lemma SetsHold(c: Config, counters: map<Device, Counter>, dev: Device, seqNo: int, now: int, ttl: int,
                 key: Device, v: int, until: int)
    requires key in counters && v <= counters[key].value && until <= counters[key].until
    requires now < until <= now + ttl
    ensures var after := CheckSeq(counters, dev, seqNo, now, ttl).0;
            key in after && v <= after[key].value && until <= after[key].until
  {
  }

  lemma NoncePartKeepsCounters(c: Config, s: State, r: Request, now: int, fault: Fault)
    ensures NoncePart(c, s, r, now, fault).0.counters == s.counters
    ensures NoncePart(c, s, r, now, fault).0.lastSeq == s.lastSeq
  {
  }

  lemma DecideHolds(c: Config, s: State, e: Event, key: Device, v: int, until: int)
    requires e.Checked? && HasAtLeast(s, key, v, until) && e.now < until <= e.now + c.window * 10
    ensures HasAtLeast(Decide(c, s, e).0, key, v, until)
  {
    NoncePartKeepsCounters(c, s, e.r, e.now, e.nonceFault);
    SetsHold(c, s.counters, CounterOf(e), e.r.seqNo, e.now, c.window * 10, key, v, until);
  }

  lemma StepHolds(c: Config, s: State, e: Event, key: Device, v: int, until: int)
    requires HasAtLeast(s, key, v, until)
    requires e.Checked? ==> e.now < until <= e.now + c.window * 10
    requires e.Lost? ==> key in e.keptCounters
    ensures HasAtLeast(Step(c, s, e), key, v, until)
  {
    if e.Checked? {
      DecideHolds(c, s, e, key, v, until);
    }
  }

  /** An acceptance that Redis answered leaves the number behind, for ten replay windows. */
  lemma AcceptedCounts(c: Config, s: State, e: Event)
    requires e.Checked? && e.seqFault == Up && c.window > 0 && Decide(c, s, e).1 == Accepted
    ensures HasAtLeast(Step(c, s, e), CounterOf(e), e.r.seqNo, e.now + 10 * c.window)
  {
  }

  /** With a live counter of at least v, Redis lets no number up to v pass. */
  lemma AcceptedIsHigher(c: Config, s: State, e: Event, v: int, until: int)
    requires e.Checked? && e.seqFault == Up && c.window > 0 && Decide(c, s, e).1 == Accepted
    requires HasAtLeast(s, CounterOf(e), v, until) && e.now < until
    ensures v < e.r.seqNo
  {
    NoncePartKeepsCounters(c, s, e.r, e.now, e.nonceFault);
  }

  lemma NotHigherRefused(c: Config, s: State, e: Event, v: int, until: int)
    requires e.Checked? && e.nonceFault == Up && e.seqFault == Up && e.r.seqNo <= v
    requires HasAtLeast(s, CounterOf(e), v, until) && e.now < until
    ensures Decide(c, s, e).1 == ReplayDetected || Decide(c, s, e).1 == SeqRegression
  {
    NoncePartKeepsCounters(c, s, e.r, e.now, e.nonceFault);
  }

  // ----- runs -----

  /** Between events i and j the counter is not lost, and j comes before its lifetime is over. */
  ghost predicate CounterKept(c: Config, es: seq<Event>, i: nat, j: nat)
    requires i < j < |es|
  {
    && es[i].Checked? && es[j].Checked? && es[j].now < es[i].now + 10 * c.window
    && forall k :: i < k < j ==> es[k].Lost? ==> CounterOf(es[i]) in es[k].keptCounters
  }

  lemma AfterNext(c: Config, devices: set<Device>, es: seq<Event>, n: nat)
    requires n < |es|
    ensures After(c, devices, es[..n + 1]) == Step(c, After(c, devices, es[..n]), es[n])
  {
    assert es[..n + 1][..n] == es[..n];
  }

  lemma InTime(c: Config, es: seq<Event>, i: nat, k: nat, j: nat)
    requires i < k <= j < |es| && Timely(es) && CounterKept(c, es, i, j) && es[k].Checked?
    ensures es[k].now < es[i].now + 10 * c.window <= es[k].now + c.window * 10
  {
  }

  lemma {:induction false} CounterLasts(c: Config, devices: set<Device>, es: seq<Event>, i: nat, n: nat, j: nat)
    requires i < n <= j < |es| && Timely(es) && CounterKept(c, es, i, j)
    requires es[i].seqFault == Up && c.window > 0 && VerdictAt(c, devices, es, i) == Accepted
    ensures HasAtLeast(After(c, devices, es[..n]), CounterOf(es[i]), es[i].r.seqNo, es[i].now + 10 * c.window)
    decreases n
  {
    AfterNext(c, devices, es, n - 1);
    if n == i + 1 {
      AcceptedCounts(c, After(c, devices, es[..i]), es[i]);
    } else {
      CounterLasts(c, devices, es, i, n - 1, j);
      if es[n - 1].Checked? {
        InTime(c, es, i, n - 1, j);
      }
      StepHolds(c, After(c, devices, es[..n - 1]), es[n - 1], CounterOf(es[i]), es[i].r.seqNo, es[i].now + 10 * c.window);
    }
  }

  lemma WindowPositive(c: Config, es: seq<Event>, i: nat, j: nat)
    requires i < j < |es| && Timely(es) && CounterKept(c, es, i, j)
    ensures c.window > 0
  {
  }

  /** Two accepted requests on one counter, Redis answering both within the counter's life, carry rising
      numbers: requests of one device, or activations of one device. */
  lemma NumbersRise(c: Config, devices: set<Device>, es: seq<Event>, i: nat, j: nat)
    requires i < j < |es| && Timely(es) && CounterKept(c, es, i, j) && CounterOf(es[i]) == CounterOf(es[j])
    requires es[i].seqFault == Up && es[j].seqFault == Up
    requires VerdictAt(c, devices, es, i) == Accepted && VerdictAt(c, devices, es, j) == Accepted
    ensures es[i].r.seqNo < es[j].r.seqNo
  {
    WindowPositive(c, es, i, j);
    CounterLasts(c, devices, es, i, j, j);
    AcceptedIsHigher(c, After(c, devices, es[..j]), es[j], es[i].r.seqNo, es[i].now + 10 * c.window);
  }

  /** And a request that does not rise is refused, as a replay or as a regression. */
  lemma RegressionRefused(c: Config, devices: set<Device>, es: seq<Event>, i: nat, j: nat)
    requires i < j < |es| && Timely(es) && CounterKept(c, es, i, j) && CounterOf(es[i]) == CounterOf(es[j])
    requires es[i].seqFault == Up && es[j].seqFault == Up && es[j].nonceFault == Up
    requires VerdictAt(c, devices, es, i) == Accepted && es[j].r.seqNo <= es[i].r.seqNo
    ensures VerdictAt(c, devices, es, j) == ReplayDetected || VerdictAt(c, devices, es, j) == SeqRegression
  {
    WindowPositive(c, es, i, j);
    CounterLasts(c, devices, es, i, j, j);
    NotHigherRefused(c, After(c, devices, es[..j]), es[j], es[i].r.seqNo, es[i].now + 10 * c.window);
  }

  // ----- the database -----

  /** last_seq knows the number of an accepted request if the database decided it or a heartbeat bumped it. */
  lemma DatabaseKnows(c: Config, s: State, e: Event)
    requires e.Checked? && e.r.scope != "activate" && Decide(c, s, e).1 == Accepted && e.r.dev in s.lastSeq
    requires e.seqFault != Up || (e.bumps && e.r.scope == "heartbeat")
    ensures var t := Step(c, s, e); e.r.dev in t.lastSeq && e.r.seqNo <= t.lastSeq[e.r.dev]
  {
    NoncePartKeepsCounters(c, s, e.r, e.now, e.nonceFault);
  }

  /** The database accepts exactly larger numbers. */
  lemma DatabaseDecides(c: Config, s: State, e: Event)
    requires e.Checked? && e.r.scope != "activate" && e.seqFault != Up && e.r.dev in s.lastSeq
    ensures Decide(c, s, e).1 == Accepted ==> s.lastSeq[e.r.dev] < e.r.seqNo
    ensures Decide(c, s, e).1 == SeqRegression ==> e.r.seqNo <= s.lastSeq[e.r.dev]
  {
    NoncePartKeepsCounters(c, s, e.r, e.now, e.nonceFault);
  }

  /** Whatever Redis does in between and however long it takes: a request the database decides carries
      a larger number than any earlier accepted one that the database knows of. */
  lemma DatabaseNumbersRise(c: Config, devices: set<Device>, es: seq<Event>, i: nat, j: nat)
    requires i < j < |es| && es[i].Checked? && es[j].Checked? && es[i].r.dev == es[j].r.dev && es[i].r.dev in devices
    requires es[i].r.scope != "activate" && es[j].r.scope != "activate"
    requires es[i].seqFault != Up || (es[i].bumps && es[i].r.scope == "heartbeat")
    requires es[j].seqFault != Up
    requires VerdictAt(c, devices, es, i) == Accepted && VerdictAt(c, devices, es, j) == Accepted
    ensures es[i].r.seqNo < es[j].r.seqNo
  {
    var dev := es[i].r.dev;
    LastSeqGrows(c, devices, es[..i], 0, dev);
    AfterNext(c, devices, es, i);
    DatabaseKnows(c, After(c, devices, es[..i]), es[i]);
    LastSeqGrows(c, devices, es[..j], i + 1, dev);
    assert es[..j][..i + 1] == es[..i + 1];
    DatabaseDecides(c, After(c, devices, es[..j]), es[j]);
  }

  // ----- what Redis errors mean -----

  /** An activation is accepted only if Redis answered both questions; any other request goes on without
      the nonce answer and asks the database instead of the counter. */
  lemma ErrorsExactly(c: Config, s: State, e: Event)
    requires e.Checked? && InWindow(c, e.r.ts, e.now)
    ensures e.r.scope == "activate" && e.nonceFault != Up ==> Decide(c, s, e).1 == RateLimited
    ensures e.r.scope == "activate" && Decide(c, s, e).1 == Accepted ==> e.nonceFault == Up && e.seqFault == Up
    ensures e.r.scope != "activate" && e.nonceFault != Up && e.seqFault != Up && e.r.dev in s.lastSeq ==>
              Decide(c, s, e).1 == if s.lastSeq[e.r.dev] < e.r.seqNo then Accepted else SeqRegression
  {
    NoncePartKeepsCounters(c, s, e.r, e.now, e.nonceFault);
  }

  /** A timestamp passes exactly within the skew, in whole seconds on both sides; another is a replay. */
  lemma WindowExactly(c: Config, s: State, e: Event)
    requires e.Checked?
    ensures !((e.now - c.skew) / 1000 <= e.r.ts <= (e.now + c.skew) / 1000) ==>
              Decide(c, s, e).1 == ReplayDetected && Decide(c, s, e).0 == s
  {
  }

  /** A heartbeat's bump leaves the larger of the two numbers. */
  lemma BumpIsMaximum(s: State, dev: Device, seqNo: int)
    requires dev in s.lastSeq
    ensures var t := Bump(s, dev, seqNo);
      && t.nonces == s.nonces && t.counters == s.counters && t.lastSeq.Keys == s.lastSeq.Keys
      && t.lastSeq[dev] >= s.lastSeq[dev] && t.lastSeq[dev] >= seqNo && t.lastSeq[dev] in {s.lastSeq[dev], seqNo}
      && forall d :: d in s.lastSeq && d != dev ==> t.lastSeq[d] == s.lastSeq[d]
  {
  }
}
