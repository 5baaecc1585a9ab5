/**
 Replay protection of device requests (checkReplay in apps/license-api/internal/service/heartbeat.go)
 over Redis nonce keys, Redis sequence counters and the database's last_seq. Redis may answer, fail
 before or after doing its work, and lose keys; all of these are part of a run.

 Instants and durations are milliseconds, request timestamps whole seconds. A key set at t with a
 lifetime of d is there from t up to but not including t + d. The Redis client sets a key with
 lifetime 0 without an expiry; the script's PX 0 is an error.
 */
module Replay {
  import opened Wrappers

  type Device = string

  datatype Config = Config(skew: nat, window: nat) // MaxClockSkew, ReplayWindow

  datatype Request = Request(dev: Device, scope: string, ts: int, nonce: string, seqNo: nat)

  /** How a Redis call goes: it answers; it fails undone; it is done but the answer is lost. */
  datatype Fault = Up | Down | LostReply

  datatype Counter = Counter(value: int, until: int)

  datatype State = State(
    nonces: map<(string, string), Option<int>>, // until when each nonce key lives, if it ends at all
    counters: map<Device, Counter>,
    lastSeq: map<Device, int>)

  datatype Verdict = Accepted | ReplayDetected | SeqRegression | RateLimited | NoDevice

  predicate Alive(until: Option<int>, now: int) {
    until.None? || now < until.value
  }

  /** SETNX: the new keys, and whether this was the first use. */
  function ConsumeNonce(nonces: map<(string, string), Option<int>>, key: (string, string), now: int, ttl: int)
    : (map<(string, string), Option<int>>, bool)
  {
    if key in nonces && Alive(nonces[key], now) then (nonces, false)
    else (nonces[key := if ttl == 0 then None else Some(now + ttl)], true)
  }

  datatype SeqReply = Higher | NotHigher | ScriptError

  /** seqScript: a missing or expired counter counts as -1. */
  function CheckSeq(counters: map<Device, Counter>, dev: Device, seqNo: int, now: int, ttl: int)
    : (map<Device, Counter>, SeqReply)
  {
    var cur := if dev in counters && now < counters[dev].until then counters[dev].value else -1;
    if seqNo <= cur then (counters, NotHigher)
    else if ttl == 0 then (counters, ScriptError)
    else (counters[dev := Counter(seqNo, now + ttl)], Higher)
  }

  /** The timestamp lies within the tolerated skew, compared in whole seconds. */
  predicate InWindow(c: Config, ts: int, now: int) {
    (now - c.skew) / 1000 <= ts <= (now + c.skew) / 1000
  }

  /** The nonce part of checkReplay: the state, and the verdict if it is negative. */
  function NoncePart(c: Config, s: State, r: Request, now: int, fault: Fault): (State, Verdict) {
    var (nonces, first) := ConsumeNonce(s.nonces, (r.scope, r.nonce), now, c.window + c.skew);
    match fault
    case Up => (s.(nonces := nonces), if first then Accepted else ReplayDetected)
    case Down => (s, if r.scope == "activate" then RateLimited else Accepted)
    case LostReply => (s.(nonces := nonces), if r.scope == "activate" then RateLimited else Accepted)
  }

  /** The sequence part of checkReplay, with the database as the fallback. */
  function SeqPart(c: Config, s: State, r: Request, now: int, fault: Fault): (State, Verdict) {
    var (counters, reply) := CheckSeq(s.counters, r.dev, r.seqNo, now, c.window * 10);
    var s' := if fault == Down then s else s.(counters := counters);
    if fault == Up && !reply.ScriptError? then (s', if reply.Higher? then Accepted else SeqRegression)
    else if r.dev !in s.lastSeq then (s', NoDevice)
    else if s.lastSeq[r.dev] < r.seqNo then (s'.(lastSeq := s.lastSeq[r.dev := r.seqNo]), Accepted)
    else (s', SeqRegression)
  }

  function Check(c: Config, s: State, r: Request, now: int, nonceFault: Fault, seqFault: Fault): (State, Verdict) {
    if !InWindow(c, r.ts, now) then (s, ReplayDetected)
    else
      var (s', v) := NoncePart(c, s, r, now, nonceFault);
      if v != Accepted then (s', v) else SeqPart(c, s', r, now, seqFault)
  }

  const ACTIVATE := "activate:"

  /** checkActivationReplay: there is no device row yet, so every Redis error refuses. */
  function CheckActivation(c: Config, s: State, r: Request, now: int, nonceFault: Fault, seqFault: Fault)
    : (State, Verdict)
  {
    if !InWindow(c, r.ts, now) then (s, ReplayDetected)
    else
      var (s', v) := NoncePart(c, s, r.(scope := "activate"), now, nonceFault);
      if v != Accepted then (s', v)
      else
        var (counters, reply) := CheckSeq(s'.counters, ACTIVATE + r.dev, r.seqNo, now, c.window * 10);
        match seqFault
        case Up =>
          (s'.(counters := counters),
           if reply.Higher? then Accepted else if reply.NotHigher? then SeqRegression else RateLimited)
        case Down => (s', RateLimited)
        case LostReply => (s'.(counters := counters), RateLimited)
  }

  /** BumpDeviceHeartbeat's effect on last_seq. */
  function Bump(s: State, dev: Device, seqNo: int): State {
    if dev in s.lastSeq && s.lastSeq[dev] < seqNo then s.(lastSeq := s.lastSeq[dev := seqNo]) else s
  }

  class Guard {
    var nonces: map<(string, string), Option<int>>
    var counters: map<Device, Counter>
    var lastSeq: map<Device, int>

    function View(): State
      reads this
    {
      State(nonces, counters, lastSeq)
    }

    constructor (devices: set<Device>)
      ensures View() == Init(devices)
    {
      nonces, counters := map[], map[];
      lastSeq := map d | d in devices :: 0;
    }

    /** The Redis call of ConsumeNonce, which may fail. */
    method SetNX(key: (string, string), now: int, ttl: int, fault: Fault) returns (ok: bool, err: bool)
      modifies this`nonces
      ensures err <==> fault != Up
      ensures nonces == if fault == Down then old(nonces) else ConsumeNonce(old(nonces), key, now, ttl).0
      ensures !err ==> ok == ConsumeNonce(old(nonces), key, now, ttl).1
    {
      ok, err := false, fault != Up;
      if fault != Down && !(key in nonces && Alive(nonces[key], now)) {
        nonces := nonces[key := if ttl == 0 then None else Some(now + ttl)];
        ok := true;
      }
    }

    method RunSeqScript(dev: Device, seqNo: int, now: int, ttl: int, fault: Fault) returns (good: bool, err: bool)
      modifies this`counters
      ensures var (after, reply) := CheckSeq(old(counters), dev, seqNo, now, ttl);
        && (err <==> fault != Up || reply.ScriptError?)
        && counters == (if fault == Down then old(counters) else after)
        && (!err ==> (good <==> reply.Higher?))
    {
      good, err := false, fault != Up;
      if fault == Down { return; }
      var cur := if dev in counters && now < counters[dev].until then counters[dev].value else -1;
      if seqNo <= cur { return; }
      if ttl == 0 { return false, true; }
      counters := counters[dev := Counter(seqNo, now + ttl)];
      good := true;
    }

    method AcceptDeviceSeq(dev: Device, seqNo: int) returns (accepted: bool, missing: bool)
      modifies this`lastSeq
      ensures missing <==> dev !in old(lastSeq)
      ensures accepted <==> dev in old(lastSeq) && old(lastSeq)[dev] < seqNo
      ensures lastSeq == if accepted then old(lastSeq)[dev := seqNo] else old(lastSeq)
    {
      missing := dev !in lastSeq;
      accepted := !missing && lastSeq[dev] < seqNo;
      if accepted {
        lastSeq := lastSeq[dev := seqNo];
      }
    }

    method CheckReplay(c: Config, r: Request, now: int, nonceFault: Fault, seqFault: Fault) returns (v: Verdict)
      modifies this
      ensures (View(), v) == Check(c, old(View()), r, now, nonceFault, seqFault)
    {
      if r.ts < (now - c.skew) / 1000 || r.ts > (now + c.skew) / 1000 {
        return ReplayDetected;
      }
      var ok, err := SetNX((r.scope, r.nonce), now, c.window + c.skew, nonceFault);
      if err {
        if r.scope == "activate" {
          return RateLimited;
        }
      } else if !ok {
        return ReplayDetected;
      }
      var good, seqErr := RunSeqScript(r.dev, r.seqNo, now, c.window * 10, seqFault);
      if seqErr {
        var accepted, missing := AcceptDeviceSeq(r.dev, r.seqNo);
        return if missing then NoDevice else if accepted then Accepted else SeqRegression;
      }
      v := if good then Accepted else SeqRegression;
    }

    method CheckActivationReplay(c: Config, r: Request, now: int, nonceFault: Fault, seqFault: Fault)
      returns (v: Verdict)
      modifies this
      ensures (View(), v) == CheckActivation(c, old(View()), r, now, nonceFault, seqFault)
    {
      if r.ts < (now - c.skew) / 1000 || r.ts > (now + c.skew) / 1000 {
        return ReplayDetected;
      }
      var ok, err := SetNX(("activate", r.nonce), now, c.window + c.skew, nonceFault);
      if err {
        return RateLimited;
      }
      if !ok {
        return ReplayDetected;
      }
      var good, seqErr := RunSeqScript(ACTIVATE + r.dev, r.seqNo, now, c.window * 10, seqFault);
      if seqErr {
        return RateLimited;
      }
      v := if good then Accepted else SeqRegression;
    }

    method BumpDeviceHeartbeat(dev: Device, seqNo: int)
      modifies this`lastSeq
      ensures View() == Bump(old(View()), dev, seqNo)
    {
      if dev in lastSeq && lastSeq[dev] < seqNo {
        lastSeq := lastSeq[dev := seqNo];
      }
    }
  }

  // ----- runs -----

  /** A request is checked (an activation by checkActivationReplay, any other by checkReplay), and an
      accepted heartbeat may go on to bump last_seq; or Redis loses keys. */
  datatype Event =
    | Checked(r: Request, now: int, nonceFault: Fault, seqFault: Fault, bumps: bool)
    | Lost(keptNonces: set<(string, string)>, keptCounters: set<Device>)

  function Init(devices: set<Device>): State {
    State(map[], map[], map d | d in devices :: 0)
  }

  function Decide(c: Config, s: State, e: Event): (State, Verdict)
    requires e.Checked?
  {
    if e.r.scope == "activate" then CheckActivation(c, s, e.r, e.now, e.nonceFault, e.seqFault)
    else Check(c, s, e.r, e.now, e.nonceFault, e.seqFault)
  }

  function Step(c: Config, s: State, e: Event): State {
    match e
    case Checked(r, now, nf, sf, bumps) =>
      var (s', v) := Decide(c, s, e);
      if v == Accepted && bumps && r.scope == "heartbeat" then Bump(s', r.dev, r.seqNo) else s'
    case Lost(ns, ds) =>
      s.(nonces := map k | k in s.nonces && k in ns :: s.nonces[k],
         counters := map d | d in s.counters && d in ds :: s.counters[d])
  }

  function After(c: Config, devices: set<Device>, es: seq<Event>): State {
    if es == [] then Init(devices) else Step(c, After(c, devices, es[..|es| - 1]), es[|es| - 1])
  }

  /** The verdict on event i of the run. */
  function VerdictAt(c: Config, devices: set<Device>, es: seq<Event>, i: nat): Verdict
    requires i < |es| && es[i].Checked?
  {
    Decide(c, After(c, devices, es[..i]), es[i]).1
  }

  ghost predicate Timely(es: seq<Event>) {
    forall i, j :: 0 <= i < j < |es| && es[i].Checked? && es[j].Checked? ==> es[i].now <= es[j].now
  }

  // ----- no replay -----

  /** Redis answers every nonce call and keeps its keys; sequence calls may go as they like. */
  ghost predicate NoncesKept(es: seq<Event>) {
    forall i :: 0 <= i < |es| ==> es[i].Checked? && es[i].nonceFault == Up
  }

  /** A nonce key that lasts to this instant; with no lifetime configured it has no end. */
  predicate Lasts(c: Config, until: Option<int>, t: int) {
    until.None? || (c.window + c.skew > 0 && until.value >= t)
  }

  /** The nonce consumed by event i lives on through the run. */
  lemma {:induction false} NonceRemains(c: Config, devices: set<Device>, es: seq<Event>, i: nat)
    requires NoncesKept(es) && Timely(es) && i < |es| && VerdictAt(c, devices, es, i) == Accepted
    ensures var key, until := (es[i].r.scope, es[i].r.nonce), es[i].now + c.window + c.skew;
            key in After(c, devices, es).nonces && Lasts(c, After(c, devices, es).nonces[key], until)
  {
    var n := |es| - 1;
    var front := es[..n];
    var s := After(c, devices, front);
    if i < n {
      assert front[..i] == es[..i] && front[i] == es[i];
      NonceRemains(c, devices, front, i);
      assert es[i].now <= es[n].now;
      NonceKept(c, s, es[n], (es[i].r.scope, es[i].r.nonce), es[i].now + c.window + c.skew);
    } else {
      assert es[..i] == front;
      NonceSet(c, s, es[n]);
    }
  }

  lemma NoncePartKeeps(c: Config, s: State, r: Request, now: int, key: (string, string), until: int)
    requires until <= now + c.window + c.skew && key in s.nonces && Lasts(c, s.nonces[key], until)
    ensures var s' := NoncePart(c, s, r, now, Up).0; key in s'.nonces && Lasts(c, s'.nonces[key], until)
  {
  }

  lemma DecideKeeps(c: Config, s: State, e: Event, key: (string, string), until: int)
    requires e.Checked? && e.nonceFault == Up && until <= e.now + c.window + c.skew
    requires key in s.nonces && Lasts(c, s.nonces[key], until)
    ensures key in Decide(c, s, e).0.nonces && Lasts(c, Decide(c, s, e).0.nonces[key], until)
  {
    NoncePartKeeps(c, s, e.r, e.now, key, until);
    SeqPartKeepsNonces(c, NoncePart(c, s, e.r, e.now, Up).0, e.r, e.now, e.seqFault);
  }

  lemma NonceKept(c: Config, s: State, e: Event, key: (string, string), until: int)
    requires e.Checked? && e.nonceFault == Up && until <= e.now + c.window + c.skew
    requires key in s.nonces && Lasts(c, s.nonces[key], until)
    ensures key in Step(c, s, e).nonces && Lasts(c, Step(c, s, e).nonces[key], until)
  {
    DecideKeeps(c, s, e, key, until);
  }

  lemma NonceSet(c: Config, s: State, e: Event)
    requires e.Checked? && e.nonceFault == Up
    requires Decide(c, s, e).1 == Accepted
    ensures var key := (e.r.scope, e.r.nonce);
            key in Step(c, s, e).nonces && Lasts(c, Step(c, s, e).nonces[key], e.now + c.window + c.skew)
  {
  }

  /** Two acceptances of one timestamp are less than twice the skew plus one second apart. */
  lemma WindowsOverlap(c: Config, ts: int, t1: int, t2: int)
    requires InWindow(c, ts, t1) && InWindow(c, ts, t2)
    ensures t2 - t1 < 2 * c.skew + 1000
  {
  }

  ghost predicate NeverTwice(c: Config) {
    forall devices: set<Device>, es: seq<Event>, i: nat, j: nat ::
      NoncesKept(es) && Timely(es) && i < j < |es| && SameTag(es[i], es[j])
      ==> VerdictAt(c, devices, es, i) != Accepted || VerdictAt(c, devices, es, j) != Accepted
  }

  predicate SameTag(a: Event, b: Event) {
    && a.Checked? && b.Checked?
    && a.r.scope == b.r.scope && a.r.nonce == b.r.nonce && a.r.ts == b.r.ts
  }

  /** The nonce outlives the timestamp: by its lifetime, or because it has no end. */
  predicate LongEnough(c: Config) {
    c.window >= c.skew + 1000 || c.window + c.skew == 0
  }

  /** While the nonce key of a request accepted at t1 lasts, the same tag is refused. */
  lemma RefusedWhileKept(c: Config, s: State, e: Event, t1: int)
    requires LongEnough(c)
    requires e.Checked? && e.nonceFault == Up && t1 <= e.now && InWindow(c, e.r.ts, t1)
    requires (e.r.scope, e.r.nonce) in s.nonces
    requires Lasts(c, s.nonces[(e.r.scope, e.r.nonce)], t1 + c.window + c.skew)
    ensures Decide(c, s, e).1 != Accepted
  {
    if InWindow(c, e.r.ts, e.now) {
      WindowsOverlap(c, e.r.ts, t1, e.now);
    }
  }

  lemma AcceptedInWindow(c: Config, s: State, e: Event)
    requires e.Checked? && Decide(c, s, e).1 == Accepted
    ensures InWindow(c, e.r.ts, e.now)
  {
  }

  lemma NotTwice(c: Config)
    ensures LongEnough(c) ==> NeverTwice(c)
  {
    forall devices: set<Device>, es: seq<Event>, i: nat, j: nat
      | LongEnough(c) && NoncesKept(es) && Timely(es) && i < j < |es| && SameTag(es[i], es[j])
      ensures VerdictAt(c, devices, es, i) != Accepted || VerdictAt(c, devices, es, j) != Accepted
    {
      if VerdictAt(c, devices, es, i) == Accepted {
        AcceptedInWindow(c, After(c, devices, es[..i]), es[i]);
        assert es[..j][..i] == es[..i];
        NonceRemains(c, devices, es[..j], i);
        RefusedWhileKept(c, After(c, devices, es[..j]), es[j], es[i].now);
      }
    }
  }

  /** A nonce never passes twice, in any run, exactly when the replay window exceeds the tolerated
      skew by a second, as the whole-second comparison costs up to 999 milliseconds, or when both are
      zero, as the nonce keys then never expire. */
  lemma NoReplay(c: Config)
    ensures NeverTwice(c) <==> c.window >= c.skew + 1000 || c.window + c.skew == 0
  {
    NotTwice(c);
    if !LongEnough(c) {
      Replayed(c);
    }
  }

  /** The requests that replay: first use at the earliest, second at the latest instant in the window. */
  function Earliest(c: Config): Event {
    Checked(Request("dev", "heartbeat", c.skew, "nonce", 1), c.skew * 1000 - c.skew, Up, Up, false)
  }

  function Latest(c: Config): Event {
    Checked(Request("dev", "heartbeat", c.skew, "nonce", 2), c.skew * 1000 + 999 + c.skew, Up, Up, false)
  }

  lemma EarliestAccepted(c: Config)
    requires !LongEnough(c)
    ensures Decide(c, Init({"dev"}), Earliest(c)).1 == Accepted
    ensures var s := Step(c, Init({"dev"}), Earliest(c));
      && ("heartbeat", "nonce") in s.nonces && !Alive(s.nonces[("heartbeat", "nonce")], Latest(c).now)
      && ("dev" in s.counters ==> s.counters["dev"].value == 1) && "dev" in s.lastSeq && s.lastSeq["dev"] <= 1
  {
  }

  lemma LatestAccepted(c: Config, s: State)
    requires ("heartbeat", "nonce") in s.nonces && !Alive(s.nonces[("heartbeat", "nonce")], Latest(c).now)
    requires ("dev" in s.counters ==> s.counters["dev"].value == 1) && "dev" in s.lastSeq && s.lastSeq["dev"] <= 1
    ensures Decide(c, s, Latest(c)).1 == Accepted
  {
  }

  lemma AfterOne(c: Config, devices: set<Device>, e: Event)
    ensures After(c, devices, [e]) == Step(c, Init(devices), e)
  {
    assert [e][..0] == [];
  }

  /** The run that replays. */
  lemma Replayed(c: Config)
    requires !LongEnough(c)
    ensures !NeverTwice(c)
  {
    var first, again := Earliest(c), Latest(c);
    var es := [first, again];
    assert es[..0] == [] && es[..1] == [first];
    var s := Step(c, Init({"dev"}), first);
    AfterOne(c, {"dev"}, first);
    EarliestAccepted(c);
    LatestAccepted(c, s);
    assert VerdictAt(c, {"dev"}, es, 0) == Decide(c, Init({"dev"}), first).1;
    assert VerdictAt(c, {"dev"}, es, 1) == Decide(c, s, again).1;
    assert SameTag(es[0], es[1]);
  }

  // ----- the honest device -----

  /** A request of the device once it is activated. */
  predicate Sends(e: Event, dev: Device) {
    e.Checked? && e.r.dev == dev && e.r.scope != "activate"
  }

  /** The requests of one client that counts upward from 1, stamps the time within the tolerance and
      draws nonces nobody used before. Everything else in the run is arbitrary. */
  ghost predicate Honest(c: Config, dev: Device, es: seq<Event>) {
    forall j :: 0 <= j < |es| && Sends(es[j], dev) ==>
      && es[j].r.seqNo >= 1
      && InWindow(c, es[j].r.ts, es[j].now)
      && (forall i :: 0 <= i < j && es[i].Checked? ==>
            && (Sends(es[i], dev) ==> es[i].r.seqNo < es[j].r.seqNo)
            && (es[i].r.scope, es[i].r.nonce) != (es[j].r.scope, es[j].r.nonce))
  }

  /** Device ids are UUIDs, so no activation counter has the name of a device counter. */
  predicate IsDeviceId(dev: Device) {
    !(ACTIVATE <= dev)
  }

  /** The largest number the device has used so far. */
  function Highest(es: seq<Event>, dev: Device): (h: int)
    ensures h >= 0
  {
    if es == [] then 0
    else
      var h, e := Highest(es[..|es| - 1], dev), es[|es| - 1];
      if Sends(e, dev) && e.r.seqNo > h then e.r.seqNo else h
  }

  /** Neither Redis nor the database runs ahead of the device, and Redis knows only used nonces. */
  lemma {:induction false} NobodyAhead(c: Config, devices: set<Device>, es: seq<Event>, dev: Device)
    requires dev in devices && IsDeviceId(dev)
    ensures Behind(After(c, devices, es), dev, Highest(es, dev))
  {
    if es != [] {
      NobodyAhead(c, devices, es[..|es| - 1], dev);
      StepBehind(c, After(c, devices, es[..|es| - 1]), es[|es| - 1], dev, Highest(es[..|es| - 1], dev));
    }
  }

  ghost predicate Behind(s: State, dev: Device, h: int) {
    (dev in s.counters ==> s.counters[dev].value <= h) && dev in s.lastSeq && 0 <= s.lastSeq[dev] <= h
  }

  function Max(a: int, b: int): int {
    if a > b then a else b
  }

  lemma SeqPartBehind(c: Config, s: State, r: Request, now: int, fault: Fault, dev: Device, h: int)
    requires Behind(s, dev, h)
    ensures Behind(SeqPart(c, s, r, now, fault).0, dev, if r.dev == dev then Max(r.seqNo, h) else h)
  {
  }

  lemma CheckBehind(c: Config, s: State, r: Request, now: int, nf: Fault, sf: Fault, dev: Device, h: int)
    requires Behind(s, dev, h)
    ensures Behind(Check(c, s, r, now, nf, sf).0, dev, if r.dev == dev then Max(r.seqNo, h) else h)
  {
    var s' := NoncePart(c, s, r, now, nf).0;
    assert Behind(s', dev, h);
    SeqPartBehind(c, s', r, now, sf, dev, h);
  }

  lemma ActivationBehind(c: Config, s: State, r: Request, now: int, nf: Fault, sf: Fault, dev: Device, h: int)
    requires IsDeviceId(dev) && Behind(s, dev, h)
    ensures Behind(CheckActivation(c, s, r, now, nf, sf).0, dev, h)
  {
    assert ACTIVATE <= ACTIVATE + r.dev;
  }

  lemma BumpBehind(s: State, r: Request, dev: Device, h: int)
    requires Behind(s, dev, h) && (r.dev == dev ==> r.seqNo <= h)
    ensures Behind(Bump(s, r.dev, r.seqNo), dev, h)
  {
  }

  lemma StepBehind(c: Config, s: State, e: Event, dev: Device, h: int)
    requires IsDeviceId(dev) && Behind(s, dev, h)
    ensures Behind(Step(c, s, e), dev, if Sends(e, dev) then Max(e.r.seqNo, h) else h)
  {
    if e.Checked? {
      if e.r.scope == "activate" {
        ActivationBehind(c, s, e.r, e.now, e.nonceFault, e.seqFault, dev, h);
      } else {
        CheckBehind(c, s, e.r, e.now, e.nonceFault, e.seqFault, dev, h);
        BumpBehind(Decide(c, s, e).0, e.r, dev, if e.r.dev == dev then Max(e.r.seqNo, h) else h);
      }
    }
  }

  lemma {:induction false} NoncesUsed(c: Config, devices: set<Device>, es: seq<Event>)
    ensures forall key :: key in After(c, devices, es).nonces ==> UsedIn(es, key)
  {
    if es != [] {
      var front, e := es[..|es| - 1], es[|es| - 1];
      NoncesUsed(c, devices, front);
      forall key | key in After(c, devices, es).nonces ensures UsedIn(es, key) {
        if key in After(c, devices, front).nonces {
          var i :| 0 <= i < |front| && front[i].Checked? && (front[i].r.scope, front[i].r.nonce) == key;
          assert es[i] == front[i];
        } else {
          NonceAdded(c, After(c, devices, front), e, key);
          assert es[|es| - 1] == e;
        }
      }
    }
  }

  lemma SeqPartKeepsNonces(c: Config, s: State, r: Request, now: int, fault: Fault)
    ensures SeqPart(c, s, r, now, fault).0.nonces == s.nonces
  {
  }

  lemma NoncePartAdds(c: Config, s: State, r: Request, now: int, fault: Fault, key: (string, string))
    requires key in NoncePart(c, s, r, now, fault).0.nonces && key !in s.nonces
    ensures key == (r.scope, r.nonce)
  {
  }

  lemma DecideAdds(c: Config, s: State, e: Event, key: (string, string))
    requires e.Checked? && key in Decide(c, s, e).0.nonces && key !in s.nonces
    ensures key == (e.r.scope, e.r.nonce)
  {
    SeqPartKeepsNonces(c, NoncePart(c, s, e.r, e.now, e.nonceFault).0, e.r, e.now, e.seqFault);
    if key in NoncePart(c, s, e.r, e.now, e.nonceFault).0.nonces {
      NoncePartAdds(c, s, e.r, e.now, e.nonceFault, key);
    }
  }

  lemma NonceAdded(c: Config, s: State, e: Event, key: (string, string))
    requires key in Step(c, s, e).nonces && key !in s.nonces
    ensures e.Checked? && (e.r.scope, e.r.nonce) == key
  {
    if e.Checked? {
      DecideAdds(c, s, e, key);
    }
  }

  ghost predicate UsedIn(es: seq<Event>, key: (string, string)) {
    exists i :: 0 <= i < |es| && es[i].Checked? && (es[i].r.scope, es[i].r.nonce) == key
  }

  lemma {:induction false} HighestReached(es: seq<Event>, dev: Device, bound: int)
    requires bound > 0
    requires forall i :: 0 <= i < |es| && Sends(es[i], dev) ==> es[i].r.seqNo < bound
    ensures Highest(es, dev) < bound
  {
    if es != [] {
      HighestReached(es[..|es| - 1], dev, bound);
    }
  }

  /** Whatever errors, expiries, losses and recoveries Redis goes through, and whatever the other
      requests are, no request of an honest device is rejected. */
  lemma HonestAccepted(c: Config, devices: set<Device>, es: seq<Event>, dev: Device, j: nat)
    requires Honest(c, dev, es) && dev in devices && IsDeviceId(dev) && j < |es| && Sends(es[j], dev)
    ensures VerdictAt(c, devices, es, j) == Accepted
  {
    var front, r := es[..j], es[j].r;
    assert forall i :: 0 <= i < j ==> front[i] == es[i];
    NobodyAhead(c, devices, front, dev);
    HighestReached(front, dev, r.seqNo);
    NoncesUsed(c, devices, front);
    assert !UsedIn(front, (r.scope, r.nonce));
  }

  /** The database's last_seq of a device never goes down, at any two moments of any run. */
  lemma {:induction false} LastSeqGrows(c: Config, devices: set<Device>, es: seq<Event>, i: nat, dev: Device)
    requires dev in devices && i <= |es|
    ensures dev in After(c, devices, es[..i]).lastSeq && dev in After(c, devices, es).lastSeq
    ensures After(c, devices, es[..i]).lastSeq[dev] <= After(c, devices, es).lastSeq[dev]
    decreases |es|
  {
    if i == |es| {
      assert es[..i] == es;
      if i > 0 {
        LastSeqGrows(c, devices, es[..i - 1], 0, dev);
        LastSeqStep(c, After(c, devices, es[..i - 1]), es[i - 1], dev);
      }
    } else {
      var front := es[..|es| - 1];
      assert front[..i] == es[..i];
      LastSeqGrows(c, devices, front, i, dev);
      LastSeqStep(c, After(c, devices, front), es[|es| - 1], dev);
    }
  }

  lemma SeqPartRaises(c: Config, s: State, r: Request, now: int, fault: Fault, dev: Device)
    requires dev in s.lastSeq
    ensures var s' := SeqPart(c, s, r, now, fault).0; dev in s'.lastSeq && s.lastSeq[dev] <= s'.lastSeq[dev]
  {
  }

  lemma DecideRaises(c: Config, s: State, e: Event, dev: Device)
    requires e.Checked? && dev in s.lastSeq
    ensures var s' := Decide(c, s, e).0; dev in s'.lastSeq && s.lastSeq[dev] <= s'.lastSeq[dev]
  {
    SeqPartRaises(c, NoncePart(c, s, e.r, e.now, e.nonceFault).0, e.r, e.now, e.seqFault, dev);
  }

  lemma LastSeqStep(c: Config, s: State, e: Event, dev: Device)
    requires dev in s.lastSeq
    ensures dev in Step(c, s, e).lastSeq && s.lastSeq[dev] <= Step(c, s, e).lastSeq[dev]
  {
    if e.Checked? {
      DecideRaises(c, s, e, dev);
    }
  }
}
