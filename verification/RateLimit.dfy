/**
 The sliding-window limiter (apps/license-api/internal/cache/cache.go): a Redis sorted set that is
 pruned on every request and expires as a whole. It is proved to decide every request as the full
 history of admissions would.

 Times are whole milliseconds; members of the set are the random tokens the service draws.
 */
module RateLimit {
  import opened SortedSets

  /** The sorted set under one key, and the instant its PEXPIRE ran or runs out. */
  datatype Window = Window(scores: map<string, int>, deadline: int)

  const EMPTY := Window(map[], 0)

  datatype Request = Request(now: int, member: string, swept: bool)

  datatype Config = Config(window: int, limit: int)

  /** Redis drops an expired key at its deadline or any time later; swept says whether it has. */
  function Sweep(w: Window, now: int, swept: bool): Window {
    if swept && w.deadline <= now then EMPTY else w
  }

  /** rlScript: the new set and the reply, 0 for refused. */
  function Script(c: Config, w: Window, r: Request): (Window, int) {
    var w := Sweep(w, r.now, r.swept);
    var kept := Pruned(w.scores, r.now - c.window);
    var n := |kept|;
    if n >= c.limit then (w.(scores := kept), 0)
    else (Window(kept[r.member := r.now], r.now + c.window), c.limit - n)
  }

  class Limiter {
    var scores: map<string, int>
    var deadline: int

    constructor ()
      ensures View() == EMPTY
    {
      scores, deadline := map[], 0;
    }

    function View(): Window
      reads this
    {
      Window(scores, deadline)
    }

    method RateLimit(c: Config, r: Request) returns (reply: int)
      modifies this
      ensures (View(), reply) == Script(c, old(View()), r)
    {
      if r.swept && deadline <= r.now {
        scores, deadline := map[], 0;
      }
      scores := Pruned(scores, r.now - c.window);
      var n := |scores|;
      if n >= c.limit {
        return 0;
      }
      scores := scores[r.member := r.now];
      deadline := r.now + c.window;
      reply := c.limit - n;
    }
  }

  // ----- the history -----

  datatype Admission = Admission(member: string, at: int)

  /** How many admissions came after lo. */
  function Since(log: seq<Admission>, lo: int): (n: nat) {
    if log == [] then 0
    else Since(log[..|log| - 1], lo) + if log[|log| - 1].at > lo then 1 else 0
  }

  /** The limiter by definition: admit while fewer than limit admissions lie in the last window. */
  function Reply(c: Config, log: seq<Admission>, now: int): int {
    var n := Since(log, now - c.window);
    if n >= c.limit then 0 else c.limit - n
  }

  function Log(c: Config, rs: seq<Request>): seq<Admission> {
    if rs == [] then []
    else
      var log, r := Log(c, rs[..|rs| - 1]), rs[|rs| - 1];
      if Reply(c, log, r.now) > 0 then log + [Admission(r.member, r.now)] else log
  }

  /** The set after the script has served all requests. */
  function Served(c: Config, rs: seq<Request>): Window {
    if rs == [] then EMPTY else Script(c, Served(c, rs[..|rs| - 1]), rs[|rs| - 1]).0
  }

  /** The clock does not go back and members are drawn afresh. */
  ghost predicate Requests(rs: seq<Request>) {
    && (forall i :: 0 <= i < |rs| ==> 0 <= rs[i].now)
    && (forall i, j :: 0 <= i < j < |rs| ==> rs[i].now <= rs[j].now && rs[i].member != rs[j].member)
  }

  // ----- the set follows the history -----

  /** The admissions after lo, as Redis would hold them. */
  function Recent(log: seq<Admission>, lo: int): (s: map<string, int>) {
    if log == [] then map[]
    else
      var s, a := Recent(log[..|log| - 1], lo), log[|log| - 1];
      if a.at > lo then s[a.member := a.at] else s
  }

  ghost predicate Distinct(log: seq<Admission>) {
    forall i, j :: 0 <= i < j < |log| ==> log[i].member != log[j].member
  }

  lemma {:induction false} RecentMembers(log: seq<Admission>, lo: int)
    ensures forall m :: m in Recent(log, lo) ==> exists i :: 0 <= i < |log| && log[i].member == m && log[i].at > lo
    ensures forall m :: m in Recent(log, lo) ==> Recent(log, lo)[m] > lo
  {
    if log != [] {
      RecentMembers(log[..|log| - 1], lo);
    }
  }

  lemma {:induction false} RecentCount(log: seq<Admission>, lo: int)
    requires Distinct(log)
    ensures |Recent(log, lo)| == Since(log, lo)
  {
    if log != [] {
      var front := log[..|log| - 1];
      RecentCount(front, lo);
      RecentMembers(front, lo);
    }
  }

  /** The set answers every later pruning as the whole log would; last is the previous request. */
  ghost predicate Follows(c: Config, w: Window, log: seq<Admission>, last: int) {
    && (forall hi :: hi >= last - c.window ==> Pruned(w.scores, hi) == Recent(log, hi))
    && (forall i :: 0 <= i < |log| ==> 0 <= log[i].at <= last && log[i].at + c.window <= w.deadline)
    && Distinct(log) && (c.limit <= 0 ==> log == [])
  }

  lemma {:induction false} NoneRecent(log: seq<Admission>, lo: int)
    requires forall i :: 0 <= i < |log| ==> log[i].at <= lo
    ensures Recent(log, lo) == map[]
  {
    if log != [] {
      NoneRecent(log[..|log| - 1], lo);
    }
  }

  lemma SweptFollows(c: Config, w: Window, log: seq<Admission>, last: int, r: Request)
    requires Follows(c, w, log, last) && last <= r.now
    ensures Pruned(Sweep(w, r.now, r.swept).scores, r.now - c.window) == Recent(log, r.now - c.window)
    ensures forall hi :: hi >= r.now - c.window ==> Pruned(Sweep(w, r.now, r.swept).scores, hi) == Recent(log, hi)
    ensures log != [] ==> Sweep(w, r.now, r.swept) == w || forall i :: 0 <= i < |log| ==> log[i].at <= r.now - c.window
  {
    if r.swept && w.deadline <= r.now {
      forall hi | hi >= r.now - c.window ensures Recent(log, hi) == map[] {
        NoneRecent(log, hi);
      }
    }
  }

  lemma ReplyFollows(c: Config, w: Window, log: seq<Admission>, last: int, r: Request)
    requires Follows(c, w, log, last) && last <= r.now
    ensures Script(c, w, r).1 == Reply(c, log, r.now)
  {
    SweptFollows(c, w, log, last, r);
    RecentCount(log, r.now - c.window);
  }

  /** Pruning at top and perhaps putting the new member keeps the set in step with the log. */
  lemma KeptFollows(scores: map<string, int>, log: seq<Admission>, member: string, now: int, top: int, hi: int)
    requires Pruned(scores, top) == Recent(log, top) && Pruned(scores, hi) == Recent(log, hi)
    requires 0 <= now && top <= hi && forall i :: 0 <= i < |log| ==> log[i].member != member
    ensures var kept := Pruned(scores, top);
            && Pruned(kept, hi) == Recent(log, hi)
            && Pruned(kept[member := now], hi) == Recent(log + [Admission(member, now)], hi)
  {
    var kept := Pruned(scores, top);
    assert Pruned(kept, hi) == Pruned(scores, hi);
    RecentMembers(log, top);
    assert member !in kept;
    PutFollows(kept, log, member, now, hi);
  }

  function Logged(c: Config, log: seq<Admission>, r: Request): seq<Admission> {
    if Reply(c, log, r.now) > 0 then log + [Admission(r.member, r.now)] else log
  }

  lemma SetFollows(c: Config, w: Window, log: seq<Admission>, last: int, r: Request, hi: int)
    requires Follows(c, w, log, last) && 0 <= r.now && last <= r.now && hi >= r.now - c.window
    requires forall i :: 0 <= i < |log| ==> log[i].member != r.member
    ensures Pruned(Script(c, w, r).0.scores, hi) == Recent(Logged(c, log, r), hi)
  {
    ReplyFollows(c, w, log, last, r);
    SweptFollows(c, w, log, last, r);
    KeptFollows(Sweep(w, r.now, r.swept).scores, log, r.member, r.now, r.now - c.window, hi);
  }

  lemma LogFollows(c: Config, w: Window, log: seq<Admission>, last: int, r: Request)
    requires Follows(c, w, log, last) && 0 <= r.now && last <= r.now
    requires forall i :: 0 <= i < |log| ==> log[i].member != r.member
    ensures var log' := Logged(c, log, r); var w' := Script(c, w, r).0;
      && (forall i :: 0 <= i < |log'| ==> 0 <= log'[i].at <= r.now && log'[i].at + c.window <= w'.deadline)
      && Distinct(log') && (c.limit <= 0 ==> log' == [])
  {
    ReplyFollows(c, w, log, last, r);
    SweptFollows(c, w, log, last, r);
  }

  /** One request: the script replies as the history says, and the set goes on following it. */
  lemma ScriptFollows(c: Config, w: Window, log: seq<Admission>, last: int, r: Request)
    requires Follows(c, w, log, last) && 0 <= r.now && last <= r.now
    requires forall i :: 0 <= i < |log| ==> log[i].member != r.member
    ensures Script(c, w, r).1 == Reply(c, log, r.now)
    ensures Follows(c, Script(c, w, r).0, Logged(c, log, r), r.now)
  {
    ReplyFollows(c, w, log, last, r);
    LogFollows(c, w, log, last, r);
    forall hi | hi >= r.now - c.window ensures Pruned(Script(c, w, r).0.scores, hi) == Recent(Logged(c, log, r), hi) {
      SetFollows(c, w, log, last, r, hi);
    }
  }

  lemma PutFollows(kept: map<string, int>, log: seq<Admission>, member: string, now: int, hi: int)
    requires Pruned(kept, hi) == Recent(log, hi) && 0 <= now
    requires member !in kept
    ensures Pruned(kept[member := now], hi) == Recent(log + [Admission(member, now)], hi)
  {
    var log' := log + [Admission(member, now)];
    assert log'[..|log|] == log;
    if now <= hi {
      assert Pruned(kept[member := now], hi) == Pruned(kept, hi);
    } else {
      assert Pruned(kept[member := now], hi) == Pruned(kept, hi)[member := now];
    }
  }

  ghost predicate Stems(a: Admission, rs: seq<Request>) {
    exists k :: 0 <= k < |rs| && a == Admission(rs[k].member, rs[k].now)
  }

  lemma {:induction false} LogStems(c: Config, rs: seq<Request>)
    ensures forall i :: 0 <= i < |Log(c, rs)| ==> Stems(Log(c, rs)[i], rs)
  {
    if rs != [] {
      var front, r := rs[..|rs| - 1], rs[|rs| - 1];
      LogStems(c, front);
      forall i | 0 <= i < |Log(c, rs)| ensures Stems(Log(c, rs)[i], rs) {
        if i < |Log(c, front)| {
          var k :| 0 <= k < |front| && Log(c, front)[i] == Admission(front[k].member, front[k].now);
          assert rs[k] == front[k];
        } else {
          assert Log(c, rs)[i] == Admission(r.member, r.now);
        }
      }
    }
  }

  lemma {:induction false} ServedFollows(c: Config, rs: seq<Request>)
    requires Requests(rs) && rs != []
    ensures Follows(c, Served(c, rs), Log(c, rs), rs[|rs| - 1].now)
    ensures Script(c, Served(c, rs[..|rs| - 1]), rs[|rs| - 1]).1 == Reply(c, Log(c, rs[..|rs| - 1]), rs[|rs| - 1].now)
  {
    var front, r := rs[..|rs| - 1], rs[|rs| - 1];
    var log := Log(c, front);
    LogStems(c, front);
    if front == [] {
      ScriptFollows(c, EMPTY, [], r.now, r);
    } else {
      ServedFollows(c, front);
      ScriptFollows(c, Served(c, front), log, front[|front| - 1].now, r);
    }
  }

  /** The script decides every request exactly as the whole admission history would, at whatever
      moments Redis drops expired sets: the expiry is unobservable, and an admission is answered with
      limit minus the earlier admissions of the window. */
  lemma DecidesAsHistory(c: Config, rs: seq<Request>, i: nat)
    requires Requests(rs) && i < |rs|
    ensures Script(c, Served(c, rs[..i]), rs[i]).1 == Reply(c, Log(c, rs[..i]), rs[i].now)
  {
    var upTo := rs[..i + 1];
    assert upTo[..i] == rs[..i];
    ServedFollows(c, upTo);
  }

  // ----- the bound -----

  /** Admissions in the interval (lo, hi]. */
  function Within(log: seq<Admission>, lo: int, hi: int): nat {
    if log == [] then 0
    else Within(log[..|log| - 1], lo, hi) + if lo < log[|log| - 1].at <= hi then 1 else 0
  }

  lemma {:induction false} WithinSince(log: seq<Admission>, lo: int, hi: int, lo': int)
    requires lo' <= lo
    ensures Within(log, lo, hi) <= Since(log, lo')
  {
    if log != [] {
      WithinSince(log[..|log| - 1], lo, hi, lo');
    }
  }

  /** Logging one more admission keeps the count in any window within the limit. */
  lemma WithinNext(c: Config, log: seq<Admission>, r: Request, t: int)
    requires Within(log, t - c.window, t) <= c.limit
    ensures Within(Logged(c, log, r), t - c.window, t) <= c.limit
  {
    if Reply(c, log, r.now) > 0 {
      assert (log + [Admission(r.member, r.now)])[..|log|] == log;
      if r.now <= t {
        WithinSince(log, t - c.window, t, r.now - c.window);
      }
    }
  }

  /** Any window's length of time, wherever it lies, sees at most limit admissions. */
  lemma {:induction false} NeverExceeded(c: Config, rs: seq<Request>, t: int)
    requires Requests(rs) && 0 <= c.limit
    ensures Within(Log(c, rs), t - c.window, t) <= c.limit
  {
    if rs != [] {
      var front, r := rs[..|rs| - 1], rs[|rs| - 1];
      NeverExceeded(c, front, t);
      WithinNext(c, Log(c, front), r, t);
    }
  }

  // ----- the answers in plain counts -----

  /** Request k was admitted by the script. */
  predicate AdmittedAt(c: Config, rs: seq<Request>, k: nat)
    requires k < |rs|
  {
    Script(c, Served(c, rs[..k]), rs[k]).1 > 0
  }

  /** The earlier admitted requests after lo. */
  ghost function AdmittedSince(c: Config, rs: seq<Request>, i: nat, lo: int): set<nat>
    requires i <= |rs|
  {
    set k: nat | k < i && AdmittedAt(c, rs, k) && rs[k].now > lo
  }

  lemma SincePush(log: seq<Admission>, a: Admission, lo: int)
    ensures Since(log + [a], lo) == Since(log, lo) + if a.at > lo then 1 else 0
  {
    assert (log + [a])[..|log|] == log;
  }

  lemma {:induction false} LogNext(c: Config, rs: seq<Request>, i: nat)
    requires Requests(rs) && i < |rs|
    ensures Log(c, rs[..i + 1])
         == if AdmittedAt(c, rs, i) then Log(c, rs[..i]) + [Admission(rs[i].member, rs[i].now)] else Log(c, rs[..i])
  {
    DecidesAsHistory(c, rs, i);
    assert rs[..i + 1][..i] == rs[..i];
  }

  lemma {:induction false} AdmittedNext(c: Config, rs: seq<Request>, i: nat, lo: int)
    requires i < |rs|
    ensures |AdmittedSince(c, rs, i + 1, lo)|
         == |AdmittedSince(c, rs, i, lo)| + if AdmittedAt(c, rs, i) && rs[i].now > lo then 1 else 0
  {
    if AdmittedAt(c, rs, i) && rs[i].now > lo {
      assert AdmittedSince(c, rs, i + 1, lo) == AdmittedSince(c, rs, i, lo) + {i};
    } else {
      assert AdmittedSince(c, rs, i + 1, lo) == AdmittedSince(c, rs, i, lo);
    }
  }

  lemma {:induction false} LogSinceNext(c: Config, rs: seq<Request>, i: nat, lo: int)
    requires Requests(rs) && i < |rs|
    ensures Since(Log(c, rs[..i + 1]), lo)
         == Since(Log(c, rs[..i]), lo) + if AdmittedAt(c, rs, i) && rs[i].now > lo then 1 else 0
  {
    LogNext(c, rs, i);
    SincePush(Log(c, rs[..i]), Admission(rs[i].member, rs[i].now), lo);
  }

  lemma NothingYet(c: Config, rs: seq<Request>, lo: int)
    ensures Since(Log(c, rs[..0]), lo) == |AdmittedSince(c, rs, 0, lo)|
  {
    assert AdmittedSince(c, rs, 0, lo) == {};
  }

  lemma {:induction false} CountsAgree(c: Config, rs: seq<Request>, i: nat, lo: int)
    requires Requests(rs) && i < |rs| && Since(Log(c, rs[..i]), lo) == |AdmittedSince(c, rs, i, lo)|
    ensures Since(Log(c, rs[..i + 1]), lo) == |AdmittedSince(c, rs, i + 1, lo)|
  {
    LogSinceNext(c, rs, i, lo);
    AdmittedNext(c, rs, i, lo);
  }

  lemma {:induction false} LogCounts(c: Config, rs: seq<Request>, i: nat, lo: int)
    requires Requests(rs) && i <= |rs|
    ensures Since(Log(c, rs[..i]), lo) == |AdmittedSince(c, rs, i, lo)|
  {
    if i == 0 {
      NothingYet(c, rs, lo);
    } else {
      LogCounts(c, rs, i - 1, lo);
      CountsAgree(c, rs, i - 1, lo);
    }
  }

  lemma ReplyIs(c: Config, log: seq<Admission>, now: int, earlier: nat)
    requires Since(log, now - c.window) == earlier
    ensures Reply(c, log, now) == if earlier < c.limit then c.limit - earlier else 0
  {
  }

  /** A request is admitted exactly while fewer than limit earlier ones of the window were, and is told
      how many the window had left. */
  lemma {:induction false} AdmittedExactly(c: Config, rs: seq<Request>, i: nat)
    requires Requests(rs) && i < |rs|
    ensures var earlier := |AdmittedSince(c, rs, i, rs[i].now - c.window)|;
      && (AdmittedAt(c, rs, i) <==> earlier < c.limit)
      && Script(c, Served(c, rs[..i]), rs[i]).1 == if earlier < c.limit then c.limit - earlier else 0
  {
    LogCounts(c, rs, i, rs[i].now - c.window);
    ReplyIs(c, Log(c, rs[..i]), rs[i].now, |AdmittedSince(c, rs, i, rs[i].now - c.window)|);
    DecidesAsHistory(c, rs, i);
  }
}
