/** The per-IP rate limiter: token buckets that start full, and a janitor that forgets idle ones. */
module RateLimiter {

  const IDLE := 600.0   // ten minutes, in seconds

  datatype Config = Config(rps: real, burst: int) {
    function Cap(): real { burst as real }
  }

  datatype Bucket = Bucket(tokens: real, last: real)
  datatype Entry = Entry(bucket: Bucket, lastSeen: real)
  type Table = map<nat, Entry>

  function Min(a: real, b: real): real {
    if a <= b then a else b
  }

  /** Tokens refilled from s to t. */
  function Gain(cfg: Config, s: real, t: real): real {
    (t - s) * cfg.rps
  }

  /** Tokens in the bucket at time t. */
  function Level(cfg: Config, b: Bucket, t: real): real {
    Min(cfg.Cap(), b.tokens + Gain(cfg, b.last, t))
  }

  predicate Allows(cfg: Config, b: Bucket, t: real) {
    Level(cfg, b, t) >= 1.0
  }

  /** A request takes one token if there is one; a refusal leaves the bucket as it was. */
  function Taken(cfg: Config, b: Bucket, t: real): Bucket {
    if Allows(cfg, b, t) then Bucket(Level(cfg, b, t) - 1.0, t) else b
  }

  function Found(cfg: Config, m: Table, ip: nat, t: real): Bucket {
    if ip in m then m[ip].bucket else Bucket(cfg.Cap(), t)
  }

  function Request(cfg: Config, m: Table, ip: nat, t: real): Table {
    m[ip := Entry(Taken(cfg, Found(cfg, m, ip, t), t), t)]
  }

  predicate Decision(cfg: Config, m: Table, ip: nat, t: real) {
    Allows(cfg, Found(cfg, m, ip, t), t)
  }

  function Cleaned(m: Table, t: real): Table {
    map ip | ip in m && t - m[ip].lastSeen <= IDLE :: m[ip]
  }

  class IpLimiter {
    const cfg: Config
    var limiters: Table

    constructor (cfg: Config)
      ensures this.cfg == cfg && limiters == map[]
    {
      this.cfg, limiters := cfg, map[];
    }

    /** Looks up or creates the client's bucket, marks it seen, and spends a token. Probes are never limited. */
    method Handle(ip: nat, now: real, probe: bool) returns (allowed: bool)
      modifies this
      ensures probe ==> allowed && limiters == old(limiters)
      ensures !probe ==>
                allowed == Decision(cfg, old(limiters), ip, now) && limiters == Request(cfg, old(limiters), ip, now)
    {
      if probe { return true; }
      if ip !in limiters {
        limiters := limiters[ip := Entry(Bucket(cfg.Cap(), now), now)];
      }
      var b := limiters[ip].bucket;
      allowed := Allows(cfg, b, now);
      limiters := limiters[ip := Entry(Taken(cfg, b, now), now)];
    }

    method Janitor(now: real)
      modifies this
      ensures limiters == Cleaned(old(limiters), now)
      ensures forall ip :: ip in limiters <==> ip in old(limiters) && now - old(limiters)[ip].lastSeen <= 600.0
      ensures forall ip :: ip in limiters ==> limiters[ip] == old(limiters)[ip]
    {
      var todo := limiters.Keys;
      while todo != {}
        invariant todo <= limiters.Keys
        invariant forall ip ::
                    ip in limiters <==> ip in old(limiters) && (ip in todo || now - old(limiters)[ip].lastSeen <= IDLE)
        invariant forall ip :: ip in limiters ==> limiters[ip] == old(limiters)[ip]
        decreases todo
      {
        var ip :| ip in todo;
        todo := todo - {ip};
        if now - limiters[ip].lastSeen > IDLE {
          limiters := limiters - {ip};
        }
      }
    }
  }

  // --- Histories ----------------------------------------------------------------------------------------

  datatype Event = Ask(ip: nat, at: real) | Clean(at: real)

  predicate InTime(h: seq<Event>, from: real) {
    && (forall i :: 0 <= i < |h| ==> from <= h[i].at)
    && (forall i, j :: 0 <= i < j < |h| ==> h[i].at <= h[j].at)
  }

  function Next(cfg: Config, m: Table, e: Event): Table {
    match e case Ask(ip, at) => Request(cfg, m, ip, at) case Clean(at) => Cleaned(m, at)
  }

  function Decisions(cfg: Config, m: Table, h: seq<Event>): seq<bool>
    decreases |h|
  {
    if h == [] then [] else
    (if h[0].Ask? then [Decision(cfg, m, h[0].ip, h[0].at)] else []) + Decisions(cfg, Next(cfg, m, h[0]), h[1..])
  }

  function Unclean(h: seq<Event>): seq<Event> {
    if h == [] then [] else (if h[0].Clean? then [] else [h[0]]) + Unclean(h[1..])
  }

  /** What a client could spend at time t; an unknown client has a full bucket. */
  function Available(cfg: Config, m: Table, ip: nat, t: real): real {
    Level(cfg, Found(cfg, m, ip, t), t)
  }

  predicate Wf(cfg: Config, m: Table, now: real) {
    forall ip :: ip in m ==>
      && m[ip].bucket.last <= m[ip].lastSeen <= now
      && m[ip].bucket.tokens <= cfg.Cap()
      && (m[ip].bucket.tokens >= 0.0 || m[ip].bucket.tokens == cfg.Cap())
  }

  lemma GainAdds(cfg: Config, s: real, t: real, u: real)
    ensures Gain(cfg, s, u) == Gain(cfg, s, t) + Gain(cfg, t, u)
    ensures Gain(cfg, t, t) == 0.0
  {
  }

  lemma GainGrows(cfg: Config, s: real, t: real)
    requires cfg.rps >= 0.0 && s <= t
    ensures Gain(cfg, s, t) >= 0.0
  {
  }

  lemma LevelNow(cfg: Config, x: real, t: real)
    ensures Level(cfg, Bucket(x, t), t) == Min(cfg.Cap(), x)
  {
    GainAdds(cfg, t, t, t);
  }

  /** Levels only depend on the level before and the time passed. */
  lemma AvailableAdvances(cfg: Config, m: Table, ip: nat, s: real, t: real)
    requires cfg.rps >= 0.0 && s <= t && Wf(cfg, m, s)
    ensures Available(cfg, m, ip, t) == Min(cfg.Cap(), Available(cfg, m, ip, s) + Gain(cfg, s, t))
  {
    hide Gain;
    GainGrows(cfg, s, t);
    LevelNow(cfg, cfg.Cap(), s);
    LevelNow(cfg, cfg.Cap(), t);
    if ip in m { GainAdds(cfg, m[ip].bucket.last, s, t); }
  }

  lemma RequestAvailable(cfg: Config, m: Table, ip: nat, t: real, q: nat)
    requires cfg.rps >= 0.0 && Wf(cfg, m, t)
    ensures Wf(cfg, Request(cfg, m, ip, t), t)
    ensures Available(cfg, Request(cfg, m, ip, t), q, t)
         == Available(cfg, m, q, t) - (if q == ip && Decision(cfg, m, ip, t) then 1.0 else 0.0)
  {
    hide Gain;
    var b := Found(cfg, m, ip, t);
    LevelNow(cfg, cfg.Cap(), t);
    LevelNow(cfg, Level(cfg, b, t) - 1.0, t);
  }

  /** A bucket idle for ten minutes is full if ten minutes refill it. */
  lemma CleanAvailable(cfg: Config, m: Table, t: real, q: nat)
    requires cfg.rps >= 0.0 && IDLE * cfg.rps >= cfg.Cap() && Wf(cfg, m, t)
    ensures Wf(cfg, Cleaned(m, t), t)
    ensures Available(cfg, Cleaned(m, t), q, t) == Available(cfg, m, q, t)
  {
    if q in m && q !in Cleaned(m, t) {
      IdleIsFull(cfg, m[q].bucket, t);
      LevelNow(cfg, cfg.Cap(), t);
    }
  }

  lemma IdleIsFull(cfg: Config, b: Bucket, t: real)
    requires cfg.rps >= 0.0 && IDLE * cfg.rps >= cfg.Cap() && t - b.last > IDLE
    requires b.tokens >= 0.0 || b.tokens == cfg.Cap()
    ensures Level(cfg, b, t) == cfg.Cap()
  {
    GainGrows(cfg, b.last, t - IDLE);
    GainAdds(cfg, b.last, t - IDLE, t);
    assert Gain(cfg, t - IDLE, t) == IDLE * cfg.rps;
  }

  // --- Forgetting idle buckets is invisible ---------------------------------------------------------------

  ghost predicate Alike(cfg: Config, m: Table, n: Table, t: real) {
    Wf(cfg, m, t) && Wf(cfg, n, t) && forall ip :: Available(cfg, m, ip, t) == Available(cfg, n, ip, t)
  }

  lemma WfLater(cfg: Config, m: Table, s: real, t: real)
    requires Wf(cfg, m, s) && s <= t
    ensures Wf(cfg, m, t)
  {
  }

  lemma AlikeLater(cfg: Config, m: Table, n: Table, s: real, t: real)
    requires cfg.rps >= 0.0 && Alike(cfg, m, n, s) && s <= t
    ensures Alike(cfg, m, n, t)
  {
    forall ip ensures Available(cfg, m, ip, t) == Available(cfg, n, ip, t) {
      AvailableAdvances(cfg, m, ip, s, t);
      AvailableAdvances(cfg, n, ip, s, t);
    }
  }

  lemma AlikeNext(cfg: Config, m: Table, n: Table, e: Event)
    requires cfg.rps >= 0.0 && IDLE * cfg.rps >= cfg.Cap() && Alike(cfg, m, n, e.at)
    ensures Alike(cfg, Next(cfg, m, e), if e.Clean? then n else Next(cfg, n, e), e.at)
  {
    var n' := if e.Clean? then n else Next(cfg, n, e);
    forall q ensures Available(cfg, Next(cfg, m, e), q, e.at) == Available(cfg, n', q, e.at) {
      if e.Clean? {
        CleanAvailable(cfg, m, e.at, q);
      } else {
        RequestAvailable(cfg, m, e.ip, e.at, q);
        RequestAvailable(cfg, n, e.ip, e.at, q);
      }
    }
    if e.Clean? {
      CleanAvailable(cfg, m, e.at, 0);
    } else {
      RequestAvailable(cfg, m, e.ip, e.at, 0);
      RequestAvailable(cfg, n, e.ip, e.at, 0);
    }
  }

  /** If ten minutes refill a bucket, cleaning at any times changes no decision on any request history. */
  lemma {:induction false} EvictionInvisible(cfg: Config, m: Table, n: Table, h: seq<Event>, t: real)
    requires cfg.rps >= 0.0 && IDLE * cfg.rps >= cfg.Cap()
    requires Alike(cfg, m, n, t) && InTime(h, t)
    ensures Decisions(cfg, m, h) == Decisions(cfg, n, Unclean(h))
    decreases |h|
  {
    if h != [] {
      var e, rest := h[0], h[1..];
      AlikeLater(cfg, m, n, t, e.at);
      AlikeNext(cfg, m, n, e);
      EvictionInvisible(cfg, Next(cfg, m, e), if e.Clean? then n else Next(cfg, n, e), rest, e.at);
      if e.Clean? {
        assert Unclean(h) == Unclean(rest);
      } else {
        assert Available(cfg, m, e.ip, e.at) == Available(cfg, n, e.ip, e.at);
        assert Unclean(h) == [e] + Unclean(rest) && Unclean(h)[1..] == Unclean(rest);
      }
    }
  }

  // --- The condition is needed ------------------------------------------------------------------------------

  function Times(e: Event, k: nat): seq<Event> {
    seq(k, _ => e)
  }

  predicate AllTrue(s: seq<bool>) {
    forall i :: 0 <= i < |s| ==> s[i]
  }

  lemma {:induction false} DecisionsSplit(cfg: Config, m: Table, g: seq<Event>, h: seq<Event>)
    ensures Decisions(cfg, m, g + h) == Decisions(cfg, m, g) + Decisions(cfg, After(cfg, m, g), h)
    decreases |g|
  {
    if g == [] {
      assert g + h == h;
    } else {
      assert (g + h)[1..] == g[1..] + h;
      DecisionsSplit(cfg, Next(cfg, m, g[0]), g[1..], h);
    }
  }

  function After(cfg: Config, m: Table, h: seq<Event>): Table
    decreases |h|
  {
    if h == [] then m else After(cfg, Next(cfg, m, h[0]), h[1..])
  }

  /** A volley of k requests at one instant is allowed in full exactly when k tokens are there. */
  lemma {:induction false} Volley(cfg: Config, m: Table, ip: nat, t: real, k: nat)
    requires cfg.rps >= 0.0 && Wf(cfg, m, t)
    ensures var d := Decisions(cfg, m, Times(Ask(ip, t), k));
            && |d| == k
            && (AllTrue(d) <==> k == 0 || Available(cfg, m, ip, t) >= k as real)
            && Wf(cfg, After(cfg, m, Times(Ask(ip, t), k)), t)
            && (AllTrue(d) ==>
                  Available(cfg, After(cfg, m, Times(Ask(ip, t), k)), ip, t) == Available(cfg, m, ip, t) - k as real)
    decreases k
  {
    if k > 0 {
      var e, h := Ask(ip, t), Times(Ask(ip, t), k);
      assert h[1..] == Times(e, k - 1);
      RequestAvailable(cfg, m, ip, t, ip);
      Volley(cfg, Request(cfg, m, ip, t), ip, t, k - 1);
      var d, rest := Decisions(cfg, m, h), Decisions(cfg, Request(cfg, m, ip, t), Times(e, k - 1));
      assert d == [Decision(cfg, m, ip, t)] + rest;
      assert AllTrue(d) <==> d[0] && AllTrue(rest) by {
        assert forall i :: 0 <= i < |rest| ==> rest[i] == d[i + 1];
      }
    }
  }

  lemma {:induction false} VolleySeen(cfg: Config, m: Table, ip: nat, t: real, k: nat)
    requires k > 0 || (ip in m && m[ip].lastSeen == t)
    ensures var a := After(cfg, m, Times(Ask(ip, t), k)); ip in a && a[ip].lastSeen == t
    decreases k
  {
    if k > 0 {
      assert Times(Ask(ip, t), k)[1..] == Times(Ask(ip, t), k - 1);
      VolleySeen(cfg, Request(cfg, m, ip, t), ip, t, k - 1);
    }
  }

  lemma {:induction false} UncleanVolley(ip: nat, t: real, k: nat, h: seq<Event>)
    ensures Unclean(Times(Ask(ip, t), k) + h) == Times(Ask(ip, t), k) + Unclean(h)
  {
    hide Times, Unclean;
    var e, v := Ask(ip, t), Times(Ask(ip, t), k);
    if k == 0 {
      NoTimes(e);
      assert v + h == h && v + Unclean(h) == Unclean(h);
    } else {
      var w := Times(e, k - 1);
      OneMoreTime(e, k);
      UncleanVolley(ip, t, k - 1, h);
      UncleanAsk(e, w + h);
      assert v + h == [e] + (w + h);
      assert v + Unclean(h) == [e] + (w + Unclean(h));
    }
  }

  lemma NoTimes(e: Event)
    ensures Times(e, 0) == []
  {
  }

  lemma OneMoreTime(e: Event, k: nat)
    requires k > 0
    ensures Times(e, k) == [e] + Times(e, k - 1)
  {
  }

  lemma UncleanAsk(e: Event, h: seq<Event>)
    requires e.Ask?
    ensures Unclean([e] + h) == [e] + Unclean(h)
  {
    assert ([e] + h)[1..] == h;
  }

  /** A time past the idle limit at which an emptied bucket is still not full. */
  lemma NotYetFull(cfg: Config) returns (t: real)
    requires cfg.rps >= 0.0 && IDLE * cfg.rps < cfg.Cap()
    ensures t > IDLE && t * cfg.rps < cfg.Cap()
  {
    var gap := cfg.Cap() - IDLE * cfg.rps;
    var delta := gap / (cfg.rps + 1.0);
    assert delta * (cfg.rps + 1.0) == gap && delta > 0.0;
    assert delta * cfg.rps == gap - delta;
    t := IDLE + delta;
    assert t * cfg.rps == IDLE * cfg.rps + delta * cfg.rps;
  }

  /** Forgotten after the idle limit, a client may spend a whole burst again. */
  lemma ForgottenMaySpend(cfg: Config, m: Table, ip: nat, t: real)
    requires cfg.rps >= 0.0 && cfg.burst > 0 && Wf(cfg, m, t) && ip in m && t - m[ip].lastSeen > IDLE
    ensures AllTrue(Decisions(cfg, m, [Clean(t)] + Times(Ask(ip, t), cfg.burst)))
  {
    var v := Times(Ask(ip, t), cfg.burst);
    LevelNow(cfg, cfg.Cap(), t);
    Volley(cfg, Cleaned(m, t), ip, t, cfg.burst);
    assert ([Clean(t)] + v)[1..] == v;
  }

  /** Remembered with an empty bucket, it may not before the burst is refilled. */
  lemma RememberedMayNot(cfg: Config, m: Table, ip: nat, s: real, t: real)
    requires cfg.rps >= 0.0 && cfg.burst > 0 && s <= t && Wf(cfg, m, s)
    requires Available(cfg, m, ip, s) == 0.0 && Gain(cfg, s, t) < cfg.Cap()
    ensures !AllTrue(Decisions(cfg, m, Times(Ask(ip, t), cfg.burst)))
  {
    WfLater(cfg, m, s, t);
    AvailableAdvances(cfg, m, ip, s, t);
    Volley(cfg, m, ip, t, cfg.burst);
  }

  /** A first burst empties the bucket. */
  lemma FirstBurst(cfg: Config, ip: nat, t: real)
    requires cfg.rps >= 0.0 && cfg.burst > 0
    ensures var m := After(cfg, map[], Times(Ask(ip, t), cfg.burst));
            Wf(cfg, m, t) && ip in m && m[ip].lastSeen == t && Available(cfg, m, ip, t) == 0.0
  {
    LevelNow(cfg, cfg.Cap(), t);
    Volley(cfg, map[], ip, t, cfg.burst);
    VolleySeen(cfg, map[], ip, t, cfg.burst);
  }

  lemma Suffixes<T>(d: seq<T>, x: seq<T>, y: seq<T>)
    requires x != y
    ensures d + x != d + y
  {
    assert (d + x)[|d|..] == x && (d + y)[|d|..] == y;
  }

  lemma CapPositive(cfg: Config)
    requires cfg.rps >= 0.0 && IDLE * cfg.rps < cfg.Cap()
    ensures cfg.burst > 0
  {
    assert IDLE * cfg.rps >= 0.0;
  }

  /**
   * Otherwise a client that spends its burst, waits to be forgotten and asks again is let through where
   * it would not be.
   */
  lemma EvictionShows(cfg: Config) returns (h: seq<Event>)
    requires cfg.rps >= 0.0 && IDLE * cfg.rps < cfg.Cap()
    ensures InTime(h, 0.0) && Decisions(cfg, map[], h) != Decisions(cfg, map[], Unclean(h))
  {
    CapPositive(cfg);
    var t := NotYetFull(cfg);
    var v0, v1 := Times(Ask(0, 0.0), cfg.burst), Times(Ask(0, t), cfg.burst);
    h := v0 + ([Clean(t)] + v1);
    ShowsAt(cfg, t);
  }

  lemma ShowsAt(cfg: Config, t: real)
    requires cfg.rps >= 0.0 && cfg.burst > 0 && t > IDLE && t * cfg.rps < cfg.Cap()
    ensures var h := Times(Ask(0, 0.0), cfg.burst) + ([Clean(t)] + Times(Ask(0, t), cfg.burst));
            Decisions(cfg, map[], h) != Decisions(cfg, map[], Unclean(h))
  {
    var v0, v1 := Times(Ask(0, 0.0), cfg.burst), Times(Ask(0, t), cfg.burst);
    var m := After(cfg, map[], v0);
    FirstBurst(cfg, 0, 0.0);
    WfLater(cfg, m, 0.0, t);
    ForgottenMaySpend(cfg, m, 0, t);
    assert Gain(cfg, 0.0, t) == t * cfg.rps;
    RememberedMayNot(cfg, m, 0, 0.0, t);
    UncleanVolley(0, 0.0, cfg.burst, [Clean(t)] + v1);
    UncleanClean(t, v1);
    UncleanVolley(0, t, cfg.burst, []);
    assert v1 + [] == v1;
    DecisionsSplit(cfg, map[], v0, [Clean(t)] + v1);
    DecisionsSplit(cfg, map[], v0, v1);
    Suffixes(Decisions(cfg, map[], v0), Decisions(cfg, m, [Clean(t)] + v1), Decisions(cfg, m, v1));
  }

  lemma UncleanClean(t: real, h: seq<Event>)
    ensures Unclean([Clean(t)] + h) == Unclean(h)
  {
    assert ([Clean(t)] + h)[1..] == h;
  }

  /** Forgetting buckets idle for ten minutes changes no decision exactly when ten minutes refill a whole burst. */
  lemma EvictionInvisibleIff(cfg: Config)
    requires cfg.rps >= 0.0
    ensures (forall h :: InTime(h, 0.0) ==> Decisions(cfg, map[], h) == Decisions(cfg, map[], Unclean(h)))
            <==> IDLE * cfg.rps >= cfg.Cap()
  {
    if IDLE * cfg.rps >= cfg.Cap() {
      forall h | InTime(h, 0.0) ensures Decisions(cfg, map[], h) == Decisions(cfg, map[], Unclean(h)) {
        EvictionInvisible(cfg, map[], map[], h, 0.0);
      }
    } else {
      var h := EvictionShows(cfg);
    }
  }

  // --- The rate ------------------------------------------------------------------------------------------------

  /** Requests of one client that a history allows. */
  function Allowed(cfg: Config, m: Table, h: seq<Event>, ip: nat): nat
    decreases |h|
  {
    if h == [] then 0 else
    (if h[0].Ask? && h[0].ip == ip && Decision(cfg, m, ip, h[0].at) then 1 else 0)
    + Allowed(cfg, Next(cfg, m, h[0]), h[1..], ip)
  }

  lemma AvailableNonNegative(cfg: Config, m: Table, ip: nat, t: real)
    requires cfg.rps >= 0.0 && cfg.burst >= 0 && Wf(cfg, m, t)
    ensures 0.0 <= Available(cfg, m, ip, t) <= cfg.Cap()
  {
    hide Gain;
    LevelNow(cfg, cfg.Cap(), t);
    if ip in m { GainGrows(cfg, m[ip].bucket.last, t); }
  }

  lemma NextAvailable(cfg: Config, m: Table, e: Event, ip: nat)
    requires cfg.rps >= 0.0 && IDLE * cfg.rps >= cfg.Cap() && Wf(cfg, m, e.at)
    ensures Wf(cfg, Next(cfg, m, e), e.at)
    ensures Available(cfg, Next(cfg, m, e), ip, e.at)
         == Available(cfg, m, ip, e.at) - (if e.Ask? && e.ip == ip && Decision(cfg, m, ip, e.at) then 1.0 else 0.0)
  {
    if e.Ask? { RequestAvailable(cfg, m, e.ip, e.at, ip); } else { CleanAvailable(cfg, m, e.at, ip); }
  }

  /** Over one event, what is spent and what is left come from what was there and what was refilled. */
  lemma SpendStep(cfg: Config, m: Table, e: Event, ip: nat, from: real)
    requires cfg.rps >= 0.0 && IDLE * cfg.rps >= cfg.Cap() && Wf(cfg, m, from) && from <= e.at
    ensures Wf(cfg, Next(cfg, m, e), e.at)
    ensures Available(cfg, Next(cfg, m, e), ip, e.at)
            + (if e.Ask? && e.ip == ip && Decision(cfg, m, ip, e.at) then 1.0 else 0.0)
         <= Available(cfg, m, ip, from) + Gain(cfg, from, e.at)
  {
    hide Gain, Level;
    WfLater(cfg, m, from, e.at);
    AvailableAdvances(cfg, m, ip, from, e.at);
    NextAvailable(cfg, m, e, ip);
  }

  /** From any state, janitor included, a client is allowed at most burst + rps * T requests in a span of length T. */
  lemma {:induction false} RateBounded(cfg: Config, m: Table, h: seq<Event>, ip: nat, from: real, until: real)
    requires cfg.rps >= 0.0 && cfg.burst >= 0 && IDLE * cfg.rps >= cfg.Cap()
    requires Wf(cfg, m, from) && from <= until && InTime(h, from) && (forall i :: 0 <= i < |h| ==> h[i].at <= until)
    ensures Allowed(cfg, m, h, ip) as real <= Available(cfg, m, ip, from) + Gain(cfg, from, until)
                                           <= cfg.Cap() + Gain(cfg, from, until)
  {
    hide Gain;
    SpentWithin(cfg, m, h, ip, from, until);
  }

  lemma {:induction false} SpentWithin(cfg: Config, m: Table, h: seq<Event>, ip: nat, from: real, until: real)
    requires cfg.rps >= 0.0 && cfg.burst >= 0 && IDLE * cfg.rps >= cfg.Cap()
    requires Wf(cfg, m, from) && from <= until && InTime(h, from) && (forall i :: 0 <= i < |h| ==> h[i].at <= until)
    ensures Allowed(cfg, m, h, ip) as real <= Available(cfg, m, ip, from) + Gain(cfg, from, until)
    decreases |h|
  {
    hide Gain, Level;
    if h == [] {
      AvailableNonNegative(cfg, m, ip, from);
      GainGrows(cfg, from, until);
    } else {
      SpendStep(cfg, m, h[0], ip, from);
      SpentWithin(cfg, Next(cfg, m, h[0]), h[1..], ip, h[0].at, until);
      GainAdds(cfg, from, h[0].at, until);
    }
  }
}
