/** Token-bucket rate limiting: the in-process limiter and the Lua script, over exact reals. */
module TokenBucket {
  import opened Wrappers

  datatype Bucket = Bucket(rpm: int, burst: int)

  predicate Enabled(b: Bucket) {
    b.rpm > 0 && b.burst > 0
  }

  /** Tokens per second. */
  function Rate(b: Bucket): real { b.rpm as real / 60.0 }

  function Capacity(b: Bucket): real { b.burst as real }

  /** What a bucket gains in a span of seconds. */
  function Gain(b: Bucket): real -> real { (span: real) => span * Rate(b) }

  datatype Decision = Allowed | Denied(retryAfter: int)

  function Min(x: real, y: real): real { if x <= y then x else y }

  function Ceil(x: real): (n: int)
    ensures (n as real) - 1.0 < x <= n as real
  {
    -((-x).Floor)
  }

  /** The hint of a denial with `tokens` left: whole seconds, at least one. */
  function RetryAfter(r: real, tokens: real): int {
    if r > 0.0 then
      var n := Ceil((1.0 - tokens) / r);
      if n < 1 then 1 else n
    else 60
  }

  // ---------- the in-process limiter ----------

  /** `last` is in seconds. */
  datatype MemState = MemState(tokens: real, capacity: real, last: real)

  function Clamped(s: MemState, cap: real): MemState {
    if s.capacity != cap then s.(capacity := cap, tokens := Min(s.tokens, cap)) else s
  }

  /** Tokens of a state at time `t`. */
  function Refilled(g: real -> real, s: MemState, t: real): real {
    if t - s.last > 0.0 then Min(s.capacity, s.tokens + g(t - s.last)) else s.tokens
  }

  /** The tokens a call at time `t` finds; a missing bucket is created full. */
  function Found(cap: real, g: real -> real, s: Option<MemState>, t: real): real {
    Refilled(g, Clamped(if s.Some? then s.value else MemState(cap, cap, t), cap), t)
  }

  /** The state a call leaves: one token less if there was one. */
  function After(cap: real, g: real -> real, s: Option<MemState>, t: real): MemState {
    var x := Found(cap, g, s, t);
    MemState(if x >= 1.0 then x - 1.0 else x, cap, t)
  }

  function Decide(b: Bucket, tokens: real): Decision {
    if tokens >= 1.0 then Allowed else Denied(RetryAfter(Rate(b), tokens))
  }

  /** One call at time `t`: the new state and the decision. */
  function MemAllow(b: Bucket, s: Option<MemState>, t: real): (MemState, Decision) {
    (After(Capacity(b), Gain(b), s, t), Decide(b, Found(Capacity(b), Gain(b), s, t)))
  }

  // ---------- laws of the gain ----------

  /** Gains add up and are not negative. */
  ghost predicate Lawful(g: real -> real) {
    && (forall x, y, z {:trigger g(x), g(y), g(z)} :: z == x + y ==> g(z) == g(x) + g(y))
    && (forall x :: x >= 0.0 ==> g(x) >= 0.0)
  }

  lemma GainLawful(b: Bucket)
    requires Enabled(b)
    ensures Lawful(Gain(b))
  {
    forall x, y, z | z == x + y ensures Gain(b)(z) == Gain(b)(x) + Gain(b)(y) {
    }
    forall x: real | x >= 0.0 ensures Gain(b)(x) >= 0.0 {
      NonNegative(x, Rate(b));
    }
  }

  lemma NonNegative(x: real, r: real)
    requires x >= 0.0 && r >= 0.0
    ensures x * r >= 0.0
  {
  }

  // ---------- tokens stay in bounds ----------

  ghost predicate Ok(s: MemState) {
    0.0 <= s.tokens <= s.capacity
  }

  lemma CoreBounded(cap: real, g: real -> real, s: Option<MemState>, t: real)
    requires Lawful(g) && cap >= 0.0 && (s.Some? ==> Ok(s.value))
    ensures 0.0 <= Found(cap, g, s, t) <= cap && Ok(After(cap, g, s, t))
  {
  }

  /** Tokens stay between nothing and the bucket's capacity, whatever the clock and the bucket do. */
  lemma TokensBounded(b: Bucket, s: Option<MemState>, t: real)
    requires Enabled(b) && (s.Some? ==> Ok(s.value))
    ensures var s1 := MemAllow(b, s, t).0; 0.0 <= s1.tokens <= Capacity(b) == s1.capacity
  {
    GainLawful(b);
    CoreBounded(Capacity(b), Gain(b), s, t);
  }

  // ---------- the rate bound ----------

  function MemRun(b: Bucket, s: Option<MemState>, ts: seq<real>): (Option<MemState>, seq<Decision>)
    decreases |ts|
  {
    if ts == [] then (s, [])
    else
      var (s1, d) := MemAllow(b, s, ts[0]);
      var (s2, ds) := MemRun(b, Some(s1), ts[1..]);
      (s2, [d] + ds)
  }

  function Admitted(ds: seq<Decision>): nat {
    if ds == [] then 0 else (if ds[0] == Allowed then 1 else 0) + Admitted(ds[1..])
  }

  /** Requests admitted from a state on. */
  function Count(cap: real, g: real -> real, s: Option<MemState>, ts: seq<real>): nat
    decreases |ts|
  {
    if ts == [] then 0
    else (if Found(cap, g, s, ts[0]) >= 1.0 then 1 else 0) + Count(cap, g, Some(After(cap, g, s, ts[0])), ts[1..])
  }

  lemma {:induction false} AdmittedIsCount(b: Bucket, s: Option<MemState>, ts: seq<real>)
    ensures Admitted(MemRun(b, s, ts).1) == Count(Capacity(b), Gain(b), s, ts)
    decreases |ts|
  {
    if ts != [] {
      var (s1, d) := MemAllow(b, s, ts[0]);
      AdmittedIsCount(b, Some(s1), ts[1..]);
      assert MemRun(b, s, ts).1[1..] == MemRun(b, Some(s1), ts[1..]).1;
    }
  }

  predicate Sorted(ts: seq<real>) {
    forall i, j :: 0 <= i < j < |ts| ==> ts[i] <= ts[j]
  }

  /** Tokens left plus requests admitted never exceed the tokens there were plus the gain. */
  lemma {:induction false} Accounting(cap: real, g: real -> real, s: MemState, ts: seq<real>, t: real)
    requires Lawful(g) && Ok(s) && s.capacity == cap && s.last <= t
    requires Sorted(ts) && forall i :: 0 <= i < |ts| ==> s.last <= ts[i] <= t
    ensures Count(cap, g, Some(s), ts) as real <= s.tokens + g(t - s.last)
    decreases |ts|
  {
    if ts != [] {
      var s1 := After(cap, g, Some(s), ts[0]);
      CoreBounded(cap, g, Some(s), ts[0]);
      Accounting(cap, g, s1, ts[1..], t);
      assert g(t - s.last) == g(ts[0] - s.last) + g(t - ts[0]);
    }
  }

  /** A window's first call finds at most a full bucket. */
  lemma WindowCount(cap: real, g: real -> real, s: Option<MemState>, ts: seq<real>, to: real)
    requires Lawful(g) && cap >= 0.0 && (s.Some? ==> Ok(s.value)) && ts != [] && Sorted(ts)
    requires forall i :: 0 <= i < |ts| ==> ts[i] <= to
    ensures Count(cap, g, s, ts) as real <= cap + g(to - ts[0])
  {
    hide Found, Lawful;
    CoreBounded(cap, g, s, ts[0]);
    Accounting(cap, g, After(cap, g, s, ts[0]), ts[1..], to);
  }

  lemma {:induction false} RunOk(b: Bucket, s: Option<MemState>, ts: seq<real>)
    requires Enabled(b) && (s.Some? ==> Ok(s.value))
    ensures var r := MemRun(b, s, ts).0; r.Some? ==> Ok(r.value)
    decreases |ts|
  {
    if ts != [] {
      TokensBounded(b, s, ts[0]);
      RunOk(b, Some(MemAllow(b, s, ts[0]).0), ts[1..]);
    }
  }

  /** In every window [from, to] of a run with a clock that does not go back, at most the burst and
      the window's refill are admitted. `before` is the part of the run ahead of the window. */
  lemma RateBound(b: Bucket, before: seq<real>, window: seq<real>, from: real, to: real)
    requires Enabled(b) && Sorted(before + window) && from <= to
    requires forall i :: 0 <= i < |window| ==> from <= window[i] <= to
    ensures var s := MemRun(b, None, before).0;
            Admitted(MemRun(b, s, window).1) as real <= Capacity(b) + Gain(b)(to - from)
  {
    var s := MemRun(b, None, before).0;
    RunOk(b, None, before);
    assert forall i :: 0 <= i < |window| ==> (before + window)[|before| + i] == window[i];
    CountGain(b, Gain(b), s, window, from, to);
    AdmittedIsCount(b, s, window);
  }

  lemma CountGain(b: Bucket, g: real -> real, s: Option<MemState>, ts: seq<real>, from: real, to: real)
    requires Enabled(b) && g == Gain(b) && (s.Some? ==> Ok(s.value)) && Sorted(ts) && from <= to
    requires forall i :: 0 <= i < |ts| ==> from <= ts[i] <= to
    ensures Count(Capacity(b), g, s, ts) as real <= Capacity(b) + g(to - from)
  {
    GainLawful(b);
    WindowBound(Capacity(b), g, s, ts, from, to);
  }

  lemma WindowBound(cap: real, g: real -> real, s: Option<MemState>, ts: seq<real>, from: real, to: real)
    requires Lawful(g) && cap >= 0.0 && (s.Some? ==> Ok(s.value)) && Sorted(ts) && from <= to
    requires forall i :: 0 <= i < |ts| ==> from <= ts[i] <= to
    ensures Count(cap, g, s, ts) as real <= cap + g(to - from)
  {
    if ts != [] {
      WindowCount(cap, g, s, ts, to);
      assert g(to - from) == g(ts[0] - from) + g(to - ts[0]);
    }
  }

  // ---------- the retry hint ----------

  lemma HintArithmetic(r: real, x: real, m: int)
    requires r > 0.0
    ensures x + m as real * r >= 1.0 <==> m >= Ceil((1.0 - x) / r)
  {
    var w := (1.0 - x) / r;
    assert w * r == 1.0 - x;
    Ordered(m as real, w, r);
    assert m >= Ceil(w) <==> m as real >= w;
  }

  lemma Ordered(x: real, y: real, r: real)
    requires r > 0.0
    ensures x >= y <==> x * r >= y * r
  {
    if x >= y {
      NonNegative(x - y, r);
    } else {
      assert (y - x) * r > 0.0;
    }
  }

  /** The hint is the least number of whole seconds, at least one, after which a retry with nothing in
      between is admitted. */
  lemma HintIsLeast(b: Bucket, s: Option<MemState>, t: real, m: nat)
    requires Enabled(b) && (s.Some? ==> Ok(s.value)) && m >= 1
    requires MemAllow(b, s, t).1.Denied?
    ensures var (s1, d) := MemAllow(b, s, t);
            d.retryAfter >= 1 && (MemAllow(b, Some(s1), t + m as real).1 == Allowed <==> m >= d.retryAfter)
  {
    hide RetryAfter, Found, Rate;
    RatePositive(b);
    var x := MemAllow(b, s, t).0.tokens;
    LaterFinds(Capacity(b), Gain(b), s, t, t + m as real);
    assert t + m as real - t == m as real;
    HintCore(Capacity(b), Rate(b), x, m);
  }

  lemma HintCore(cap: real, r: real, x: real, m: nat)
    requires cap >= 1.0 && r > 0.0 && m >= 1
    ensures RetryAfter(r, x) >= 1 && (Min(cap, x + m as real * r) >= 1.0 <==> m >= RetryAfter(r, x))
  {
    hide RetryAfter, Ceil;
    HintIs(r, x);
    HintArithmetic(r, x, m);
  }

  lemma RatePositive(b: Bucket)
    requires Enabled(b)
    ensures Rate(b) > 0.0
  {
  }

  lemma HintIs(r: real, tokens: real)
    requires r > 0.0
    ensures RetryAfter(r, tokens) == if Ceil((1.0 - tokens) / r) < 1 then 1 else Ceil((1.0 - tokens) / r)
  {
  }

  lemma LaterFinds(cap: real, g: real -> real, s: Option<MemState>, t: real, u: real)
    requires u > t
    ensures Found(cap, g, Some(After(cap, g, s, t)), u) == Min(cap, After(cap, g, s, t).tokens + g(u - t))
  {
  }

  // ---------- denials do not delay the refill ----------

  lemma DenialKeepsLevel(cap: real, g: real -> real, s: MemState, u: real, t: real)
    requires Lawful(g) && cap >= 1.0 && Ok(s) && s.capacity == cap && s.last <= u <= t
    requires Found(cap, g, Some(s), u) < 1.0
    ensures Found(cap, g, Some(After(cap, g, Some(s), u)), t) == Found(cap, g, Some(s), t)
  {
    assert g(t - s.last) == g(u - s.last) + g(t - u);
    assert g(0.0) == g(0.0) + g(0.0);
  }

  function StateAfter(cap: real, g: real -> real, s: MemState, ts: seq<real>): MemState
    decreases |ts|
  {
    if ts == [] then s else StateAfter(cap, g, After(cap, g, Some(s), ts[0]), ts[1..])
  }

  /** However many denied calls come in between, a later call finds the tokens it would find without them. */
  lemma {:induction false} DenialsTransparent(cap: real, g: real -> real, s: MemState, us: seq<real>, t: real)
    requires Lawful(g) && cap >= 1.0 && Ok(s) && s.capacity == cap && s.last <= t
    requires Sorted(us) && (forall i :: 0 <= i < |us| ==> s.last <= us[i] <= t) && Count(cap, g, Some(s), us) == 0
    ensures Found(cap, g, Some(StateAfter(cap, g, s, us)), t) == Found(cap, g, Some(s), t)
    decreases |us|
  {
    if us != [] {
      CoreBounded(cap, g, Some(s), us[0]);
      DenialKeepsLevel(cap, g, s, us[0], t);
      DenialsTransparent(cap, g, After(cap, g, Some(s), us[0]), us[1..], t);
    }
  }

  /** A client that is denied at `t` and polls in vain in between is admitted when the hint has passed. */
  lemma HintHoldsUnderPolling(b: Bucket, s: Option<MemState>, t: real, us: seq<real>)
    requires Enabled(b) && (s.Some? ==> Ok(s.value)) && MemAllow(b, s, t).1.Denied?
    requires var n := MemAllow(b, s, t).1.retryAfter;
             Sorted(us) && forall i :: 0 <= i < |us| ==> t <= us[i] <= t + n as real
    requires Count(Capacity(b), Gain(b), Some(MemAllow(b, s, t).0), us) == 0
    ensures var (s1, d) := MemAllow(b, s, t);
            MemAllow(b, Some(StateAfter(Capacity(b), Gain(b), s1, us)), t + d.retryAfter as real).1 == Allowed
  {
    var (s1, d) := MemAllow(b, s, t);
    TokensBounded(b, s, t);
    HintIsLeast(b, s, t, d.retryAfter);
    Transparent(b, Gain(b), s1, us, t + d.retryAfter as real);
  }

  lemma Transparent(b: Bucket, g: real -> real, s: MemState, us: seq<real>, t: real)
    requires Enabled(b) && g == Gain(b) && Ok(s) && s.capacity == Capacity(b) && s.last <= t
    requires Sorted(us) && (forall i :: 0 <= i < |us| ==> s.last <= us[i] <= t)
             && Count(Capacity(b), g, Some(s), us) == 0
    ensures Found(Capacity(b), g, Some(StateAfter(Capacity(b), g, s, us)), t) == Found(Capacity(b), g, Some(s), t)
  {
    GainLawful(b);
    DenialsTransparent(Capacity(b), g, s, us, t);
  }

  // ---------- eviction of idle buckets ----------

  /** Ten minutes, the idle threshold of the janitor. */
  const IDLE := 600.0

  /** What happens to one bucket: a call, or a janitor pass that drops it if it is idle too long. */
  datatype Event = Call(t: real) | Pass(t: real)

  function Idle(s: MemState, t: real): bool { s.last < t - IDLE }

  function EvictRun(b: Bucket, s: Option<MemState>, es: seq<Event>): seq<Decision>
    decreases |es|
  {
    if es == [] then []
    else match es[0]
      case Call(t) => [MemAllow(b, s, t).1] + EvictRun(b, Some(MemAllow(b, s, t).0), es[1..])
      case Pass(t) => EvictRun(b, if s.Some? && Idle(s.value, t) then None else s, es[1..])
  }

  function Calls(es: seq<Event>): seq<real> {
    if es == [] then []
    else (if es[0].Call? then [es[0].t] else []) + Calls(es[1..])
  }

  ghost predicate InOrder(es: seq<Event>, from: real) {
    (forall i :: 0 <= i < |es| ==> from <= es[i].t) && forall i, j :: 0 <= i < j < |es| ==> es[i].t <= es[j].t
  }

  /** A bucket that is full again by `now`. */
  ghost predicate Full(cap: real, g: real -> real, s: MemState, now: real) {
    Ok(s) && s.capacity == cap && s.last <= now && s.tokens + g(now - s.last) >= cap
  }

  lemma FullStays(cap: real, g: real -> real, s: MemState, now: real, t: real)
    requires Lawful(g) && Full(cap, g, s, now) && now <= t
    ensures Full(cap, g, s, t)
  {
    assert g(t - s.last) == g(now - s.last) + g(t - now);
  }

  lemma IdleIsFull(cap: real, g: real -> real, s: MemState, now: real, idle: real)
    requires Lawful(g) && Ok(s) && s.capacity == cap && g(idle) >= cap && now - s.last >= idle >= 0.0
    ensures Full(cap, g, s, now)
  {
    assert g(now - s.last) == g(idle) + g(now - s.last - idle);
  }

  /** The state with eviction is the state without it, or the bucket is missing where it would be full. */
  ghost predicate Agree(cap: real, g: real -> real, e: Option<MemState>, s: Option<MemState>, now: real) {
    (s.Some? ==> Ok(s.value) && s.value.capacity == cap && s.value.last <= now)
    && (e == s || (e.None? && s.Some? && Full(cap, g, s.value, now)))
  }

  lemma AgreeCall(cap: real, g: real -> real, e: Option<MemState>, s: Option<MemState>, now: real, t: real)
    requires Lawful(g) && cap >= 0.0 && Agree(cap, g, e, s, now) && now <= t
    ensures Found(cap, g, e, t) == Found(cap, g, s, t) && After(cap, g, e, t) == After(cap, g, s, t)
    ensures Agree(cap, g, Some(After(cap, g, e, t)), Some(After(cap, g, s, t)), t)
  {
    CoreBounded(cap, g, s, t);
    if e != s {
      FullStays(cap, g, s.value, now, t);
    }
  }

  lemma AgreePass(cap: real, g: real -> real, e: Option<MemState>, s: Option<MemState>, now: real, t: real)
    requires Lawful(g) && g(IDLE) >= cap && Agree(cap, g, e, s, now) && now <= t
    ensures Agree(cap, g, if e.Some? && Idle(e.value, t) then None else e, s, t)
  {
    if e != s {
      FullStays(cap, g, s.value, now, t);
    } else if e.Some? && Idle(e.value, t) {
      IdleIsFull(cap, g, s.value, t, IDLE);
    }
  }

  lemma {:induction false} EvictionAgrees(b: Bucket, g: real -> real, e: Option<MemState>,
                                          s: Option<MemState>, es: seq<Event>, now: real)
    requires Enabled(b) && g == Gain(b) && Lawful(g) && g(IDLE) >= Capacity(b)
    requires Agree(Capacity(b), g, e, s, now) && InOrder(es, now)
    ensures EvictRun(b, e, es) == MemRun(b, s, Calls(es)).1
    decreases |es|
  {
    if es != [] {
      var t, cap := es[0].t, Capacity(b);
      assert InOrder(es[1..], t);
      match es[0] {
        case Call(_) =>
          AgreeCall(cap, g, e, s, now, t);
          var s1 := After(cap, g, s, t);
          EvictionAgrees(b, g, Some(s1), Some(s1), es[1..], t);
        case Pass(_) =>
          AgreePass(cap, g, e, s, now, t);
          EvictionAgrees(b, g, if e.Some? && Idle(e.value, t) then None else e, s, es[1..], t);
          assert Calls(es) == [] + Calls(es[1..]) == Calls(es[1..]);
      }
    }
  }

  /** Janitor passes at any times change no decision, if the burst is at most ten minutes' refill. */
  lemma JanitorHarmless(b: Bucket, es: seq<Event>, from: real)
    requires Enabled(b) && b.burst <= 10 * b.rpm && InOrder(es, from)
    ensures EvictRun(b, None, es) == MemRun(b, None, Calls(es)).1
  {
    GainLawful(b);
    EvictionAgrees(b, Gain(b), None, None, es, from);
  }

  /** Janitor passes never change a decision. */
  ghost predicate JanitorInvisible(b: Bucket) {
    forall es, from :: InOrder(es, from) ==> EvictRun(b, None, es) == MemRun(b, None, Calls(es)).1
  }

  function Burst(t: real, n: nat): (es: seq<Event>)
    ensures |es| == n && forall i :: 0 <= i < n ==> es[i] == Call(t)
  {
    if n == 0 then [] else [Call(t)] + Burst(t, n - 1)
  }

  /** As many calls at one time as there are tokens are all admitted. */
  lemma {:induction false} TokensAdmit(b: Bucket, s: MemState, n: nat, rest: seq<Event>)
    requires s.capacity == Capacity(b) && s.tokens >= n as real
    ensures Admitted(EvictRun(b, Some(s), Burst(s.last, n) + rest))
            == n + Admitted(EvictRun(b, Some(s.(tokens := s.tokens - n as real)), rest))
    decreases n
  {
    var es := Burst(s.last, n) + rest;
    if n == 0 {
      assert es == rest;
    } else {
      var s1 := MemAllow(b, Some(s), s.last).0;
      assert s1 == s.(tokens := s.tokens - 1.0);
      assert es[0] == Call(s.last) && es[1..] == Burst(s.last, n - 1) + rest;
      TokensAdmit(b, s1, n - 1, rest);
    }
  }

  /** A missing bucket admits its whole burst at once and is empty then. */
  lemma FreshAdmits(b: Bucket, t: real, rest: seq<Event>)
    requires Enabled(b)
    ensures Admitted(EvictRun(b, None, Burst(t, b.burst) + rest))
            == b.burst + Admitted(EvictRun(b, Some(MemState(0.0, Capacity(b), t)), rest))
  {
    var es, s1 := Burst(t, b.burst) + rest, MemState(Capacity(b) - 1.0, Capacity(b), t);
    assert MemAllow(b, None, t) == (s1, Allowed);
    assert es[0] == Call(t) && es[1..] == Burst(t, b.burst - 1) + rest;
    TokensAdmit(b, s1, b.burst - 1, rest);
  }

  /** A time past `idle` at which a bucket emptied at time 0 is not full again. */
  lemma NotYetFull(b: Bucket, idle: real) returns (t: real)
    requires Enabled(b) && idle >= 0.0 && Gain(b)(idle) < Capacity(b)
    ensures t > idle && Gain(b)(t) < Capacity(b)
  {
    var r := Rate(b);
    var full := Capacity(b) / r;
    assert full * r == Capacity(b);
    Ordered(idle, full, r);
    t := (idle + full) / 2.0;
    Ordered(t, full, r);
  }

  lemma {:induction false} CallsInOrder(es: seq<Event>, from: real, to: real)
    requires InOrder(es, from) && forall i :: 0 <= i < |es| ==> es[i].t <= to
    ensures Sorted(Calls(es)) && forall i :: 0 <= i < |Calls(es)| ==> from <= Calls(es)[i] <= to
    decreases |es|
  {
    if es != [] {
      assert InOrder(es[1..], es[0].t);
      CallsInOrder(es[1..], es[0].t, to);
    }
  }

  /** Without eviction a run admits at most the burst and the refill of its time. */
  lemma MemAdmitsAtMost(b: Bucket, g: real -> real, ts: seq<real>, to: real)
    requires Enabled(b) && g == Gain(b) && to >= 0.0
    requires Sorted(ts) && forall i :: 0 <= i < |ts| ==> 0.0 <= ts[i] <= to
    ensures Admitted(MemRun(b, None, ts).1) as real <= Capacity(b) + g(to)
  {
    CountGain(b, g, None, ts, 0.0, to);
    AdmittedIsCount(b, None, ts);
  }

  /** With a burst above ten minutes' refill a janitor pass changes decisions: the burst is used up at
      time 0, the pass drops the bucket before it is full again, and the whole burst is admitted anew. */
  lemma JanitorVisible(b: Bucket) returns (es: seq<Event>)
    requires Enabled(b) && b.burst > 10 * b.rpm
    ensures InOrder(es, 0.0) && EvictRun(b, None, es) != MemRun(b, None, Calls(es)).1
  {
    var t := NotYetFull(b, IDLE);
    var again := [Pass(t)] + Burst(t, b.burst);
    es := Burst(0.0, b.burst) + again;
    FreshAdmits(b, 0.0, again);
    assert again[1..] == Burst(t, b.burst) + [];
    FreshAdmits(b, t, []);
    assert Admitted(EvictRun(b, None, es)) == 2 * b.burst;
    CallsInOrder(es, 0.0, t);
    MemAdmitsAtMost(b, Gain(b), Calls(es), t);
  }

  /** Eviction of idle buckets is invisible exactly when the burst is at most ten minutes' refill. */
  lemma JanitorExact(b: Bucket)
    requires Enabled(b)
    ensures JanitorInvisible(b) <==> b.burst <= 10 * b.rpm
  {
    if b.burst <= 10 * b.rpm {
      forall es, from | InOrder(es, from) ensures EvictRun(b, None, es) == MemRun(b, None, Calls(es)).1 {
        JanitorHarmless(b, es, from);
      }
    } else {
      var es := JanitorVisible(b);
      assert InOrder(es, 0.0);
    }
  }

  // ---------- the Lua script ----------

  /** The stored hash; `ts` is in milliseconds. */
  datatype LuaState = LuaState(tokens: real, ts: int)

  function LuaFound(b: Bucket, s: Option<LuaState>, now: int): real {
    var tokens := if s.Some? then s.value.tokens else Capacity(b);
    var ts0 := if s.Some? then s.value.ts else now;
    var ts := if now < ts0 then now else ts0;
    Min(Capacity(b), tokens + (now - ts) as real * (Rate(b) / 1000.0))
  }

  function LuaAllow(b: Bucket, s: Option<LuaState>, now: int): (LuaState, Decision) {
    var x := LuaFound(b, s, now);
    (LuaState(if x >= 1.0 then x - 1.0 else x, now), Decide(b, x))
  }

  function Seconds(ms: int): real { ms as real / 1000.0 }

  /** The two limiters hold the same tokens at the same time. */
  ghost predicate SameState(m: Option<MemState>, l: Option<LuaState>) {
    (m.Some? <==> l.Some?)
    && (m.Some? ==> Ok(m.value) && m.value.tokens == l.value.tokens && m.value.last == Seconds(l.value.ts))
  }

  lemma SameGain(b: Bucket, from: int, to: int)
    requires Enabled(b)
    ensures (to - from) as real * (Rate(b) / 1000.0) == Gain(b)(Seconds(to) - Seconds(from))
    ensures to >= from ==> Gain(b)(Seconds(to) - Seconds(from)) >= 0.0
  {
    var r, d := Rate(b), (to - from) as real;
    if to >= from {
      NonNegative(d / 1000.0, r);
    }
    assert Seconds(to) - Seconds(from) == d / 1000.0;
    assert d * (r / 1000.0) == (d / 1000.0) * r;
  }

  /** On the same call the two limiters find the same tokens, whatever the clock does and however the
      bucket was configured before. */
  lemma SameTokens(b: Bucket, m: Option<MemState>, l: Option<LuaState>, now: int)
    requires Enabled(b) && SameState(m, l)
    ensures LuaFound(b, l, now) == Found(Capacity(b), Gain(b), m, Seconds(now))
  {
    if m.Some? {
      var ts := l.value.ts;
      SameGain(b, ts, now);
      LuaFoundIs(b, l.value, now);
      MinOfMin(Capacity(b), m.value, Gain(b), Seconds(now));
    }
  }

  lemma LuaFoundIs(b: Bucket, l: LuaState, now: int)
    ensures LuaFound(b, Some(l), now)
            == Min(Capacity(b), l.tokens + (if now > l.ts then (now - l.ts) as real * (Rate(b) / 1000.0) else 0.0))
  {
  }

  lemma MinOfMin(cap: real, s: MemState, g: real -> real, t: real)
    requires Ok(s) && (t > s.last ==> g(t - s.last) >= 0.0)
    ensures Found(cap, g, Some(s), t) == Min(cap, s.tokens + (if t > s.last then g(t - s.last) else 0.0))
  {
  }

  lemma SameDecision(b: Bucket, m: Option<MemState>, l: Option<LuaState>, now: int)
    requires Enabled(b) && SameState(m, l)
    ensures LuaAllow(b, l, now).1 == MemAllow(b, m, Seconds(now)).1
    ensures SameState(Some(MemAllow(b, m, Seconds(now)).0), Some(LuaAllow(b, l, now).0))
  {
    SameTokens(b, m, l, now);
    TokensBounded(b, m, Seconds(now));
  }

  /** A call: the bucket in force and the time in milliseconds. */
  datatype Request = Request(bucket: Bucket, now: int)

  function MemDecisions(s: Option<MemState>, cs: seq<Request>): seq<Decision>
    decreases |cs|
  {
    if cs == [] then []
    else if !Enabled(cs[0].bucket) then [Allowed] + MemDecisions(s, cs[1..])
    else
      var r := MemAllow(cs[0].bucket, s, Seconds(cs[0].now));
      [r.1] + MemDecisions(Some(r.0), cs[1..])
  }

  function LuaDecisions(s: Option<LuaState>, cs: seq<Request>): seq<Decision>
    decreases |cs|
  {
    if cs == [] then []
    else if !Enabled(cs[0].bucket) then [Allowed] + LuaDecisions(s, cs[1..])
    else
      var r := LuaAllow(cs[0].bucket, s, cs[0].now);
      [r.1] + LuaDecisions(Some(r.0), cs[1..])
  }

  /** Without eviction the two limiters decide alike, hints included, on every sequence of calls: the
      clock may jump back and the bucket may be reconfigured between calls. */
  lemma {:induction false} LimitersAlike(m: Option<MemState>, l: Option<LuaState>, cs: seq<Request>)
    requires SameState(m, l)
    ensures MemDecisions(m, cs) == LuaDecisions(l, cs)
    decreases |cs|
  {
    if cs != [] {
      var c := cs[0];
      if Enabled(c.bucket) {
        SameDecision(c.bucket, m, l, c.now);
        LimitersAlike(Some(MemAllow(c.bucket, m, Seconds(c.now)).0), Some(LuaAllow(c.bucket, l, c.now).0), cs[1..]);
      } else {
        LimitersAlike(m, l, cs[1..]);
      }
    }
  }

  // ---------- expiry of the stored hash ----------

  /** Twice the time to fill up and five seconds, between thirty seconds and an hour. */
  function TtlSeconds(b: Bucket): int
    requires Enabled(b)
  {
    var n := Ceil(Capacity(b) / Rate(b) * 2.0) + 5;
    if n < 30 then 30 else if n > 3600 then 3600 else n
  }

  /** The key lives for twice the time to fill up and five seconds, rounded up to whole seconds, but never
      less than thirty seconds or more than an hour. */
  lemma TtlIs(b: Bucket)
    requires Enabled(b)
    ensures var want := b.burst as real * 60.0 / b.rpm as real * 2.0 + 5.0;
            && 30 <= TtlSeconds(b) <= 3600
            && (want <= 29.0 ==> TtlSeconds(b) == 30) && (want > 3600.0 ==> TtlSeconds(b) == 3600)
            && (30.0 <= want <= 3600.0 ==> want <= TtlSeconds(b) as real < want + 1.0)
  {
    assert Capacity(b) / Rate(b) == b.burst as real * 60.0 / b.rpm as real;
  }

  /** The bucket fills up within its lifetime exactly when the burst is at most an hour's refill. */
  lemma TtlGain(b: Bucket)
    requires Enabled(b)
    ensures Gain(b)(TtlSeconds(b) as real) >= Capacity(b) <==> b.burst <= 60 * b.rpm
  {
    var full, ttl := Capacity(b) / Rate(b), TtlSeconds(b) as real;
    FillTime(b, ttl);
    FillTime(b, 3600.0);
    FillTime(b, 0.0);
    assert ttl >= full <==> 3600.0 >= full;
  }

  /** A span is enough to fill up exactly when it is at least capacity over rate. */
  lemma FillTime(b: Bucket, span: real)
    requires Enabled(b)
    ensures Gain(b)(span) >= Capacity(b) <==> span >= Capacity(b) / Rate(b)
  {
    var r, full := Rate(b), Capacity(b) / Rate(b);
    assert full * r == Capacity(b);
    Ordered(span, full, r);
  }

  function Alive(b: Bucket, s: Option<LuaState>, now: int): Option<LuaState>
    requires Enabled(b)
  {
    if s.Some? && now - s.value.ts >= TtlSeconds(b) * 1000 then None else s
  }

  function TtlRun(b: Bucket, s: Option<LuaState>, nows: seq<int>): seq<Decision>
    requires Enabled(b)
    decreases |nows|
  {
    if nows == [] then []
    else
      var r := LuaAllow(b, Alive(b, s, nows[0]), nows[0]);
      [r.1] + TtlRun(b, Some(r.0), nows[1..])
  }

  function LuaRun(b: Bucket, s: Option<LuaState>, nows: seq<int>): seq<Decision>
    decreases |nows|
  {
    if nows == [] then []
    else
      var r := LuaAllow(b, s, nows[0]);
      [r.1] + LuaRun(b, Some(r.0), nows[1..])
  }

  lemma ExpiryHarmless(b: Bucket, m: MemState, l: LuaState, now: int)
    requires Enabled(b) && b.burst <= 60 * b.rpm
    requires SameState(Some(m), Some(l)) && m.capacity == Capacity(b) && l.ts <= now
    ensures LuaAllow(b, Alive(b, Some(l), now), now) == LuaAllow(b, Some(l), now)
  {
    if Alive(b, Some(l), now).None? {
      SameTokens(b, Some(m), Some(l), now);
      SameTokens(b, None, None, now);
      TtlGain(b);
      LongIdle(b, Gain(b), m, Seconds(now));
    }
  }

  lemma LongIdle(b: Bucket, g: real -> real, m: MemState, t: real)
    requires Enabled(b) && g == Gain(b) && g(TtlSeconds(b) as real) >= Capacity(b)
    requires Ok(m) && m.capacity == Capacity(b) && t - m.last >= TtlSeconds(b) as real
    ensures Found(Capacity(b), g, Some(m), t) == Found(Capacity(b), g, None, t)
  {
    GainLawful(b);
    IdleIsFull(Capacity(b), g, m, t, TtlSeconds(b) as real);
  }

  predicate NotBackwards(nows: seq<int>, from: int) {
    (forall i :: 0 <= i < |nows| ==> from <= nows[i]) && forall i, j :: 0 <= i < j < |nows| ==> nows[i] <= nows[j]
  }

  lemma {:induction false} TtlAgrees(b: Bucket, m: Option<MemState>, l: Option<LuaState>, nows: seq<int>, from: int)
    requires Enabled(b) && b.burst <= 60 * b.rpm && SameState(m, l) && NotBackwards(nows, from)
    requires m.Some? ==> m.value.capacity == Capacity(b) && l.value.ts <= from
    ensures TtlRun(b, l, nows) == LuaRun(b, l, nows)
    decreases |nows|
  {
    if nows != [] {
      var now := nows[0];
      if l.Some? {
        ExpiryHarmless(b, m.value, l.value, now);
      }
      SameDecision(b, m, l, now);
      assert NotBackwards(nows[1..], now);
      TtlAgrees(b, Some(MemAllow(b, m, Seconds(now)).0), Some(LuaAllow(b, l, now).0), nows[1..], now);
    }
  }

  /** The key's time to live changes no decision, if the burst is at most an hour's refill. */
  lemma TtlHarmless(b: Bucket, nows: seq<int>, from: int)
    requires Enabled(b) && b.burst <= 60 * b.rpm && NotBackwards(nows, from)
    ensures TtlRun(b, None, nows) == LuaRun(b, None, nows)
  {
    TtlAgrees(b, None, None, nows, from);
  }

  /** The key's time to live never changes a decision. */
  ghost predicate TtlInvisible(b: Bucket)
    requires Enabled(b)
  {
    forall nows, from :: NotBackwards(nows, from) ==> TtlRun(b, None, nows) == LuaRun(b, None, nows)
  }

  function Times(now: int, n: nat): (nows: seq<int>)
    ensures |nows| == n && forall i :: 0 <= i < n ==> nows[i] == now
  {
    if n == 0 then [] else [now] + Times(now, n - 1)
  }

  lemma OneCall(b: Bucket, x: real, now: int)
    requires Enabled(b) && 1.0 <= x <= Capacity(b)
    ensures Alive(b, Some(LuaState(x, now)), now) == Some(LuaState(x, now))
    ensures LuaAllow(b, Some(LuaState(x, now)), now) == (LuaState(x - 1.0, now), Allowed)
  {
    assert (now - now) as real * (Rate(b) / 1000.0) == 0.0;
  }

  lemma {:induction false} StoredAdmit(b: Bucket, x: real, now: int, n: nat, rest: seq<int>)
    requires Enabled(b) && n as real <= x <= Capacity(b)
    ensures Admitted(TtlRun(b, Some(LuaState(x, now)), Times(now, n) + rest))
            == n + Admitted(TtlRun(b, Some(LuaState(x - n as real, now)), rest))
    decreases n
  {
    var nows := Times(now, n) + rest;
    if n == 0 {
      assert nows == rest;
    } else {
      OneCall(b, x, now);
      assert nows[0] == now && nows[1..] == Times(now, n - 1) + rest;
      StoredAdmit(b, x - 1.0, now, n - 1, rest);
    }
  }

  /** A missing or expired key admits its whole burst at once and holds no token then. */
  lemma ExpiredAdmits(b: Bucket, l: Option<LuaState>, now: int, rest: seq<int>)
    requires Enabled(b) && Alive(b, l, now).None?
    ensures Admitted(TtlRun(b, l, Times(now, b.burst) + rest))
            == b.burst + Admitted(TtlRun(b, Some(LuaState(0.0, now)), rest))
  {
    var nows := Times(now, b.burst) + rest;
    OneCall(b, Capacity(b), now);
    assert LuaAllow(b, None, now) == LuaAllow(b, Some(LuaState(Capacity(b), now)), now);
    assert nows[0] == now && nows[1..] == Times(now, b.burst - 1) + rest;
    StoredAdmit(b, Capacity(b) - 1.0, now, b.burst - 1, rest);
  }

  lemma {:induction false} SecondsInOrder(nows: seq<int>, from: int, to: int)
    requires NotBackwards(nows, from) && forall i :: 0 <= i < |nows| ==> nows[i] <= to
    ensures Sorted(InSeconds(nows))
    ensures forall i :: 0 <= i < |InSeconds(nows)| ==> Seconds(from) <= InSeconds(nows)[i] <= Seconds(to)
    decreases |nows|
  {
    if nows != [] {
      assert NotBackwards(nows[1..], nows[0]);
      SecondsInOrder(nows[1..], nows[0], to);
    }
  }

  /** A bucket that an hour does not fill keeps its key for exactly an hour. */
  lemma HourIsShort(b: Bucket)
    requires Enabled(b) && b.burst > 60 * b.rpm
    ensures TtlSeconds(b) == 3600 && Gain(b)(3600.0) < Capacity(b)
  {
    FillTime(b, 3600.0);
  }

  /** With a burst above an hour's refill it does: the burst is used up at time 0, the key expires an
      hour later with the bucket not full again, and the whole burst is admitted anew. */
  lemma TtlVisible(b: Bucket) returns (nows: seq<int>)
    requires Enabled(b) && b.burst > 60 * b.rpm
    ensures NotBackwards(nows, 0) && TtlRun(b, None, nows) != LuaRun(b, None, nows)
  {
    var again := Times(3600 * 1000, b.burst);
    nows := Times(0, b.burst) + again;
    HourIsShort(b);
    ExpiredAdmits(b, None, 0, again);
    assert again == again + [];
    ExpiredAdmits(b, Some(LuaState(0.0, 0)), 3600 * 1000, []);
    assert Admitted(TtlRun(b, None, nows)) == 2 * b.burst;
    RunsAlike(b, None, None, nows);
    SecondsInOrder(nows, 0, 3600 * 1000);
    MemAdmitsAtMost(b, Gain(b), InSeconds(nows), 3600.0);
  }

  /** Expiry is invisible exactly when the burst is at most an hour's refill. */
  lemma TtlExact(b: Bucket)
    requires Enabled(b)
    ensures TtlInvisible(b) <==> b.burst <= 60 * b.rpm
  {
    if b.burst <= 60 * b.rpm {
      forall nows, from | NotBackwards(nows, from) ensures TtlRun(b, None, nows) == LuaRun(b, None, nows) {
        TtlHarmless(b, nows, from);
      }
    } else {
      var nows := TtlVisible(b);
      assert NotBackwards(nows, 0);
    }
  }

  // ---------- both limiters with their evictions ----------

  /** Events on the millisecond grid. */
  datatype Tick = CallAt(now: int) | PassAt(now: int)

  function Events(ks: seq<Tick>): (es: seq<Event>)
    ensures |es| == |ks| && forall i :: 0 <= i < |es| ==>
              es[i].t == Seconds(ks[i].now) && (es[i].Call? <==> ks[i].CallAt?)
  {
    if ks == [] then []
    else [if ks[0].CallAt? then Call(Seconds(ks[0].now)) else Pass(Seconds(ks[0].now))] + Events(ks[1..])
  }

  function CallTimes(ks: seq<Tick>): seq<int> {
    if ks == [] then []
    else (if ks[0].CallAt? then [ks[0].now] else []) + CallTimes(ks[1..])
  }

  ghost predicate TicksInOrder(ks: seq<Tick>, from: int) {
    (forall i :: 0 <= i < |ks| ==> from <= ks[i].now) && forall i, j :: 0 <= i < j < |ks| ==> ks[i].now <= ks[j].now
  }

  function InSeconds(nows: seq<int>): seq<real> {
    if nows == [] then [] else [Seconds(nows[0])] + InSeconds(nows[1..])
  }

  lemma {:induction false} CallsOfEvents(ks: seq<Tick>)
    ensures Calls(Events(ks)) == InSeconds(CallTimes(ks))
  {
    if ks != [] {
      CallsOfEvents(ks[1..]);
      assert Events(ks)[1..] == Events(ks[1..]);
      if ks[0].CallAt? {
        assert CallTimes(ks)[1..] == CallTimes(ks[1..]);
      } else {
        assert CallTimes(ks) == CallTimes(ks[1..]);
      }
    }
  }

  lemma {:induction false} CallTimesOrdered(ks: seq<Tick>, from: int)
    requires TicksInOrder(ks, from)
    ensures NotBackwards(CallTimes(ks), from)
  {
    if ks != [] {
      assert TicksInOrder(ks[1..], ks[0].now);
      CallTimesOrdered(ks[1..], ks[0].now);
    }
  }

  lemma {:induction false} RunsAlike(b: Bucket, m: Option<MemState>, l: Option<LuaState>, nows: seq<int>)
    requires Enabled(b) && SameState(m, l)
    ensures MemRun(b, m, InSeconds(nows)).1 == LuaRun(b, l, nows)
    decreases |nows|
  {
    if nows != [] {
      SameDecision(b, m, l, nows[0]);
      RunsAlike(b, Some(MemAllow(b, m, Seconds(nows[0])).0), Some(LuaAllow(b, l, nows[0]).0), nows[1..]);
    }
  }

  /** Janitor passes on one side and key expiry on the other included, the two limiters decide alike on
      every run on the millisecond grid, if the burst is at most ten minutes' refill. */
  lemma EvictingLimitersAlike(b: Bucket, ks: seq<Tick>, from: int)
    requires Enabled(b) && b.burst <= 10 * b.rpm && TicksInOrder(ks, from)
    ensures EvictRun(b, None, Events(ks)) == TtlRun(b, None, CallTimes(ks))
  {
    JanitorHarmless(b, Events(ks), Seconds(from));
    CallsOfEvents(ks);
    RunsAlike(b, None, None, CallTimes(ks));
    CallTimesOrdered(ks, from);
    TtlHarmless(b, CallTimes(ks), from);
  }

  // ---------- the limiter object ----------

  /** Bucket keys, scope and subject, are only ever compared. */
  type Subject = nat

  class InMemoryLimiter {
    var buckets: map<Subject, MemState>

    constructor ()
      ensures buckets == map[]
    {
      buckets := map[];
    }

    /** The bucket of a key, created full when it is missing. */
    method BucketFor(key: Subject, cap: real, now: real) returns (s: MemState)
      modifies this
      ensures s == (if key in old(buckets) then old(buckets)[key] else MemState(cap, cap, now))
      ensures buckets == old(buckets)[key := s]
    {
      if key !in buckets {
        buckets := buckets[key := MemState(cap, cap, now)];
      }
      s := buckets[key];
    }

    /** The wait until a token is there: rounded up, at least a second; a minute without a rate. */
    static method Hint(rate: real, tokens: real) returns (secs: int)
      ensures secs == RetryAfter(rate, tokens)
    {
      if rate > 0.0 {
        secs := Ceil((1.0 - tokens) / rate);
        if secs < 1 {
          secs := 1;
        }
      } else {
        secs := 60;
      }
    }

    /** Consumes one token if there is one. Other keys keep their buckets. */
    method Allow(key: Subject, b: Bucket, now: real) returns (d: Decision)
      modifies this
      ensures !Enabled(b) ==> d == Allowed && buckets == old(buckets)
      ensures Enabled(b) ==>
        var s := if key in old(buckets) then Some(old(buckets)[key]) else None;
        d == MemAllow(b, s, now).1 && buckets == old(buckets)[key := MemAllow(b, s, now).0]
    {
      if !Enabled(b) {
        return Allowed;
      }
      var rate, cap := Rate(b), Capacity(b);
      var s := BucketFor(key, cap, now);
      if s.capacity != cap {
        s := s.(capacity := cap);
        if s.tokens > cap {
          s := s.(tokens := cap);
        }
      }
      var elapsed := now - s.last;
      if elapsed > 0.0 {
        var gain := elapsed * rate;
        assert gain == Gain(b)(elapsed);
        s := s.(tokens := Min(cap, s.tokens + gain));
      }
      s := s.(last := now);
      if s.tokens >= 1.0 {
        s := s.(tokens := s.tokens - 1.0);
        d := Allowed;
      } else {
        var secs := Hint(rate, s.tokens);
        d := Denied(secs);
      }
      buckets := buckets[key := s];
    }

    /** Drops every bucket idle for longer than the threshold, and no other; the keys come in whatever
        order the map iterates. */
    method GcOnce(now: real, order: seq<Subject>)
      requires forall k :: k in order <==> k in buckets
      modifies this
      ensures buckets == map k | k in old(buckets) && !Idle(old(buckets)[k], now) :: old(buckets)[k]
    {
      var i := 0;
      var all := buckets;
      while i < |order|
        invariant 0 <= i <= |order| && all == old(buckets)
        invariant buckets == map k | k in all && !(k in order[..i] && Idle(all[k], now)) :: all[k]
      {
        if order[i] in buckets && Idle(buckets[order[i]], now) {
          buckets := buckets - {order[i]};
        }
        assert order[..i + 1] == order[..i] + [order[i]];
        i := i + 1;
      }
      assert order[..i] == order;
    }
  }
}
