/** The fixed-window limiter: one counter per bucket and key, pruned on demand, bounded in number. */
module RateLimiter {
  import opened Store

  datatype Rule = Rule(limit: nat, windowMs: int)

  /** A counter, carrying the width of the window it was opened under. */
  datatype Window = Window(startedAt: int, count: nat, windowMs: int)

  /** The pair the source joins with a NUL; see `CompositeUnique`. */
  datatype Key = Key(bucket: string, name: string)

  type Windows = map<Key, Window>

  datatype Answer = Allowed(remaining: int) | Refused(retryAfterMs: int, saturated: bool)

  function Composite(k: Key): string { k.bucket + "\0" + k.name }

  /** No name can be chosen so that it lands in another bucket's counter. */
  lemma CompositeUnique(a: Key, b: Key)
    requires '\0' !in a.bucket && '\0' !in b.bucket && Composite(a) == Composite(b)
    ensures a == b
  {
    BucketNotLonger(a, b);
    BucketNotLonger(b, a);
    assert Composite(a)[..|a.bucket|] == a.bucket && Composite(b)[..|b.bucket|] == b.bucket;
    assert Composite(a)[|a.bucket| + 1..] == a.name && Composite(b)[|b.bucket| + 1..] == b.name;
  }

  lemma BucketNotLonger(a: Key, b: Key)
    requires '\0' !in a.bucket && Composite(a) == Composite(b)
    ensures |a.bucket| <= |b.bucket|
  {
    assert Composite(b)[|b.bucket|] == '\0';
    assert forall i | 0 <= i < |a.bucket| :: Composite(a)[i] in a.bucket;
  }

  predicate Over(w: Window, now: int) { now - w.startedAt >= w.windowMs }

  function Pruned(ws: Windows, now: int): Windows {
    map k | k in ws && !Over(ws[k], now) :: ws[k]
  }

  function Max(a: int, b: int): int { if a <= b then b else a }

  /** One event counted, or refused. */
  function Consumed(ws: Windows, capacity: nat, now: int, key: Key, rule: Rule): (Windows, Answer) {
    if key in ws && now - ws[key].startedAt < rule.windowMs then
      if ws[key].count >= rule.limit then
        (ws, Refused(Max(0, ws[key].startedAt + rule.windowMs - now), false))
      else
        (ws[key := ws[key].(count := ws[key].count + 1)], Allowed(rule.limit - (ws[key].count + 1)))
    else if key in ws then
      (ws[key := Window(now, 1, rule.windowMs)], Allowed(rule.limit - 1))
    else if |Pruned(ws, now)| >= capacity then
      (Pruned(ws, now), Refused(rule.windowMs, true))
    else
      (Pruned(ws, now)[key := Window(now, 1, rule.windowMs)], Allowed(rule.limit - 1))
  }

  function Peeked(ws: Windows, now: int, key: Key, rule: Rule): Answer {
    if key !in ws || now - ws[key].startedAt >= rule.windowMs then Allowed(rule.limit)
    else if ws[key].count >= rule.limit then Refused(Max(0, ws[key].startedAt + rule.windowMs - now), false)
    else Allowed(rule.limit - ws[key].count)
  }

  class MemoryRateLimiter {
    const capacity: nat
    var windows: Windows

    constructor (capacity: nat)
      ensures this.capacity == capacity && windows == map[]
    {
      this.capacity, windows := capacity, map[];
    }

    method Consume(now: int, key: Key, rule: Rule) returns (answer: Answer)
      modifies this
      ensures (windows, answer) == Consumed(old(windows), capacity, now, key, rule)
    {
      if key in windows && now - windows[key].startedAt < rule.windowMs {
        var existing := windows[key];
        if existing.count >= rule.limit {
          return Refused(Max(0, existing.startedAt + rule.windowMs - now), false);
        }
        windows := windows[key := existing.(count := existing.count + 1)];
        return Allowed(rule.limit - windows[key].count);
      }
      if key !in windows {
        Prune(now);
        if |windows| >= capacity { return Refused(rule.windowMs, true); }
      }
      windows := windows[key := Window(now, 1, rule.windowMs)];
      answer := Allowed(rule.limit - 1);
    }

    method Reset(key: Key)
      modifies this
      ensures windows == old(windows) - {key}
    {
      windows := windows - {key};
    }

    method Peek(now: int, key: Key, rule: Rule) returns (answer: Answer)
      ensures answer == Peeked(windows, now, key, rule)
    {
      if key !in windows { return Allowed(rule.limit); }
      var existing := windows[key];
      if now - existing.startedAt >= rule.windowMs { return Allowed(rule.limit); }
      if existing.count >= rule.limit {
        return Refused(Max(0, existing.startedAt + rule.windowMs - now), false);
      }
      answer := Allowed(rule.limit - existing.count);
    }

    /** Drops every counter whose own window has closed. */
    method Prune(now: int)
      modifies this
      ensures windows == Pruned(old(windows), now)
    {
      var rest := windows.Keys;
      while rest != {}
        invariant rest <= windows.Keys <= old(windows).Keys
        invariant forall k | k in windows :: windows[k] == old(windows)[k]
        invariant forall k | k in old(windows) && k !in rest :: k in windows <==> !Over(old(windows)[k], now)
        decreases rest
      {
        var k :| k in rest;
        if Over(windows[k], now) { windows := windows - {k}; }
        rest := rest - {k};
      }
    }
  }

  // ---- bounded, and never at a live counter's expense ----

  lemma ConsumeFits(ws: Windows, capacity: nat, now: int, key: Key, rule: Rule)
    requires |ws| <= capacity
    ensures |Consumed(ws, capacity, now, key, rule).0| <= capacity
  {
    PrunedIsSmaller(ws, now);
    var p := Pruned(ws, now);
    if key !in ws && |p| < capacity {
      assert p[key := Window(now, 1, rule.windowMs)].Keys == p.Keys + {key};
    } else if key in ws {
      assert Consumed(ws, capacity, now, key, rule).0.Keys == ws.Keys;
    }
  }

  lemma SubsetIsSmaller<T>(a: set<T>, b: set<T>)
    requires a <= b
    ensures |a| <= |b|
  {
    assert b == a + (b - a);
  }

  lemma PrunedIsSmaller(ws: Windows, now: int)
    ensures |Pruned(ws, now)| <= |ws|
  {
    SubsetIsSmaller(Pruned(ws, now).Keys, ws.Keys);
  }

  /** Whatever one call does, a counter still inside its window is there afterwards, and every
      counter but the called one is as it was. */
  lemma LiveCountersStay(ws: Windows, capacity: nat, now: int, key: Key, rule: Rule, k: Key)
    requires k in ws && !Over(ws[k], now)
    ensures var ws' := Consumed(ws, capacity, now, key, rule).0;
      k in ws' && (k != key ==> ws'[k] == ws[k])
  {
  }

  /** A look tells what a use would answer, unless memory runs out, and how much it would leave. */
  lemma PeekForetells(ws: Windows, capacity: nat, now: int, key: Key, rule: Rule)
    requires rule.limit >= 1
    ensures var p, a := Peeked(ws, now, key, rule), Consumed(ws, capacity, now, key, rule).1;
      || (p.Allowed? && a == Allowed(p.remaining - 1))
      || (p.Refused? && a == p)
      || (key !in ws && a == Refused(rule.windowMs, true))
  {
  }

  // ---- pruning and the cap are invisible ----

  /** The limiter with unbounded memory that forgets nothing. */
  function Unpruned(us: Windows, now: int, key: Key, rule: Rule): (Windows, Answer) {
    if key in us && now - us[key].startedAt < rule.windowMs then
      if us[key].count >= rule.limit then
        (us, Refused(Max(0, us[key].startedAt + rule.windowMs - now), false))
      else
        (us[key := us[key].(count := us[key].count + 1)], Allowed(rule.limit - (us[key].count + 1)))
    else
      (us[key := Window(now, 1, rule.windowMs)], Allowed(rule.limit - 1))
  }

  /** What was forgotten is over, what was kept is the same. */
  ghost predicate Forgets(ws: Windows, us: Windows, now: int) {
    && (forall k | k in ws :: k in us && us[k] == ws[k])
    && (forall k | k in us && k !in ws :: Over(us[k], now))
  }

  /** Every counter was opened under its own bucket's rule. */
  ghost predicate OwnRules(ws: Windows, rules: string -> Rule) {
    forall k | k in ws :: ws[k].windowMs == rules(k.bucket).windowMs
  }

  /** One call of both: unless the bounded one is saturated they answer alike. */
  lemma SameAnswer(ws: Windows, us: Windows, capacity: nat, before: int, now: int, key: Key, rules: string -> Rule)
    requires before <= now && Forgets(ws, us, before) && OwnRules(us, rules)
    ensures var rule := rules(key.bucket);
      var (ws', a) := Consumed(ws, capacity, now, key, rule);
      var (us', b) := Unpruned(us, now, key, rule);
      if a.Refused? && a.saturated then Forgets(ws', us, now)
      else a == b && Forgets(ws', us', now) && OwnRules(us', rules)
  {
    var rule := rules(key.bucket);
    var (ws', a) := Consumed(ws, capacity, now, key, rule);
    assert forall k | k in us && k !in ws :: Over(us[k], now);
    if key in ws {
      assert us[key] == ws[key];
    }
  }

  // ---- runs ----

  datatype Call = Use(now: int, key: Key) | Forget(now: int, key: Key)

  datatype Moment = Moment(ws: Windows, us: Windows, answer: Answer)

  /** The bounded limiter beside the unbounded one, which is not shown what saturation refused. */
  function Step(m: Moment, capacity: nat, call: Call, rules: string -> Rule): Moment {
    match call
    case Use(now, key) =>
      var (ws', a) := Consumed(m.ws, capacity, now, key, rules(key.bucket));
      if a.Refused? && a.saturated then Moment(ws', m.us, a)
      else Moment(ws', Unpruned(m.us, now, key, rules(key.bucket)).0, a)
    case Forget(now, key) => Moment(m.ws - {key}, m.us - {key}, m.answer)
  }

  ghost predicate IsRun(ms: seq<Moment>, calls: seq<Call>, capacity: nat, rules: string -> Rule) {
    && |ms| == |calls| + 1 && ms[0].ws == map[] && ms[0].us == map[]
    && (forall i | 0 <= i < |calls| :: Follows(ms, calls, capacity, rules, i))
  }

  /** Call `i` leads to the next moment, and the clock does not go back. */
  ghost predicate Follows(ms: seq<Moment>, calls: seq<Call>, capacity: nat, rules: string -> Rule, i: nat)
    requires |ms| == |calls| + 1 && i < |calls|
  {
    ms[i + 1] == Step(ms[i], capacity, calls[i], rules) && Clock(calls, i) <= calls[i].now
  }

  function Clock(calls: seq<Call>, n: nat): int
    requires n <= |calls|
  {
    if n == 0 then (if calls == [] then 0 else calls[0].now) else calls[n - 1].now
  }

  ghost predicate Safe(m: Moment, capacity: nat, rules: string -> Rule, clock: int) {
    |m.ws| <= capacity && Forgets(m.ws, m.us, clock) && OwnRules(m.us, rules)
  }

  lemma StepIsSafe(m: Moment, capacity: nat, call: Call, rules: string -> Rule, clock: int)
    requires Safe(m, capacity, rules, clock) && clock <= call.now
    ensures Safe(Step(m, capacity, call, rules), capacity, rules, call.now)
  {
    match call {
      case Use(now, key) =>
        ConsumeFits(m.ws, capacity, now, key, rules(key.bucket));
        SameAnswer(m.ws, m.us, capacity, clock, now, key, rules);
      case Forget(now, key) =>
        SubsetIsSmaller((m.ws - {key}).Keys, m.ws.Keys);
    }
  }

  lemma {:induction false} RunIsSafe(ms: seq<Moment>, calls: seq<Call>, capacity: nat, rules: string -> Rule, n: nat)
    requires IsRun(ms, calls, capacity, rules) && n <= |calls|
    ensures Safe(ms[n], capacity, rules, Clock(calls, n))
  {
    if n > 0 {
      RunIsSafe(ms, calls, capacity, rules, n - 1);
      FollowsSafely(ms, calls, capacity, rules, n - 1);
    }
  }

  lemma FollowsSafely(ms: seq<Moment>, calls: seq<Call>, capacity: nat, rules: string -> Rule, n: nat)
    requires IsRun(ms, calls, capacity, rules) && n < |calls| && Safe(ms[n], capacity, rules, Clock(calls, n))
    ensures Safe(ms[n + 1], capacity, rules, Clock(calls, n + 1))
  {
    assert Follows(ms, calls, capacity, rules, n);
    var m', call := ms[n + 1], calls[n];
    StepIsSafe(ms[n], capacity, call, rules, Clock(calls, n));
    assert m' == Step(ms[n], capacity, call, rules);
  }

  /** Over any run the bounded limiter gives every answer the unbounded one would have given,
      except where it says itself that it is saturated. */
  lemma BoundedMatchesUnbounded(ms: seq<Moment>, calls: seq<Call>, capacity: nat, rules: string -> Rule, n: nat)
    requires IsRun(ms, calls, capacity, rules) && n < |calls| && calls[n].Use?
    ensures |ms[n + 1].ws| <= capacity
    ensures var a := ms[n + 1].answer;
      (a.Refused? && a.saturated)
      || a == Unpruned(ms[n].us, calls[n].now, calls[n].key, rules(calls[n].key.bucket)).1
  {
    RunIsSafe(ms, calls, capacity, rules, n);
    RunIsSafe(ms, calls, capacity, rules, n + 1);
    assert Follows(ms, calls, capacity, rules, n);
    SameAnswer(ms[n].ws, ms[n].us, capacity, Clock(calls, n), calls[n].now, calls[n].key, rules);
  }

  // ---- how long a refusal lasts ----

  /** The full counter `w` is as it was, or has been dropped because it was over. */
  ghost predicate Full(ws: Windows, key: Key, w: Window, clock: int) {
    if key in ws then ws[key] == w else Over(w, clock)
  }

  lemma FullStays(m: Moment, capacity: nat, call: Call, rules: string -> Rule, key: Key, w: Window, clock: int)
    requires Full(m.ws, key, w, clock) && clock <= call.now
    requires w.windowMs == rules(key.bucket).windowMs && w.count >= rules(key.bucket).limit
    requires call.key == key ==> call.Use? && !Over(w, call.now)
    ensures Full(Step(m, capacity, call, rules).ws, key, w, call.now)
  {
    if call.Use? && key in m.ws && !Over(w, call.now) {
      LiveCountersStay(m.ws, capacity, call.now, call.key, rules(call.key.bucket), key);
    }
  }

  /** A refusal that is not saturation comes from a full counter and tells when its window closes. */
  lemma RefusedByFull(ws: Windows, capacity: nat, now: int, key: Key, rule: Rule)
    requires key in ws ==> ws[key].windowMs == rule.windowMs
    requires var a := Consumed(ws, capacity, now, key, rule).1; a.Refused? && !a.saturated
    ensures var (ws', a) := Consumed(ws, capacity, now, key, rule);
      && ws' == ws && key in ws && ws[key].count >= rule.limit && a.retryAfterMs > 0
      && now + a.retryAfterMs == ws[key].startedAt + rule.windowMs
  {
  }

  /** From call `i` on the key is at most tried again, and only before `deadline`. */
  ghost predicate OnlyRetried(calls: seq<Call>, i: nat, j: nat, key: Key, deadline: int) {
    forall k | i < k < j && k < |calls| && calls[k].key == key :: calls[k].Use? && calls[k].now < deadline
  }

  lemma {:induction false} RefusalStands(ms: seq<Moment>, calls: seq<Call>, capacity: nat, rules: string -> Rule,
                                         i: nat, j: nat, key: Key, w: Window)
    requires IsRun(ms, calls, capacity, rules) && i < j <= |calls|
    requires w.windowMs == rules(key.bucket).windowMs && w.count >= rules(key.bucket).limit
    requires Full(ms[i + 1].ws, key, w, calls[i].now)
    requires OnlyRetried(calls, i, j, key, w.startedAt + w.windowMs)
    ensures Full(ms[j].ws, key, w, Clock(calls, j))
  {
    if j > i + 1 {
      RefusalStands(ms, calls, capacity, rules, i, j - 1, key, w);
      assert Follows(ms, calls, capacity, rules, j - 1);
      FullStays(ms[j - 1], capacity, calls[j - 1], rules, key, w, Clock(calls, j - 1));
    }
  }

  /** Over any run, whatever other keys are used or forgotten in between and however often this one
      is tried again in vain, the refusal of call `i` told the earliest time of success exactly: the
      same key at call `j` is refused until then, with what is left to wait, and from then on is
      permitted unless memory is full. */
  lemma RetryIsExact(ms: seq<Moment>, calls: seq<Call>, capacity: nat, rules: string -> Rule, i: nat, j: nat)
    requires IsRun(ms, calls, capacity, rules) && i < j < |calls|
    requires calls[i].Use? && calls[j].Use? && calls[j].key == calls[i].key
    requires rules(calls[i].key.bucket).limit >= 1
    requires ms[i + 1].answer.Refused? && !ms[i + 1].answer.saturated
    requires OnlyRetried(calls, i, j, calls[i].key, calls[i].now + ms[i + 1].answer.retryAfterMs)
    ensures ms[i + 1].answer.retryAfterMs > 0
    ensures var deadline, rule := calls[i].now + ms[i + 1].answer.retryAfterMs, rules(calls[i].key.bucket);
      if calls[j].now < deadline then ms[j + 1].answer == Refused(deadline - calls[j].now, false)
      else ms[j + 1].answer == Allowed(rule.limit - 1) || ms[j + 1].answer == Refused(rule.windowMs, true)
  {
    var key := calls[i].key;
    var rule := rules(key.bucket);
    RunIsSafe(ms, calls, capacity, rules, i);
    assert Follows(ms, calls, capacity, rules, i);
    RefusedByFull(ms[i].ws, capacity, calls[i].now, key, rule);
    RefusalStands(ms, calls, capacity, rules, i, j, key, ms[i].ws[key]);
    assert Follows(ms, calls, capacity, rules, j);
  }

  // ---- how many events a stretch of time can hold ----

  /** A permitted event: when, and the start of the window it was counted in. */
  datatype Stamp = Stamp(at: int, window: int)

  /** Events whose window starts in `[lo, hi]`. */
  function InWindows(h: seq<Stamp>, lo: int, hi: int): nat {
    if h == [] then 0
    else (if lo <= h[|h| - 1].window <= hi then 1 else 0) + InWindows(h[..|h| - 1], lo, hi)
  }

  /** Events in `[lo, hi]`. */
  function During(h: seq<Stamp>, lo: int, hi: int): nat {
    if h == [] then 0
    else (if lo <= h[|h| - 1].at <= hi then 1 else 0) + During(h[..|h| - 1], lo, hi)
  }

  /** Events lie in their windows. */
  ghost predicate Inside(h: seq<Stamp>, rule: Rule) {
    forall i | 0 <= i < |h| :: h[i].window <= h[i].at < h[i].window + rule.windowMs
  }

  /** Windows come in order and do not overlap. */
  ghost predicate Apart(h: seq<Stamp>, rule: Rule) {
    forall i, j | 0 <= i < j < |h| ::
      h[j].window == h[i].window || h[j].window >= h[i].window + rule.windowMs
  }

  /** No window holds more than the limit. */
  ghost predicate Capped(h: seq<Stamp>, rule: Rule) {
    forall s :: InWindows(h, s, s) <= rule.limit
  }

  /** A window starts with an event of its own. */
  ghost predicate Opened(h: seq<Stamp>) {
    forall i | 0 <= i < |h| :: h[i].at == h[i].window || (i > 0 && h[i - 1].window == h[i].window)
  }

  ghost predicate Windowed(h: seq<Stamp>, rule: Rule) {
    Inside(h, rule) && Apart(h, rule) && Capped(h, rule) && Opened(h)
  }

  lemma {:induction false} SplitCount(h: seq<Stamp>, lo: int, mid: int, hi: int)
    requires lo <= mid <= hi + 1
    ensures InWindows(h, lo, hi) == InWindows(h, lo, mid - 1) + InWindows(h, mid, hi)
  {
    if h != [] { SplitCount(h[..|h| - 1], lo, mid, hi); }
  }

  lemma {:induction false} SomeIn(h: seq<Stamp>, lo: int, hi: int) returns (i: nat)
    requires InWindows(h, lo, hi) > 0
    ensures i < |h| && lo <= h[i].window <= hi
  {
    if lo <= h[|h| - 1].window <= hi { i := |h| - 1; } else { i := SomeIn(h[..|h| - 1], lo, hi); }
  }

  lemma {:induction false} OnlyOne(h: seq<Stamp>, lo: int, hi: int, s: int)
    requires lo <= s <= hi && forall i | 0 <= i < |h| && lo <= h[i].window <= hi :: h[i].window == s
    ensures InWindows(h, lo, hi) == InWindows(h, s, s)
  {
    if h != [] { OnlyOne(h[..|h| - 1], lo, hi, s); }
  }

  /** A strip as wide as a window holds the events of at most one window. */
  lemma StripBound(h: seq<Stamp>, rule: Rule, lo: int)
    requires Windowed(h, rule) && rule.windowMs >= 1
    ensures InWindows(h, lo, lo + rule.windowMs - 1) <= rule.limit
  {
    var hi := lo + rule.windowMs - 1;
    if InWindows(h, lo, hi) > 0 {
      var i := SomeIn(h, lo, hi);
      OnlyOne(h, lo, hi, h[i].window);
    }
  }

  lemma {:induction false} EmptyStrip(h: seq<Stamp>, lo: int, hi: int)
    requires hi < lo
    ensures InWindows(h, lo, hi) == 0
  {
    if h != [] { EmptyStrip(h[..|h| - 1], lo, hi); }
  }

  function Times(n: nat, x: int): int { if n == 0 then 0 else Times(n - 1, x) + x }

  lemma {:induction false} TimesIsProduct(n: nat, x: int)
    ensures Times(n, x) == n * x
  {
    if n > 0 { TimesIsProduct(n - 1, x); }
  }

  lemma {:induction false} TimesIsNatural(n: nat, x: nat)
    ensures Times(n, x) >= 0
  {
    if n > 0 { TimesIsNatural(n - 1, x); }
  }

  /** `n` strips cover `[lo, hi]`, so it holds at most `n` windows. */
  lemma {:induction false} StripsBound(h: seq<Stamp>, rule: Rule, lo: int, hi: int, n: nat)
    requires Windowed(h, rule) && rule.windowMs >= 1 && hi < lo + Times(n, rule.windowMs)
    ensures InWindows(h, lo, hi) <= Times(n, rule.limit)
    decreases n
  {
    TimesIsNatural(n, rule.limit);
    if n == 0 || hi < lo {
      EmptyStrip(h, lo, hi);
    } else {
      TimesIsNatural(n - 1, rule.limit);
      FirstStrip(h, rule, lo, hi);
      if lo + rule.windowMs <= hi { StripsBound(h, rule, lo + rule.windowMs, hi, n - 1); }
    }
  }

  lemma FirstStrip(h: seq<Stamp>, rule: Rule, lo: int, hi: int)
    requires Windowed(h, rule) && rule.windowMs >= 1 && lo <= hi
    ensures var next := lo + rule.windowMs;
      InWindows(h, lo, hi) <= rule.limit + if next <= hi then InWindows(h, next, hi) else 0
  {
    var next := lo + rule.windowMs;
    StripBound(h, rule, lo);
    if next <= hi {
      SplitCount(h, lo, next, hi);
    } else {
      SplitCount(h, lo, hi + 1, next - 1);
    }
  }

  lemma {:induction false} DuringIsInWindows(h: seq<Stamp>, rule: Rule, lo: int, hi: int)
    requires Inside(h, rule)
    ensures During(h, lo, hi) <= InWindows(h, lo - rule.windowMs + 1, hi)
  {
    if h != [] { DuringIsInWindows(h[..|h| - 1], rule, lo, hi); }
  }

  /** An interval shorter than `n` windows meets at most `n + 1` of them. */
  lemma IntervalBound(h: seq<Stamp>, rule: Rule, lo: int, hi: int, n: nat)
    requires Windowed(h, rule) && rule.windowMs >= 1 && hi - lo <= n * rule.windowMs
    ensures During(h, lo, hi) <= (n + 1) * rule.limit
  {
    DuringIsInWindows(h, rule, lo, hi);
    TimesIsProduct(n, rule.windowMs);
    TimesIsProduct(n + 1, rule.limit);
    StripsBound(h, rule, lo - rule.windowMs + 1, hi, n + 1);
  }

  lemma {:induction false} CountsTwo(h: seq<Stamp>, i: nat, j: nat)
    requires i < j < |h| && h[i].window == h[j].window
    ensures InWindows(h, h[i].window, h[i].window) >= 2
  {
    if j < |h| - 1 {
      CountsTwo(h[..|h| - 1], i, j);
    } else {
      CountsOne(h[..|h| - 1], i);
    }
  }

  lemma {:induction false} CountsOne(h: seq<Stamp>, i: nat)
    requires i < |h|
    ensures InWindows(h, h[i].window, h[i].window) >= 1
  {
    if i < |h| - 1 { CountsOne(h[..|h| - 1], i); }
  }

  /** A limit of one is a minimum distance. */
  lemma OneIsACooldown(h: seq<Stamp>, rule: Rule, i: nat, j: nat)
    requires Windowed(h, rule) && rule.limit == 1 && i < j < |h|
    ensures h[j].at - h[i].at >= rule.windowMs
  {
    StartsItsWindow(h, rule, i);
    StartsItsWindow(h, rule, j);
    assert InWindows(h, h[i].window, h[i].window) <= 1;
    if h[i].window == h[j].window {
      CountsTwo(h, i, j);
    }
  }

  lemma StartsItsWindow(h: seq<Stamp>, rule: Rule, i: nat)
    requires Windowed(h, rule) && rule.limit == 1 && i < |h|
    ensures h[i].at == h[i].window
  {
    assert InWindows(h, h[i].window, h[i].window) <= 1;
    if i > 0 && h[i - 1].window == h[i].window {
      CountsTwo(h, i - 1, i);
    }
  }

  function CounterAt(ws: Windows, k: Key): Option<Window> {
    if k in ws then Some(ws[k]) else None
  }

  /** What one key's counter, or its absence, says about the events permitted so far. */
  ghost predicate Remembers(counter: Option<Window>, h: seq<Stamp>, rule: Rule, clock: int) {
    && Windowed(h, rule)
    && (counter.Some? ==> Tallies(counter.value, h, rule, clock))
    && (counter.None? ==> Closed(h, rule, clock))
  }

  ghost predicate Tallies(w: Window, h: seq<Stamp>, rule: Rule, clock: int) {
    && h != [] && w.windowMs == rule.windowMs && w.startedAt == h[|h| - 1].window
    && w.startedAt <= clock && w.count == InWindows(h, w.startedAt, w.startedAt)
  }

  ghost predicate Closed(h: seq<Stamp>, rule: Rule, now: int) {
    h != [] ==> h[|h| - 1].window + rule.windowMs <= now
  }

  lemma {:induction false} NoneAt(h: seq<Stamp>, s: int)
    requires forall i | 0 <= i < |h| :: h[i].window != s
    ensures InWindows(h, s, s) == 0
  {
    if h != [] { NoneAt(h[..|h| - 1], s); }
  }

  lemma AppendKeepsCapped(h: seq<Stamp>, e: Stamp, rule: Rule)
    requires Capped(h, rule) && InWindows(h, e.window, e.window) < rule.limit
    ensures Capped(h + [e], rule)
  {
    forall s ensures InWindows(h + [e], s, s) <= rule.limit { }
  }

  /** A permitted event that opens a window. */
  lemma OpenWindow(h: seq<Stamp>, rule: Rule, now: int)
    requires Windowed(h, rule) && rule.limit >= 1 && rule.windowMs >= 1 && Closed(h, rule, now)
    ensures Remembers(Some(Window(now, 1, rule.windowMs)), h + [Stamp(now, now)], rule, now)
  {
    var e := Stamp(now, now);
    assert forall i | 0 <= i < |h| :: h[i].window + rule.windowMs <= now;
    NoneAt(h, now);
    assert Inside(h + [e], rule) && Apart(h + [e], rule) && Opened(h + [e]);
    AppendKeepsCapped(h, e, rule);
  }

  /** The events of `k` after one more call at `now`. */
  function Recorded(ws: Windows, capacity: nat, h: seq<Stamp>, now: int, key: Key, rule: Rule, k: Key): seq<Stamp> {
    var (ws', a) := Consumed(ws, capacity, now, key, rule);
    if key == k && a.Allowed? then h + [Stamp(now, if k in ws' then ws'[k].startedAt else now)] else h
  }

  lemma OtherCounters(ws: Windows, capacity: nat, now: int, key: Key, rule: Rule, k: Key)
    requires key != k || Consumed(ws, capacity, now, key, rule).1.Refused?
    ensures var c, c' := CounterAt(ws, k), CounterAt(Consumed(ws, capacity, now, key, rule).0, k);
      c' == c || (c.Some? && Over(c.value, now) && c'.None?)
  {
  }

  lemma OwnCounter(ws: Windows, capacity: nat, now: int, k: Key, rule: Rule)
    requires Consumed(ws, capacity, now, k, rule).1.Allowed?
    ensures CounterAt(Consumed(ws, capacity, now, k, rule).0, k) == Some(
      if k in ws && now - ws[k].startedAt < rule.windowMs then ws[k].(count := ws[k].count + 1)
      else Window(now, 1, rule.windowMs))
    ensures k in ws && now - ws[k].startedAt < rule.windowMs ==> ws[k].count < rule.limit
  {
  }

  /** A permitted event in the window that is open. */
  lemma SameWindow(w: Window, h: seq<Stamp>, rule: Rule, clock: int, now: int)
    requires Remembers(Some(w), h, rule, clock) && clock <= now
    requires now - w.startedAt < rule.windowMs && w.count < rule.limit
    ensures Remembers(Some(w.(count := w.count + 1)), h + [Stamp(now, w.startedAt)], rule, now)
  {
    var e := Stamp(now, w.startedAt);
    assert (h + [e])[..|h|] == h;
    assert Inside(h + [e], rule) && Apart(h + [e], rule) && Opened(h + [e]);
    AppendKeepsCapped(h, e, rule);
  }

  /** With another key's call, or a refusal, the account stands. */
  lemma TimePasses(c: Option<Window>, c': Option<Window>, h: seq<Stamp>, rule: Rule, clock: int, now: int)
    requires Remembers(c, h, rule, clock) && clock <= now
    requires c' == c || (c.Some? && Over(c.value, now) && c'.None?)
    ensures Remembers(c', h, rule, now)
  {
  }

  /** A window that is over, or none: everything counted before is closed. */
  lemma ClosedByNow(c: Option<Window>, h: seq<Stamp>, rule: Rule, clock: int, now: int)
    requires Remembers(c, h, rule, clock) && clock <= now && (c.Some? ==> now - c.value.startedAt >= rule.windowMs)
    ensures Closed(h, rule, now)
  {
  }

  /** One call, on this key or another, keeps the account. */
  lemma ConsumeRemembers(ws: Windows, capacity: nat, h: seq<Stamp>, clock: int, now: int, key: Key, rule: Rule,
                         k: Key, own: Rule)
    requires Remembers(CounterAt(ws, k), h, own, clock) && clock <= now && own.limit >= 1 && own.windowMs >= 1
    requires key == k ==> rule == own
    ensures Remembers(CounterAt(Consumed(ws, capacity, now, key, rule).0, k),
                      Recorded(ws, capacity, h, now, key, rule, k), own, now)
  {
    if key == k && Consumed(ws, capacity, now, key, rule).1.Allowed? {
      OwnCounter(ws, capacity, now, k, rule);
      if k in ws && now - ws[k].startedAt < rule.windowMs {
        SameWindow(ws[k], h, own, clock, now);
      } else {
        ClosedByNow(CounterAt(ws, k), h, own, clock, now);
        OpenWindow(h, own, now);
      }
    } else {
      OtherCounters(ws, capacity, now, key, rule, k);
      TimePasses(CounterAt(ws, k), CounterAt(Consumed(ws, capacity, now, key, rule).0, k), h, own, clock, now);
    }
  }

  /** The events of `k` so far, after one more call of a run. */
  function Extended(h: seq<Stamp>, m: Moment, capacity: nat, call: Call, rules: string -> Rule, k: Key): seq<Stamp> {
    if call.Use? then Recorded(m.ws, capacity, h, call.now, call.key, rules(call.key.bucket), k) else h
  }

  ghost function HistoryOf(ms: seq<Moment>, calls: seq<Call>, capacity: nat, rules: string -> Rule, k: Key, n: nat): seq<Stamp>
    requires |ms| == |calls| + 1 && n <= |calls|
  {
    if n == 0 then []
    else Extended(HistoryOf(ms, calls, capacity, rules, k, n - 1), ms[n - 1], capacity, calls[n - 1], rules, k)
  }

  lemma StepRemembers(m: Moment, capacity: nat, call: Call, rules: string -> Rule, k: Key, h: seq<Stamp>, clock: int)
    requires Remembers(CounterAt(m.ws, k), h, rules(k.bucket), clock) && clock <= call.now
    requires rules(k.bucket).limit >= 1 && rules(k.bucket).windowMs >= 1
    requires call.Forget? ==> call.key != k
    ensures Remembers(CounterAt(Step(m, capacity, call, rules).ws, k), Extended(h, m, capacity, call, rules, k),
                      rules(k.bucket), call.now)
  {
    if call.Use? {
      ConsumeRemembers(m.ws, capacity, h, clock, call.now, call.key, rules(call.key.bucket), k, rules(k.bucket));
    } else {
      assert CounterAt(m.ws - {call.key}, k) == CounterAt(m.ws, k);
    }
  }

  lemma {:induction false} RunRemembers(ms: seq<Moment>, calls: seq<Call>, capacity: nat, rules: string -> Rule, k: Key, n: nat)
    requires IsRun(ms, calls, capacity, rules) && n <= |calls|
    requires rules(k.bucket).limit >= 1 && rules(k.bucket).windowMs >= 1
    requires forall i | 0 <= i < |calls| && calls[i].Forget? :: calls[i].key != k
    ensures Remembers(CounterAt(ms[n].ws, k), HistoryOf(ms, calls, capacity, rules, k, n), rules(k.bucket), Clock(calls, n))
  {
    if n > 0 {
      RunRemembers(ms, calls, capacity, rules, k, n - 1);
      assert Follows(ms, calls, capacity, rules, n - 1);
      StepRemembers(ms[n - 1], capacity, calls[n - 1], rules, k,
                    HistoryOf(ms, calls, capacity, rules, k, n - 1), Clock(calls, n - 1));
    }
  }

  /** Over any run without resets of the key: an interval no longer than `n` windows sees at most
      `n + 1` times the limit, so one window's length sees at most twice the limit. */
  lemma BurstBound(ms: seq<Moment>, calls: seq<Call>, capacity: nat, rules: string -> Rule, k: Key, m: nat,
                   lo: int, hi: int, n: nat)
    requires IsRun(ms, calls, capacity, rules) && m <= |calls|
    requires rules(k.bucket).limit >= 1 && rules(k.bucket).windowMs >= 1
    requires forall i | 0 <= i < |calls| && calls[i].Forget? :: calls[i].key != k
    requires hi - lo <= n * rules(k.bucket).windowMs
    ensures During(HistoryOf(ms, calls, capacity, rules, k, m), lo, hi) <= (n + 1) * rules(k.bucket).limit
  {
    RunRemembers(ms, calls, capacity, rules, k, m);
    IntervalBound(HistoryOf(ms, calls, capacity, rules, k, m), rules(k.bucket), lo, hi, n);
  }

  // ---- the answer, from the events alone ----

  /** The window the last permitted event was counted in has not closed. */
  predicate StillOpen(h: seq<Stamp>, rule: Rule, now: int) { h != [] && now < h[|h| - 1].window + rule.windowMs }

  /** How many counters are inside their windows. */
  function Busy(ws: Windows, now: int): nat { |set k | k in ws && now < ws[k].startedAt + ws[k].windowMs| }

  lemma BusyIsPruned(ws: Windows, now: int)
    ensures |Pruned(ws, now)| == Busy(ws, now)
  {
    assert Pruned(ws, now).Keys == set k | k in ws && now < ws[k].startedAt + ws[k].windowMs;
  }

  lemma RememberedAnswer(ws: Windows, capacity: nat, h: seq<Stamp>, clock: int, now: int, key: Key, rule: Rule)
    requires Remembers(CounterAt(ws, key), h, rule, clock) && clock <= now && rule.limit >= 1 && rule.windowMs >= 1
    ensures var a := Consumed(ws, capacity, now, key, rule).1;
      if StillOpen(h, rule, now) then
        var since := h[|h| - 1].window;
        var made := InWindows(h, since, since);
        a == if made < rule.limit then Allowed(rule.limit - made - 1) else Refused(since + rule.windowMs - now, false)
      else if key !in ws && Busy(ws, now) >= capacity then a == Refused(rule.windowMs, true)
      else a == Allowed(rule.limit - 1)
    ensures Recorded(ws, capacity, h, now, key, rule, key)
         == if Consumed(ws, capacity, now, key, rule).1.Allowed? then
              h + [Stamp(now, if StillOpen(h, rule, now) then h[|h| - 1].window else now)]
            else h
  {
    BusyIsPruned(ws, now);
  }

  /** Over any run without resets of the key its answers follow from its permitted events: while the window
      of the last one is open, one more is permitted exactly if fewer than the limit were, and a refusal
      says when it closes; otherwise a new window opens, unless the key has no counter and memory is full. */
  lemma AnswerExactly(ms: seq<Moment>, calls: seq<Call>, capacity: nat, rules: string -> Rule, n: nat)
    requires IsRun(ms, calls, capacity, rules) && n < |calls| && calls[n].Use?
    requires rules(calls[n].key.bucket).limit >= 1 && rules(calls[n].key.bucket).windowMs >= 1
    requires forall i | 0 <= i < |calls| && calls[i].Forget? :: calls[i].key != calls[n].key
    ensures var key, now, a := calls[n].key, calls[n].now, ms[n + 1].answer;
      var rule, h := rules(key.bucket), HistoryOf(ms, calls, capacity, rules, key, n);
      && (if StillOpen(h, rule, now) then
            var since := h[|h| - 1].window;
            var made := InWindows(h, since, since);
            a == if made < rule.limit then Allowed(rule.limit - made - 1) else Refused(since + rule.windowMs - now, false)
          else if key !in ms[n].ws && Busy(ms[n].ws, now) >= capacity then a == Refused(rule.windowMs, true)
          else a == Allowed(rule.limit - 1))
      && HistoryOf(ms, calls, capacity, rules, key, n + 1)
         == if a.Allowed? then h + [Stamp(now, if StillOpen(h, rule, now) then h[|h| - 1].window else now)] else h
  {
    var key := calls[n].key;
    RunRemembers(ms, calls, capacity, rules, key, n);
    assert Follows(ms, calls, capacity, rules, n);
    RememberedAnswer(ms[n].ws, capacity, HistoryOf(ms, calls, capacity, rules, key, n), Clock(calls, n), calls[n].now,
                     key, rules(key.bucket));
  }

  /** A key without a counter. */
  lemma AbsentAnswer(ws: Windows, capacity: nat, now: int, key: Key, rule: Rule)
    requires key !in ws
    ensures Consumed(ws, capacity, now, key, rule).1
         == if Busy(ws, now) >= capacity then Refused(rule.windowMs, true) else Allowed(rule.limit - 1)
  {
    BusyIsPruned(ws, now);
  }

  /** A key that has been reset starts afresh. */
  lemma ResetIsFresh(ws: Windows, capacity: nat, now: int, key: Key, rule: Rule)
    ensures Consumed(ws - {key}, capacity, now, key, rule).1
         == if Busy(ws - {key}, now) >= capacity then Refused(rule.windowMs, true) else Allowed(rule.limit - 1)
  {
    AbsentAnswer(ws - {key}, capacity, now, key, rule);
  }
}
