/** The per-host limiter: a token semaphore, spacing of requests under a held lock, and temporary
    throttles that timers and readers take back. All steps of all callers of one host. */
module HostLimiter {
  import opened GoText

  type Time = int

  // ---------- The fields guarded by the host's lock ----------

  datatype Fields = Fields(base: int, throttle: int, until: Option<Time>, version: nat)

  /** Drops a throttle that has run out. */
  function Refreshed(f: Fields, now: Time): Fields {
    if f.until.Some? && now >= f.until.value then f.(throttle := 0, until := None) else f
  }

  function Effective(f: Fields, now: Time): int {
    var r := Refreshed(f, now);
    if r.throttle > r.base then r.throttle else r.base
  }

  predicate IsAfter(t: Time, until: Option<Time>) {
    until.None? || t > until.value
  }

  predicate Extends(f: Fields, dur: int, expires: Time) {
    dur > f.throttle || IsAfter(expires, f.until)
  }

  function Throttled(f: Fields, dur: int, expires: Time): Fields {
    if !Extends(f, dur, expires) then f
    else f.(throttle := if dur > f.throttle then dur else f.throttle,
            until := if IsAfter(expires, f.until) then Some(expires) else f.until,
            version := f.version + 1)
  }

  /** The callback of the timer that was started for `version`. */
  function Fired(f: Fields, version: nat, now: Time): Fields {
    if f.version == version && (f.until.None? || now >= f.until.value) then f.(throttle := 0, until := None) else f
  }

  class HostState {
    var baseDelay: int
    var throttleDelay: int
    var throttleUntil: Option<Time>
    var throttleVersion: nat

    ghost function Value(): Fields
      reads this
    {
      Fields(baseDelay, throttleDelay, throttleUntil, throttleVersion)
    }

    constructor ()
      ensures Value() == Fields(0, 0, None, 0)
    {
      baseDelay, throttleDelay, throttleUntil, throttleVersion := 0, 0, None, 0;
    }

    method EffectiveDelayLocked(now: Time) returns (delay: int)
      modifies this
      ensures delay == Effective(old(Value()), now) && Value() == Refreshed(old(Value()), now)
    {
      if throttleUntil.Some? && now >= throttleUntil.value {
        throttleDelay := 0;
        throttleUntil := None;
      }
      if throttleDelay > baseDelay {
        return throttleDelay;
      }
      return baseDelay;
    }

    method SetCrawlDelay(delay: int)
      modifies this
      ensures Value() == old(Value()).(base := delay)
    {
      baseDelay := delay;
    }

    /** `ThrottleHost` from taking the lock on; answers the version for the timer, if one is started. */
    method ThrottleLocked(dur: int, expires: Time) returns (started: Option<nat>)
      modifies this
      ensures Value() == Throttled(old(Value()), dur, expires)
      ensures started == if Extends(old(Value()), dur, expires) then Some(throttleVersion) else None
    {
      if dur <= throttleDelay && !IsAfter(expires, throttleUntil) {
        return None;
      }
      if dur > throttleDelay {
        throttleDelay := dur;
      }
      if IsAfter(expires, throttleUntil) {
        throttleUntil := Some(expires);
      }
      throttleVersion := throttleVersion + 1;
      return Some(throttleVersion);
    }

    method TimerFired(version: nat, now: Time)
      modifies this
      ensures Value() == Fired(old(Value()), version, now)
    {
      if throttleVersion == version && (throttleUntil.None? || now >= throttleUntil.value) {
        throttleDelay := 0;
        throttleUntil := None;
      }
    }
  }

  // ---------- The protocol ----------

  /** Where a caller of `AcquireContext` and `Release` stands. From `Deciding` on until it is
      `Holding` or gives up, it keeps the host's lock; `delay` is what it read when it took the lock, and
      `running` are the throttles in force at that moment. */
  datatype Caller =
    | Out
    | HasToken
    | Deciding(delay: int, running: set<Call>)
    | Waiting(delay: int, running: set<Call>, due: Time)
    | Holding

  datatype Call = Call(dur: int, expires: Time)

  datatype Timer = Timer(version: nat, due: Time)

  datatype Grant = Grant(at: Time, delay: int, running: set<Call>)

  /** `asked` are throttles that have read the clock but not taken the lock, `calls` those that have. */
  datatype State = State(
    now: Time,
    tokens: int,
    lock: Option<nat>,
    callers: seq<Caller>,
    fields: Fields,
    last: Option<Time>,
    timers: set<Timer>,
    asked: set<Call>,
    calls: set<Call>,
    grants: seq<Grant>)

  datatype Action =
    | Tick(span: nat)
    | Take(i: nat)
    | Lock(i: nat)
    | Decide(i: nat)
    | WaitOver(i: nat)
    | GiveUp(i: nat)
    | Release(i: nat)
    | SetDelay(delay: int)
    | AskThrottle(dur: int)
    | ApplyThrottle(call: Call)
    | Fire(timer: Timer)

  predicate At(s: State, i: nat) {
    i < |s.callers|
  }

  predicate Enabled(s: State, a: Action) {
    match a
    case Tick(_) => true
    case Take(i) => At(s, i) && s.callers[i].Out? && s.tokens > 0
    case Lock(i) => At(s, i) && s.callers[i].HasToken? && s.lock.None?
    case Decide(i) => At(s, i) && s.callers[i].Deciding?
    case WaitOver(i) => At(s, i) && s.callers[i].Waiting? && s.now >= s.callers[i].due
    case GiveUp(i) => At(s, i) && s.callers[i].Waiting?
    case Release(i) => At(s, i) && s.callers[i].Holding?
    case SetDelay(_) => s.lock.None?
    case AskThrottle(dur) => dur > 0
    case ApplyThrottle(call) => call in s.asked && s.lock.None?
    case Fire(timer) => timer in s.timers && s.now >= timer.due && s.lock.None?
  }

  function Unexpired(calls: set<Call>, now: Time): set<Call> {
    set c | c in calls && now < c.expires
  }

  function Granted(s: State, i: nat, delay: int, running: set<Call>): State
    requires At(s, i)
  {
    s.(callers := s.callers[i := Holding], lock := None, last := Some(s.now),
        grants := s.grants + [Grant(s.now, delay, running)])
  }

  function Apply(s: State, a: Action): State
    requires Enabled(s, a)
  {
    match a
    case Tick(span) => s.(now := s.now + span)
    case Take(i) => s.(tokens := s.tokens - 1, callers := s.callers[i := HasToken])
    case Lock(i) =>
      s.(lock := Some(i), fields := Refreshed(s.fields, s.now),
         callers := s.callers[i := Deciding(Effective(s.fields, s.now), Unexpired(s.calls, s.now))])
    case Decide(i) =>
      var Deciding(delay, running) := s.callers[i];
      if delay > 0 && s.last.Some? && s.now - s.last.value < delay
      then s.(callers := s.callers[i := Waiting(delay, running, s.last.value + delay)])
      else Granted(s, i, delay, running)
    case WaitOver(i) => Granted(s, i, s.callers[i].delay, s.callers[i].running)
    case GiveUp(i) => s.(tokens := s.tokens + 1, callers := s.callers[i := Out], lock := None)
    case Release(i) => s.(tokens := s.tokens + 1, callers := s.callers[i := Out])
    case SetDelay(delay) => s.(fields := s.fields.(base := delay))
    case AskThrottle(dur) => s.(asked := s.asked + {Call(dur, s.now + dur)})
    case ApplyThrottle(call) =>
      var f := Throttled(s.fields, call.dur, call.expires);
      s.(fields := f, asked := s.asked - {call}, calls := s.calls + {call},
         timers := if f == s.fields then s.timers else s.timers + {Timer(f.version, f.until.GetOr(s.now))})
    case Fire(timer) => s.(fields := Fired(s.fields, timer.version, s.now), timers := s.timers - {timer})
  }

  ghost predicate Initial(s: State, perHost: int) {
    && s.tokens == (if perHost < 1 then 1 else perHost)
    && s.lock == None && s.last == None && s.grants == [] && s.calls == {} && s.asked == {} && s.timers == {}
    && s.fields == Fields(0, 0, None, 0)
    && forall i :: 0 <= i < |s.callers| ==> s.callers[i] == Out
  }

  ghost predicate Run(states: seq<State>, actions: seq<Action>, perHost: int) {
    && |states| == |actions| + 1 && Initial(states[0], perHost)
    && forall i :: 0 <= i < |actions| ==>
        Enabled(states[i], actions[i]) && states[i + 1] == Apply(states[i], actions[i])
  }

  // ---------- Free tokens, held slots and waiting callers ----------

  predicate OwnsToken(c: Caller) { !c.Out? }

  function Owners(callers: seq<Caller>): nat {
    if callers == [] then 0 else Owners(callers[..|callers| - 1]) + (if OwnsToken(callers[|callers| - 1]) then 1 else 0)
  }

  lemma {:induction false} OwnersAfterUpdate(callers: seq<Caller>, i: nat, c: Caller)
    requires i < |callers|
    ensures Owners(callers[i := c])
         == Owners(callers) - (if OwnsToken(callers[i]) then 1 else 0) + (if OwnsToken(c) then 1 else 0)
  {
    var last := |callers| - 1;
    if i == last {
      assert callers[i := c][..last] == callers[..last];
    } else {
      OwnersAfterUpdate(callers[..last], i, c);
      assert callers[i := c][..last] == callers[..last][i := c];
    }
  }

  lemma {:induction false} NobodyOwns(callers: seq<Caller>)
    requires forall i :: 0 <= i < |callers| ==> callers[i] == Out
    ensures Owners(callers) == 0
  {
    if callers != [] {
      NobodyOwns(callers[..|callers| - 1]);
    }
  }

  function Capacity(perHost: int): int {
    if perHost < 1 then 1 else perHost
  }

  ghost predicate TokensConserved(s: State, perHost: int) {
    s.tokens >= 0 && s.tokens + Owners(s.callers) == Capacity(perHost)
  }

  lemma TokensStep(s: State, a: Action, perHost: int)
    requires TokensConserved(s, perHost) && Enabled(s, a)
    ensures TokensConserved(Apply(s, a), perHost)
  {
    match a
    case Take(i) => OwnersAfterUpdate(s.callers, i, HasToken);
    case Lock(i) => OwnersAfterUpdate(s.callers, i, Deciding(Effective(s.fields, s.now), Unexpired(s.calls, s.now)));
    case Decide(i) =>
      OwnersAfterUpdate(s.callers, i, Holding);
      if s.last.Some? {
        OwnersAfterUpdate(s.callers, i,
            Waiting(s.callers[i].delay, s.callers[i].running, s.last.value + s.callers[i].delay));
      }
    case WaitOver(i) => OwnersAfterUpdate(s.callers, i, Holding);
    case GiveUp(i) => OwnersAfterUpdate(s.callers, i, Out);
    case Release(i) => OwnersAfterUpdate(s.callers, i, Out);
    case _ =>
  }

  // ---------- Spacing ----------

  predicate InLock(c: Caller) { c.Deciding? || c.Waiting? }

  ghost predicate LockOwned(s: State) {
    forall i: nat :: i < |s.callers| ==> (InLock(s.callers[i]) <==> s.lock == Some(i))
  }

  /** Every waiting caller wakes one delay after the last grant, which cannot move meanwhile. */
  ghost predicate WaitsFromLast(s: State) {
    forall i: nat :: i < |s.callers| && s.callers[i].Waiting? ==>
      s.last.Some? && s.callers[i].due == s.last.value + s.callers[i].delay
  }

  ghost predicate LastIsLatest(s: State) {
    && (s.last.None? <==> s.grants == [])
    && (s.grants != [] ==> s.last == Some(s.grants[|s.grants| - 1].at) && s.last.value <= s.now)
  }

  ghost predicate Spaced(grants: seq<Grant>) {
    forall k: nat :: 0 < k < |grants| ==>
        grants[k].at - grants[k - 1].at >= grants[k].delay && grants[k].at >= grants[k - 1].at
  }

  ghost predicate SpacingKept(s: State) {
    LockOwned(s) && WaitsFromLast(s) && LastIsLatest(s) && Spaced(s.grants)
  }

  lemma GrantIsSpaced(s: State, i: nat, delay: int, running: set<Call>)
    requires SpacingKept(s) && At(s, i) && InLock(s.callers[i])
    requires delay <= 0 || s.last.None? || s.now - s.last.value >= delay
    ensures SpacingKept(Granted(s, i, delay, running))
  {
    assert s.lock == Some(i);
  }

  lemma SpacingStep(s: State, a: Action)
    requires SpacingKept(s) && Enabled(s, a)
    ensures SpacingKept(Apply(s, a))
  {
    match a
    case WaitOver(i) => GrantIsSpaced(s, i, s.callers[i].delay, s.callers[i].running);
    case Decide(i) =>
      var Deciding(delay, running) := s.callers[i];
      if !(delay > 0 && s.last.Some? && s.now - s.last.value < delay) {
        GrantIsSpaced(s, i, delay, running);
      }
    case _ =>
  }

  // ---------- Throttles ----------

  /** Every throttle that is still running is covered, whatever timers have fired. */
  ghost predicate Covered(f: Fields, now: Time, calls: set<Call>) {
    forall c :: c in calls && now < c.expires ==> f.throttle >= c.dur && f.until.Some? && f.until.value >= c.expires
  }

  ghost predicate ThrottlesKept(s: State) {
    && Covered(s.fields, s.now, s.calls)
    && forall c :: c in s.asked ==> c.dur > 0
  }

  lemma ThrottleStep(s: State, a: Action)
    requires ThrottlesKept(s) && Enabled(s, a)
    ensures ThrottlesKept(Apply(s, a))
  {
    match a
    case ApplyThrottle(call) =>
      var t := Apply(s, a);
      assert call in t.calls;
      forall c | c in s.calls ensures c in t.calls {}
    case _ =>
  }

  ghost predicate Heeds(delay: int, running: set<Call>) {
    forall c :: c in running ==> delay >= c.dur
  }

  /** Everybody past the lock read a delay that heeds the throttles running then. */
  ghost predicate DelaysHeed(s: State) {
    && (forall i: nat :: i < |s.callers| && InLock(s.callers[i]) ==> Heeds(s.callers[i].delay, s.callers[i].running))
    && (forall k: nat :: k < |s.grants| ==> Heeds(s.grants[k].delay, s.grants[k].running))
  }

  lemma DelaysStep(s: State, a: Action)
    requires ThrottlesKept(s) && DelaysHeed(s) && Enabled(s, a)
    ensures DelaysHeed(Apply(s, a))
  {
    if a.Lock? {
      assert Heeds(Effective(s.fields, s.now), Unexpired(s.calls, s.now));
    }
  }

  // ---------- Over whole runs ----------

  ghost predicate Safe(s: State, perHost: int) {
    TokensConserved(s, perHost) && SpacingKept(s) && ThrottlesKept(s) && DelaysHeed(s)
  }

  /** In every run: free tokens plus callers holding or waiting for a slot equal the capacity, grants
      are spaced, and throttles are covered. */
  lemma {:induction false} EveryRunIsSafe(states: seq<State>, actions: seq<Action>, perHost: int)
    requires Run(states, actions, perHost)
    ensures forall s :: s in states ==> Safe(s, perHost)
  {
    if actions == [] {
      NobodyOwns(states[0].callers);
    } else {
      var n := |actions| - 1;
      EveryRunIsSafe(states[..n + 1], actions[..n], perHost);
      assert states[n] in states[..n + 1];
      TokensStep(states[n], actions[n], perHost);
      SpacingStep(states[n], actions[n]);
      ThrottleStep(states[n], actions[n]);
      DelaysStep(states[n], actions[n]);
      assert states == states[..n + 1] + [states[n + 1]];
    }
  }

  /** The first `k` of the callers have taken a slot. */
  function AfterTakes(n: nat, k: nat): State
    requires k <= n
  {
    State(0, n - k, None, seq(n, i => if i < k then HasToken else Out), Fields(0, 0, None, 0), None, {}, {}, {}, [])
  }

  /** As many callers as there are slots can all have one at once. */
  lemma {:induction false} AllSlotsTaken(perHost: int, k: nat) returns (states: seq<State>, actions: seq<Action>)
    requires k <= Capacity(perHost)
    ensures Run(states, actions, perHost) && states[|actions|] == AfterTakes(Capacity(perHost), k)
    ensures Owners(states[|actions|].callers) == k && states[|actions|].tokens == Capacity(perHost) - k
  {
    var n := Capacity(perHost);
    if k == 0 {
      states, actions := [AfterTakes(n, 0)], [];
      NobodyOwns(AfterTakes(n, 0).callers);
    } else {
      var before, done := AllSlotsTaken(perHost, k - 1);
      var s := AfterTakes(n, k - 1);
      var t := Apply(s, Take(k - 1));
      assert t.callers == AfterTakes(n, k).callers;
      OwnersAfterUpdate(s.callers, k - 1, HasToken);
      states, actions := before + [t], done + [Take(k - 1)];
    }
  }

  // ---------- The throttles that count ----------

  /** The calls made since throttling was last taken back, at the n-th state of a run. */
  function Since(states: seq<State>, actions: seq<Action>, n: nat): set<Call>
    requires |states| == |actions| + 1 && n <= |actions|
  {
    if n == 0 then {} else Extended(Since(states, actions, n - 1), actions[n - 1], states[n])
  }

  function Extended(since: set<Call>, a: Action, t: State): set<Call> {
    if t.fields.until.None? then {}
    else if a.ApplyThrottle? then since + {a.call}
    else since
  }

  /** The throttle is the longest of these calls and its end the latest of their ends. */
  ghost predicate Summarizes(f: Fields, since: set<Call>) {
    if f.until.None? then since == {} && f.throttle == 0
    else
      && (forall c :: c in since ==> 0 < c.dur <= f.throttle && c.expires <= f.until.value)
      && (exists c :: c in since && c.dur == f.throttle)
      && (exists c :: c in since && c.expires == f.until.value)
  }

  ghost predicate Outdated(calls: set<Call>, since: set<Call>, now: Time) {
    forall c :: c in calls && c !in since ==> c.expires <= now
  }

  lemma SummaryStep(s: State, a: Action, since: set<Call>)
    requires ThrottlesKept(s) && Enabled(s, a) && Summarizes(s.fields, since)
    requires since <= s.calls && Outdated(s.calls, since, s.now)
    ensures var t := Apply(s, a); var next := Extended(since, a, t);
            Summarizes(t.fields, next) && next <= t.calls && Outdated(t.calls, next, t.now)
  {
    match a
    case ApplyThrottle(call) =>
      var next := since + {call};
      assert call in next;
      if s.fields.until.Some? {
        var longest :| longest in since && longest.dur == s.fields.throttle;
        var latest :| latest in since && latest.expires == s.fields.until.value;
        assert longest in next && latest in next;
      }
    case _ =>
  }

  lemma {:induction false} SinceSummarizes(states: seq<State>, actions: seq<Action>, perHost: int, n: nat)
    requires Run(states, actions, perHost) && n <= |actions|
    ensures Summarizes(states[n].fields, Since(states, actions, n))
    ensures Since(states, actions, n) <= states[n].calls
    ensures Outdated(states[n].calls, Since(states, actions, n), states[n].now)
  {
    if n > 0 {
      SinceSummarizes(states, actions, perHost, n - 1);
      EveryRunIsSafe(states, actions, perHost);
      assert Safe(states[n - 1], perHost);
      SummaryStep(states[n - 1], actions[n - 1], Since(states, actions, n - 1));
    }
  }

  /** `delay` is the larger of the base and the longest of the calls. */
  ghost predicate IsLargest(delay: int, base: int, calls: set<Call>) {
    && delay >= base && (forall c :: c in calls ==> delay >= c.dur)
    && (delay == base || exists c :: c in calls && c.dur == delay)
  }

  /** In every run and whatever order timers fire in: while one of the throttles asked for since throttling
      was last taken back is unexpired, the delay a caller gets is the larger of the base and the longest of
      all of them, expired or not; once all have expired it is the base. No older throttle is unexpired. */
  lemma ThrottleHolds(states: seq<State>, actions: seq<Action>, perHost: int, n: nat, t: Time)
    requires Run(states, actions, perHost) && n <= |actions| && t >= states[n].now
    ensures var f, since := states[n].fields, Since(states, actions, n);
            if exists c :: c in since && t < c.expires then IsLargest(Effective(f, t), f.base, since)
            else Effective(f, t) == if f.base < 0 then 0 else f.base
    ensures forall c :: c in states[n].calls && t < c.expires ==> c in Since(states, actions, n)
    ensures forall c :: c in states[n].calls && t < c.expires ==> Effective(states[n].fields, t) >= c.dur
  {
    SinceSummarizes(states, actions, perHost, n);
    var f, since := states[n].fields, Since(states, actions, n);
    if f.until.Some? && t < f.until.value {
      var latest :| latest in since && latest.expires == f.until.value;
      assert t < latest.expires;
    }
  }

  ghost predicate LastSet(actions: seq<Action>, n: nat, j: nat)
    requires n <= |actions|
  {
    j < n && actions[j].SetDelay? && forall k :: j < k < n ==> !actions[k].SetDelay?
  }

  /** In every run the base is the delay that was last set, and 0 before any was. */
  lemma {:induction false} BaseIsLastSet(states: seq<State>, actions: seq<Action>, perHost: int, n: nat)
    requires Run(states, actions, perHost) && n <= |actions|
    ensures (forall k :: 0 <= k < n ==> !actions[k].SetDelay?) ==> states[n].fields.base == 0
    ensures forall j: nat :: LastSet(actions, n, j) ==> states[n].fields.base == actions[j].delay
  {
    if n > 0 {
      BaseIsLastSet(states, actions, perHost, n - 1);
      BaseStays(states[n - 1], actions[n - 1]);
      assert states[n] == Apply(states[n - 1], actions[n - 1]);
      forall j: nat | LastSet(actions, n, j) ensures j == n - 1 || LastSet(actions, n - 1, j) {
      }
    }
  }

  lemma BaseStays(s: State, a: Action)
    requires Enabled(s, a)
    ensures Apply(s, a).fields.base == if a.SetDelay? then a.delay else s.fields.base
  {
  }

  /** A throttle asked for at time 0 and a shorter one at time `wait`. */
  function TwoThrottles(long: nat, short: nat, wait: nat): seq<State> {
    var c1, c2 := Call(long, long), Call(short, wait + short);
    var s0 := State(0, 1, None, [], Fields(0, 0, None, 0), None, {}, {}, {}, []);
    var s2 := s0.(calls := {c1}, fields := Fields(0, long, Some(long), 1), timers := {Timer(1, long)});
    var s5 := s2.(now := wait, calls := {c1, c2}, fields := Fields(0, long, Some(wait + short), 2),
                timers := {Timer(1, long), Timer(2, wait + short)});
    [s0, s0.(asked := {c1}), s2, s2.(now := wait), s2.(now := wait, asked := {c2}), s5, s5.(now := long)]
  }

  function ThrottleTwice(long: nat, short: nat, wait: nat): seq<Action>
    requires wait < long
  {
    [AskThrottle(long), ApplyThrottle(Call(long, long)), Tick(wait),
      AskThrottle(short), ApplyThrottle(Call(short, wait + short)), Tick(long - wait)]
  }

  lemma ThrottlesTwice(long: nat, short: nat, wait: nat, i: nat)
    requires 0 < short < long && wait < long < wait + short && i < 6
    ensures var states, a := TwoThrottles(long, short, wait), ThrottleTwice(long, short, wait)[i];
            Enabled(states[i], a) && states[i + 1] == Apply(states[i], a)
  {
    match i {
      case 0 => case 1 => case 2 => case 3 => case 4 => case _ =>
    }
  }

  /** A throttle that has expired still counts while a shorter one runs on behind it. */
  lemma ShortThrottleProlongs(long: nat, short: nat, wait: nat) returns (states: seq<State>, actions: seq<Action>)
    requires 0 < short < long && wait < long < wait + short
    ensures Run(states, actions, 1) && states[|actions|].now == long
    ensures Unexpired(states[|actions|].calls, long) == {Call(short, wait + short)}
    ensures Effective(states[|actions|].fields, long) == long
  {
    states, actions := TwoThrottles(long, short, wait), ThrottleTwice(long, short, wait);
    forall i: nat | i < 6 ensures Enabled(states[i], actions[i]) && states[i + 1] == Apply(states[i], actions[i]) {
      ThrottlesTwice(long, short, wait, i);
    }
  }

  function Times(n: nat, d: int): int {
    if n == 0 then 0 else Times(n - 1, d) + d
  }

  lemma {:induction false} TimesIsProduct(n: nat, d: int)
    ensures Times(n, d) == n * d
  {
    if n > 0 {
      TimesIsProduct(n - 1, d);
    }
  }

  /** `n` grants whose delays are at least `delay` take at least `n - 1` delays. */
  lemma {:induction false} GrantsSpan(grants: seq<Grant>, delay: int)
    requires Spaced(grants) && grants != []
    requires forall g :: g in grants ==> g.delay >= delay
    ensures grants[|grants| - 1].at - grants[0].at >= Times(|grants| - 1, delay)
  {
    var n := |grants| - 1;
    if n > 0 {
      GrantsSpan(grants[..n], delay);
      assert grants[n] in grants;
    }
  }

  /** Grants of a run that were all decided under a delay of at least `delay` span that many delays,
      and never are more slots taken at once than the capacity. */
  lemma RunsKeepTheDelay(states: seq<State>, actions: seq<Action>, perHost: int, i: nat, lo: nat, hi: nat, delay: int)
    requires Run(states, actions, perHost) && i < |states| && lo < hi <= |states[i].grants|
    requires forall k :: lo <= k < hi ==> states[i].grants[k].delay >= delay
    ensures states[i].grants[hi - 1].at - states[i].grants[lo].at >= (hi - 1 - lo) * delay
    ensures Owners(states[i].callers) <= Capacity(perHost)
  {
    EveryRunIsSafe(states, actions, perHost);
    assert Safe(states[i], perHost);
    KeepsTheDelay(states[i].grants, lo, hi, delay);
  }

  lemma KeepsTheDelay(grants: seq<Grant>, lo: nat, hi: nat, delay: int)
    requires Spaced(grants) && lo < hi <= |grants|
    requires forall k :: lo <= k < hi ==> grants[k].delay >= delay
    ensures grants[hi - 1].at - grants[lo].at >= (hi - 1 - lo) * delay
  {
    GrantsSpan(grants[lo..hi], delay);
    TimesIsProduct(hi - 1 - lo, delay);
  }

  /** A grant follows the one before it by at least every throttle that was running when its caller
      took the lock, timers of older throttles notwithstanding. */
  lemma ThrottledGrantsAreApart(states: seq<State>, actions: seq<Action>, perHost: int, i: nat, k: nat, c: Call)
    requires Run(states, actions, perHost) && i < |states| && 0 < k < |states[i].grants|
    requires c in states[i].grants[k].running
    ensures states[i].grants[k].at - states[i].grants[k - 1].at >= c.dur
  {
    EveryRunIsSafe(states, actions, perHost);
    assert Safe(states[i], perHost);
    assert Heeds(states[i].grants[k].delay, states[i].grants[k].running);
  }
}
