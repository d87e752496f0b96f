/** The HTTP job slots: posts, the queue worker and its coalescing wake-up signal, cancels that act on
    a stale status, and the runs. Every database statement is a step of its own. */
module JobSlots {
  import opened GoText
  import opened JobTable

  /** Who is inside `crawlMu`. The first two belong to a post, the last two to the queue worker. */
  datatype Section = Free | Counted(runNow: bool) | Posting(id: nat) | Choosing | Starting(id: nat)

  /** A cancel that has read a status and not yet written. */
  datatype Cancel = Cancel(id: nat, seen: Status)

  /** `took` is the worker between taking a signal and deciding; `live` are the run goroutines,
      `finished` those that have written a final status; `starts` is the history of claims. */
  datatype State = State(
    limit: int,
    rows: seq<Row>,
    signal: bool,
    took: bool,
    section: Section,
    live: set<nat>,
    finished: set<nat>,
    cancels: multiset<Cancel>,
    starts: seq<nat>)

  datatype Action =
    | PostCount
    | PostCreate(created: int)
    | PostStart
    | TakeSignal
    | WorkerCount
    | WorkerNext(next: Option<nat>)
    | WorkerStart
    | CancelRead(id: nat)
    | CancelWrite(cancel: Cancel)
    | RunWrite(id: nat, status: Status)
    | RunExit(id: nat)

  ghost predicate Enabled(s: State, a: Action) {
    match a
    case PostCount => s.section.Free?
    case PostCreate(_) => s.section.Counted?
    case PostStart => s.section.Posting?
    case TakeSignal => s.signal && !s.took
    case WorkerCount => s.took && s.section.Free?
    case WorkerNext(next) => s.section.Choosing? && IsNextQueued(s.rows, next)
    case WorkerStart => s.section.Starting?
    case CancelRead(id) => id < |s.rows|
    case CancelWrite(cancel) => cancel in s.cancels && cancel.id < |s.rows|
    case RunWrite(id, status) => id in s.live && id < |s.rows| && status in {Completed, Failed, Status.Cancelled}
    case RunExit(id) => id in s.live && id in s.finished
  }

  /** `UpdateJobStarted` and, when it claimed the job, the goroutine launched right after. */
  function Claim(s: State, id: nat): State {
    if Has(s.rows, id, Queued)
    then s.(rows := WithStatus(s.rows, id, Running), live := s.live + {id}, starts := s.starts + [id])
    else s
  }

  function AfterCancel(seen: Status): Status {
    match seen
    case Queued => Status.Cancelled
    case Running => Cancelling
    case Cancelling => Cancelling
    case _ => Deleting
  }

  ghost function Apply(s: State, a: Action): State
    requires Enabled(s, a)
  {
    match a
    case PostCount => s.(section := Counted(Tally(s.rows, {Queued, Running}) < s.limit))
    case PostCreate(created) =>
      s.(rows := s.rows + [Row(Queued, created)], section := if s.section.runNow then Posting(|s.rows|) else Free)
    case PostStart => Claim(s, s.section.id).(section := Free)
    case TakeSignal => s.(signal := false, took := true)
    case WorkerCount =>
      if Tally(s.rows, {Running}) >= s.limit then s.(took := false) else s.(section := Choosing)
    case WorkerNext(next) =>
      if next.None? then s.(took := false, section := Free) else s.(section := Starting(next.value))
    case WorkerStart => Claim(s, s.section.id).(took := false, section := Free)
    case CancelRead(id) => s.(cancels := s.cancels + multiset{Cancel(id, s.rows[id].status)})
    case CancelWrite(c) =>
      s.(cancels := s.cancels - multiset{c}, rows := WithStatus(s.rows, c.id, AfterCancel(c.seen)))
    case RunWrite(id, status) => s.(rows := WithStatus(s.rows, id, status), finished := s.finished + {id})
    case RunExit(id) => s.(live := s.live - {id}, signal := true)
  }

  /** After start-up: orphaned runs are marked failed, queued jobs survive, one signal is sent. */
  ghost predicate Initial(s: State) {
    && s.limit >= 1
    && (forall i :: 0 <= i < |s.rows| ==> s.rows[i].status !in {Running, Cancelling})
    && s.signal && !s.took && s.section.Free?
    && s.live == {} && s.finished == {} && s.cancels == multiset{} && s.starts == []
  }

  ghost predicate Steps(states: seq<State>, actions: seq<Action>) {
    && |states| == |actions| + 1
    && forall i :: 0 <= i < |actions| ==>
        Enabled(states[i], actions[i]) && states[i + 1] == Apply(states[i], actions[i])
  }

  ghost predicate Run(states: seq<State>, actions: seq<Action>) {
    Steps(states, actions) && Initial(states[0])
  }

  // ---------- At most `limit` running ----------

  predicate RoomPromised(section: Section) {
    match section
    case Free => false
    case Counted(runNow) => runNow
    case _ => true
  }

  ghost predicate Bounded(s: State) {
    && Tally(s.rows, {Running}) <= s.limit
    && (RoomPromised(s.section) ==> Tally(s.rows, {Running}) < s.limit)
  }

  lemma ClaimTally(rows: seq<Row>, id: nat)
    ensures Has(rows, id, Queued) ==> Tally(WithStatus(rows, id, Running), {Running}) == Tally(rows, {Running}) + 1
  {
    if Has(rows, id, Queued) {
      TallyAfterUpdate(rows, id, Running, {Running});
    }
  }

  lemma BoundedStep(s: State, a: Action)
    requires Bounded(s) && Enabled(s, a)
    ensures Bounded(Apply(s, a))
  {
    match a
    case PostCount => TallyMonotone(s.rows, {Running}, {Queued, Running});
    case PostCreate(created) => TallyAfterInsert(s.rows, Row(Queued, created), {Running});
    case PostStart => ClaimTally(s.rows, s.section.id);
    case WorkerStart => ClaimTally(s.rows, s.section.id);
    case CancelWrite(c) => TallyAfterUpdate(s.rows, c.id, AfterCancel(c.seen), {Running});
    case RunWrite(id, status) => TallyAfterUpdate(s.rows, id, status, {Running});
    case _ =>
  }

  // ---------- Every job starts at most once ----------

  ghost predicate StartedOnce(s: State) {
    && (forall i: nat, j: nat :: i < j < |s.starts| ==> s.starts[i] != s.starts[j])
    && (forall id :: id in s.starts ==> id < |s.rows| && s.rows[id].status != Queued)
    && (forall id :: id in s.live || id in s.finished ==> id in s.starts)
    && (forall id: nat :: Has(s.rows, id, Running) ==> id in s.live && id !in s.finished)
  }

  lemma StartedOnceStep(s: State, a: Action)
    requires StartedOnce(s) && Enabled(s, a)
    ensures StartedOnce(Apply(s, a))
  {
    match a
    case PostStart => ClaimOnce(s, s.section.id);
    case WorkerStart => ClaimOnce(s, s.section.id);
    case CancelWrite(c) => RewriteKeeps(s, Apply(s, a), c.id, AfterCancel(c.seen));
    case RunWrite(id, status) => RewriteKeeps(s, Apply(s, a), id, status);
    case PostCreate(_) => InsertKeeps(s, Apply(s, a));
    case _ =>
  }

  lemma ClaimOnce(s: State, id: nat)
    requires StartedOnce(s)
    ensures StartedOnce(Claim(s, id))
  {
    if Has(s.rows, id, Queued) {
      assert id !in s.starts;
    }
  }

  lemma RewriteKeeps(s: State, t: State, id: nat, status: Status)
    requires StartedOnce(s) && id < |s.rows| && status != Queued && status != Running
    requires t.rows == WithStatus(s.rows, id, status) && t.starts == s.starts && t.live == s.live
    requires t.finished == s.finished || (t.finished == s.finished + {id} && id in s.live)
    ensures StartedOnce(t)
  {
    forall k: nat | Has(t.rows, k, Running) ensures k in t.live && k !in t.finished {
      assert Has(s.rows, k, Running);
    }
  }

  lemma InsertKeeps(s: State, t: State)
    requires StartedOnce(s) && |t.rows| == |s.rows| + 1 && t.rows[..|s.rows|] == s.rows
        && t.rows[|s.rows|].status == Queued
    requires t.starts == s.starts && t.live == s.live && t.finished == s.finished
    ensures StartedOnce(t)
  {
    forall k: nat | Has(t.rows, k, Running) ensures Has(s.rows, k, Running) {}
  }

  // ---------- Wake-ups ----------

  ghost predicate SomeoneQueued(s: State) {
    exists id: nat :: Has(s.rows, id, Queued) && s.section != Posting(id)
  }

  /** Somebody will look at the queue again. */
  predicate Awake(s: State) {
    s.live != {} || s.signal || s.took
  }

  /** No queued job is forgotten, save the one a post has just created and is about to start. */
  ghost predicate Woken(s: State) {
    && (SomeoneQueued(s) || s.section == Counted(false) ==> Awake(s))
    && (s.section.Choosing? || s.section.Starting? ==> s.took)
  }

  /** The worker comes to claim a job that is no longer queued while another one is, and neither a live run
      nor a pending signal will bring it back. */
  ghost predicate LosesWakeUp(s: State, a: Action) {
    && a.WorkerStart? && s.section.Starting? && !Has(s.rows, s.section.id, Queued)
    && s.live == {} && !s.signal && exists k: nat :: Has(s.rows, k, Queued)
  }

  /** A cancel that lands between `NextQueuedJob` and `UpdateJobStarted`, on the job just chosen. */
  predicate LateCancel(s: State, a: Action) {
    s.section.Starting? && a.CancelWrite? && a.cancel.id == s.section.id
  }

  lemma FullMeansLive(s: State, counted: set<Status>)
    requires s.limit >= 1 && StartedOnce(s) && Woken(s) && s.section.Free?
    requires counted <= {Queued, Running} && Tally(s.rows, counted) >= s.limit
    ensures Awake(s)
  {
    var id := TallyWitness(s.rows, counted);
    if s.rows[id].status == Running {
      assert Has(s.rows, id, Running);
    } else {
      assert Has(s.rows, id, Queued);
    }
  }

  lemma WokenStep(s: State, a: Action)
    requires s.limit >= 1 && StartedOnce(s) && Woken(s) && Enabled(s, a) && !LosesWakeUp(s, a)
    ensures Woken(Apply(s, a))
  {
    var t := Apply(s, a);
    if a.PostCount? && !t.section.runNow {
      FullMeansLive(s, {Queued, Running});
    }
    if a.WorkerCount? && Tally(s.rows, {Running}) >= s.limit {
      FullMeansLive(s, {Running});
      var id := TallyWitness(s.rows, {Running});
      assert Has(s.rows, id, Running);
    }
    if SomeoneQueued(t) {
      var id: nat :| Has(t.rows, id, Queued) && t.section != Posting(id);
      if Has(s.rows, id, Queued) && s.section != Posting(id) {
        assert SomeoneQueued(s);
      }
    }
  }

  // ---------- Over whole runs ----------

  /** Running jobs never exceed the limit, no job is claimed twice, and a run that registers finds no
      other run of its job, in every interleaving. */
  lemma {:induction false} SlotsAreSafe(states: seq<State>, actions: seq<Action>)
    requires Run(states, actions)
    ensures forall s :: s in states ==> s.limit >= 1 && Bounded(s) && StartedOnce(s)
  {
    if actions == [] {
      NothingToTally(states[0].rows, {Running});
    } else {
      var n := |actions| - 1;
      SlotsAreSafe(states[..n + 1], actions[..n]);
      assert states[n] in states[..n + 1];
      BoundedStep(states[n], actions[n]);
      StartedOnceStep(states[n], actions[n]);
      assert states == states[..n + 1] + [states[n + 1]];
    }
  }

  // ---------- Live runs ----------

  function RunningIds(rows: seq<Row>): set<nat> {
    set id: nat | id < |rows| && rows[id].status == Running
  }

  lemma {:induction false} RunningCount(rows: seq<Row>)
    ensures |RunningIds(rows)| == Tally(rows, {Running})
  {
    if rows != [] {
      var n := |rows| - 1;
      RunningCount(rows[..n]);
      if rows[n].status == Running {
        assert RunningIds(rows) == RunningIds(rows[..n]) + {n};
      } else {
        assert RunningIds(rows) == RunningIds(rows[..n]);
      }
    }
  }

  /** Live runs whose row no longer says running: being cancelled, or finished and not yet gone. */
  function WindingDown(s: State): set<nat> {
    set id | id in s.live && !Has(s.rows, id, Running)
  }

  /** In every interleaving the live runs are the running jobs and those winding down, so the limit is
      exceeded by live runs exactly when more are winding down than slots are free. */
  lemma LiveRuns(states: seq<State>, actions: seq<Action>, s: State)
    requires Run(states, actions) && s in states
    ensures |s.live| == Tally(s.rows, {Running}) + |WindingDown(s)| <= s.limit + |WindingDown(s)|
    ensures |s.live| > s.limit <==> |WindingDown(s)| > s.limit - Tally(s.rows, {Running})
    ensures (forall id :: id in s.live ==> Has(s.rows, id, Running)) ==> |s.live| <= s.limit
  {
    SlotsAreSafe(states, actions);
    RunningCount(s.rows);
    forall id | id in RunningIds(s.rows) ensures id in s.live {
      assert Has(s.rows, id, Running);
    }
    assert s.live == RunningIds(s.rows) + WindingDown(s);
    assert RunningIds(s.rows) !! WindingDown(s);
    if forall id :: id in s.live ==> Has(s.rows, id, Running) {
      assert WindingDown(s) == {};
    }
  }

  // ---------- A lost wake-up ----------

  /** Work waits and nobody will look at it. */
  ghost predicate Lost(s: State) {
    SomeoneQueued(s) && !Awake(s)
  }

  lemma LostExactly(s: State)
    requires s.section.Starting?
    ensures Lost(Apply(s, WorkerStart)) <==> LosesWakeUp(s, WorkerStart)
  {
    var t := Apply(s, WorkerStart);
    if k: nat :| Has(s.rows, k, Queued) {
      assert !Has(s.rows, s.section.id, Queued) ==> Has(t.rows, k, Queued) && t.section != Posting(k);
    }
  }

  lemma {:induction false} WokenWithoutLoss(states: seq<State>, actions: seq<Action>)
    requires Run(states, actions)
    requires forall i :: 0 <= i < |actions| ==> !LosesWakeUp(states[i], actions[i])
    ensures forall s :: s in states ==> Woken(s)
  {
    if actions != [] {
      var n := |actions| - 1;
      WokenWithoutLoss(states[..n + 1], actions[..n]);
      SlotsAreSafe(states, actions);
      assert states[n] in states[..n + 1] && states[n] in states;
      WokenStep(states[n], actions[n]);
      assert states == states[..n + 1] + [states[n + 1]];
    }
  }

  /** In every run: queued work always has somebody awake, if and only if the worker never comes to claim a
      job that is no longer queued, while another one is, with no run live and no signal pending. */
  lemma WakeUpsKeptExactly(states: seq<State>, actions: seq<Action>)
    requires Run(states, actions)
    ensures (forall s :: s in states ==> !Lost(s)) <==>
              forall i :: 0 <= i < |actions| ==> !LosesWakeUp(states[i], actions[i])
  {
    if forall i :: 0 <= i < |actions| ==> !LosesWakeUp(states[i], actions[i]) {
      WokenWithoutLoss(states, actions);
    } else {
      var i :| 0 <= i < |actions| && LosesWakeUp(states[i], actions[i]);
      LostExactly(states[i]);
      assert states[i + 1] in states;
    }
  }

  predicate ChosenQueued(s: State) {
    s.section.Starting? ==> Has(s.rows, s.section.id, Queued)
  }

  lemma ChosenStep(s: State, a: Action)
    requires StartedOnce(s) && ChosenQueued(s) && Enabled(s, a) && !LateCancel(s, a)
    ensures ChosenQueued(Apply(s, a))
  {
  }

  /** The worker's job stays queued until it is claimed, unless a cancel lands on it. */
  lemma {:induction false} ChosenStaysQueued(states: seq<State>, actions: seq<Action>)
    requires Run(states, actions)
    requires forall i :: 0 <= i < |actions| ==> !LateCancel(states[i], actions[i])
    ensures forall s :: s in states ==> ChosenQueued(s)
  {
    if actions != [] {
      var n := |actions| - 1;
      ChosenStaysQueued(states[..n + 1], actions[..n]);
      SlotsAreSafe(states, actions);
      assert states[n] in states[..n + 1] && states[n] in states;
      ChosenStep(states[n], actions[n]);
      assert states == states[..n + 1] + [states[n + 1]];
    }
  }

  /** So no wake-up is lost unless a cancel lands on the chosen job between choosing and claiming it. */
  lemma NoLostWakeUp(states: seq<State>, actions: seq<Action>)
    requires Run(states, actions)
    requires forall i :: 0 <= i < |actions| ==> !LateCancel(states[i], actions[i])
    ensures forall s :: s in states ==> !Lost(s)
  {
    ChosenStaysQueued(states, actions);
    forall i | 0 <= i < |actions| ensures !LosesWakeUp(states[i], actions[i]) {
      assert states[i] in states && ChosenQueued(states[i]);
    }
    WakeUpsKeptExactly(states, actions);
  }

  /** A cancel that lands there loses it exactly if another job is queued, no run is live and no signal is
      pending. */
  lemma LateCancelLosesExactly(s: State, c: Cancel)
    requires Enabled(s, CancelWrite(c)) && LateCancel(s, CancelWrite(c))
    ensures Lost(Apply(Apply(s, CancelWrite(c)), WorkerStart)) <==>
              s.live == {} && !s.signal && exists k: nat :: k != c.id && Has(s.rows, k, Queued)
  {
    var t := Apply(s, CancelWrite(c));
    LostExactly(t);
    forall k: nat ensures Has(t.rows, k, Queued) <==> k != c.id && Has(s.rows, k, Queued) {
    }
    if k: nat :| k != c.id && Has(s.rows, k, Queued) {
      assert Has(t.rows, k, Queued);
    }
  }

  // ---------- Idle slots ----------

  /** A job waits beside a free slot, and neither the lock nor a signal is about to change that. */
  ghost predicate Idle(s: State) {
    && s.section.Free? && !s.signal && !s.took
    && SomeoneQueued(s) && Tally(s.rows, {Running}) < s.limit
  }

  /** One signal starts one job: after the worker's claim a slot stays idle beside a waiting job exactly
      when no further signal is pending and both are left over. */
  lemma IdleAfterClaimExactly(s: State)
    requires s.section.Starting?
    ensures var claimed := if Has(s.rows, s.section.id, Queued) then 1 else 0;
            Idle(Apply(s, WorkerStart)) <==>
              && !s.signal && Tally(s.rows, {Running}) + claimed < s.limit
              && exists k: nat :: k != s.section.id && Has(s.rows, k, Queued)
  {
    var t := Apply(s, WorkerStart);
    ClaimTally(s.rows, s.section.id);
    forall k: nat ensures Has(t.rows, k, Queued) <==> k != s.section.id && Has(s.rows, k, Queued) {
    }
    if k: nat :| k != s.section.id && Has(s.rows, k, Queued) {
      assert Has(t.rows, k, Queued) && t.section != Posting(k);
    }
    if k: nat :| Has(t.rows, k, Queued) {
      assert k != s.section.id && Has(s.rows, k, Queued);
    }
  }

  lemma LostIsIdle(s: State)
    requires s.limit >= 1 && StartedOnce(s) && Lost(s) && s.section.Free?
    ensures Idle(s)
  {
    RunningCount(s.rows);
    forall id ensures id !in RunningIds(s.rows) {
      assert Has(s.rows, id, Running) ==> id in s.live;
    }
    assert RunningIds(s.rows) == {};
  }

  lemma LastSlotWindsDown(s: State)
    requires Idle(s) && s.limit == 1
    ensures WindingDown(s) == s.live
  {
    RunningCount(s.rows);
    forall id | id in s.live ensures !Has(s.rows, id, Running) {
      assert id in RunningIds(s.rows) <==> Has(s.rows, id, Running);
    }
  }

  /** In every run: a slot idles beside a waiting job only while a run is live, whose end will signal, if
      and only if no wake-up is lost. With a limit of one that run is already winding down. */
  lemma IdleOnlyUntilRunEnds(states: seq<State>, actions: seq<Action>)
    requires Run(states, actions)
    ensures (forall s :: s in states && Idle(s) ==> s.live != {}) <==>
              forall i :: 0 <= i < |actions| ==> !LosesWakeUp(states[i], actions[i])
    ensures forall s :: s in states && Idle(s) && s.limit == 1 ==> WindingDown(s) == s.live
  {
    if i :| 0 <= i < |actions| && LosesWakeUp(states[i], actions[i]) {
      LostExactly(states[i]);
      SlotsAreSafe(states, actions);
      assert states[i + 1] in states;
      LostIsIdle(states[i + 1]);
    } else {
      WakeUpsKeptExactly(states, actions);
      forall s | s in states && Idle(s) ensures s.live != {} {
        assert !Lost(s);
      }
    }
    forall s | s in states && Idle(s) && s.limit == 1 ensures WindingDown(s) == s.live {
      LastSlotWindsDown(s);
    }
  }

  /** Queued and running jobs fill the limit, and no signal is pending. */
  ghost predicate Stalled(s: State) {
    && Tally(s.rows, {Queued, Running}) >= s.limit >= 1 && !s.signal && !s.took
    && (s.section.Free? || s.section == Counted(false))
  }

  lemma StalledStep(s: State, a: Action)
    requires Stalled(s) && Enabled(s, a) && !a.CancelWrite? && !a.RunWrite? && !a.RunExit?
    ensures Stalled(Apply(s, a)) && Apply(s, a).starts == s.starts && Apply(s, a).live == s.live
  {
    if a.PostCreate? {
      TallyAfterInsert(s.rows, Row(Queued, a.created), {Queued, Running});
    }
  }

  /** Then nothing starts, free slots or not, until a run writes its result or ends or a cancel writes: posts
      are queued behind the jobs that wait. */
  lemma {:induction false} StallLasts(states: seq<State>, actions: seq<Action>)
    requires Steps(states, actions) && Stalled(states[0])
    requires forall a :: a in actions ==> !a.CancelWrite? && !a.RunWrite? && !a.RunExit?
    ensures Stalled(states[|actions|])
    ensures states[|actions|].starts == states[0].starts && states[|actions|].live == states[0].live
  {
    if actions != [] {
      var n := |actions| - 1;
      StallLasts(states[..n + 1], actions[..n]);
      assert actions[n] in actions;
      StalledStep(states[n], actions[n]);
    }
  }

  /** A post starts a run exactly if queued and running jobs leave a slot; otherwise it wakes nobody. */
  lemma NextPostStartsExactly(s: State, created: int)
    requires s.section.Free?
    ensures var s2 := Apply(Apply(s, PostCount), PostCreate(created));
            && (Tally(s.rows, {Queued, Running}) < s.limit <==> s2.section == Posting(|s.rows|))
            && (s2.section == Posting(|s.rows|) ==> |s.rows| in Apply(s2, PostStart).live)
            && (s2.section != Posting(|s.rows|) ==> s2.section.Free? && (Awake(s2) <==> Awake(s)))
  {
  }

  /** Jobs wait, nobody is awake, and every post finds the slots taken by the jobs that wait. */
  ghost predicate Starved(s: State) {
    Stalled(s) && s.live == {}
  }

  /** Posting more jobs does not help: only a cancel ends starvation. */
  lemma {:induction false} StarvationStays(states: seq<State>, actions: seq<Action>)
    requires Steps(states, actions) && Starved(states[0])
    requires forall a :: a in actions ==> !a.CancelWrite?
    ensures Starved(states[|actions|])
    ensures states[|actions|].starts == states[0].starts
  {
    if actions != [] {
      var n := |actions| - 1;
      StarvationStays(states[..n + 1], actions[..n]);
      assert actions[n] in actions;
      StalledStep(states[n], actions[n]);
    }
  }

  ghost predicate Reachable(s: State) {
    exists states, actions :: Run(states, actions) && states[|actions|] == s
  }

  ghost predicate Follows(s: State, a: Action, t: State) {
    Enabled(s, a) && t == Apply(s, a)
  }

  lemma Begin(s: State)
    requires Initial(s)
    ensures Reachable(s)
  {
    assert Run([s], []);
  }

  lemma Reach(s: State, a: Action, t: State)
    requires Reachable(s) && Follows(s, a, t)
    ensures Reachable(t)
  {
    var states, actions :| Run(states, actions) && states[|actions|] == s;
    assert Run(states + [t], actions + [a]);
  }

  /** Two jobs survive a restart; a cancel of job 0 has read its status when the worker chooses it. */
  lemma ChosenBesideCancel() returns (s: State)
    ensures Reachable(s)
    ensures s == State(1, [Row(Queued, 0), Row(Queued, 1)], false, true, Starting(0), {}, {},
        multiset{Cancel(0, Queued)}, [])
  {
    var two := [Row(Queued, 0), Row(Queued, 1)];
    var s0 := State(1, two, true, false, Free, {}, {}, multiset{}, []);
    Begin(s0);
    var s1 := s0.(cancels := multiset{Cancel(0, Queued)});
    Reach(s0, CancelRead(0), s1);
    var s2 := s1.(signal := false, took := true);
    Reach(s1, TakeSignal, s2);
    var s3 := s2.(section := Choosing);
    NothingToTally(two, {Running});
    Reach(s2, WorkerCount, s3);
    s := s3.(section := Starting(0));
    assert Has(two, 0, Queued);
    Reach(s3, WorkerNext(Some(0)), s);
  }

  /** One late cancel is enough: job 0 is not claimed, the worker goes back to sleep, job 1 stays queued
      with nobody awake, and with a limit of one no later post starts anything. */
  lemma LateCancelStarves() returns (s: State)
    ensures Reachable(s) && s.limit == 1 && Starved(s) && Has(s.rows, 1, Queued)
  {
    var s4 := ChosenBesideCancel();
    var one := [Row(Status.Cancelled, 0), Row(Queued, 1)];
    var s5 := s4.(cancels := multiset{}, rows := one);
    Reach(s4, CancelWrite(Cancel(0, Queued)), s5);
    s := s5.(took := false, section := Free);
    Reach(s5, WorkerStart, s);
    assert one == one[..1] + [Row(Queued, 1)];
    TallyAfterInsert(one[..1], Row(Queued, 1), {Queued, Running});
  }

  function QueuedRows(n: nat): (rows: seq<Row>)
    ensures |rows| == n
  {
    seq(n, i => Row(Queued, i))
  }

  lemma {:induction false} QueuedTally(n: nat)
    ensures Tally(QueuedRows(n), {Queued, Running}) == n && Tally(QueuedRows(n), {Running}) == 0
  {
    if n > 0 {
      QueuedTally(n - 1);
      assert QueuedRows(n)[..n - 1] == QueuedRows(n - 1);
    }
  }

  /** After a restart the start-up signal starts the oldest waiting job. */
  lemma FirstStarts(limit: nat, rows: seq<Row>) returns (s: State)
    requires limit >= 1 && Tally(rows, {Running}) == 0 && IsNextQueued(rows, Some(0))
    requires forall i :: 0 <= i < |rows| ==> rows[i].status !in {Running, Cancelling}
    ensures Reachable(s)
    ensures s == State(limit, WithStatus(rows, 0, Running), false, false, Free, {0}, {}, multiset{}, [0])
  {
    var s0 := State(limit, rows, true, false, Free, {}, {}, multiset{}, []);
    Begin(s0);
    var s1 := s0.(signal := false, took := true);
    Reach(s0, TakeSignal, s1);
    var s2 := s1.(section := Choosing);
    Reach(s1, WorkerCount, s2);
    var s3 := s2.(section := Starting(0));
    Reach(s2, WorkerNext(Some(0)), s3);
    s := State(limit, WithStatus(rows, 0, Running), false, false, Free, {0}, {}, multiset{}, [0]);
    assert {} + {0} == {0} && [] + [0] == [0];
    Reach(s3, WorkerStart, s);
  }

  /** For every limit above one: with as many jobs surviving a restart, the start-up signal starts one of
      them, and the others wait beside all the other slots. */
  lemma OneSignalOneJob(limit: nat) returns (s: State)
    requires limit > 1
    ensures Reachable(s) && s.limit == limit && Idle(s) && Stalled(s)
    ensures Tally(s.rows, {Running}) == 1 && s.live == {0}
    ensures forall id: nat :: 0 < id < limit ==> Has(s.rows, id, Queued)
  {
    var rows := QueuedRows(limit);
    QueuedTally(limit);
    TallyAfterUpdate(rows, 0, Running, {Running});
    TallyAfterUpdate(rows, 0, Running, {Queued, Running});
    s := FirstStarts(limit, rows);
    assert Has(s.rows, 1, Queued) && s.section != Posting(1);
  }

  /** A post that meets a free slot ends with its job running. */
  lemma PostStarts(s: State, created: int, t: State)
    requires Reachable(s) && s.section.Free? && Tally(s.rows, {Queued, Running}) < s.limit
    requires t == s.(rows := s.rows + [Row(Running, created)], live := s.live + {|s.rows|},
        starts := s.starts + [|s.rows|])
    ensures Reachable(t)
  {
    var s1 := s.(section := Counted(true));
    Reach(s, PostCount, s1);
    var s2 := s1.(section := Posting(|s.rows|), rows := s.rows + [Row(Queued, created)]);
    Reach(s1, PostCreate(created), s2);
    assert WithStatus(s2.rows, |s.rows|, Running) == t.rows;
    Reach(s2, PostStart, t);
  }

  /** One run, and a cancel of its job that has read its status. */
  lemma RunningBesideCancel() returns (s: State)
    ensures Reachable(s)
    ensures s == State(1, [Row(Running, 0)], true, false, Free, {0}, {}, multiset{Cancel(0, Running)}, [0])
  {
    var s0 := State(1, [], true, false, Free, {}, {}, multiset{}, []);
    Begin(s0);
    var s1 := s0.(rows := s0.rows + [Row(Running, 0)], live := s0.live + {0}, starts := s0.starts + [0]);
    PostStarts(s0, 0, s1);
    assert s1.rows == [Row(Running, 0)] && s1.live == {0} && s1.starts == [0];
    s := s1.(cancels := multiset{Cancel(0, Running)});
    Reach(s1, CancelRead(0), s);
  }

  /** A job being cancelled frees its slot at once, so with a limit of one a second run starts beside the
      first. */
  lemma CancellingRunStaysLive() returns (s: State)
    ensures Reachable(s) && s.limit == 1 && |s.live| == 2
  {
    var s2 := RunningBesideCancel();
    var s3 := s2.(cancels := multiset{}, rows := [Row(Cancelling, 0)]);
    Reach(s2, CancelWrite(Cancel(0, Running)), s3);
    NothingToTally(s3.rows, {Queued, Running});
    s := s3.(rows := s3.rows + [Row(Running, 1)], live := s3.live + {1}, starts := s3.starts + [1]);
    PostStarts(s3, 1, s);
  }

  /** Without any cancel: a run that has written its final status stays live until it has signalled, so
      however many runs can be live with a limit of one. */
  lemma {:induction false} FinishedRunsStayLive(n: nat) returns (s: State)
    ensures Reachable(s) && s.limit == 1 && s.section.Free? && |s.live| == n == |s.rows|
    ensures forall id :: id in s.live ==> id < n
    ensures forall i :: 0 <= i < n ==> s.rows[i].status == Completed
  {
    if n == 0 {
      s := State(1, [], true, false, Free, {}, {}, multiset{}, []);
      Begin(s);
    } else {
      var s0 := FinishedRunsStayLive(n - 1);
      NothingToTally(s0.rows, {Queued, Running});
      var s1 := s0.(rows := s0.rows + [Row(Running, n)], live := s0.live + {n - 1}, starts := s0.starts + [n - 1]);
      PostStarts(s0, n, s1);
      s := s1.(rows := s0.rows + [Row(Completed, n)], finished := s1.finished + {n - 1});
      assert WithStatus(s1.rows, n - 1, Completed) == s.rows;
      Reach(s1, RunWrite(n - 1, Completed), s);
    }
  }

  /** What a cancel does when nothing comes between its read and its write: a waiting job is cancelled, a running
      one is on its way, and one that has ended is put away. No other job is touched. */
  lemma CancelAtOnce(s: State, id: nat)
    requires id < |s.rows|
    ensures var c := Cancel(id, s.rows[id].status);
            var t := Apply(Apply(s, CancelRead(id)), CancelWrite(c));
            && (Has(s.rows, id, Queued) ==> Has(t.rows, id, Status.Cancelled))
            && (Has(s.rows, id, Running) || Has(s.rows, id, Cancelling) ==> Has(t.rows, id, Cancelling))
            && (s.rows[id].status in {Completed, Failed, Status.Cancelled, Deleting} ==> Has(t.rows, id, Deleting))
            && (forall k: nat :: k < |s.rows| && k != id ==> t.rows[k] == s.rows[k])
            && t.cancels == s.cancels && t.live == s.live && t.signal == s.signal
  {
    var c := Cancel(id, s.rows[id].status);
    assert s.cancels + multiset{c} - multiset{c} == s.cancels;
  }

  // ---------- A job stranded while cancelling ----------

  /** The job is marked as being cancelled, and no run is there to finish it. */
  predicate Stranded(s: State, id: nat) {
    Has(s.rows, id, Cancelling) && id !in s.live
  }

  /** A cancel strands its job exactly when it has read that the job runs or is being cancelled, and the run has
      gone before it writes. */
  lemma CancelStrandsExactly(s: State, c: Cancel)
    requires Enabled(s, CancelWrite(c))
    ensures Stranded(Apply(s, CancelWrite(c)), c.id) <==> c.seen in {Running, Cancelling} && c.id !in s.live
  {
  }

  /** No cancel under way has read anything of the job but that it runs or is being cancelled. */
  ghost predicate OnlyRunningSeen(s: State, id: nat) {
    forall c :: c in s.cancels && c.id == id ==> c.seen in {Running, Cancelling}
  }

  lemma CancelKeepsStranded(s: State, a: Action, id: nat)
    requires Stranded(s, id) && OnlyRunningSeen(s, id) && Enabled(s, a) && (a.CancelRead? || a.CancelWrite?)
    ensures Stranded(Apply(s, a), id) && OnlyRunningSeen(Apply(s, a), id)
  {
    var t := Apply(s, a);
    forall c | c in t.cancels && c.id == id ensures c.seen in {Running, Cancelling} {
      assert c in s.cancels || c == Cancel(id, Cancelling);
    }
  }

  lemma OthersKeepStranded(s: State, a: Action, id: nat)
    requires Stranded(s, id) && Enabled(s, a) && !a.CancelRead? && !a.CancelWrite?
    ensures Stranded(Apply(s, a), id) && Apply(s, a).cancels == s.cancels
  {
  }

  lemma StrandedStep(s: State, a: Action, id: nat)
    requires Stranded(s, id) && OnlyRunningSeen(s, id) && Enabled(s, a)
    ensures Stranded(Apply(s, a), id) && OnlyRunningSeen(Apply(s, a), id)
  {
    if a.CancelRead? || a.CancelWrite? {
      CancelKeepsStranded(s, a, id);
    } else {
      OthersKeepStranded(s, a, id);
    }
  }

  /** It stays so for good: not even another cancel gets it out. */
  lemma {:induction false} StrandedForGood(states: seq<State>, actions: seq<Action>, id: nat)
    requires Steps(states, actions) && Stranded(states[0], id) && OnlyRunningSeen(states[0], id)
    ensures Stranded(states[|actions|], id) && OnlyRunningSeen(states[|actions|], id)
  {
    if actions != [] {
      var n := |actions| - 1;
      StrandedForGood(states[..n + 1], actions[..n], id);
      StrandedStep(states[n], actions[n], id);
    }
  }

  /** The run ends, and the cancel has still not written. */
  lemma GoneBesideCancel() returns (s: State)
    ensures Reachable(s)
    ensures s == State(1, [Row(Completed, 0)], true, false, Free, {}, {0}, multiset{Cancel(0, Running)}, [0])
  {
    var s2 := RunningBesideCancel();
    var s3 := s2.(rows := [Row(Completed, 0)], finished := {0});
    Reach(s2, RunWrite(0, Completed), s3);
    s := s3.(live := {}, signal := true);
    Reach(s3, RunExit(0), s);
  }

  /** A run that ends between a cancel's read and its write. */
  lemma StrandedWitness() returns (s: State)
    ensures Reachable(s) && Stranded(s, 0) && OnlyRunningSeen(s, 0)
  {
    var s4 := GoneBesideCancel();
    s := s4.(cancels := multiset{}, rows := [Row(Cancelling, 0)]);
    Reach(s4, CancelWrite(Cancel(0, Running)), s);
  }
}
