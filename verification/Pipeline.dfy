/** The crawl pipeline as a step protocol: a dispatcher, fetchers, four parsers and one persister joined
    by three channels. Every atomic read and write is a step of its own. */
module Pipeline {
  import opened GoText
  import opened Frontier

  /** A page, discovery or host limit of zero or less is no limit. `key` is the scheme and host an item
      is onboarded under; None when it has none. */
  datatype Limits = Limits(
    maxPages: int,
    maxDepth: int,
    maxDiscovered: int,
    maxHosts: int,
    fetchers: nat,
    key: Item -> Option<string>)

  const PARSERS := 4
  const FETCH_QUEUE := 64
  const FETCH_RESULTS := 64
  const PERSIST_QUEUE := 128

  /** Where a worker stands and the item it holds. `rank` is what its page made of `pagesCrawled`. */
  datatype Worker =
    | Idle
    | Gone
    // fetchers
    | Got(item: Item)
    | Onboarding(item: Item)
    | Ready(item: Item)
    | Fetched(item: Item)
    // parsers
    | Parsing(item: Item)
    | Expanding(item: Item, rank: int)
    | Checked(item: Item, rank: int, link: Item)
    | Loaded(item: Item, rank: int, link: Item, current: int)
    | Reserved(item: Item, rank: int, link: Item)
    | Parsed(item: Item)
    // persister
    | Persisting(item: Item)
    | Failing

  /** Where the dispatcher stands. `Draining` closes the channels one by one, first `fetchQueue`. */
  datatype Dispatcher =
    | ReadPages
    | ReadInFlight(pages: int)
    | Popping
    | Counting(item: Item)
    | Sending(item: Item)
    | ExitPages
    | ExitInFlight(pages: int)
    | ExitLen(reached: bool)
    | ExitZero(reached: bool)
    | Sleeping
    | Draining(closed: nat, clean: bool, reached: bool)
    | Returned(clean: bool, reached: bool)

  /** The last six fields are history: items popped, items that have left, the pages in the order they
      were counted, the ranks that pushed a link, granted reservations, and what was pushed since the
      dispatcher last read the frontier's length. */
  datatype State = State(
    inFlight: int,
    pages: int,
    urls: int,
    frontier: Contents,
    hosts: set<string>,
    cancelled: bool,
    disp: Dispatcher,
    fetchQueue: seq<Item>,
    fetchResults: seq<Item>,
    persistQueue: seq<Item>,
    workers: seq<Worker>,
    dispatched: multiset<Item>,
    left: multiset<Item>,
    ranked: seq<Item>,
    pushers: set<int>,
    granted: nat,
    late: multiset<Item>)

  datatype Step =
    | Take
    | Quit
    | Drop
    | HostKnown
    | MarkHost(host: string)
    | PushSitemap(entry: Item)
    | Onboarded
    | Fetch
    | Pass
    | Abort
    | NotAPage
    | CountPage
    | CheckLink(target: Item)
    | Load
    | Swap
    | PushLink
    | StoreFailed
    | Expanded
    | Persist
    | Fail
    | CancelAll

  /** `Look` is the dispatcher's next read, test or count. */
  datatype Action =
    | Cancel
    | Look
    | Pop(result: Option<Item>)
    | Send
    | GiveUp
    | Wake
    | Close
    | Work(i: nat, step: Step)

  // ---------- Workers ----------

  predicate IsFetcher(l: Limits, i: nat) { i < l.fetchers }

  predicate IsParser(l: Limits, i: nat) { l.fetchers <= i < l.fetchers + PARSERS }

  predicate IsPersister(l: Limits, i: nat) { i == l.fetchers + PARSERS }

  predicate Busy(w: Worker) { !w.Idle? && !w.Gone? && !w.Failing? }

  function Inbox(l: Limits, s: State, i: nat): seq<Item> {
    if IsFetcher(l, i) then s.fetchQueue else if IsParser(l, i) then s.fetchResults else s.persistQueue
  }

  /** Whether the channel the worker reads from has been closed. */
  predicate InboxClosed(l: Limits, s: State, i: nat) {
    match s.disp
    case Draining(closed, _, _) => closed >= (if IsFetcher(l, i) then 1 else if IsParser(l, i) then 2 else 3)
    case Returned(_, _) => true
    case _ => false
  }

  predicate Known(l: Limits, item: Item, hosts: set<string>) {
    l.key(item).None? || l.key(item).value in hosts
  }

  predicate RoomForHost(l: Limits, s: State) {
    l.maxHosts > 0 ==> |s.hosts| < l.maxHosts
  }

  /** `newDepth > maxDepth` and the first page-budget test on a link. */
  predicate LinkPasses(l: Limits, s: State, item: Item, target: Item) {
    target.depth == item.depth + 1 && target.depth <= l.maxDepth && (l.maxPages > 0 ==> s.pages < l.maxPages)
  }

  predicate StepEnabled(l: Limits, s: State, i: nat, step: Step) {
    i < |s.workers| &&
    var w := s.workers[i];
    match step
    case Take => w.Idle? && Inbox(l, s, i) != []
    case Quit => w.Idle? && Inbox(l, s, i) == [] && InboxClosed(l, s, i)
    // out of scope, host limit reached, or blocked by robots.txt
    case Drop => w.Got? || w.Ready?
    case HostKnown => w.Got? && Known(l, w.item, s.hosts)
    case MarkHost(host) =>
      host !in s.hosts && RoomForHost(l, s) && ((w.Got? && l.key(w.item) == Some(host)) || w.Onboarding?)
    case PushSitemap(entry) => w.Onboarding? && entry.depth == w.item.depth + 1 && Known(l, entry, s.hosts)
    case Onboarded => w.Onboarding?
    case Fetch => w.Ready?
    case Pass => (w.Fetched? && |s.fetchResults| < FETCH_RESULTS) || (w.Parsed? && |s.persistQueue| < PERSIST_QUEUE)
    case Abort => s.cancelled && (w.Ready? || w.Fetched? || w.Parsed? || w.Persisting?)
    case NotAPage => w.Parsing?
    case CountPage => w.Parsing?
    case CheckLink(target) => w.Expanding? && LinkPasses(l, s, w.item, target)
    case Load => w.Checked?
    case Swap => w.Loaded?
    case PushLink => w.Reserved?
    case StoreFailed => w.Reserved?
    case Expanded => w.Expanding?
    case Persist => w.Persisting?
    case Fail => w.Persisting?
    case CancelAll => w.Failing?
  }

  function With(s: State, i: nat, w: Worker): State
    requires i < |s.workers|
  {
    s.(workers := s.workers[i := w])
  }

  /** The worker's item leaves the pipeline: `inFlight.Add(-1)`. */
  function Leave(s: State, i: nat, w: Worker): State
    requires i < |s.workers| && Busy(s.workers[i])
  {
    With(s, i, w).(inFlight := s.inFlight - 1, left := s.left + multiset{s.workers[i].item})
  }

  function PushOn(s: State, item: Item): State {
    s.(frontier := Pushed(s.frontier, item),
       late := if item.urlId in s.frontier.seen then s.late else s.late + multiset{item})
  }

  function Taken(l: Limits, s: State, i: nat): State
    requires i < |s.workers| && Inbox(l, s, i) != []
  {
    var item := Inbox(l, s, i)[0];
    if IsFetcher(l, i) then With(s, i, Got(item)).(fetchQueue := s.fetchQueue[1..])
    else if IsParser(l, i) then With(s, i, Parsing(item)).(fetchResults := s.fetchResults[1..])
    else With(s, i, Persisting(item)).(persistQueue := s.persistQueue[1..])
  }

  function Reserve(s: State, i: nat, w: Worker): State
    requires i < |s.workers| && (w.Checked? || w.Loaded?)
  {
    With(s, i, Reserved(w.item, w.rank, w.link)).(urls := s.urls + 1, granted := s.granted + 1)
  }

  function Worked(l: Limits, s: State, i: nat, step: Step): State
    requires StepEnabled(l, s, i, step)
  {
    var w := s.workers[i];
    match step
    case Take => Taken(l, s, i)
    case Quit => With(s, i, Gone)
    case Drop => Leave(s, i, Idle)
    case HostKnown => With(s, i, Ready(w.item))
    case MarkHost(host) => With(s, i, Onboarding(w.item)).(hosts := s.hosts + {host})
    case PushSitemap(entry) => PushOn(s, entry)
    case Onboarded => With(s, i, Ready(w.item))
    case Fetch => With(s, i, Fetched(w.item))
    case Pass =>
      if w.Fetched? then With(s, i, Idle).(fetchResults := s.fetchResults + [w.item])
      else With(s, i, Idle).(persistQueue := s.persistQueue + [w.item])
    case Abort => Leave(s, i, Gone)
    case NotAPage => With(s, i, Parsed(w.item))
    case CountPage =>
      var n := s.pages + 1;
      With(s, i, if l.maxPages > 0 && n > l.maxPages then Parsed(w.item) else Expanding(w.item, n))
        .(pages := n, ranked := s.ranked + [w.item])
    case CheckLink(target) => With(s, i, Checked(w.item, w.rank, target))
    case Load =>
      if l.maxDiscovered <= 0 then Reserve(s, i, w)
      else if s.urls >= l.maxDiscovered then With(s, i, Expanding(w.item, w.rank))
      else With(s, i, Loaded(w.item, w.rank, w.link, s.urls))
    case Swap => if s.urls == w.current then Reserve(s, i, w) else With(s, i, Checked(w.item, w.rank, w.link))
    case PushLink => PushOn(With(s, i, Expanding(w.item, w.rank)), w.link).(pushers := s.pushers + {w.rank})
    case StoreFailed => With(s, i, Expanding(w.item, w.rank))
    case Expanded => With(s, i, Parsed(w.item))
    case Persist => Leave(s, i, Idle)
    case Fail => Leave(s, i, Failing)
    case CancelAll => With(s, i, Gone).(cancelled := true)
  }

  // ---------- The dispatcher ----------

  predicate Looks(d: Dispatcher) {
    d.ReadPages? || d.ReadInFlight? || d.Counting? || d.ExitPages? || d.ExitInFlight? || d.ExitLen? || d.ExitZero?
  }

  function Looked(l: Limits, s: State): State
    requires Looks(s.disp)
  {
    match s.disp
    case ReadPages => s.(disp := if l.maxPages > 0 then ReadInFlight(s.pages) else Popping)
    case ReadInFlight(p) => s.(disp := if p + s.inFlight >= l.maxPages then ExitPages else Popping)
    case Counting(item) => s.(disp := Sending(item), inFlight := s.inFlight + 1)
    case ExitPages => s.(disp := if l.maxPages > 0 then ExitInFlight(s.pages) else ExitLen(false))
    case ExitInFlight(p) => s.(disp := ExitLen(p + s.inFlight >= l.maxPages))
    case ExitLen(reached) =>
      s.(disp := if s.frontier.items == multiset{} || reached then ExitZero(reached) else Sleeping, late := multiset{})
    case ExitZero(reached) => s.(disp := if s.inFlight == 0 then Draining(1, true, reached) else Sleeping)
  }

  predicate ReadsFrom(l: Limits, closed: nat, i: nat) {
    if closed == 1 then IsFetcher(l, i) else if closed == 2 then IsParser(l, i) else IsPersister(l, i)
  }

  /** All goroutines that read from the last closed channel have returned. */
  ghost predicate StageDone(l: Limits, s: State, closed: nat) {
    forall i: nat :: i < |s.workers| && ReadsFrom(l, closed, i) ==> s.workers[i].Gone?
  }

  ghost predicate Enabled(l: Limits, s: State, a: Action) {
    match a
    case Cancel => true
    case Look => Looks(s.disp)
    case Pop(result) =>
      && s.disp.Popping?
      && (result.Some? ==> IsLeast(s.frontier.items, result.value))
      && (result.None? ==> s.frontier.items == multiset{})
    case Send => s.disp.Sending? && |s.fetchQueue| < FETCH_QUEUE
    case GiveUp => s.cancelled && (s.disp.Sending? || s.disp.Sleeping?)
    case Wake => s.disp.Sleeping?
    case Close => s.disp.Draining? && StageDone(l, s, s.disp.closed)
    case Work(i, step) => StepEnabled(l, s, i, step)
  }

  ghost function Apply(l: Limits, s: State, a: Action): State
    requires Enabled(l, s, a)
  {
    match a
    case Cancel => s.(cancelled := true)
    case Look => Looked(l, s)
    case Pop(result) =>
      if result.None? then s.(disp := ExitPages)
      else s.(disp := Counting(result.value),
          frontier := s.frontier.(items := s.frontier.items - multiset{result.value}),
              dispatched := s.dispatched + multiset{result.value})
    case Send => s.(disp := ReadPages, fetchQueue := s.fetchQueue + [s.disp.item])
    case GiveUp =>
      if s.disp.Sleeping? then s.(disp := Draining(1, false, false))
      else s.(disp := Draining(1, false, false), inFlight := s.inFlight - 1, left := s.left + multiset{s.disp.item})
    case Wake => s.(disp := ReadPages)
    case Close =>
      s.(disp := if s.disp.closed >= 3 then Returned(s.disp.clean, s.disp.reached)
                 else Draining(s.disp.closed + 1, s.disp.clean, s.disp.reached))
    case Work(i, step) => Worked(l, s, i, step)
  }

  // ---------- Runs ----------

  /** A frontier as `Frontier.Queue` keeps it. */
  ghost predicate SoundFrontier(f: Contents) {
    DistinctUrls(f.items) && forall item :: item in f.items ==> item.urlId in f.seen
  }

  ghost predicate Initial(l: Limits, s: State, pages: int, urls: int) {
    && SoundFrontier(s.frontier)
    && s.inFlight == 0 && s.pages == pages && s.urls == urls && s.disp == ReadPages
    && s.fetchQueue == [] && s.fetchResults == [] && s.persistQueue == []
    && |s.workers| == l.fetchers + PARSERS + 1 && (forall w :: w in s.workers ==> w == Idle)
    && s.dispatched == multiset{} && s.left == multiset{} && s.ranked == [] && s.pushers == {} && s.granted == 0
    && s.late == multiset{}
  }

  ghost predicate Run(l: Limits, states: seq<State>, actions: seq<Action>, pages: int, urls: int) {
    && |states| == |actions| + 1 && Initial(l, states[0], pages, urls)
    && forall i :: 0 <= i < |actions| ==>
        Enabled(l, states[i], actions[i]) && states[i + 1] == Apply(l, states[i], actions[i])
  }
}
