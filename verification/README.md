# Crawl scheduler, verified model

A Dafny 4.11 model of the part of the SEO crawler that decides what is fetched, when, how often and when to stop,
with proofs of what that part is trusted for. Every theorem is about all inputs, all runs or all interleavings of the
model. Check everything with `dafny verify dfyconfig.toml`.

How the files fit together:

- `GoText` holds the few Go string functions the rest needs, on sequences of bytes, with the laws that fix them.
- `Frontier` is the deduplicating heap of `internal/frontier`, as a class over its slice and its `seen` map, and the
  value it stands for. `LinkDepths` is the depth recomputation, `SerialCrawl` shows that the two agree.
- `Onboarding` is host onboarding and sitemap enqueueing, two methods that call each other and share one frontier.
- `Pipeline` is the crawl pipeline as a step protocol. Each read or write of an atomic counter, each channel
  operation and each test the dispatcher makes is a step of its own. `PipelineAccounting` counts the items,
  `PipelinePages` bounds the pages, `PipelineDiscovery` bounds URLs, depths and hosts, `PipelineExit` says what an end
  leaves behind, and `PipelineEnding` that the crawl does end. `PipelineRuns` and `PipelineMoves` are the means to build
  runs; `PipelineOvershoot` builds those that meet the page bound, `PipelineShortfall` those that stop short of it, and
  `PipelineRaces` those that end with a URL left or a failure unreported.
- `RobotsMatcher`, `RobotsGroups` and `RobotsParser` are the robots.txt engine, and `RobotsRfcGroups` compares its
  groups with those of RFC 9309, read off the positions of the lines.
- `Sitemap` is the sitemap worklist, `Redirects` one fetch with its redirect hook and its single retry.
- `HostLimiter` is the per-host limiter with its lock and its timers; `WindowLimiter` the per-client limiter of the
  HTTP server.
- `JobTable` and `JobSlots` are the job table and the protocol of posts, worker, cancels and runs around it.
- `KeysetPages` is the pagination of the query methods.

Where a source file works on shared state step by step, there are two forms: a class or loop in the source's shape
whose contract equates its effect with a function on values, and lemmas about that function or about a protocol built
from it.

Properties that turned out not to hold as one might expect, each with the exact condition or bound and a witness:

- `matchPattern` misses some `$` patterns. It disagrees with section 2.2.3 of RFC 9309 exactly when the last literal
  of an anchored pattern also occurs earlier in what the other parts leave (`LastLiteralComesEarly`, with
  `AnchoredMissWitness`).
- Precedence leaves a trailing `$` out of a pattern's length, where section 2.2.2 of RFC 9309 counts octets.
  `LengthsDecideExactly` says which matching rules make that grant or refuse wrongly, `DollarWitnesses` shows both.
  `DecisionAgainstRfc` puts missed rules and lengths together: exactly when the decision on a group is not the RFC's,
  in each direction (`MissedRuleWitness`). Without `$` it always is.
- A `crawl-delay` line ends a run of user-agent lines, which section 2.2.4 of RFC 9309 rules out. The exported rule
  list differs from the RFC's group by exactly the rules cut off in this way (`ListAgainstRfcGroup`, with
  `DelayCutWitness`).
- A repeated user-agent keeps in memory only the rules behind which no line names it again, while section 2.2.1 of
  RFC 9309 combines the blocks (`GroupByPosition`, with `RepeatedAgentAgainstRfc`). `GroupDecidesAsRfcUnless` says for
  which paths cuts, repetitions, missed rules and lengths together change the decision.
- `pagesCrawled` can pass `maxPages`, because the dispatcher reads two counters one after the other. With enough to
  crawl it can pass it by k pages if and only if 0 + 1 + ... + (k - 1) is less than what was left of the limit and less
  than the number of fetchers plus 132, which is what channels and pools hold (`OvershootExactly`). So every limit can
  be passed (`OverTheLimit`), and with 8 fetchers never by more than 17 pages.
- The crawl can also stop short of `maxPages` with URLs left, because the test for the limit adds pages and items in
  flight, and these need not become pages or are counted already. It can do so by k pages if and only if k is at most
  what was left of the limit and at most the number of fetchers plus 261, which is what all channels and workers hold
  (`ShortfallExactly`).
- The pipeline can return cleanly, far from any limit, with a URL still on the frontier: for every start with a single
  item whose page has a new link there is such a run (`LeftBehind`). Only URLs pushed between the last two reads can
  be left (`CleanExitLeaves`).
- A persister that fails gives its item up before it cancels the crawl, so a failure on the last item can end in a clean
  return (`FailureUnreported`). The other way round an error always means a cancellation (`ErrorMeansCancelled`).
- A wake-up of the job queue is lost exactly when the worker comes to claim a job that is no longer queued, while
  another one is, no run is live and no signal is pending (`WakeUpsKeptExactly`, with `LateCancelStarves`); a cancel
  between choosing and claiming does that (`LateCancelLosesExactly`). If queued and running jobs then fill the limit, no
  post starts anything until another cancel (`StarvationStays`); if they do not, the next post does
  (`NextPostStartsExactly`).
- One signal starts one job, so jobs can wait beside free slots (`OneSignalOneJob`). Unless a wake-up is lost, that
  happens only while a run is live (`IdleOnlyUntilRunEnds`), and nothing starts meanwhile if queued and running jobs
  fill the limit (`StallLasts`).
- A cancel strands its job in the status "cancelling" exactly when it has read that the job runs and the run has gone
  before it writes (`CancelStrandsExactly`, with `StrandedWitness`); no later cancel gets it out (`StrandedForGood`).
- The job limit bounds jobs marked running. Live runs are those plus the ones that are being cancelled or have finished
  and not gone (`LiveRuns`), and of these there can be any number (`FinishedRunsStayLive`).
- A fetch reports a redirect loop exactly when its last target was met before in either attempt
  (`LoopReportedExactly`), so a retry after status 429 raises false alarms, exactly those of `FalseAlarmExactly`
  (`FalseAlarmWitness`).
- A host's throttle is the longest of the calls since throttling was last taken back, expired or not, until the latest
  of them expires (`ThrottleHolds`, with `ShortThrottleProlongs`).
- A fixed window lets through at most 2 * limit - 1 requests in any window's length, and that many do get through
  (`BoundIsMet`).

## Model

| member | source | states |
|---|---|---|
| GoText.ToLowerExactly | internal/robots/parser.go:70 | lower-casing gives the one text without capitals that is the same up to letter case |
| GoText.TrimSpaceOf | internal/robots/parser.go:55 | trimming takes the white space off both ends and nothing else |
| GoText.SplitJoins | internal/robots/parser.go:47 | the pieces of a text have no separator inside and joined give the text back |
| GoText.JoinSplits | internal/robots/parser.go:47 | joined pieces without separators are split into the same pieces |
| Frontier.Queue.Push | internal/frontier/queue.go:33-42 | a URL seen before changes nothing, any other item joins the bag; heap order and one entry per URL are kept |
| Frontier.Queue.Pop | internal/frontier/queue.go:45-53 | gives an item of least depth and removes exactly it, or nothing when the queue is empty |
| Frontier.Queue.Len | internal/frontier/queue.go:56-60 | the number of queued items |
| Frontier.Queue.HeapPush | internal/frontier/queue.go:41-88 | adds exactly the item and keeps heap order |
| Frontier.Queue.HeapPop | internal/frontier/queue.go:52-96 | removes exactly the root and keeps heap order |
| Frontier.Queue.Up | internal/frontier/queue.go:82-88 | sift-up over `Less` and `Swap` restores heap order and keeps the bag |
| Frontier.Queue.Down | internal/frontier/queue.go:82-96 | sift-down restores heap order of the first n, keeps the bag and the rest of the slice |
| Frontier.Queue.Peek | internal/frontier/queue.go:63-70 | an item of least depth, or the zero item when empty |
| Frontier.Queue.Contains | internal/frontier/queue.go:73-77 | true exactly of the URLs ever pushed |
| Frontier.RootIsLeast | internal/frontier/queue.go:79-84 | heap order puts a least item at the root |
| Frontier.Conservation | internal/frontier/queue.go:33-53 | over any sequence of calls, popped plus queued items are exactly the first push of each URL, each once |
| Frontier.SeenOnlyGrows | internal/frontier/queue.go:73-77 | `Contains` never goes from true to false |
| Frontier.PopsDescend | internal/frontier/queue.go:45-53 | pops without a push between them come in nondecreasing depth |
| LinkDepths.RecomputePageDepths | internal/engine/engine.go:4044-4091 | pages reachable from a seed get their least number of links from any seed, all others keep their depth, on every graph |
| LinkDepths.Search | internal/engine/engine.go:4044-4075 | the search covers the seeds at 0 and every link of a covered page at most one deeper, and each entry is the length of a walk |
| LinkDepths.Expand | internal/engine/engine.go:4064-4074 | afterwards every link of the page taken from the queue is covered, and the queue is still in order of depth |
| LinkDepths.BoundedByWalks | internal/engine/engine.go:4061-4075 | a table closed under links is no deeper than any walk |
| SerialCrawl.SerialCrawlIsBreadthFirst | internal/engine/engine.go:1811-1889 | handling one page at a time, pops never get shallower and a finished crawl has met exactly the reachable URLs, each at its distance |
| SerialCrawl.RecomputeAfterCrawl | internal/engine/engine.go:4044-4091 | recomputing the depths of a finished one-at-a-time crawl changes nothing |
| Onboarding.HostOnboarding.EnsureHostOnboarded | internal/engine/engine.go:749-798 | false, and nothing done, exactly when a new host meets a full limit; else the host is marked, its sitemap entries and all hosts they lead to are worked off unless a budget is used up or the crawl cancelled; terminates |
| Onboarding.SameKeyExactly | internal/engine/engine.go:755 | two hosts share a key if and only if scheme and host are the same up to letter case |
| Onboarding.SeedHostsApart | internal/engine/engine.go:740-746 | without a host limit two seed hosts that differ otherwise are both onboarded, each once |
| Onboarding.NothingTurnedAway | internal/engine/engine.go:800-867 | nothing is turned away without limits and cancellation |
| Onboarding.HostOnboarding.EnqueueSitemapEntry | internal/engine/engine.go:800-847 | every item it adds, at any level of the recursion, has the given depth, comes from a listed entry and lies on a host marked before |
| Onboarding.HostOnboarding.EnqueueReserved | internal/engine/engine.go:819-846 | with a granted reservation the entry ends handled unless something was turned away |
| Onboarding.HostOnboarding.Admit | internal/engine/engine.go:825-846 | an allowed and stored entry is pushed unless its URL is known |
| Onboarding.HostOnboarding.ReserveDiscoveredURL | internal/engine/engine.go:849-867 | grants below the limit and counts, refuses at the limit and changes nothing |
| Onboarding.HostOnboarding.OnboardSeedHosts | internal/engine/engine.go:710-747 | hosts onboarded at most once and at most `maxHosts`, added items at depth 1, every seed host settled unless a host limit turned it away |
| Onboarding.ReachableHostsOnboarded | internal/engine/engine.go:749-847 | if nothing was turned away, every host a chain of sitemaps reaches is onboarded and explored |
| PipelineAccounting.EveryStateAccounted | internal/engine/engine.go:980-1174 | in every interleaving `inFlight` is the number of items in hand, channels and workers, and dispatched items are those inside plus those gone |
| PipelineAccounting.LeavesExactlyOnce | internal/engine/engine.go:996-1147 | no item is dispatched twice or leaves twice; once `inFlight` is zero each has left exactly once |
| PipelineAccounting.UniqueStep | internal/engine/engine.go:1135-1141 | no URL is on the frontier or dispatched a second time |
| PipelinePages.PageOvershoot | internal/engine/engine.go:1132-1151 | in every interleaving `pagesCrawled` passes `maxPages` by k only if 0 + ... + (k - 1) is less than what was left and less than what fits into channels and pools, so from zero or more at most to twice the limit; a pipeline started at the limit counts nothing |
| PipelinePages.OvershootByCapacity | internal/engine/engine.go:913-915 | k(k - 1) is less than twice the fetchers plus 132, for every limit |
| PipelinePages.PendingFits | internal/engine/engine.go:913-929 | at most 132 items and one per fetcher are on their way to becoming pages while the dispatcher holds none |
| PipelinePages.PassTakesPages | internal/engine/engine.go:1132-1134 | going on with j pages too many in prospect takes j + 1 pages counted between the two reads |
| PipelineOvershoot.OvershootExactly | internal/engine/engine.go:1130-1151 | from a start with enough to crawl, passing the limit by k is possible if and only if 0 + ... + (k - 1) is less than the slack |
| PipelineOvershoot.PassedExactlyFromBelow | internal/engine/engine.go:1132-1134 | the limit can be passed exactly from starts below it |
| PipelineOvershoot.OverTheLimit | internal/engine/engine.go:1132-1139 | for every limit and pool size a run that counts one page more |
| PipelineOvershoot.MakeRoom | internal/engine/engine.go:1016-1120 | while the pipeline is not full its workers can move so that `fetchQueue` has room |
| PipelineOvershoot.CountOne | internal/engine/engine.go:989-1035 | whatever is in flight before the persister, the workers can count one of it as a page and store it |
| PipelineOvershoot.MoveOne | internal/engine/engine.go:1016-1120 | whatever is in flight before the persister, the workers can take one of it past the parsers, as a page or not |
| PipelinePages.FewPagesPush | internal/engine/engine.go:1571-1575 | each page has its own rank and fewer than `maxPages` pages ever push a link |
| PipelinePages.CountedOnce | internal/engine/engine.go:1528-1571 | an item is counted as a page at most once and only after its dispatch |
| PipelineDiscovery.DiscoveryBudget | internal/engine/engine.go:1855-1878 | the compare-and-swap loop keeps `urlsDiscovered` at most max(start, limit), and it grows by exactly the granted reservations |
| PipelineDiscovery.FrontierDepth | internal/engine/engine.go:1811-1815 | in every interleaving frontier items are at most one deeper than `maxDepth`, and the deeper ones lie on onboarded hosts |
| PipelineDiscovery.HostLimit | internal/engine/engine.go:756-770 | in every interleaving of fetchers at most `maxHosts` hosts are ever marked |
| PipelineDiscovery.HostLimitIsMet | internal/engine/engine.go:756-770 | a run that marks as many new hosts as the limit has room for |
| PipelineDiscovery.RefusedOnlyAtLimit | internal/engine/engine.go:1855-1878 | a link is turned away only at the limit, and after contention the parser looks again |
| PipelineExit.CleanExitLeaves | internal/engine/engine.go:1149-1174 | on a clean exit all channels and workers are empty and every item has left; below the page limit only items pushed after the last length read remain |
| PipelineExit.NeverStuck | internal/engine/engine.go:986-1174 | in every interleaving some goroutine can move until the pipeline returns, and never only the timer while items are in flight |
| PipelineExit.ErrorMeansCancelled | internal/engine/engine.go:1140-1160 | in every interleaving the pipeline returns an error only when the crawl was cancelled |
| PipelineEnding.CrawlEnds | internal/engine/engine.go:1130-1154 | from every reachable round with nothing in flight and the frontier empty or the page limit met, in every interleaving: no sleep and no dispatch, a clean return within 10 steps and one per worker, the frontier untouched |
| PipelineEnding.NoTickInVain | internal/engine/engine.go:1130-1161 | from every reachable state with nothing in flight, within 14 steps and one per worker the dispatcher has popped an item or the pipeline returns |
| PipelineShortfall.ShortfallExactly | internal/engine/engine.go:1151-1154 | a clean return at the limit with URLs left and k pages missing is possible if and only if k were missing and k items fit into channels and workers; with k = 0 the ordinary end at the limit |
| PipelineShortfall.ShortfallBound | internal/engine/engine.go:1151-1154 | in every interleaving, no more pages are missing when the limit is taken for met than items fit |
| PipelineExit.ParserMoves | internal/engine/engine.go:1018-1035 | a parser with work can move, or the persister can |
| PipelineRaces.LeftBehind | internal/engine/engine.go:1130-1174 | for every start with one item on a known host and room for three pages, a run to a clean return below all limits that leaves a link of its page on the frontier |
| PipelineRaces.LeftBehindUnderAnyLimits | internal/engine/engine.go:1152-1174 | such starts exist for every pool size and all limits that leave room |
| PipelineRaces.FailureUnreported | internal/engine/engine.go:1004-1008 | for every start with one item, a run in which the persister fails to store it and the pipeline returns without error |
| RobotsMatcher.MatchPattern | internal/robots/parser.go:216-261 | the loop answers `Accepts`, the greedy reading of the pattern |
| RobotsMatcher.GreedySound | internal/robots/parser.go:235-252 | what the loop finds is one way of finding the parts in order |
| RobotsMatcher.GreedyLeavesMost | internal/robots/parser.go:247-251 | leftmost occurrences leave at least as much as any other way |
| RobotsMatcher.GlobByParts | internal/robots/parser.go:232-233 | RFC wildcard matching is finding the parts between the stars in order |
| RobotsMatcher.UnanchoredIsRfc | internal/robots/parser.go:223-260 | without `$` the matcher is exactly section 2.2.3 of RFC 9309 |
| RobotsMatcher.AnchoredIsRfcUnlessEarly | internal/robots/parser.go:254-259 | with `$` it accepts nothing the RFC rejects, and misses exactly when the last literal comes early |
| RobotsMatcher.MatcherAgainstRfc | internal/robots/parser.go:216-261 | for all paths and patterns: agreement with the RFC if and only if not `LastLiteralComesEarly` |
| RobotsMatcher.AnchoredMiss | internal/robots/parser.go:247-258 | the whole family of one-star patterns that are missed |
| RobotsMatcher.AnchoredMissWitness | internal/robots/parser.go:254-259 | `/*a$` against `/aba` |
| RobotsGroups.Decide | internal/robots/parser.go:145-164 | allowed exactly when no rule matches or some longest match is an allow (section 2.2.2 of RFC 9309) |
| RobotsGroups.PermittedBySet | internal/robots/parser.go:145-164 | order and repetition of rules do not matter |
| RobotsGroups.LengthsDecideExactly | internal/robots/parser.go:206-212 | for any matching rules, exactly when leaving the `$` out of the length grants what the most octets refuse, and exactly when it refuses what they grant |
| RobotsGroups.FewRulesAgainstRfc | internal/robots/parser.go:145-164 | for any rules the crawler has and any the RFC gives it beyond them: exactly which paths it wrongly allows and wrongly refuses, lost rules and lengths together |
| RobotsGroups.DecisionAgainstRfc | internal/robots/parser.go:145-164 | exactly which paths are wrongly allowed and wrongly refused, measured by octets; the rules lost are those the matcher misses, and without `$` the decision is the RFC's |
| RobotsGroups.MissedRuleWitness | internal/robots/parser.go:254-259 | a path allowed against the RFC because its only disallow is missed |
| RobotsGroups.DollarWitnesses | internal/robots/parser.go:206-212 | for every literal path, two rules with which it is wrongly allowed and two with which it is wrongly refused because of a `$` |
| RobotsGroups.MoreMatches | internal/robots/parser.go:155-164 | exactly which further matching rules turn a decision |
| RobotsGroups.RobotsFile.FindGroup | internal/robots/parser.go:179-202 | for every order of the map: exact agent, else the first of the longest contained tokens, else `*`, else none |
| RobotsGroups.PickedIsChosen | internal/robots/parser.go:184-201 | under every order an agent is picked that may be chosen, and one is picked whenever one may be |
| RobotsGroups.TokenIsFound | internal/robots/parser.go:186-194 | a crawler whose name contains a listed token obeys a group whose token is at least as long, never `*` |
| RobotsGroups.EveryChoiceHappens | internal/robots/parser.go:186-194 | every agent that may be chosen is picked under some order |
| RobotsGroups.RobotsFile.IsAllowed | internal/robots/parser.go:136-165 | without a group everything is allowed, else the rules of the picked group decide |
| RobotsGroups.RobotsFile.CrawlDelayOf | internal/robots/parser.go:169-175 | the delay of the picked group, 0 without one |
| RobotsGroups.ChoiceIsOrderIndependent | internal/robots/parser.go:184-197 | all orders find the same group exactly when the longest tokens name one group or the agent is listed itself |
| RobotsParser.Parse | internal/robots/parser.go:37-133 | the line loop, with groups shared by reference, builds what folding the lines builds |
| RobotsParser.LexOfField | internal/robots/parser.go:50-71 | blanks around name and value and a comment do not count; the name comes in small letters, the value unchanged |
| RobotsParser.LexSaysSomething | internal/robots/parser.go:50-66 | a line counts exactly when a colon stands before any comment |
| RobotsParser.LexIgnoresCase | internal/robots/parser.go:68-70 | lines that differ only in the letter case of the name say the same |
| RobotsParser.ParseLine | internal/robots/parser.go:72-129 | one line changes heap and loop variables as one step of the fold |
| RobotsParser.NameAgent | internal/robots/parser.go:73-87 | after rules a new group begins; the agent points to the current group, replacing an earlier one |
| RobotsParser.AddRule | internal/robots/parser.go:89-124 | the rule goes to the current group and to the list once per agent; ignored outside a group |
| RobotsParser.Placement | internal/robots/parser.go:73-124 | every rule reaches the stored list and the group of each agent of its block |
| RobotsParser.FlatListIsItsBlocks | internal/robots/parser.go:89-124 | the stored list of an agent holds exactly the rules of the blocks that name it |
| RobotsParser.OneBlockAgrees | internal/robots/parser.go:48-130 | for an agent named by one block, stored list and group decide every path alike |
| RobotsParser.RepeatedAgentWitness | internal/robots/parser.go:87 | two blocks for one agent that decide differently |
| RobotsRfcGroups.ParserTracks | internal/robots/parser.go:49-118 | after every file the open agents are those that the line positions give, crawl-delay lines counted as rules |
| RobotsRfcGroups.ListIsCrawlerGroup | internal/robots/parser.go:89-124 | the stored list is exactly the group that the positions give under that reading |
| RobotsRfcGroups.ReadingsPart | internal/robots/parser.go:113-118 | a line is addressed to an agent by the RFC and not by the parser exactly when a crawl-delay line has cut the agent off; never the other way round |
| RobotsRfcGroups.AgentsAreRfcUnlessCut | internal/robots/parser.go:75-118 | the parser holds the RFC's agents at every position if and only if no such cut occurs |
| RobotsRfcGroups.GroupByPosition | internal/robots/parser.go:73-124 | the group in memory holds exactly the rules addressed to the agent behind which no line names it again |
| RobotsRfcGroups.GroupIsLastBlock | internal/robots/parser.go:73-87 | the group lacks exactly the listed rules that stand only before a later naming; for which paths it decides otherwise than the stored list, in both directions |
| RobotsRfcGroups.GroupExists | internal/robots/parser.go:73-87 | an agent has a group exactly when a line names it |
| RobotsRfcGroups.CaseOfAgentIrrelevant | internal/robots/parser.go:180-183 | agents that are the same up to letter case are named by the same lines and find the same group |
| RobotsRfcGroups.WrittenRule | internal/robots/parser.go:37-111 | from the text of a file: an agent and a disallow, however their names are capitalized, forbid the path to the agent in any letter case |
| RobotsRfcGroups.DelayByPosition | internal/robots/parser.go:113-121 | the delay is the last readable one addressed to the agent behind which no line names it again, 0 without one |
| RobotsRfcGroups.StoredDelays | internal/robots/parser.go:122-124 | the stored list has a delay for an agent exactly when a crawl-delay line is addressed to it |
| RobotsRfcGroups.SitemapsInOrder | internal/robots/parser.go:126-128 | the sitemaps are the values of the sitemap lines, in order |
| RobotsRfcGroups.StoredSitemaps | internal/robots/parser.go:126-128 | the stored list has exactly the sitemaps that a line gives |
| RobotsRfcGroups.ListAgainstRfcGroup | internal/robots/parser.go:89-124 | stored list and RFC group agree exactly when every rule cut off reaches the agent some other way; the list lacks just the others |
| RobotsRfcGroups.ListDecidesAsRfcUnlessCut | internal/robots/parser.go:89-124 | for which paths the stored list, decided as the crawler decides, differs from the RFC's decision on the RFC's group; the rules lost are those cut off and those missed |
| RobotsRfcGroups.GroupDecidesAsRfcUnless | internal/robots/parser.go:73-164 | for which paths the crawler's decision differs from the RFC's decision on the RFC's group; the rules lost are those superseded, cut off or missed |
| RobotsRfcGroups.PlainFileAgrees | internal/robots/parser.go:37-133 | for files without crawl-delay and `$` the stored list decides as the RFC |
| RobotsRfcGroups.RepeatedAgentAgainstRfc | internal/robots/parser.go:87 | an agent named by two blocks is allowed a path that the RFC refuses |
| RobotsRfcGroups.DelayCutWitness | internal/robots/parser.go:113-118 | two agents with a crawl-delay between them and one rule |
| Sitemap.FetchAndParse | internal/sitemap/parser.go:88-164 | the loop is the traversal; at most 1000 fetches, none twice, at most `maxEntries` entries; the guard on fetched sitemaps is unreachable |
| Sitemap.TurnKeepsBound | internal/sitemap/parser.go:97-161 | fetches made plus queue length stay at most 1000 |
| Sitemap.TraversalIsBounded | internal/sitemap/parser.go:97-163 | the bounds hold over the whole traversal, for every web |
| Sitemap.LargerBudgetExtends | internal/sitemap/parser.go:97-161 | the entries for a budget are a prefix of those for a larger one, error exits included |
| Sitemap.NothingMissed | internal/sitemap/parser.go:97-163 | with faithful redirects, a traversal below its budget has every URL of every reachable URL set |
| Sitemap.ErrorExactly | internal/sitemap/parser.go:111-148 | the root's error ends a traversal exactly when the root is unreadable or malformed; otherwise only a cancellation or an index that lists too much does, never another address |
| Sitemap.FirstComeFirstServed | internal/sitemap/parser.go:97-161 | addresses are asked for in the order in which the root and the served indexes list them; count and entries are exactly those of the addresses served, in this order, cut at the budget |
| Sitemap.CountsFinals | internal/sitemap/parser.go:119-129 | with faithful redirects the count is that of the different final addresses |
| HostLimiter.HostState.EffectiveDelayLocked | internal/fetcher/ratelimit.go:170-179 | drops an expired throttle and answers the larger of throttle and base |
| HostLimiter.HostState.SetCrawlDelay | internal/fetcher/ratelimit.go:125-130 | changes the base delay and nothing of the throttle |
| HostLimiter.HostState.ThrottleLocked | internal/fetcher/ratelimit.go:144-158 | extends delay and end as needed and starts a timer exactly when something changed |
| HostLimiter.HostState.TimerFired | internal/fetcher/ratelimit.go:160-167 | an old or early timer changes nothing |
| HostLimiter.EveryRunIsSafe | internal/fetcher/ratelimit.go:57-168 | in every run tokens, spacing and throttles are kept, cancelled waits included |
| HostLimiter.ThrottleHolds | internal/fetcher/ratelimit.go:137-179 | whatever timers fire, the delay is exactly the larger of the base and the longest call since throttling was last taken back while one of these runs, and the base once all have expired; no running throttle is undercut |
| HostLimiter.SinceSummarizes | internal/fetcher/ratelimit.go:144-168 | in every run the throttle is the longest of these calls and its end the latest of theirs; all other calls have expired |
| HostLimiter.BaseIsLastSet | internal/fetcher/ratelimit.go:125-130 | in every run the base is the delay last set, 0 before any |
| HostLimiter.AllSlotsTaken | internal/fetcher/ratelimit.go:57-91 | a run in which as many callers as there are slots have one at once |
| HostLimiter.ShortThrottleProlongs | internal/fetcher/ratelimit.go:149-155 | a run in which an expired throttle stays in force because a shorter one runs on |
| HostLimiter.RunsKeepTheDelay | internal/fetcher/ratelimit.go:93-113 | in every run n grants under delays of at least D span at least (n-1)*D, and no more slots are taken than there are |
| HostLimiter.ThrottledGrantsAreApart | internal/fetcher/ratelimit.go:94-113 | a grant follows the one before by every throttle running when its caller took the lock |
| WindowLimiter.RateLimiter.Allow | internal/httpserver/server.go:351-365 | answer and new table of the fixed window |
| WindowLimiter.RateLimiter.Gc | internal/httpserver/server.go:367-380 | drops exactly the windows that started two lengths ago |
| WindowLimiter.CollectionIsInvisible | internal/httpserver/server.go:351-380 | collecting at any moments never changes an answer |
| WindowLimiter.FewerThanTwiceTheLimit | internal/httpserver/server.go:351-365 | any half-open interval of one window length admits at most 2 * limit - 1 requests of a key |
| WindowLimiter.RefusedOnlyWhenFull | internal/httpserver/server.go:357-362 | a request is refused only when the limit was let through within the last window's length |
| WindowLimiter.OthersNeverCount | internal/httpserver/server.go:351-365 | requests of other clients never change an answer |
| WindowLimiter.BoundIsMet | internal/httpserver/server.go:351-365 | for every limit and every window of two ticks or more, a run in which that many do get through |
| JobTable.Table.UpdateJobStarted | internal/storage/jobs.go:96-118 | claims a job exactly when it is queued |
| JobTable.Table.CreateJob | internal/storage/jobs.go:42-55 | appends a queued row under a new id |
| JobTable.Table.UpdateJobStatus | internal/storage/jobs.go:75-93 | writes whatever the status was; not found otherwise |
| JobTable.Table.CountActiveJobs | internal/storage/jobs.go:347-359 | counts queued and running rows |
| JobTable.Table.CountRunningJobs | internal/storage/jobs.go:365-377 | counts running rows only |
| JobTable.Table.NextQueuedJob | internal/storage/jobs.go:381-393 | a queued job that no queued job is older than, or none |
| JobSlots.SlotsAreSafe | internal/httpserver/handlers.go:351-392 | in every interleaving running jobs stay within the limit and no job starts twice, so no run finds its job registered |
| JobSlots.BoundedStep | internal/httpserver/server.go:124-145 | whoever has counted a free slot under the lock still has it when claiming |
| JobSlots.WakeUpsKeptExactly | internal/httpserver/server.go:116-191 | in every run somebody is awake while a job waits, if and only if no claim meets a job no longer queued with another one queued, no live run and no signal |
| JobSlots.NoLostWakeUp | internal/httpserver/server.go:116-191 | so while a job waits somebody is awake, unless a cancel lands between choosing and claiming |
| JobSlots.LateCancelStarves | internal/httpserver/server.go:135-144 | a reachable state, with limit one, in which such a cancel has lost the wake-up for good |
| JobSlots.LateCancelLosesExactly | internal/httpserver/handlers.go:507-513 | a cancel of the chosen job just before the claim loses the wake-up exactly when another job is queued, no run is live and no signal is pending |
| JobSlots.IdleAfterClaimExactly | internal/httpserver/server.go:124-145 | after a claim a slot stays idle beside a waiting job exactly when no signal is pending and both are left over |
| JobSlots.IdleOnlyUntilRunEnds | internal/httpserver/server.go:116-191 | in every run slots idle beside waiting jobs only while a run is live, if and only if no wake-up is lost; with limit one only while that run winds down |
| JobSlots.StallLasts | internal/httpserver/handlers.go:354-388 | without a signal, once queued and running jobs fill the limit, nothing starts until a run writes or ends or a cancel writes |
| JobSlots.OneSignalOneJob | internal/httpserver/server.go:116-145 | for every limit above one, a reachable state with a single run, all other slots idle and as many jobs waiting |
| JobSlots.StarvationStays | internal/httpserver/handlers.go:354-388 | if nobody is awake and queued and running jobs fill the limit, no post starts anything until a cancel writes |
| JobSlots.NextPostStartsExactly | internal/httpserver/handlers.go:354-392 | the next post starts a run exactly when queued and running jobs leave a slot, whoever waits; otherwise it wakes nobody |
| JobSlots.LiveRuns | internal/httpserver/server.go:162-207 | in every interleaving live runs are the running jobs plus those winding down, and exceed the limit exactly when more are winding down than slots are free |
| JobSlots.FinishedRunsStayLive | internal/httpserver/server.go:163-190 | without any cancel, a reachable state with limit one and any number of live runs |
| JobSlots.CancellingRunStaysLive | internal/httpserver/handlers.go:517-524 | a cancelled run frees its slot before it ends: a reachable state with limit one and two live runs |
| JobSlots.CancelAtOnce | internal/httpserver/handlers.go:504-533 | undisturbed, a cancel cancels a waiting job, sets a running one on its way and puts an ended one away |
| JobSlots.CancelStrandsExactly | internal/httpserver/handlers.go:517-524 | a cancel leaves its job cancelling without a run exactly when it read that the job runs and the run has gone |
| JobSlots.StrandedForGood | internal/httpserver/handlers.go:517-524 | such a job stays so, whatever happens |
| JobSlots.StrandedWitness | internal/httpserver/handlers.go:517-524 | a reachable such state |
| Redirects.FetchResult.CheckRedirect | internal/fetcher/fetcher.go:198-240 | records the hop, then loop, hop limit and permission in this order |
| Redirects.FetchResult.Send | internal/fetcher/fetcher.go:253-260 | the client follows redirects as long as the hook lets it, and so terminates; it asks for exactly the addresses of its attempt |
| Redirects.Sent | internal/fetcher/fetcher.go:194-240 | one attempt only adds hops, never passes the limit, and leaves room for the retry when it met a 429 |
| Redirects.Done | internal/fetcher/fetcher.go:253-311 | never more than max(1, `MaxRedirectHops`) hops, the retry included |
| Redirects.Do | internal/fetcher/fetcher.go:170-311 | an address that is not permitted is not asked for; else the client's loop and the single retry, never more than max(1, `MaxRedirectHops`) hops, and every address asked for is permitted |
| Redirects.OnlyPermittedAsked | internal/fetcher/fetcher.go:229-237 | on every web, retried or not, only the given address and permitted ones are asked for or answer |
| Redirects.OutcomeExactly | internal/fetcher/fetcher.go:198-311 | the outcome is the answer of the last address asked for; it is a failure exactly when the wait for the retry is cancelled, that address does not answer, or its redirect is new, below the hop limit and not permitted |
| Redirects.AttemptRecords | internal/fetcher/fetcher.go:203-209 | the hops are exactly the redirects answered, in order |
| Redirects.ForbiddenRedirect | internal/fetcher/fetcher.go:229-237 | a redirect to a forbidden address fails and is not followed |
| Redirects.PlainFetch | internal/fetcher/fetcher.go:198-240 | without a 429 the hops form a numbered chain over different addresses; loop and limit flags are raised exactly when they should be |
| Redirects.RetryStopsAtFamiliarRedirect | internal/fetcher/fetcher.go:294-311 | a retry redirected to an address of the first attempt stops there and reports a loop |
| Redirects.LoopReportedExactly | internal/fetcher/fetcher.go:216-221 | on every web, retried or not, a loop is reported exactly when the last target was asked for or met before |
| Redirects.RedirectThenLimited | internal/fetcher/fetcher.go:294-311 | every site that redirects its start, answers 429 at the target and redirects again gets a false alarm |
| Redirects.FalseAlarmWitness | internal/fetcher/fetcher.go:294-311 | such a site exists |
| Redirects.FalseAlarmExactly | internal/fetcher/fetcher.go:294-311 | after a retry the report is no loop of the retry's own route exactly when its last target was met by the first attempt only |
| KeysetPages.QueryPage | internal/storage/queries.go:173-337 | one page past the cursor, a cursor exactly when more follows, an error exactly for a malformed cursor |
| KeysetPages.PageSize | internal/storage/queries.go:38-45 | a page has at most the rows asked for, 100 by default, and exactly so many when a cursor follows |
| KeysetPages.PageIsExact | internal/storage/queries.go:259-290 | a page has exactly the matching rows past its cursor and not past the next one |
| KeysetPages.Select | internal/storage/queries.go:259-278 | the first n rows past the cursor that match, in order |
| KeysetPages.Count | internal/storage/queries.go:292-334 | the number of matching rows, wherever the cursor is |
| KeysetPages.PastMatch | internal/storage/queries.go:285-290 | past the last row of a page come exactly the later matches |
| KeysetPages.BrowsingSeesEveryRow | internal/storage/queries.go:285-290 | what was seen and what is to come are all matches, whatever was added at the end meanwhile |
| KeysetPages.BrowsingToTheEnd | internal/storage/queries.go:173-337 | following the cursors to the end visits every matching row with a positive id once, in order |

## Left out

- HTTP transport, DNS, TLS, decompression, HTML parsing, rendering and audits: foreign calls; a reply, a page's links and a sitemap's content are parameters or steps chosen freely.
- `internal/urlutil`: URLs are ids, and normalization, scope and crawl-trap tests are free choices of the steps that follow them.
- SQL text, migrations and DTOs: a table is a sequence of rows with the guard each statement carries; database errors do not occur, except that storing a URL and persisting a page may fail.
- Panic recovery: a worker that panics is not modelled, so the accounting is about panic-free runs.
- `RateLimiter.Reset` during a run, which its comment forbids, and the TTFB ring buffer.
- `getState` creating a host's state twice at once: the model starts from the one state that wins.
- The robots rules a second fetcher sees while the first still onboards their host: nothing is claimed about robots compliance under concurrency; in `Onboarding` the verdict on an entry is a parameter.
- Crawl delay and robots files that onboarding passes on: they change no result modelled here.
- A host written in two letter cases: the model asks for a host's sitemaps by its lower-case key.
- Letter case and white space beyond ASCII; robots.txt numbers are read by a parameter in place of `strconv.Atoi`.
- The cursor's base64 and decimal text: a cursor is its id, or malformed. The status-code family error and the list of ignored filters are left out, filters are one predicate, and `QueryIssues` has the same shape as `QueryPages`.
- Jobs of other types, jobs started through MCP, and the physical purge of deleted jobs.
- The two admission limits before `handleCrawl` takes its lock: the window limiter is its own module, the hourly job count reads nothing the slots depend on.
- `queryVariantsTracker`, stream slots and other small counters: only easy members.
- The engine's second phases (escalation, audits): they run the same pipeline again, which is why its counters may start above zero.
- The sitemap budget `queuedDiscovered` is not part of the pipeline's state, because it shares nothing with `urlsDiscovered`; `Onboarding` bounds it.
- PipelineExit.NeverStuck: says that some step is possible, not that a scheduler takes it; while items are in flight nothing bounds the steps, since a page with endless links would keep a parser busy.
- PipelineOvershoot.OvershootExactly: speaks of starts with enough equally deep items on known hosts; when the crawl runs dry first, only the bound is proved.
- PipelineShortfall.ShortfallExactly: the same starts; in others only `ShortfallBound` is proved.
- Go's map order: `FindGroup` takes it as a parameter, and every order is possible.
- Percent-encoding: section 2.2.2 of RFC 9309 normalizes paths and patterns before it compares them, the crawler does not; both sides of the comparison take them as they are written.
