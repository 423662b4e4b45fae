# A model of the multi-tenant DNS resolver

The repository is a filtering DNS service for paying tenants. Queries arrive
over DNS-over-TLS, DNS-over-HTTPS and plain DNS, are attributed to a tenant by
the TLS server name or the source address, pass a policy pipeline (rate limit,
diagnostic probe, allowlist, override, blocklist, cache, upstream), and are
counted per tenant. An HTTP backend manages tenants, logins and API tokens in
the same SQLite database.

This project models the stateful core of that service and proves what its
pieces, and the pieces together, keep. Code that updates things in place is
written as classes and methods (`Limiter`, `CacheHeap`, `Resolver`, the usage
collector and table, the debouncer, the probe recorder, the framing loop, the
in-place answer filter, the migration runner, the login throttle); each method
is tied to a step function, and the theorems are about all runs of those steps,
usually with every critical section, database statement and clock reading as a
step of its own, so that any interleaving is covered.

| file | what it models |
|---|---|
| `GoStrings.dfy`, `Netip.dfy`, `Dns.dfy` | the few library functions and types the code leans on |
| `Domain.dfy`, `Policy.dfy` | name normalisation, the suffix walk, and every lookup made with it |
| `Feeds.dfy` | block lists read from feed files |
| `Reload.dfy`, `Freshness.dfy` | building a policy snapshot from four reads, and reloads that overlap |
| `Rebind.dfy` | private-space answers stripped in place |
| `Usage.dfy` | per-tenant counters taken, written and put back |
| `RateLimit.dfy`, `Limiter.dfy` | token buckets, connection slots and the sweeper: the steps, and the objects |
| `Cache.dfy`, `CacheHeap.dfy` | the answer cache: the steps, and the objects |
| `Bind.dfy`, `Probe.dfy`, `Upstream.dfy` | address write-back, diagnostic lookups, forwarding |
| `Counters.dfy` | the metrics, and the object that holds them |
| `Pipeline.dfy`, `PipelineLaws.dfy`, `Resolver.dfy` | one query on values, what the pipeline's order guarantees, and the object that does it |
| `Outcomes.dfy` | when each end of a query comes about, and what it tells client, metrics and usage |
| `Calls.dfy` | many queries at once on one cache: no call is served a private address |
| `Accounting.dfy` | many queries, many flushes and the listeners at once: the books balance |
| `Migrate.dfy` | one schema history, applied by any number of processes |
| `Framing.dfy` | length-prefixed messages on a stream, and one message in a request body |
| `Login.dfy`, `Scopes.dfy`, `Itoa.dfy` | the login throttle, token scopes, the integer printer |

## What turned out differently from what the code says of itself

Each of these is proved below; where a claim fails, the exact condition under
which it holds is proved with it.

- The sweeper of the rate limiter is unobservable, and the bound of burst plus
  rate times window holds, exactly when the burst is at most 600 seconds' worth
  of the rate (`RateModel.SweepUnseenIff`, `RateModel.AlwaysBoundedIff`).
- "Tenant-specific rules beat global ones" (resolver/store.go:276-277) holds only
  when no covering global rule is written deeper (`Policy.TenantBeatsGlobalIff`).
- That every stale reload has finished and a fresh one has stored does not mean
  the change is in force: the stale one may store last
  (`Freshness.FinishedIsNotEnough`, `Freshness.FreshForEverIff`). The admin
  handlers reload after each write while a timer reloads every second, so this
  overlap is possible.
- Normalising a name is not idempotent, the write path normalises once and the
  reload once more, so two overrides stored apart can collide on reload and the
  row order then decides (`Domain.NormalizeTwice`, `Reload.WrittenMayConflict`,
  `Reload.OrderFreeIff`).
- "Names no feed may filter, whatever it says" (resolver/blocklist.go:122) fails
  for localhost.localdomain, whose parent is not protected
  (`Feeds.LocaldomainCanBeBlocked`, `Feeds.NeverBlockedIff`).
- "So downstream caches do not extend its life" (resolver/cache.go:77-78) holds
  of a record exactly for hits within its own TTL and on a whole second, and a
  record of TTL 0 is served with TTL 1 (`CacheModel.EndsOnTimeIff`,
  `CacheModel.ZeroTTLServed`).
- A live entry can be missing from the cache: exactly when, since it was put, a
  Get of its key that had read an expired entry has ended
  (`CacheModel.RaceLosesFreshEntry`, `CacheModel.MissedIff`).
- The outcome counters can exceed the query counter, because listeners count
  malformed messages that never become a query. Queries and unparsed messages
  together balance; queries alone do exactly when nothing failed to parse
  (`Accounting.MetricsBalance`, `Accounting.QueriesAloneIff`,
  `Accounting.OneBadMessage`).
- A tenant's last-seen time is right in every interleaving exactly when the clock
  readings of its own queries never step back (`Usage.LastSeenRightIff`).
- A migration list that names a version twice is not refused: the first call
  fails, and a later one reports success although the second migration of that
  version never ran (`Migrate.SuccessWithoutRunning`). A faultless call on a fresh
  database succeeds exactly when no version is named twice
  (`Migrate.SucceedsIff`); and among processes that share the list, that one has
  succeeded means that the whole list has run exactly under the same condition
  (`Migrate.SuccessRanAllIff`), and in any case that the first of each version
  has (`Migrate.SuccessRanFirsts`).
- An override whose address is an IPv4-mapped IPv6 address answers neither A nor
  AAAA (`PipelineLaws.OverrideReplyAddress`).
- The login throttle bounds failures by the configured maximum only for requests
  one at a time; with more under way, by exactly that many more
  (`Login.FailuresBounded`, `Login.BoundReached`).
- A tenant label taken from a server name may be longer than the 63 characters
  that resolver/hardening_test.go:240 expects (`Domain.OverlongLabelAccepted`); it
  is not exactly when the server name is at most 64 characters longer than the
  base domain (`Domain.LabelShortIff`).
- The integer printer writes "-" for the least 64-bit integer
  (`Itoa.FormatInt`).

## Assumptions

Clock readings taken just before a lock do not decrease in the order the lock is
taken; every run theorem that needs it says so in a premise of its own
(`Steady`, `Ordered`, `Until`, `NeverBack`). Times are integers in the unit of
the code, except in the rate limiter, where times and tokens are exact reals.
Counters are unbounded. A database statement is atomic, and a transaction that
reports an error has changed nothing. Lower-casing covers the ASCII letters of
host names.

## Model

| member | source | states |
|---|---|---|
| Domain.DomainSuffixes | resolver/domain.go:19-37 | the loop yields the suffix list of the normalised name |
| Domain.SuffixesExact | resolver/domain.go:19-37 | s is in the list iff it is a non-empty equal or label-boundary suffix of the normalised name; the list is strictly shortening |
| Domain.NormalizeExact | resolver/domain.go:7-9 | white space around a name, one dot at its end and letter case make no difference, and nothing else is lost |
| GoStrings.LowerExact | resolver/domain.go:7-9 | lower-casing changes exactly the capital letters, each to its small one |
| Domain.NormalizeTwice | resolver/domain.go:7-9 | normalising twice equals once exactly when the trimmed input does not end in a dot preceded by a dot or white space |
| Domain.NormalizeNotIdempotent | resolver/domain.go:7-9 | a concrete name on which normalising twice differs |
| Domain.RouteIDExact | resolver/domain.go:44-59 | the tenant label is t iff the normalised server name is t, a dot, and the normalised base, with t one non-empty label |
| Domain.RouteIDLengthUnbounded | resolver/domain.go:44-59 | any single label is accepted whatever its length |
| Domain.OverlongLabelAccepted | resolver/domain.go:44-59 | a 64-character label is accepted |
| Domain.LabelShortIff | resolver/domain.go:44-59 | a returned label has at most 63 characters iff the server name is at most 64 longer than the base domain, both normalised |
| Netip.PrivateTargetRanges | resolver/rebind.go:62-98 | an address counts as private iff it, unmapped, lies in one of the listed ranges; no valid address counts as private too |
| Netip.MappedJudgedAlike | resolver/rebind.go:62-70 | an IPv4-mapped address is judged as the IPv4 address it carries |
| Policy.PolicyStore.Allowed | resolver/store.go:265-274 | true iff an allow rule of the tenant or "*" covers the name |
| Policy.PolicyStore.Override | resolver/store.go:278-290 | answers from the first suffix with a rule, the tenant's before "*" |
| Policy.OverrideExact | resolver/store.go:278-290 | the answer is that of the longest covering rule of both tables, the tenant's at equal name; none iff no rule covers |
| Policy.TenantBeatsGlobalIff | resolver/store.go:276-290 | Override answers from the tenant's longest covering rule iff no covering global rule is longer, and otherwise from the longest global one |
| Policy.DeeperGlobalBeatsTenant | resolver/store.go:276-288 | a global rule on a name beats a tenant rule on its parent |
| Policy.Blocklist.Blocked | resolver/blocklist.go:92-103 | true iff some listed name covers the name |
| Policy.NewRebindPolicy | resolver/rebind.go:39-48 | the exempt suffixes are exactly the non-empty normalised configured ones |
| Policy.Exempt | resolver/rebind.go:50-58 | the scan with HasSuffix decides the exemption relation |
| Policy.ScanEqualsWalk | resolver/rebind.go:50-58 | scanning all rules with HasSuffix and walking the suffixes decide one relation |
| Feeds.LoadFile | resolver/blocklist.go:52-89 | succeeds iff the file opens and every line fits the scanner's buffer, and then adds exactly the names its lines list |
| Feeds.LineExact | resolver/blocklist.go:61-87 | what a line lists, from its first two words: nothing for a comment, the second after a hosts-file address, else the first, unless refused or left out |
| Feeds.EveryLineLaidOut | resolver/blocklist.go:61-87 | and every line has such first words |
| Feeds.Load | resolver/blocklist.go:29-50 | replaces the list with what all text files hold, or on any failure, or a missing directory, leaves it |
| Feeds.AllNamesExact | resolver/blocklist.go:29-89 | a name is loaded iff some line of some text file lists it |
| Feeds.ListableIff | resolver/blocklist.go:61-87 | a line can list a name iff it is one lower-case word without refused characters that is not left out |
| Feeds.NeverBlockedIff | resolver/blocklist.go:92-138 | no readable feed can block a name, short enough for a line, iff neither it nor any parent can be listed |
| Feeds.DotlessNeverBlocked | resolver/blocklist.go:122-138 | names left out that have no parent are never blocked |
| Feeds.LocaldomainCanBeBlocked | resolver/blocklist.go:122-138 | one of the names left out can be blocked all the same |
| Reload.Reload | resolver/store.go:144-236 | a reload without errors stores the snapshot built from its four reads; any error leaves the old one |
| Reload.LoadAllow | resolver/store.go:188-207 | the row loop builds the nested allow map |
| Reload.LoadOver | resolver/store.go:209-232 | the row loop builds the nested override map and skips unreadable answers |
| Reload.TenantsExact | resolver/store.go:150-169 | the tenant of a route is, column by column, what its last row says, whatever the case; none iff no row is of it |
| Reload.AddressesExact | resolver/store.go:171-187 | an address belongs to the tenant of its last row; to none iff no row has it |
| Reload.AllowExact | resolver/store.go:192-203 | a rule is in force iff some row has it, lower-cased and normalised |
| Reload.OverExact | resolver/store.go:213-228 | an override is in force iff a readable row has it, with the answer of the last such row |
| Reload.OrderFreeIff | resolver/store.go:209-228 | what is in force does not depend on the order rows are read in iff no two rows conflict |
| Reload.KeyedIsConsistent | resolver/store.go:348-357 | rows under the table's key never conflict if normalising the stored domain changes nothing |
| Reload.WrittenMayConflict | resolver/store.go:348-357 | two rows SetOverride can write whose order decides which answer is in force |
| Reload.AddedRuleCovers | resolver/store.go:336-340 | an added and reloaded allow rule covers every name under its domain, when normalising it twice is once |
| Freshness.FreshForEverIff | resolver/store.go:144-236 | a committed change to a table is in force in every future iff the snapshot has it and no reload under way has missed it |
| Freshness.StoreSettles | resolver/store.go:234-235 | a store that has the change, made when no reload that missed it is left, settles it |
| Freshness.LookupsReflect | resolver/store.go:250-290 | from then on each table served is the database's at that commit or later |
| Freshness.FinishedIsNotEnough | resolver/store.go:144-236 | a run in which both reloads have finished, the fresh one stored, and the old state is served |
| Freshness.SerialNeverGoesBack | resolver/store.go:238-248 | reloads one at a time never move any table back |
| Rebind.FilterRebind | resolver/rebind.go:108-144 | compacts the Answer section in place to the permitted records; kept + removed = all |
| Rebind.PermittedInOrder | resolver/rebind.go:116-142 | exactly the permitted records survive, each once, in their order |
| Rebind.PrivateIffBytes | resolver/rebind.go:116-142 | a record is removed for its bytes: 4, or 16 carrying 4, in an IPv4 block, or 16 others of an AAAA record in an IPv6 block |
| Rebind.FilteredIsClean | resolver/rebind.go:108-144 | every record is kept as often as it came, or not at all if its bytes are private and the policy bars it |
| Usage.UsageTable.RecordUsage | resolver/store.go:370-403 | all of a batch is added to the rows, or nothing |
| Usage.UsageCollector.Record | resolver/usage.go:35-56 | one query's outcome is added to its tenant's pending counters; no tenant, no change |
| Usage.UsageCollector.Take | resolver/usage.go:66-73 | the first critical section hands over all that is pending |
| Usage.UsageCollector.PutBack | resolver/usage.go:78-90 | the second merges a failed batch into whatever is pending by then |
| Usage.UsageCollector.Flush | resolver/usage.go:61-94 | alone, a flush moves everything or changes nothing |
| Usage.NothingLost | resolver/usage.go:35-94 | in every interleaving, stored + in flight + pending is exactly what was recorded, per tenant and counter |
| Usage.LastSeenKept | resolver/usage.go:54-88 | if the readings of a tenant's own queries never step back, its latest last-seen over all places is the latest recorded |
| Usage.LastSeenRightIff | resolver/usage.go:54-88 | last-seen is right at every moment of every interleaving of a tenant's readings with anything else iff those readings never step back |
| Usage.LastSeenNeedsSteadyClock | resolver/usage.go:54-55 | two readings of one tenant out of order lose the later time |
| Usage.AtRestAllStored | resolver/usage.go:96-112 | with nothing pending or in flight, the table alone holds the exact counts |
| RateModel.AllowExact | resolver/ratelimit.go:58-91 | a query is granted iff the refilled tokens reach 1, and takes exactly one; other tenants are untouched |
| RateModel.GrantsBounded | resolver/ratelimit.go:58-91 | in every run with sweeps, at most burst + qps * (t2 - t1) grants in [t1, t2] |
| RateModel.AlwaysBoundedIff | resolver/ratelimit.go:58-155 | that bound holds of all runs iff the burst is at most 600 s of the rate |
| RateModel.SweepUnseenIff | resolver/ratelimit.go:131-155 | no answer of any run depends on the sweeper iff the same condition holds |
| RateModel.SpentTwice | resolver/ratelimit.go:131-155 | a run in which a swept tenant spends its burst twice |
| RateModel.LevelsInRange | resolver/ratelimit.go:68-90 | tokens stay within 0 and the burst |
| RateModel.SlotsAlwaysOk | resolver/ratelimit.go:96-127 | a tenant's connection count is its number of unreleased handles, and never above the limit |
| RateModel.LiveNeverSwept | resolver/ratelimit.go:142-151 | no sweep takes the bucket of a live handle |
| RateModel.FirstReleaseFreesOne | resolver/ratelimit.go:117-127 | the first release finds its bucket with a slot and frees exactly one; repeated releases are covered by the run |
| RateModel.AnsweredAlone | resolver/ratelimit.go:58-127 | in every run a tenant's answers from Allow and AcquireConn are those of the run without any other tenant's events |
| Limiter.Bucket.TakeToken | resolver/ratelimit.go:74-90 | refill, cap and take on the bucket object is the model's step |
| Limiter.RateLimiter.Allow | resolver/ratelimit.go:58-91 | the object's Allow is the model's step and answer |
| Limiter.RateLimiter.AcquireConn | resolver/ratelimit.go:96-115 | a slot and a release closure, or neither |
| Limiter.RateLimiter.CallRelease | resolver/ratelimit.go:96-127 | a closure acts once, on the very bucket the map holds; the one handed out with a refusal, or without a limit, does nothing |
| Limiter.RateLimiter.Sweep | resolver/ratelimit.go:142-151 | drops exactly the idle buckets |
| Limiter.NewRateLimiter | resolver/ratelimit.go:41-54 | no limiter for a rate of zero or less; the default burst |
| CacheModel.KeysAgree | resolver/cache.go:44-46 | keys are equal iff normalised name, type string and class string are |
| CacheModel.TypesShareEntryIff | resolver/cache.go:44-46 | two types share an entry iff equal or both missing from the library's table |
| CacheModel.ComputeMinTTL | resolver/cache.go:123-141 | the loop over answer and authority computes the least TTL, OPT aside, or the default |
| CacheModel.LeastIsMinimum | resolver/cache.go:123-141 | that value is attained and a lower bound |
| CacheModel.LivesIff | resolver/cache.go:98-121 | a message is hit iff held 5 s at most, or 6 h at most and as long as every record of answer and authority lives; 30 s for no answer or OPT alone |
| CacheModel.LifetimeBound | resolver/cache.go:58-121 | a record served from any section has TTL max(1, t - whole seconds held) and ends at most a second after the longer of TTL and entry life |
| CacheModel.ServedIsSame | resolver/cache.go:74-96 | nothing but TTLs differs between a message and what is served of it |
| CacheModel.EndsOnTimeIff | resolver/cache.go:74-96 | a served record of any section ends by its own TTL iff it is hit within it and on a whole second |
| CacheModel.ZeroTTLServed | resolver/cache.go:87-141 | a record of TTL 0, in any message and section, is a hit for five seconds at least, always with TTL 1 |
| CacheModel.AlwaysFaithful | resolver/cache.go:58-121 | in every interleaving the table and every reader hold only last Puts, each reader the one of its own Get's key and moment |
| CacheModel.HitIsLastPut | resolver/cache.go:58-85 | a hit is a counted-down copy of the last Put of that Get's own key when that very Get, the only one of its number, read the table, not expired |
| CacheModel.RaceLosesFreshEntry | resolver/cache.go:62-72 | a race that turns a hit into a miss |
| CacheModel.MissedIff | resolver/cache.go:62-75 | while its last Put lives, a key is missing from the table iff since then a Get of it that had read an expired entry has ended |
| CacheModel.SequentialExact | resolver/cache.go:58-172 | without overlap the cache answers as one map that never forgets |
| CacheModel.ShardsAreOneTable | resolver/cache.go:48-56 | a whole Get, Put or sweep on the shard of a key acts as on one table, whatever the hash |
| CacheModel.ShardsRunAsOne | resolver/cache.go:48-85 | in every interleaving of reads, late deletes, Puts and sweeps the shards answer and hold what one table does going through the same events |
| CacheHeap.ShardFor | resolver/cache.go:48-56 | the loop computes the 32-bit FNV-1a hash modulo 64 |
| CacheHeap.FnvVectors | resolver/cache.go:48-56 | published values of the hash |
| CacheHeap.Copy | resolver/cache.go:74-84 | a deep copy shows the same message and shares no object |
| CacheHeap.AdjustTTL | resolver/cache.go:87-96 | counts the TTLs of one section down in place |
| CacheHeap.Shard.Get | resolver/cache.go:58-85 | undisturbed, the model's step and answer, with all new objects; no stored message is touched |
| CacheHeap.Shard.Finish | resolver/cache.go:67-85 | the end of a Get after anything at all since its read: the copy it answers, or the key it deletes |
| CacheHeap.Shard.Put | resolver/cache.go:98-121 | stores a copy; the caller keeps its message |
| CacheHeap.Shard.Sweep | resolver/cache.go:154-172 | drops exactly the expired entries |
| CacheHeap.CacheThenReply | resolver/resolve.go:219-222 | a reply is stored, then given the client's id; the entry keeps the reply as it came |
| CacheHeap.ReplyFromCache | resolver/resolve.go:196-201 | id and question are written into the served copy; the entry stays as it was |
| Bind.IpBinder.Observe | resolver/bind.go:39-72 | debounce, store and bounded sweep on the map, and the write started |
| Bind.WritesExactly | resolver/bind.go:47-64 | a sighting is written iff it is named and no write of its pair is under five minutes old; sweeping is invisible |
| Bind.WritesSpaced | resolver/bind.go:39-72 | two writes of one tenant and address are at least five minutes apart |
| Bind.UnwrittenIsFresh | resolver/bind.go:48-52 | a sighting left unwritten is covered by a younger write |
| Bind.KeyIsPair | resolver/bind.go:44 | the joined key identifies tenant and address |
| Probe.NonceExact | resolver/probe.go:59-81 | a name is the probe of n iff its normal form is n, a dot and the zone, with n a well-formed nonce |
| Probe.ProbeRecorder.Record | resolver/probe.go:85-103 | the hit is stored, after expired ones are swept past a thousand |
| Probe.ProbeRecorder.Lookup | resolver/probe.go:107-123 | answers a hit of at most two minutes and removes it |
| Probe.LookupExact | resolver/probe.go:85-123 | in every run a lookup finds exactly the unread, unexpired probe of its nonce |
| Probe.ReadOnce | resolver/probe.go:105-123 | between two lookups that both find a nonce it was probed again |
| Upstream.Forwarder.Forward | resolver/resolve.go:243-273 | tries each resolver once from a rotating start, over TCP after a truncated UDP reply |
| Upstream.ForwardExact | resolver/resolve.go:243-273 | fails iff every resolver fails, over UDP, or over TCP after a truncated reply; otherwise the first to answer, counted round |
| Upstream.RotatesIff | resolver/resolve.go:249-256 | the start moves on by one iff the 32-bit counter does not wrap or the count divides its range |
| PipelineLaws.ProbeIgnoresPolicy | resolver/resolve.go:154-164 | a probe's result depends on no policy, cache contents or upstream, and it leaves the cache alone |
| PipelineLaws.ProbeIsNoted | resolver/resolve.go:158-164 | an admitted probe is noted for its tenant and answered NXDOMAIN |
| PipelineLaws.ProbeIsFound | resolver/probe.go:85-123 | and can be read back as that tenant's for exactly two minutes, whatever other probes come before and in between |
| PipelineLaws.OverrideReplyAddress | resolver/resolve.go:278-313 | an override answers with its own address only, and only in its own family; a mapped one answers neither |
| PipelineLaws.OverrideNeverLeaks | resolver/resolve.go:173-183 | an overridden, not allowed name gets no other address, and neither cache nor upstream has a say |
| PipelineLaws.BlockedNeverAnswered | resolver/resolve.go:185-191 | a blocked name, not allowed or overridden, gets no address, cached or not |
| PipelineLaws.ReplyEchoes | resolver/resolve.go:116-223 | every reply has its request's id, and its question unless it is an upstream's own |
| PipelineLaws.FetchedIsServedAgain | resolver/resolve.go:116-223 | what one query fetched, any tenant's that gets past policy is served from the cache for the entry's life, every section counted down |
| PipelineLaws.ResolveStaysClean | resolver/resolve.go:116-223 | with rebind blocking, one whole query keeps the cache clean and every reply but a redirect is clean |
| PipelineLaws.CacheAlwaysClean | resolver/resolve.go:211-219 | in every interleaving of Gets, sweeps and Puts of filtered messages, all entries and hits are free of private addresses for every non-exempt question of their key |
| Calls.NeverServesRebinding | resolver/resolve.go:194-222 | in every interleaving of whole calls and sweeps the cache stays clean and each call is served only what is clean for its own question |
| Calls.UndisturbedIsLookup | resolver/resolve.go:194-222 | a call whose steps nothing comes between is exactly the lookup of one query |
| PipelineLaws.TenantIsolated | resolver/resolve.go:98-223 | other tenants' rows, rules and buckets change nothing of a query identified by server name |
| PipelineLaws.OthersUntouched | resolver/resolve.go:98-223 | a query charges no other tenant and leaves their buckets |
| PipelineLaws.Precedence | resolver/resolve.go:116-223 | what settles a query leaves nothing later in the order a say: limiter, probe, allowlist, override, blocklist, cache, upstream |
| Outcomes.RefusedIff | resolver/resolve.go:116-150 | malformed, nobody's paid for, or over the rate: each iff the request, the tenant's row and the limiter say so |
| Outcomes.EndsIff | resolver/resolve.go:152-192 | probed, redirected, blocked or looked up, with or without the allow mark, each iff the zone, the rules, the block list and the tenant's switches say so |
| Outcomes.LookedUpIff | resolver/resolve.go:194-210 | from the cache iff a live entry of the question's key is there; failed iff not and no upstream answers |
| Outcomes.EndsTell | resolver/resolve.go:116-223 | code, sections, counters, and the tenant and flag charged, for each end |
| Outcomes.RedirectedTo | resolver/resolve.go:173-183 | a redirect answers the address of the longest covering override, for 60 s, in its own family only |
| Outcomes.FetchedTells | resolver/resolve.go:203-222 | a fetched reply is the upstream's with exactly the barred private records gone, under the request's id; and the cache holds it, unless it was truncated |
| PipelineLaws.TurnedAwayIff | resolver/resolve.go:134-150 | REFUSED iff the tenant is unknown or lapsed, or its refilled tokens do not reach one; then no answer, no probe, no cache access |
| Resolver.Resolver.TenantFor | resolver/resolve.go:98-113 | the tenant by address or route; the address is noted, and a write started, only for an active tenant found by its route |
| Resolver.NotedIff | resolver/resolve.go:98-113 | a write starts iff a paying tenant's route query comes from an address not noted for five minutes, and is of that tenant and address |
| Resolver.Resolver.Decide | resolver/resolve.go:152-192 | the policy lookups, in order, give the verdict |
| Resolver.Resolver.Strip | resolver/resolve.go:211-217 | the reply's Answer section, filtered in place |
| Resolver.Resolver.Answer | resolver/resolve.go:194-223 | cache, then upstream, filter, store |
| Resolver.Resolver.Resolve | resolver/resolve.go:116-223 | reply, metrics, usage, buckets, probes, cache, offset and noted addresses are exactly those of the value model |
| Accounting.ResolveExplained | resolver/resolve.go:116-223 | every call makes exactly the counter updates of its outcome's script |
| Accounting.BooksAreCalls | resolver/resolve.go:116-223 | at every moment of every interleaving each counter is what the calls, and in Malformed the listeners, have entered so far |
| Accounting.MetricsBalance | resolver/resolve.go:14-27 | outcome counters never exceed queries and unparsed messages, which at rest are accounted for by the outcomes and the probes |
| Accounting.QueriesAloneIff | resolver/resolve.go:14-27 | the query counter alone balances iff no message failed to parse |
| Accounting.OneBadMessage | resolver/listeners.go:299-304 | one garbled message to a fresh server: Malformed is 1 and Queries 0 |
| Accounting.StreamCounts | resolver/listeners.go:182-188 | a stream counts one such message iff its serving ends at a request that does not parse |
| Accounting.ChargesMatchMetrics | resolver/usage.go:35-94 | at rest all tenants' charged queries, with what is charged to nobody, are the queries and unparsed messages counted, and each flag's charges its metric |
| Accounting.ChargesAloneIff | resolver/usage.go:35-94 | for the query counter alone iff no message failed to parse |
| Accounting.FlagsArePartOfQueries | resolver/usage.go:43-53 | at every moment blocked + overridden + throttled is at most queries, per tenant |
| Migrate.Registry.Register | resolver/migrate.go:34-41 | the registry is ordered and holds exactly what was registered |
| Migrate.Registry.SchemaVersion | resolver/migrate.go:115-122 | the highest registered version, or zero |
| Migrate.OrderOfRegistrationIrrelevant | resolver/migrate.go:34-41 | an ordered list of distinct versions is determined by its members |
| Migrate.RunMigrations | resolver/migrate.go:127-187 | alone, applies the missing versions in order up to the first fault or repeated version, whole: the value model's call |
| Migrate.SucceedsIff | resolver/migrate.go:127-187 | a call succeeds iff no missing version is repeated or faulty; a faultless one on a fresh database iff the list names no version twice |
| Migrate.SuccessWithoutRunning | resolver/migrate.go:156-186 | two migrations of one version: the first call fails, the second succeeds, and one of the two never ran |
| Migrate.UndisturbedIsMigrated | resolver/migrate.go:127-187 | in any run, a call whose steps nothing comes between is exactly RunMigrations, faults and all |
| Migrate.RecordedIsCommitted | resolver/migrate.go:160-184 | in every interleaving of processes the recorded versions are exactly those committed, each once |
| Migrate.SuccessMeansAll | resolver/migrate.go:160-186 | a successful call leaves all its versions recorded |
| Migrate.PredecessorsFirst | resolver/migrate.go:160-184 | each migration commits after all that precede it in its process's list |
| Migrate.CallIncreases | resolver/migrate.go:160-184 | one call commits in increasing versions |
| Migrate.OneListOneOrder | resolver/migrate.go:127-187 | processes with one list, whatever it repeats, leave a prefix of the first of each version, at every moment |
| Migrate.SuccessRanFirsts | resolver/migrate.go:127-187 | once a call of theirs has succeeded, the first of each version has run, in order, and nothing else |
| Migrate.SuccessRanAllIff | resolver/migrate.go:127-187 | then the whole list has run, each migration once, iff it names no version twice |
| Migrate.OnlyRivalsFail | resolver/migrate.go:173-179 | without database faults a call fails only to a rival's commit |
| Framing.Conn.ReadFull | resolver/listeners.go:169-180 | delivers n bytes however the stream is cut up, or fails iff it is shorter |
| Framing.DeframeExact | resolver/listeners.go:169-180 | a frame is read iff two bytes, the high one first, give its non-zero length and its bytes follow |
| Framing.JoinExact | resolver/listeners.go:190-199 | what is written is each reply behind two bytes of its length, the high one first |
| Framing.ServeStream | resolver/listeners.go:164-201 | writes the framed replies of the value model, whatever the chunks, and of a failed write a part; counts a message that does not parse |
| Framing.ServedLongest | resolver/listeners.go:166-200 | one reply per request, in order, for the longest run that parses, fits and can be sent, and why it ended |
| Framing.DeframeJoin | resolver/listeners.go:190-199 | de-framing the output recovers the replies iff none is empty |
| Framing.DeframeOutput | resolver/listeners.go:190-199 | de-framing all that got out recovers the replies sent in full, even after a write that failed part-way |
| Framing.ServeDoh | resolver/listeners.go:295-327 | the body is answered iff it is read, not empty, parses, has a known host and a reply that packs, and each failure has its status; Malformed is counted before the host is looked at |
| Login.LoginStore.RecordLoginAttempt | backend/store.go:356-363 | one row, under the lower-cased address |
| Login.LoginStore.RecentFailures | backend/store.go:370-383 | both counts of failures since the window's start |
| Login.LoginStore.Purge | backend/store.go:385-389 | exactly the recent attempts stay |
| Login.HandleLogin | backend/handlers_auth.go:21-76 | throttle before the password; exactly the verified attempts are recorded |
| Login.VerdictIff | backend/handlers_auth.go:21-76 | throttled iff the failing rows of the address or source in the window, counted, reach the cap; let in iff not, the password is right and the session opens; what is recorded |
| Login.UndisturbedIsLogin | backend/handlers_auth.go:21-76 | a login whose steps nothing comes between leaves a subject's failures as HandleLogin does, and is stopped at its count iff the subject is over its cap |
| Login.LoginsAreSteps | backend/handlers_auth.go:21-76 | logins one at a time are a run of those steps in which no request finds another open |
| Login.OneAtATime | backend/handlers_auth.go:21-63 | handled one at a time, no window ever holds more than max failures of an e-mail address, or 3 * max of a source |
| Login.FailuresBounded | backend/handlers_auth.go:21-63 | any window holds at most cap + others failures when at most that many others were under way |
| Login.BoundReached | backend/handlers_auth.go:21-63 | and some run reaches it |
| Login.PurgeUnseenIff | backend/store.go:385-389 | purging attempts older than a day, however often, changes no count iff the window is at most a day |
| Scopes.ParseScopes | backend/rbac.go:172-184 | the known scopes a text names |
| Scopes.ParsedExact | backend/rbac.go:172-184 | a scope is read iff it is known and a part between commas, trimmed |
| Scopes.FormatScopes | backend/rbac.go:187-195 | the members of a set in the standing order |
| Scopes.ChosenInOrder | backend/rbac.go:187-195 | what is written is each member once, in its place of the standing order |
| Scopes.RoundTrip | backend/rbac.go:172-195 | reading what was written gives the set's known scopes |
| Scopes.StoredIsCanonical | backend/rbac.go:172-195 | writing what was read is a fixed point, the same for texts that name the same scopes |
| Scopes.AllScopesPlain | backend/rbac.go:53-60 | the repository's scopes meet the premise of those |
| Scopes.PrincipalFromToken | backend/middleware.go:199-226 | the grant cut down to the owner's present role |
| Scopes.GrantScopes | backend/handlers_misc.go:436-456 | every scope asked for must be known and within the role |
| Scopes.TokenLife | backend/rbac.go:146-154 | from issue to use: a token can do s iff usable, owner active, s granted, and the role allows it now |
| Scopes.ShrinkingNarrows | backend/rbac.go:141-154 | a shrinking ceiling only narrows, at once |
| Itoa.FormatInt | backend/middleware.go:385-405 | the decimal text of every 64-bit integer but the least |

## Left out

- Resolver.Resolver.Resolve: holds the cache as one table of values; that the 64 shards of message objects behave as that table is `CacheModel.ShardsRunAsOne` and `CacheHeap.Shard`, whose heap class is one shard with its own lock.
- Resolver.Resolver.Resolve: one call at a time on the object; interleaved calls are modelled for the counters (`Accounting`), the cache (`Calls`, `CacheModel`), the limiter and the usage table, each by its own steps.
- PipelineLaws.ResolveStaysClean: says nothing of the authority and additional sections, which the filter does not look at.
- PipelineLaws.OverrideNeverLeaks: does not cover types other than A, AAAA, HTTPS and SVCB, which the code leaves to the normal path.
- PipelineLaws.TenantIsolated: not stated for queries identified by source address, since an address belongs to whoever registered it last.
- Framing.ServeStream: a passed deadline is a stream that ends or a write that fails; when it passes is not modelled. Each message is handled by a function of its position and bytes.
- Feeds.NeverBlockedIff: a name so long that no line of a feed can hold it is not covered.
- Usage.LastSeenRightIff: for a tenant with a name, since a nameless one is not recorded.
- Login.FailuresBounded: one subject at a time, an e-mail address or a source; its other count appears as a request that may leave.
- The EDNS record of replies and requests, the AD and AA bits, and the ids of upstream exchanges.
- Record names and classes, and the contents of the negative answer's SOA record.
- The OPT record on a cache hit, whose TTL field the code counts down although it holds flags.
- Parsing and packing of messages, address parsing, `IsDomainName`: results enter as data; zones of IPv6 addresses are dropped.
- 64-bit overflow of counters and times, 32-bit truncation of the elapsed seconds, floating-point rounding of tokens.
- A commit that reports an error although it took effect, and a login attempt whose record is lost, as the code ignores that error.
- The remaining write paths of resolver/store.go (single statements), and per-tenant usage read back.
- `track` and `Shutdown` of the listeners, configuration, health checks, TLS, HTTP routing, templates, audit log: no deep property.
- Password hashing, session and token secrets: their outcomes enter as data.
