/** resolver/resolve.go:14-27: the process-wide metrics. The resolver and the
    listeners hold the same object and add to it. */
module Counters {
  datatype Metric =
    | Queries | Malformed | Refused | Throttled | Allowed | Overridden | Blocked
    | CacheHits | Answered | Unanswered | Stripped

  type Metrics = multiset<Metric>

  class CounterSet {
    var counts: Metrics

    constructor ()
      ensures counts == multiset{}
    { counts := multiset{}; }

    method Add(m: Metric)
      modifies this
      ensures counts == old(counts) + multiset{m}
    {
      counts := counts + multiset{m};
    }

    /** `Add(n)` with a number. */
    method AddMany(m: Metric, n: nat)
      modifies this
      ensures counts == old(counts)[m := old(counts)[m] + n]
    {
      counts := counts[m := counts[m] + n];
    }
  }

  /** What a message that does not parse adds: no query, but one malformed. */
  function Rejection(malformed: bool): Metrics { if malformed then multiset{Malformed} else multiset{} }
}
