/** resolver/cache.go on values: keys, lifetimes, TTL count-down, and every
    interleaving of Get, Put and the sweeper. Times are nanoseconds. */
module CacheModel {
  import opened GoStrings
  import opened Domain
  import opened Dns

  const SECOND: nat := 1_000_000_000
  const MIN_LIFE: nat := 5 * SECOND
  const MAX_LIFE: nat := 21600 * SECOND
  const NEGATIVE_TTL: nat := 30

  // ---- keys ----

  /** The library's tables of type and class names. */
  datatype Names = Names(types: map<nat, string>, classes: map<nat, string>)

  function NameIn(m: map<nat, string>, code: nat): string { if code in m then m[code] else "" }

  ghost predicate NoBars(t: Names) {
    (forall c :: c in t.types ==> '|' !in t.types[c]) && (forall c :: c in t.classes ==> '|' !in t.classes[c])
  }

  function CacheKey(t: Names, q: Question): string {
    Normalize(q.name) + "|" + NameIn(t.types, q.qtype) + "|" + NameIn(t.classes, q.qclass)
  }

  /** Keys agree component by component, whatever characters the name contains. */
  lemma KeysAgree(t: Names, p: Question, q: Question)
    requires NoBars(t)
    ensures CacheKey(t, p) == CacheKey(t, q)
       <==> && Normalize(p.name) == Normalize(q.name)
            && NameIn(t.types, p.qtype) == NameIn(t.types, q.qtype)
            && NameIn(t.classes, p.qclass) == NameIn(t.classes, q.qclass)
  {
    var a, b := Normalize(p.name), Normalize(q.name);
    var c, d := NameIn(t.types, p.qtype), NameIn(t.types, q.qtype);
    var e, f := NameIn(t.classes, p.qclass), NameIn(t.classes, q.qclass);
    assert CacheKey(t, p) == (a + ['|'] + c) + ['|'] + e;
    assert CacheKey(t, q) == (b + ['|'] + d) + ['|'] + f;
    if CacheKey(t, p) == CacheKey(t, q) {
      LastSeparatorSplits(a + ['|'] + c, e, b + ['|'] + d, f, '|');
      LastSeparatorSplits(a, c, b, d, '|');
    }
  }

  /** Two questions of one name and class share an entry exactly when their type
      codes are the same, have the same name, or are both missing from the table. */
  lemma TypesShareEntryIff(t: Names, p: Question, q: Question)
    requires NoBars(t) && p.name == q.name && p.qclass == q.qclass
    requires forall c :: c in t.types ==> t.types[c] != ""
    requires forall c, d :: c in t.types && d in t.types && t.types[c] == t.types[d] ==> c == d
    ensures CacheKey(t, p) == CacheKey(t, q)
       <==> p.qtype == q.qtype || (p.qtype !in t.types && q.qtype !in t.types)
  {
    KeysAgree(t, p, q);
  }

  // ---- lifetimes ----

  /** The smallest TTL among the first `n` records that are not OPT, if any. */
  function Least(rrs: seq<RR>, n: nat): Option<U32>
    requires n <= |rrs|
  {
    if n == 0 then None
    else
      var best := Least(rrs, n - 1);
      var rr := rrs[n - 1];
      if rr.rrtype == TYPE_OPT then best
      else if best == None || rr.ttl < best.value then Some(rr.ttl) else best
  }

  function MinTTL(msg: Msg): nat {
    var rrs := msg.answer + msg.ns;
    match Least(rrs, |rrs|) case None => NEGATIVE_TTL case Some(t) => t
  }

  lemma {:induction false} LeastIsMinimum(rrs: seq<RR>, n: nat)
    requires n <= |rrs|
    ensures Least(rrs, n) == None <==> forall i :: 0 <= i < n ==> rrs[i].rrtype == TYPE_OPT
    ensures Least(rrs, n).Some? ==>
      && (exists i :: 0 <= i < n && rrs[i].rrtype != TYPE_OPT && rrs[i].ttl == Least(rrs, n).value)
      && (forall i :: 0 <= i < n && rrs[i].rrtype != TYPE_OPT ==> Least(rrs, n).value <= rrs[i].ttl)
  {
    if n > 0 { LeastIsMinimum(rrs, n - 1); }
  }

  /** minTTL: one running minimum over the answer section and then the authority
      section. */
  method ComputeMinTTL(msg: Msg) returns (ttl: nat)
    ensures ttl == MinTTL(msg)
  {
    var best: U32, first := 0, true;
    var sections := [msg.answer, msg.ns];
    ghost var all := msg.answer + msg.ns;
    var seen := 0;
    for s := 0 to 2
      invariant seen == if s == 0 then 0 else if s == 1 then |msg.answer| else |all|
      invariant Least(all, seen) == if first then None else Some(best)
    {
      for i := 0 to |sections[s]|
        invariant seen == i + (if s == 0 then 0 else |msg.answer|) <= |all|
        invariant Least(all, seen) == if first then None else Some(best)
      {
        var rr := sections[s][i];
        assert rr == all[seen];
        seen := seen + 1;
        if rr.rrtype == TYPE_OPT { continue; }
        if first || rr.ttl < best { best, first := rr.ttl, false; }
      }
    }
    if first { return NEGATIVE_TTL; }
    return best;
  }

  /** How long Put keeps a message. */
  function Life(msg: Msg): (d: nat)
    ensures MIN_LIFE <= d <= MAX_LIFE
  {
    var ttl := if msg.answer == [] then NEGATIVE_TTL * SECOND else MinTTL(msg) * SECOND;
    if ttl < MIN_LIFE then MIN_LIFE else if ttl > MAX_LIFE then MAX_LIFE else ttl
  }

  /** For how many nanoseconds a message may be served: half a minute for one
      without an answer, or with nothing but OPT records, and else for as long as
      every record of its answer and authority sections lives. */
  ghost predicate Fresh(msg: Msg, held: int) {
    if msg.answer == [] || forall rr :: rr in msg.answer + msg.ns ==> rr.rrtype == 41 then held <= 30_000_000_000
    else forall rr :: rr in msg.answer + msg.ns && rr.rrtype != 41 ==> held <= rr.ttl * 1_000_000_000
  }

  /** An entry lives for five seconds in any case, for six hours at the most, and
      in between exactly for as long as its message is fresh. */
  lemma LivesIff(msg: Msg, stored: int, now: int)
    requires stored <= now
    ensures Hit(NewEntry(msg, stored), now).Some? <==>
      var held := now - stored;
      held <= 5_000_000_000 || (held <= 21_600_000_000_000 && Fresh(msg, held))
  {
    var rrs, held := msg.answer + msg.ns, now - stored;
    LeastIsMinimum(rrs, |rrs|);
    if Least(rrs, |rrs|).Some? {
      var i :| 0 <= i < |rrs| && rrs[i].rrtype != TYPE_OPT && rrs[i].ttl == Least(rrs, |rrs|).value;
      assert rrs[i] in rrs;
      forall rr | rr in rrs && rr.rrtype != TYPE_OPT ensures rrs[i].ttl <= rr.ttl {
        var j :| 0 <= j < |rrs| && rrs[j] == rr;
      }
    }
  }

  datatype Entry = Entry(msg: Msg, storedAt: int, expires: int)

  type Table = map<string, Entry>

  function NewEntry(msg: Msg, now: int): Entry { Entry(msg, now, now + Life(msg)) }

  function PutIn(m: Table, key: string, msg: Msg, now: int): Table {
    if msg.truncated then m else m[key := NewEntry(msg, now)]
  }

  function Adjust(rr: RR, elapsed: nat): RR {
    rr.(ttl := if rr.ttl > elapsed then rr.ttl - elapsed else 1)
  }

  function AdjustAll(rrs: seq<RR>, elapsed: nat): (r: seq<RR>)
    ensures |r| == |rrs| && forall i :: 0 <= i < |rrs| ==> r[i] == Adjust(rrs[i], elapsed)
  {
    seq(|rrs|, i requires 0 <= i < |rrs| => Adjust(rrs[i], elapsed))
  }

  function Elapsed(e: Entry, now: int): nat
    requires e.storedAt <= now
  {
    (now - e.storedAt) / SECOND
  }

  /** The copy handed out: every TTL counted down by the whole seconds held. */
  function Serve(e: Entry, now: int): Msg
    requires e.storedAt <= now
  {
    var s := Elapsed(e, now);
    e.msg.(answer := AdjustAll(e.msg.answer, s), ns := AdjustAll(e.msg.ns, s), extra := AdjustAll(e.msg.extra, s))
  }

  /** A hit: what Get answers for the entry it read, if that is still good. */
  function Hit(e: Entry, now: int): Option<Msg>
    requires e.storedAt <= now
  {
    if now > e.expires then None else Some(Serve(e, now))
  }

  function Bigger(a: int, b: int): int { if a < b then b else a }

  /** The sections of a message, all of which are counted down. */
  datatype Part = Answer | Authority | Additional

  function Records(msg: Msg, part: Part): seq<RR> {
    match part case Answer => msg.answer case Authority => msg.ns case Additional => msg.extra
  }

  /** The TTL a record is served with, when its entry is hit. */
  function ServedTTL(msg: Msg, part: Part, i: nat, stored: int, now: int): nat
    requires stored <= now && Hit(NewEntry(msg, stored), now).Some? && i < |Records(msg, part)|
  {
    Records(Hit(NewEntry(msg, stored), now).value, part)[i].ttl
  }

  /** Lifetime of a served record: its TTL is the original less the whole
      seconds held, but at least 1; and however the answer is passed on, it ends
      at most a second after its own TTL or the entry's life, whichever is
      longer, counted from when it was stored. */
  lemma LifetimeBound(msg: Msg, part: Part, i: nat, stored: int, now: int)
    requires stored <= now && Hit(NewEntry(msg, stored), now).Some?
    requires i < |Records(msg, part)| && Records(msg, part)[i].rrtype != TYPE_OPT
    ensures var t, served := Records(msg, part)[i].ttl, ServedTTL(msg, part, i, stored, now);
      && served == Bigger(1, t - (now - stored) / SECOND)
      && now + served * SECOND <= stored + Bigger(t * SECOND, Life(msg)) + SECOND
  {
    var held := (now - stored) / SECOND;
    assert held * SECOND <= now - stored < (held + 1) * SECOND;
  }

  /** And nothing but TTLs differs between a message and what is served of it. */
  lemma ServedIsSame(msg: Msg, part: Part, stored: int, now: int)
    requires stored <= now && Hit(NewEntry(msg, stored), now).Some?
    ensures var served := Hit(NewEntry(msg, stored), now).value;
      && served.id == msg.id && served.question == msg.question && served.rcode == msg.rcode
      && served.truncated == msg.truncated && |Records(served, part)| == |Records(msg, part)|
      && forall i :: 0 <= i < |Records(msg, part)| ==>
           && Records(served, part)[i].rrtype == Records(msg, part)[i].rrtype
           && Records(served, part)[i].data == Records(msg, part)[i].data
  {}

  /** "So downstream caches do not extend its life" (cache.go:77-78): a served
      record ends by its own TTL exactly when it is hit within that TTL, and on a
      whole second after it was stored. */
  lemma EndsOnTimeIff(msg: Msg, part: Part, i: nat, stored: int, now: int)
    requires stored <= now && Hit(NewEntry(msg, stored), now).Some?
    requires i < |Records(msg, part)| && Records(msg, part)[i].rrtype != TYPE_OPT
    ensures now + ServedTTL(msg, part, i, stored, now) * SECOND <= stored + Records(msg, part)[i].ttl * SECOND
       <==> now < stored + Records(msg, part)[i].ttl * SECOND && (now - stored) % SECOND == 0
  {
    var held := (now - stored) / SECOND;
    assert held * SECOND <= now - stored < (held + 1) * SECOND;
    assert (now - stored) % SECOND == now - stored - held * SECOND;
  }

  /** A record of TTL 0, in whatever message, is still served for at least five
      seconds, and always with TTL 1. */
  lemma ZeroTTLServed(msg: Msg, part: Part, i: nat, stored: int, now: int)
    requires i < |Records(msg, part)| && Records(msg, part)[i].rrtype != TYPE_OPT && Records(msg, part)[i].ttl == 0
    requires stored <= now
    ensures now <= stored + MIN_LIFE ==> Hit(NewEntry(msg, stored), now).Some?
    ensures Hit(NewEntry(msg, stored), now).Some? ==> ServedTTL(msg, part, i, stored, now) == 1
  {}

  // ---- every interleaving ----

  /** A Get between its read under the read lock and its end. `at` is how much
      of the history had happened when it read. */
  datatype Reading = Reading(key: string, entry: Entry, at: nat)

  datatype Sys = Sys(table: Table, gets: seq<Option<Reading>>, steps: nat)

  /** A Get is two events; a sweep is one event for each shard it visits, here
      any set of keys. */
  datatype Event =
    | Stored(key: string, msg: Msg, now: int)
    | ReadBegun(key: string)
    | ReadEnded(read: nat, now: int)
    | Swept(keys: set<string>, now: int)

  const START := Sys(map[], [], 0)

  function Remove(m: Table, key: string): Table { m - {key} }

  function SweepIn(m: Table, keys: set<string>, now: int): Table {
    map k | k in m && !(k in keys && now > m[k].expires) :: m[k]
  }

  /** One step, and what a Get that ends in it answers. The delete of an expired
      Get removes whatever the table holds by then. */
  function Step(y: Sys, e: Event): (Sys, Option<Msg>) {
    var z := y.(steps := y.steps + 1);
    match e
    case Stored(key, msg, now) => (z.(table := PutIn(y.table, key, msg, now)), None)
    case ReadBegun(key) =>
      (z.(gets := y.gets + [if key in y.table then Some(Reading(key, y.table[key], y.steps)) else None]), None)
    case ReadEnded(i, now) =>
      if i < |y.gets| && y.gets[i].Some? && y.gets[i].value.entry.storedAt <= now then
        var r := y.gets[i].value;
        var w := z.(gets := y.gets[i := None]);
        if now > r.entry.expires then (w.(table := Remove(y.table, r.key)), None)
        else (w, Hit(r.entry, now))
      else (z, None)
    case Swept(keys, now) => (z.(table := SweepIn(y.table, keys, now)), None)
  }

  function After(evs: seq<Event>): Sys {
    if evs == [] then START else Step(After(evs[..|evs| - 1]), evs[|evs| - 1]).0
  }

  /** The specification: the last message Put for a key, never forgotten. */
  function LastPut(evs: seq<Event>, key: string): Option<Entry> {
    if evs == [] then None
    else
      var e := evs[|evs| - 1];
      if e.Stored? && e.key == key && !e.msg.truncated then Some(NewEntry(e.msg, e.now))
      else LastPut(evs[..|evs| - 1], key)
  }

  /** How many Gets have begun. */
  function Begun(evs: seq<Event>): nat {
    if evs == [] then 0 else Begun(evs[..|evs| - 1]) + if evs[|evs| - 1].ReadBegun? then 1 else 0
  }

  /** Event `j` is the beginning of Get number `i`, which asks for `key`. */
  predicate Opens(evs: seq<Event>, j: nat, i: nat, key: string) {
    j < |evs| && evs[j] == ReadBegun(key) && Begun(evs[..j]) == i
  }

  /** What a Get holds between its read and its end: the last Put of its own key,
      as of its own beginning. */
  ghost predicate ReadsLast(evs: seq<Event>, i: nat, r: Reading) {
    Opens(evs, r.at, i, r.key) && LastPut(evs[..r.at], r.key) == Some(r.entry)
  }

  /** The table and every reading Get hold only last Puts; the slots are the Gets
      begun, in order. */
  ghost predicate Faithful(y: Sys, evs: seq<Event>) {
    && y.steps == |evs| && |y.gets| == Begun(evs)
    && (forall k :: k in y.table ==> LastPut(evs, k) == Some(y.table[k]))
    && (forall i :: 0 <= i < |y.gets| && y.gets[i].Some? ==> ReadsLast(evs, i, y.gets[i].value))
  }

  lemma ReadsLastStays(evs: seq<Event>, e: Event, i: nat, r: Reading)
    requires ReadsLast(evs, i, r)
    ensures ReadsLast(evs + [e], i, r)
  {
    assert (evs + [e])[..r.at] == evs[..r.at];
  }

  lemma {:induction false} AlwaysFaithful(evs: seq<Event>)
    ensures Faithful(After(evs), evs)
  {
    if evs != [] {
      var n := |evs| - 1;
      AlwaysFaithful(evs[..n]);
      assert evs == evs[..n] + [evs[n]];
      var y, z := After(evs[..n]), After(evs);
      assert forall k :: k in y.table ==> LastPut(evs[..n], k) == Some(y.table[k]);
      forall i | 0 <= i < |z.gets| && z.gets[i].Some? ensures ReadsLast(evs, i, z.gets[i].value) {
        if i < |y.gets| {
          assert y.gets[i] == z.gets[i];
          ReadsLastStays(evs[..n], evs[n], i, y.gets[i].value);
        }
      }
    }
  }

  lemma {:induction false} BegunCounts(evs: seq<Event>, m: nat, n: nat)
    requires m < n <= |evs| && evs[m].ReadBegun?
    ensures Begun(evs[..m]) < Begun(evs[..n])
  {
    assert evs[..n][..n - 1] == evs[..n - 1];
    if m < n - 1 { BegunCounts(evs, m, n - 1); }
  }

  /** Only one event opens a Get. */
  lemma OpensOnce(evs: seq<Event>, i: nat, j: nat, j': nat, key: string, key': string)
    requires Opens(evs, j, i, key) && Opens(evs, j', i, key')
    ensures j == j' && key == key'
  {
    if j < j' { BegunCounts(evs, j, j'); }
    if j' < j { BegunCounts(evs, j', j); }
  }

  /** In every interleaving a hit is a counted-down copy of the last Put of the
      Get's own key at the moment that very Get read the table, and that entry
      has not expired; there is only one such key and moment. Races between
      Gets, Puts and sweeps can turn hits into misses only. */
  lemma HitIsLastPut(evs: seq<Event>, read: nat, now: int) returns (j: nat, key: string)
    requires Step(After(evs), ReadEnded(read, now)).1.Some?
    ensures Opens(evs, j, read, key) && forall j', key' :: Opens(evs, j', read, key') ==> j' == j && key' == key
    ensures LastPut(evs[..j], key).Some? && LastPut(evs[..j], key).value.storedAt <= now
    ensures Step(After(evs), ReadEnded(read, now)).1 == Hit(LastPut(evs[..j], key).value, now)
  {
    AlwaysFaithful(evs);
    var r := After(evs).gets[read].value;
    j, key := r.at, r.key;
    forall j', key' | Opens(evs, j', read, key') ensures j' == j && key' == key {
      OpensOnce(evs, read, j', j, key', key);
    }
  }

  /** A race that does lose a hit: a Get that found an expired entry deletes the
      fresh one that was Put in between. */
  lemma RaceLosesFreshEntry(key: string, msg: Msg)
    requires !msg.truncated
    ensures var late := MAX_LIFE + 1;
      var evs := [Stored(key, msg, 0), ReadBegun(key), Stored(key, msg, late), ReadEnded(0, late)];
      LastPut(evs, key) == Some(NewEntry(msg, late)) && key !in After(evs).table
  {
    var late := MAX_LIFE + 1;
    var evs := [Stored(key, msg, 0), ReadBegun(key), Stored(key, msg, late), ReadEnded(0, late)];
    var e1, e2, e3 := evs[..1], evs[..2], evs[..3];
    assert e1[..0] == [] && e2[..1] == e1 && e3[..2] == e2 && evs[..3] == e3;
    var y1, y2, y3 := After(e1), After(e2), After(e3);
    assert After([]) == START && y1 == Step(After(e1[..0]), e1[0]).0;
    assert y1.table == map[key := NewEntry(msg, 0)] && y1 == Step(START, evs[0]).0;
    assert y2.gets == [Some(Reading(key, NewEntry(msg, 0), 1))] && y2 == Step(y1, evs[1]).0;
    assert y3.gets == y2.gets && y3 == Step(y2, evs[2]).0;
    assert After(evs) == Step(y3, evs[3]).0;
    assert LastPut(evs, key) == LastPut(e3, key);
  }

  /** Where the last Put of a key is, or -1. */
  function LastPutAt(evs: seq<Event>, key: string): (p: int)
    ensures -1 <= p < |evs|
  {
    if evs == [] then -1
    else
      var e := evs[|evs| - 1];
      if e.Stored? && e.key == key && !e.msg.truncated then |evs| - 1 else LastPutAt(evs[..|evs| - 1], key)
  }

  /** Event `i` is the end of a Get of the key that had read an expired entry. */
  predicate Evicts(evs: seq<Event>, i: nat, key: string) {
    && i < |evs| && evs[i].ReadEnded?
    && var y, g, now := After(evs[..i]), evs[i].read, evs[i].now;
       && g < |y.gets| && y.gets[g].Some? && y.gets[g].value.key == key
       && y.gets[g].value.entry.storedAt <= now && now > y.gets[g].value.entry.expires
  }

  function Time(e: Event, clock: int): int {
    if e.ReadBegun? then clock else e.now
  }

  ghost predicate Until(evs: seq<Event>, clock: int) { forall i :: 0 <= i < |evs| ==> Time(evs[i], clock) <= clock }

  ghost predicate EvictedSince(evs: seq<Event>, key: string) {
    exists i :: LastPutAt(evs, key) < i < |evs| && Evicts(evs, i, key)
  }

  lemma EvictsFrame(evs: seq<Event>, e: Event, i: nat, key: string)
    requires i < |evs|
    ensures Evicts(evs + [e], i, key) == Evicts(evs, i, key)
  {
    assert (evs + [e])[..i] == evs[..i];
  }

  lemma EvictedOneMore(evs: seq<Event>, e: Event, key: string)
    ensures var more := evs + [e];
      EvictedSince(more, key) <==>
        LastPutAt(more, key) != |evs| && (EvictedSince(evs, key) || Evicts(more, |evs|, key))
  {
    var more := evs + [e];
    assert more[..|evs|] == evs;
    forall i | 0 <= i < |evs| ensures Evicts(more, i, key) == Evicts(evs, i, key) { EvictsFrame(evs, e, i, key); }
    assert LastPutAt(more, key) != |evs| ==> LastPutAt(more, key) == LastPutAt(evs, key);
  }

  /** The exact price of the gap between a Get's read and its delete. While the
      last Put of a key has not expired, the key is missing from the table if and
      only if, since that Put, some Get of that key has ended that had read an
      entry expired by then. Sweeps, and Gets of anything else, never cost it. */
  lemma {:induction false} MissedIff(evs: seq<Event>, key: string, clock: int)
    requires Until(evs, clock) && LastPut(evs, key).Some? && clock <= LastPut(evs, key).value.expires
    ensures key !in After(evs).table <==> EvictedSince(evs, key)
  {
    var n := |evs| - 1;
    var init, e := evs[..n], evs[n];
    assert evs == init + [e];
    AlwaysFaithful(init);
    EvictedOneMore(init, e, key);
    if !(e.Stored? && e.key == key && !e.msg.truncated) { MissedIff(init, key, clock); }
  }

  // ---- one operation at a time: exact ----

  /** Operations that do not overlap: a whole Get is a read and its end. */
  datatype Op = Put(key: string, msg: Msg, now: int) | Get(key: string, now: int) | Sweep(keys: set<string>, now: int)

  function GetIn(m: Table, key: string, now: int): (Table, Option<Msg>)
    requires key in m ==> m[key].storedAt <= now
  {
    if key !in m then (m, None)
    else if now > m[key].expires then (Remove(m, key), None)
    else (m, Hit(m[key], now))
  }

  ghost predicate Past(m: Table, clock: int) { forall k :: k in m ==> m[k].storedAt <= clock }

  function OpTime(op: Op): int { op.now }

  function Do(m: Table, op: Op): Table {
    match op
    case Put(key, msg, now) => PutIn(m, key, msg, now)
    case Get(key, now) => if key in m && now > m[key].expires then Remove(m, key) else m
    case Sweep(keys, now) => SweepIn(m, keys, now)
  }

  function Run(ops: seq<Op>): Table {
    if ops == [] then map[] else Do(Run(ops[..|ops| - 1]), ops[|ops| - 1])
  }

  function Plain(ops: seq<Op>): Table {
    if ops == [] then map[]
    else
      var op := ops[|ops| - 1];
      var m := Plain(ops[..|ops| - 1]);
      if op.Put? then PutIn(m, op.key, op.msg, op.now) else m
  }

  predicate Ordered(ops: seq<Op>) {
    forall i, j :: 0 <= i < j < |ops| ==> OpTime(ops[i]) <= OpTime(ops[j])
  }

  /** The plain map remembers all the cache does, and beyond that only entries
      already expired. */
  ghost predicate Refines(m: Table, plain: Table, clock: int) {
    && Past(plain, clock)
    && (forall k :: k in m ==> k in plain && m[k] == plain[k])
    && (forall k :: k in plain && k !in m ==> clock > plain[k].expires)
  }

  lemma {:induction false} RunRefinesPlain(ops: seq<Op>, clock: int)
    requires Ordered(ops) && (ops != [] ==> OpTime(ops[|ops| - 1]) <= clock)
    ensures Refines(Run(ops), Plain(ops), clock)
  {
    if ops != [] {
      var n := |ops| - 1;
      if n > 0 { assert OpTime(ops[n - 1]) <= OpTime(ops[n]); }
      RunRefinesPlain(ops[..n], OpTime(ops[n]));
    }
  }

  /** Without overlap, and on a steady clock, the cache with all its deletions
      answers exactly as one map that remembers every Put: a miss means never
      Put, or expired. */
  lemma SequentialExact(ops: seq<Op>, key: string, now: int)
    requires Ordered(ops) && (ops != [] ==> OpTime(ops[|ops| - 1]) <= now)
    ensures var m, plain := Run(ops), Plain(ops);
      && (key in m ==> m[key].storedAt <= now) && (key in plain ==> plain[key].storedAt <= now)
      && GetIn(m, key, now).1 == if key in plain then Hit(plain[key], now) else None
  {
    RunRefinesPlain(ops, now);
  }

  // ---- many shards are one table ----

  /** Tables that split one table by the shard of each key. */
  ghost predicate OneTable(home: string -> nat, shards: seq<Table>, m: Table) {
    && (forall k :: k in m ==> home(k) < |shards| && k in shards[home(k)])
    && (forall i, k :: 0 <= i < |shards| && k in shards[i] ==> home(k) == i && k in m && m[k] == shards[i][k])
  }

  lemma OneChanged(home: string -> nat, shards: seq<Table>, m: Table, h: nat, s: Table, t: Table)
    requires OneTable(home, shards, m) && h < |shards|
    requires forall k :: k in s ==> home(k) == h && k in t && t[k] == s[k]
    requires forall k :: k in t && home(k) == h ==> k in s
    requires forall k :: home(k) != h ==> (k in t <==> k in m) && (k in t ==> t[k] == m[k])
    ensures OneTable(home, shards[h := s], t)
  {}

  lemma PutInOne(home: string -> nat, shards: seq<Table>, m: Table, key: string, msg: Msg, now: int)
    requires OneTable(home, shards, m) && home(key) < |shards|
    ensures OneTable(home, shards[home(key) := PutIn(shards[home(key)], key, msg, now)], PutIn(m, key, msg, now))
  {
    var h := home(key);
    OneChanged(home, shards, m, h, PutIn(shards[h], key, msg, now), PutIn(m, key, msg, now));
  }

  lemma RemovedFromOne(home: string -> nat, shards: seq<Table>, m: Table, key: string)
    requires OneTable(home, shards, m) && home(key) < |shards|
    ensures OneTable(home, shards[home(key) := Remove(shards[home(key)], key)], Remove(m, key))
  {
    OneChanged(home, shards, m, home(key), Remove(shards[home(key)], key), Remove(m, key));
  }

  lemma SweptFromOne(home: string -> nat, shards: seq<Table>, m: Table, h: nat, now: int)
    requires OneTable(home, shards, m) && h < |shards|
    ensures OneTable(home, shards[h := SweepIn(shards[h], shards[h].Keys, now)], SweepIn(m, shards[h].Keys, now))
  {
    OneChanged(home, shards, m, h, SweepIn(shards[h], shards[h].Keys, now), SweepIn(m, shards[h].Keys, now));
  }

  /** Whatever function picks the shard: Get, Put and a sweep of one shard answer
      and act as the same operation on the one table. */
  lemma ShardsAreOneTable(home: string -> nat, shards: seq<Table>, m: Table, key: string, msg: Msg, now: int)
    requires OneTable(home, shards, m) && home(key) < |shards|
    requires key in m ==> m[key].storedAt <= now
    ensures var h := home(key);
      && GetIn(shards[h], key, now).1 == GetIn(m, key, now).1
      && OneTable(home, shards[h := GetIn(shards[h], key, now).0], GetIn(m, key, now).0)
      && OneTable(home, shards[h := PutIn(shards[h], key, msg, now)], PutIn(m, key, msg, now))
      && OneTable(home, shards[h := SweepIn(shards[h], shards[h].Keys, now)], SweepIn(m, shards[h].Keys, now))
  {
    var h := home(key);
    assert key in m <==> key in shards[h];
    assert shards[h := shards[h]] == shards;
    RemovedFromOne(home, shards, m, key);
    PutInOne(home, shards, m, key, msg, now);
    SweptFromOne(home, shards, m, h, now);
  }

  /** The shards, with the Gets between their read and their end. */
  datatype Sharded = Sharded(shards: seq<Table>, gets: seq<Option<Reading>>, steps: nat)

  /** As before, but that a sweep goes through one shard. */
  datatype ShardEvent =
    | ShardStored(key: string, msg: Msg, now: int)
    | ShardBegun(key: string)
    | ShardEnded(read: nat, now: int)
    | ShardSwept(shard: nat, now: int)

  /** What the event is to the one table. */
  function AsOne(y: Sharded, e: ShardEvent): Event {
    match e
    case ShardStored(key, msg, now) => Stored(key, msg, now)
    case ShardBegun(key) => ReadBegun(key)
    case ShardEnded(read, now) => ReadEnded(read, now)
    case ShardSwept(i, now) => Swept(if i < |y.shards| then y.shards[i].Keys else {}, now)
  }

  /** One step: all that reads or writes a table does so in the shard of its key,
      the late delete of an expired Get as well. */
  function ShardStep(home: string -> nat, y: Sharded, e: ShardEvent): (Sharded, Option<Msg>)
    requires forall k :: home(k) < |y.shards|
  {
    var z := y.(steps := y.steps + 1);
    match e
    case ShardStored(key, msg, now) =>
      (z.(shards := y.shards[home(key) := PutIn(y.shards[home(key)], key, msg, now)]), None)
    case ShardBegun(key) =>
      var m := y.shards[home(key)];
      (z.(gets := y.gets + [if key in m then Some(Reading(key, m[key], y.steps)) else None]), None)
    case ShardEnded(i, now) =>
      if i < |y.gets| && y.gets[i].Some? && y.gets[i].value.entry.storedAt <= now then
        var r := y.gets[i].value;
        var w := z.(gets := y.gets[i := None]);
        if now > r.entry.expires then
          (w.(shards := y.shards[home(r.key) := Remove(y.shards[home(r.key)], r.key)]), None)
        else (w, Hit(r.entry, now))
      else (z, None)
    case ShardSwept(i, now) =>
      if i < |y.shards| then (z.(shards := y.shards[i := SweepIn(y.shards[i], y.shards[i].Keys, now)]), None)
      else (z, None)
  }

  /** The shards together hold the one table, and the same Gets are under way. */
  ghost predicate Together(home: string -> nat, y: Sharded, z: Sys) {
    && (forall k :: home(k) < |y.shards|)
    && OneTable(home, y.shards, z.table) && y.gets == z.gets && y.steps == z.steps
  }

  lemma ShardStepIsStep(home: string -> nat, y: Sharded, z: Sys, e: ShardEvent)
    requires Together(home, y, z)
    ensures ShardStep(home, y, e).1 == Step(z, AsOne(y, e)).1
    ensures Together(home, ShardStep(home, y, e).0, Step(z, AsOne(y, e)).0)
  {
    match e
    case ShardStored(key, msg, now) => PutInOne(home, y.shards, z.table, key, msg, now);
    case ShardBegun(key) => assert key in z.table <==> key in y.shards[home(key)];
    case ShardEnded(i, now) =>
      if i < |y.gets| && y.gets[i].Some? { RemovedFromOne(home, y.shards, z.table, y.gets[i].value.key); }
    case ShardSwept(i, now) =>
      if i < |y.shards| {
        SweptFromOne(home, y.shards, z.table, i, now);
      } else {
        assert SweepIn(z.table, {}, now) == z.table;
      }
  }

  /** A run over `n` empty shards, and what it is to the one table. */
  function ShardRun(home: string -> nat, n: nat, evs: seq<ShardEvent>): (r: (Sharded, seq<Event>))
    requires forall k :: home(k) < n
    ensures |r.0.shards| == n && |r.1| == |evs|
  {
    if evs == [] then (Sharded(seq(n, _ => map[]), [], 0), [])
    else
      var (y, whole) := ShardRun(home, n, evs[..|evs| - 1]);
      (ShardStep(home, y, evs[|evs| - 1]).0, whole + [AsOne(y, evs[|evs| - 1])])
  }

  /** Sharding is unobservable: whatever function picks the shard, in every
      interleaving each answer, and all that is held, is that of one table going
      through the same events. So whatever holds of every run of one table holds
      of the shards. */
  lemma {:induction false} ShardsRunAsOne(home: string -> nat, n: nat, evs: seq<ShardEvent>, e: ShardEvent)
    requires forall k :: home(k) < n
    ensures var (y, whole) := ShardRun(home, n, evs);
      && Together(home, y, After(whole))
      && ShardStep(home, y, e).1 == Step(After(whole), AsOne(y, e)).1
  {
    var (y, whole) := ShardRun(home, n, evs);
    if evs != [] {
      var last := evs[|evs| - 1];
      var (x, before) := ShardRun(home, n, evs[..|evs| - 1]);
      ShardsRunAsOne(home, n, evs[..|evs| - 1], last);
      ShardStepIsStep(home, x, After(before), last);
      assert whole[..|whole| - 1] == before;
    }
    ShardStepIsStep(home, y, After(whole), e);
  }
}
