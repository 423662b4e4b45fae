/** resolver/bind.go: where a tenant queries from is written back, at most once
    in five minutes for each address. Times are nanoseconds on a steady clock. */
module Bind {
  import opened GoStrings

  const DEBOUNCE: int := 300_000_000_000
  const LIMIT: nat := 10000

  type Seen = map<string, int>

  function Key(routeID: string, ip: string): string { routeID + "|" + ip }

  function Prune(m: Seen, now: int): Seen { map k | k in m && now - m[k] <= DEBOUNCE :: m[k] }

  /** The critical section of observe, and whether it goes on to write. */
  function ObserveIn(seen: Seen, key: string, now: int): (Seen, bool) {
    if key in seen && now - seen[key] < DEBOUNCE then (seen, false)
    else
      var m := seen[key := now];
      (if |m| > LIMIT then Prune(m, now) else m, true)
  }

  datatype Sighting = Sighting(routeID: string, ip: string, now: int)

  predicate Named(o: Sighting) { o.routeID != "" && o.ip != "" }

  function KeyOf(o: Sighting): string { Key(o.routeID, o.ip) }

  /** What becomes of a sighting offered to the binder, or not offered at all. */
  function Note(seen: Seen, o: Sighting, offered: bool): (Seen, bool) {
    if offered && Named(o) then ObserveIn(seen, KeyOf(o), o.now) else (seen, false)
  }

  class IpBinder {
    var seen: Seen
    var launched: seq<Sighting>  // the RegisterIP calls started, in order

    constructor ()
      ensures seen == map[] && launched == []
    { seen, launched := map[], []; }

    method Observe(o: Sighting)
      modifies this
      ensures seen == Note(old(seen), o, true).0
      ensures launched == if Note(old(seen), o, true).1 then old(launched) + [o] else old(launched)
    {
      if o.routeID == "" || o.ip == "" { return; }
      var key := o.routeID + "|" + o.ip;
      if key in seen && o.now - seen[key] < DEBOUNCE { return; }
      seen := seen[key := o.now];
      if |seen| > LIMIT {
        ghost var m := seen;
        var todo := seen.Keys;
        while todo != {}
          invariant todo <= m.Keys && launched == old(launched)
          invariant seen == map k | k in m && (k in todo || o.now - m[k] <= DEBOUNCE) :: m[k]
        {
          var k :| k in todo;
          if o.now - seen[k] > DEBOUNCE { seen := seen - {k}; }
          todo := todo - {k};
        }
        assert seen == Prune(m, o.now);
      }
      launched := launched + [o];
    }
  }

  // ---- whole runs ----

  function SeenAfter(obs: seq<Sighting>, n: nat): Seen
    requires n <= |obs|
  {
    if n == 0 then map[]
    else if !Named(obs[n - 1]) then SeenAfter(obs, n - 1)
    else ObserveIn(SeenAfter(obs, n - 1), KeyOf(obs[n - 1]), obs[n - 1].now).0
  }

  /** Sighting `i` of a run launches a write. */
  predicate Writes(obs: seq<Sighting>, i: nat)
    requires i < |obs|
  {
    Named(obs[i]) && ObserveIn(SeenAfter(obs, i), KeyOf(obs[i]), obs[i].now).1
  }

  /** Readings do not decrease in the order the lock is taken. */
  ghost predicate Steady(obs: seq<Sighting>) {
    forall i, j :: 0 <= i < j < |obs| ==> obs[i].now <= obs[j].now
  }

  /** `w` is the last of the first `n` sightings to have written `key`. */
  ghost predicate LastWrite(obs: seq<Sighting>, n: nat, key: string, w: int)
    requires n <= |obs|
  {
    && 0 <= w < n && Writes(obs, w) && KeyOf(obs[w]) == key
    && forall i :: w < i < n && Writes(obs, i) ==> KeyOf(obs[i]) != key
  }

  /** What the map knows of a key after `n` sightings: its last write, which may
      be forgotten only once it is older than the debounce. */
  ghost predicate Knows(obs: seq<Sighting>, n: nat, key: string, m: Seen, clock: int)
    requires n <= |obs|
  {
    if key in m then exists w :: LastWrite(obs, n, key, w) && m[key] == obs[w].now
    else forall i :: 0 <= i < n && Writes(obs, i) && KeyOf(obs[i]) == key ==> clock - obs[i].now > DEBOUNCE
  }

  lemma AllBefore(obs: seq<Sighting>, n: nat, key: string, w: nat, clock: int)
    requires n <= |obs| && Steady(obs) && LastWrite(obs, n, key, w) && clock - obs[w].now > DEBOUNCE
    ensures forall i :: 0 <= i < n && Writes(obs, i) && KeyOf(obs[i]) == key ==> clock - obs[i].now > DEBOUNCE
  {
    forall i | 0 <= i < n && Writes(obs, i) && KeyOf(obs[i]) == key ensures clock - obs[i].now > DEBOUNCE {
      assert i <= w;
    }
  }

  lemma {:induction false} MapKnows(obs: seq<Sighting>, n: nat, key: string, clock: int)
    requires n <= |obs| && Steady(obs) && (n > 0 ==> obs[n - 1].now <= clock)
    ensures Knows(obs, n, key, SeenAfter(obs, n), clock)
  {
    if n > 0 {
      var o := obs[n - 1];
      MapKnows(obs, n - 1, key, o.now);
      var m, m' := SeenAfter(obs, n - 1), SeenAfter(obs, n);
      if Writes(obs, n - 1) && KeyOf(o) == key {
        assert LastWrite(obs, n, key, n - 1) && m'[key] == obs[n - 1].now;
      } else if key in m {
        var w :| LastWrite(obs, n - 1, key, w) && m[key] == obs[w].now;
        assert LastWrite(obs, n, key, w);
        if key in m' { assert m'[key] == m[key]; } else { AllBefore(obs, n, key, w, clock); }
      } else {
        assert key !in m';
      }
    }
  }

  /** The binder is its plain definition: a sighting is written exactly when it
      names a tenant and an address and no write of that pair is less than five
      minutes old. Sweeping past ten thousand entries changes no decision. */
  lemma WritesExactly(obs: seq<Sighting>, j: nat)
    requires j < |obs| && Steady(obs)
    ensures Writes(obs, j) <==>
      && obs[j].routeID != "" && obs[j].ip != ""
      && forall i :: 0 <= i < j && Writes(obs, i) && KeyOf(obs[i]) == KeyOf(obs[j]) ==>
           obs[j].now - obs[i].now >= 300_000_000_000
  {
    MapKnows(obs, j, KeyOf(obs[j]), obs[j].now);
    var m := SeenAfter(obs, j);
    if KeyOf(obs[j]) in m {
      var w :| LastWrite(obs, j, KeyOf(obs[j]), w) && m[KeyOf(obs[j])] == obs[w].now;
      forall i | 0 <= i < j && Writes(obs, i) && KeyOf(obs[i]) == KeyOf(obs[j]) ensures obs[i].now <= obs[w].now {
        assert i <= w;
      }
    }
  }

  /** A pair is one key, and one key is one pair: an address has no bar in it. */
  lemma KeyIsPair(o: Sighting, p: Sighting)
    requires '|' !in o.ip && '|' !in p.ip
    ensures KeyOf(o) == KeyOf(p) <==> o.routeID == p.routeID && o.ip == p.ip
  {
    assert "|" == ['|'];
    assert KeyOf(o) == o.routeID + ['|'] + o.ip && KeyOf(p) == p.routeID + ['|'] + p.ip;
    if KeyOf(o) == KeyOf(p) {
      LastSeparatorSplits(o.routeID, o.ip, p.routeID, p.ip, '|');
    } else {
      assert o.routeID != p.routeID || o.ip != p.ip;
    }
  }

  /** Two writes of the same tenant and address are at least five minutes apart,
      and a sighting left unwritten is covered by a write not yet that old. */
  lemma WritesSpaced(obs: seq<Sighting>, i: nat, j: nat)
    requires i < j < |obs| && Steady(obs) && Writes(obs, i) && Writes(obs, j)
    requires obs[i].routeID == obs[j].routeID && obs[i].ip == obs[j].ip
    ensures obs[j].now - obs[i].now >= 300_000_000_000
  {
    WritesExactly(obs, j);
  }

  lemma UnwrittenIsFresh(obs: seq<Sighting>, j: nat) returns (i: nat)
    requires j < |obs| && Steady(obs) && Named(obs[j]) && !Writes(obs, j) && forall o :: o in obs ==> '|' !in o.ip
    ensures i < j && Writes(obs, i) && obs[i].routeID == obs[j].routeID && obs[i].ip == obs[j].ip
    ensures obs[j].now - 300_000_000_000 < obs[i].now <= obs[j].now
  {
    WritesExactly(obs, j);
    i :| 0 <= i < j && Writes(obs, i) && KeyOf(obs[i]) == KeyOf(obs[j]) && obs[j].now - obs[i].now < DEBOUNCE;
    KeyIsPair(obs[i], obs[j]);
  }
}
