/** resolver/cache.go on the heap: shards chosen by FNV-1a, messages behind
    pointers, and a deep copy on the way in and on the way out. */
module CacheHeap {
  import opened GoStrings
  import opened Dns
  import opened CacheModel

  const SHARDS: nat := 64

  // ---- messages as objects ----

  class Record {
    const rrtype: nat
    const data: Data
    var ttl: U32

    constructor (rr: RR)
      ensures Shows(rr)
    {
      rrtype, ttl, data := rr.rrtype, rr.ttl, rr.data;
    }

    ghost predicate Shows(rr: RR)
      reads this
    {
      rrtype == rr.rrtype && ttl == rr.ttl && data == rr.data
    }
  }

  ghost predicate Section(rs: seq<Record>, rrs: seq<RR>)
    reads rs
  {
    |rs| == |rrs| && forall i :: 0 <= i < |rs| ==> rs[i].Shows(rrs[i])
  }

  ghost predicate Distinct(rs: seq<Record>) { forall i, j :: 0 <= i < j < |rs| ==> rs[i] != rs[j] }

  class Message {
    ghost const repr: set<object>  // the records it is made of
    var id: nat
    var question: seq<Question>
    const rcode: Rcode
    const truncated: bool
    var answer: seq<Record>
    var ns: seq<Record>
    var extra: seq<Record>

    constructor (id: nat, question: seq<Question>, rcode: Rcode, truncated: bool,
                 answer: seq<Record>, ns: seq<Record>, extra: seq<Record>)
      ensures this.id == id && this.question == question && this.rcode == rcode && this.truncated == truncated
      ensures this.answer == answer && this.ns == ns && this.extra == extra
      ensures repr == (set r | r in answer + ns + extra)
    {
      repr := set r | r in answer + ns + extra;
      this.id, this.question, this.rcode, this.truncated := id, question, rcode, truncated;
      this.answer, this.ns, this.extra := answer, ns, extra;
    }

    ghost predicate Shows(v: Msg)
      reads this, repr
    {
      && id == v.id && question == v.question && rcode == v.rcode && truncated == v.truncated
      && (forall r :: r in answer ==> r in repr) && (forall r :: r in ns ==> r in repr)
      && (forall r :: r in extra ==> r in repr)
      && Section(answer, v.answer) && Section(ns, v.ns) && Section(extra, v.extra)
    }

    /** No record object occurs twice. */
    ghost predicate Apart()
      reads this
    {
      && Distinct(answer) && Distinct(ns) && Distinct(extra)
      && (forall r :: r in answer ==> r !in ns && r !in extra)
      && (forall r :: r in ns ==> r !in answer && r !in extra)
      && (forall r :: r in extra ==> r !in answer && r !in ns)
    }
  }

  method CopySection(rs: seq<Record>, ghost rrs: seq<RR>) returns (c: seq<Record>)
    requires Section(rs, rrs)
    ensures Section(c, rrs) && Distinct(c) && forall r :: r in c ==> fresh(r)
  {
    c := [];
    for i := 0 to |rs|
      invariant Section(c, rrs[..i]) && Distinct(c) && forall r :: r in c ==> fresh(r)
    {
      var r := new Record(RR(rs[i].rrtype, rs[i].ttl, rs[i].data));
      c := c + [r];
    }
    assert rrs[..|rs|] == rrs;
  }

  /** `dns.Msg.Copy`: nothing of the result is shared with the original. */
  method Copy(m: Message, ghost v: Msg) returns (c: Message)
    requires m.Shows(v)
    ensures fresh(c) && c.Shows(v) && c.Apart() && fresh(c.repr)
  {
    var answer := CopySection(m.answer, v.answer);
    var ns := CopySection(m.ns, v.ns);
    var extra := CopySection(m.extra, v.extra);
    assert forall r :: r in answer + ns + extra ==> fresh(r);
    c := new Message(m.id, m.question, m.rcode, m.truncated, answer, ns, extra);
  }

  /** adjustTTL, in place. */
  method AdjustTTL(rs: seq<Record>, elapsed: nat, ghost rrs: seq<RR>)
    requires Section(rs, rrs) && Distinct(rs)
    modifies rs
    ensures Section(rs, AdjustAll(rrs, elapsed))
  {
    for i := 0 to |rs|
      invariant forall j :: 0 <= j < |rs| ==> rs[j].Shows(if j < i then Adjust(rrs[j], elapsed) else rrs[j])
    {
      var h := rs[i];
      if h.ttl > elapsed { h.ttl := h.ttl - elapsed; } else { h.ttl := 1; }
    }
  }

  // ---- shards ----

  /** One round of the hash over one byte of the key. */
  function Mix(h: bv32, c: char): bv32 {
    (h ^ ((c as int % 256) as bv32)) * 16777619
  }

  function Fnv(key: string): bv32 {
    if key == "" then 2166136261 else Mix(Fnv(key[..|key| - 1]), key[|key| - 1])
  }

  /** The published values of the hash. */
  lemma FnvVectors()
    ensures Fnv("") == 0x811C9DC5 && Fnv("a") == 0xE40C292C
  {
    assert "a"[..0] == "";
    assert Fnv("a") == Mix(Fnv(""), 'a');
  }

  function ShardOf(key: string): (i: nat)
    ensures i < SHARDS
  {
    (Fnv(key) as int) % SHARDS
  }

  /** shardFor's loop. */
  method ShardFor(key: string) returns (i: nat)
    ensures i == ShardOf(key)
  {
    var h: bv32 := 2166136261;
    for k := 0 to |key|
      invariant h == Fnv(key[..k])
    {
      assert key[..k + 1][..k] == key[..k];
      h := Mix(h, key[k]);
    }
    assert key[..|key|] == key;
    i := (h as int) % SHARDS;
  }

  datatype Slot = Slot(msg: Message, storedAt: int, expires: int)

  /** The stored copies show their values, and are made of nothing but `objs`. */
  ghost predicate AllShow(vals: map<Message, Msg>, objs: set<object>)
    reads objs
  {
    forall c :: c in vals ==> c in objs && c.repr <= objs && c.Shows(vals[c])
  }

  lemma OneMoreShows(vals: map<Message, Msg>, objs: set<object>, c: Message, v: Msg)
    requires AllShow(vals, objs) && c.Shows(v)
    ensures AllShow(vals[c := v], objs + {c} + c.repr)
  {}

  /** The map stands for the table, entry by entry. */
  ghost predicate Stands(m: map<string, Slot>, view: Table, vals: map<Message, Msg>) {
    && m.Keys == view.Keys
    && forall k :: k in m ==> m[k].msg in vals && view[k] == Entry(vals[m[k].msg], m[k].storedAt, m[k].expires)
  }

  lemma OneMoreStands(m: map<string, Slot>, view: Table, vals: map<Message, Msg>, key: string, c: Message, v: Msg,
                      now: int, life: nat)
    requires Stands(m, view, vals) && c !in vals && !v.truncated && life == Life(v)
    ensures Stands(m[key := Slot(c, now, now + life)], PutIn(view, key, v, now), vals[c := v])
  {}

  /** One shard: a map of its own under a lock of its own. */
  class Shard {
    var m: map<string, Slot>
    ghost var view: Table              // what the map shows
    ghost var vals: map<Message, Msg>  // every copy ever stored here, with its value
    ghost var objs: set<object>        // the objects those are made of

    constructor ()
      ensures Valid() && view == map[] && objs == {}
    {
      m, view, vals, objs := map[], map[], map[], {};
    }

    ghost predicate Valid()
      reads this, objs
    {
      this !in objs && AllShow(vals, objs) && Stands(m, view, vals)
    }

    /** The read under the read lock. */
    method Read(key: string) returns (e: Option<Slot>)
      requires Valid()
      ensures e == None <==> key !in view
      ensures e.Some? ==> && e.value.storedAt == view[key].storedAt && e.value.expires == view[key].expires
                          && e.value.msg in vals && vals[e.value.msg] == view[key].msg
    {
      return if key in m then Some(m[key]) else None;
    }

    /** The delete under the write lock. */
    method Delete(key: string)
      requires Valid()
      modifies this
      ensures Valid() && view == Remove(old(view), key) && objs == old(objs) && vals == old(vals)
    {
      m := m - {key};
      view := Remove(view, key);
    }

    /** The write under the write lock, of a copy nobody else holds. */
    method Insert(key: string, c: Message, ghost v: Msg, now: int, life: nat)
      requires Valid() && c.Shows(v) && !v.truncated && life == Life(v)
      requires c !in vals && this !in c.repr
      modifies this
      ensures Valid() && view == PutIn(old(view), key, v, now)
      ensures objs == old(objs) + {c} + c.repr && vals == old(vals)[c := v]
    {
      ghost var was, made := vals, objs;
      assert this !in made + {c} + c.repr;
      m := m[key := Slot(c, now, now + life)];
      view := PutIn(view, key, v, now);
      vals, objs := was[c := v], made + {c} + c.repr;
      OneMoreShows(was, made, c, v);
      OneMoreStands(old(m), old(view), was, key, c, v, now, life);
    }

    /** The end of a Get, however much has happened in the shard since its read:
        the slot it read is still a copy stored here, and shows the same message.
        The answer is all new objects, and no stored message is touched. An expired
        slot's key is deleted, whatever the map holds under it by now. */
    method Finish(key: string, e: Slot, now: int) returns (msg: Message?)
      requires Valid() && e.msg in vals && e.storedAt <= now
      modifies this
      ensures Valid() && objs == old(objs) && vals == old(vals)
      ensures view == if now > e.expires then Remove(old(view), key) else old(view)
      ensures msg == null <==> now > e.expires
      ensures msg != null ==> fresh(msg) && fresh(msg.repr)
      ensures msg != null ==> msg.Shows(Serve(Entry(old(vals)[e.msg], e.storedAt, e.expires), now))
    {
      if now > e.expires {
        Delete(key);
        return null;
      }
      var elapsed := (now - e.storedAt) / SECOND;
      msg := CopyDown(e.msg, elapsed, vals[e.msg]);
    }

    /** Get with nothing between its read and its end. */
    method Get(key: string, now: int) returns (msg: Message?)
      requires Valid() && (key in view ==> view[key].storedAt <= now)
      modifies this
      ensures Valid() && view == GetIn(old(view), key, now).0 && objs == old(objs) && vals == old(vals)
      ensures msg == null <==> GetIn(old(view), key, now).1.None?
      ensures msg != null ==> fresh(msg) && fresh(msg.repr) && msg.Shows(GetIn(old(view), key, now).1.value)
    {
      var e := Read(key);
      if e == None { return null; }
      msg := Finish(key, e.value, now);
    }

    /** Put in its shard: the entry keeps a copy, the caller its message. */
    method Put(key: string, msg: Message?, ghost v: Msg, now: int)
      requires Valid() && (msg != null ==> msg.Shows(v))
      modifies this
      ensures Valid() && view == if msg == null then old(view) else PutIn(old(view), key, v, now)
      ensures old(objs) <= objs && fresh(objs - old(objs))
      ensures forall c :: c in old(vals) ==> c in vals && vals[c] == old(vals)[c]
    {
      if msg == null || msg.truncated { return; }
      var life := LifeOf(msg, v);
      var c := Copy(msg, v);
      Insert(key, c, v, now, life);
    }

    /** The sweeper's visit to this shard. */
    method Sweep(now: int)
      requires Valid()
      modifies this
      ensures Valid() && view == SweepIn(old(view), old(view).Keys, now) && objs == old(objs) && vals == old(vals)
      ensures forall k :: k in view <==> k in old(view) && now <= old(view)[k].expires
      ensures forall k :: k in view ==> view[k] == old(view)[k]
    {
      DropExpired(now);
      view := SweepIn(view, view.Keys, now);
    }

    method DropExpired(now: int)
      modifies this`m
      ensures forall k :: k in m ==> k in old(m) && m[k] == old(m)[k]
      ensures forall k :: k in old(m) ==> (k in m <==> !(now > old(m)[k].expires))
    {
      var todo := m.Keys;
      while todo != {}
        invariant todo <= old(m).Keys
        invariant forall k :: k in m ==> k in old(m) && m[k] == old(m)[k]
        invariant forall k :: k in old(m) ==> (k in m <==> k in todo || !(now > old(m)[k].expires))
      {
        var k :| k in todo;
        if now > m[k].expires { m := m - {k}; }
        todo := todo - {k};
      }
    }
  }

  /** The copy a Get hands out, counted down. */
  method CopyDown(m: Message, elapsed: nat, ghost v: Msg) returns (c: Message)
    requires m.Shows(v)
    ensures fresh(c) && fresh(c.repr)
    ensures c.Shows(v.(answer := AdjustAll(v.answer, elapsed), ns := AdjustAll(v.ns, elapsed),
                       extra := AdjustAll(v.extra, elapsed)))
  {
    c := Copy(m, v);
    CountDown(c, elapsed, v);
  }

  method CountDown(msg: Message, elapsed: nat, ghost v: Msg)
    requires msg.Shows(v) && msg.Apart()
    modifies msg.repr
    ensures msg.Shows(v.(answer := AdjustAll(v.answer, elapsed), ns := AdjustAll(v.ns, elapsed),
                         extra := AdjustAll(v.extra, elapsed)))
  {
    var answer, ns, extra := msg.answer, msg.ns, msg.extra;
    assert forall i :: 0 <= i < |ns| ==> ns[i] in ns && ns[i] !in answer;
    assert forall i :: 0 <= i < |extra| ==> extra[i] in extra && extra[i] !in answer && extra[i] !in ns;
    assert forall i :: 0 <= i < |answer| ==> answer[i] in answer && answer[i] !in ns && answer[i] !in extra;
    AdjustTTL(answer, elapsed, v.answer);
    assert Section(ns, v.ns);
    AdjustTTL(ns, elapsed, v.ns);
    AdjustTTL(extra, elapsed, v.extra);
  }

  method Values(rs: seq<Record>, ghost rrs: seq<RR>) returns (vs: seq<RR>)
    requires Section(rs, rrs)
    ensures vs == rrs
  {
    vs := [];
    for i := 0 to |rs|
      invariant vs == rrs[..i]
    {
      vs := vs + [RR(rs[i].rrtype, rs[i].ttl, rs[i].data)];
    }
  }

  /** The lifetime Put computes from a message. */
  method LifeOf(msg: Message, ghost v: Msg) returns (life: nat)
    requires msg.Shows(v)
    ensures life == Life(v)
  {
    var answer := Values(msg.answer, v.answer);
    var ns := Values(msg.ns, v.ns);
    var least := ComputeMinTTL(Msg(msg.id, msg.question, msg.rcode, msg.truncated, answer, ns, []));
    var ttl := least * SECOND;
    if |msg.answer| == 0 { ttl := NEGATIVE_TTL * SECOND; }
    if ttl < MIN_LIFE { ttl := MIN_LIFE; }
    if ttl > MAX_LIFE { ttl := MAX_LIFE; }
    return ttl;
  }

  /** resolve.go:196-201: the cached copy is rewritten for the client, and the
      entry it came from stays as it was for the next one. */
  method ReplyFromCache(sh: Shard, key: string, now: int, id: nat, question: seq<Question>) returns (reply: Message?)
    requires sh.Valid() && (key in sh.view ==> sh.view[key].storedAt <= now)
    modifies sh
    ensures sh.Valid() && sh.view == GetIn(old(sh.view), key, now).0
    ensures reply == null <==> GetIn(old(sh.view), key, now).1.None?
    ensures reply != null ==> reply.Shows(GetIn(old(sh.view), key, now).1.value.(id := id, question := question))
  {
    ghost var hit := GetIn(sh.view, key, now).1;
    reply := sh.Get(key, now);
    if reply == null { return; }
    assert reply !in sh.objs;
    Readdress(reply, id, question, hit.value);
  }

  method Readdress(m: Message, id: nat, question: seq<Question>, ghost v: Msg)
    requires m.Shows(v)
    modifies m
    ensures m.Shows(v.(id := id, question := question))
  {
    m.id := id;
    m.question := question;
  }

  /** resolve.go:219-222: the reply is cached first and rewritten afterwards; the
      cache keeps the reply as the upstream sent it. */
  method CacheThenReply(sh: Shard, key: string, reply: Message, ghost v: Msg, now: int, id: nat)
    requires sh.Valid() && reply.Shows(v) && reply !in sh.objs && sh !in reply.repr
    modifies sh, reply
    ensures sh.Valid() && sh.view == PutIn(old(sh.view), key, v, now)
    ensures reply.Shows(v.(id := id))
  {
    sh.Put(key, reply, v, now);
    reply.id := id;
  }
}
