/** resolver/store.go:144-236: the snapshot is rebuilt from four separate reads
    of the database, row by row, and swapped in whole. */
module Reload {
  import opened GoStrings
  import opened Netip
  import opened Domain
  import opened Policy

  datatype TenantRow = TenantRow(routeID: string, name: string, status: string, expiresAt: int, blockAds: int,
                                 pausedUntil: int)

  datatype IPRow = IPRow(ip: string, routeID: string)

  datatype AllowRow = AllowRow(routeID: string, domain: string)

  /** An override row; `answer` is what ParseAddr makes of the stored text. */
  datatype OverrideRow = OverrideRow(routeID: string, domain: string, answer: Option<Addr>)

  /** One SELECT: all its rows, or an error after some of them. */
  datatype Fetch<T> = Read(rows: seq<T>) | Broken(rows: seq<T>)

  function Scanned(r: TenantRow): Tenant {
    Tenant(r.routeID, r.name, r.status, r.expiresAt, r.blockAds != 0, r.pausedUntil)
  }

  // ---- a snapshot's tables, row after row ----

  function TenantsOf(rows: seq<TenantRow>): map<string, Tenant> {
    if rows == [] then map[]
    else var r := rows[|rows| - 1]; TenantsOf(rows[..|rows| - 1])[ToLower(r.routeID) := Scanned(r)]
  }

  function AddressesOf(rows: seq<IPRow>): map<string, string> {
    if rows == [] then map[]
    else var r := rows[|rows| - 1]; AddressesOf(rows[..|rows| - 1])[r.ip := ToLower(r.routeID)]
  }

  function AllowOf(rows: seq<AllowRow>): map<string, set<string>> {
    if rows == [] then map[]
    else
      var r := rows[|rows| - 1];
      var m, rid := AllowOf(rows[..|rows| - 1]), ToLower(r.routeID);
      m[rid := Rules(m, rid) + {Normalize(r.domain)}]
  }

  function OverOf(rows: seq<OverrideRow>): map<string, map<string, Addr>> {
    if rows == [] then map[]
    else
      var r := rows[|rows| - 1];
      var m, rid := OverOf(rows[..|rows| - 1]), ToLower(r.routeID);
      if r.answer == None then m else m[rid := Answers(m, rid)[Normalize(r.domain) := r.answer.value]]
  }

  method LoadTenants(f: Fetch<TenantRow>) returns (m: map<string, Tenant>)
    ensures m == TenantsOf(f.rows)
  {
    m := map[];
    for i := 0 to |f.rows|
      invariant m == TenantsOf(f.rows[..i])
    {
      assert f.rows[..i + 1][..i] == f.rows[..i];
      m := m[ToLower(f.rows[i].routeID) := Scanned(f.rows[i])];
    }
    assert f.rows[..|f.rows|] == f.rows;
  }

  method LoadAddresses(f: Fetch<IPRow>) returns (m: map<string, string>)
    ensures m == AddressesOf(f.rows)
  {
    m := map[];
    for i := 0 to |f.rows|
      invariant m == AddressesOf(f.rows[..i])
    {
      assert f.rows[..i + 1][..i] == f.rows[..i];
      m := m[f.rows[i].ip := ToLower(f.rows[i].routeID)];
    }
    assert f.rows[..|f.rows|] == f.rows;
  }

  method AddRule(m: map<string, set<string>>, rid: string, d: string) returns (r: map<string, set<string>>)
    ensures r == m[rid := Rules(m, rid) + {d}]
  {
    r := m;
    if rid !in r { r := r[rid := {}]; }
    r := r[rid := r[rid] + {d}];
  }

  method AddAnswer(m: map<string, map<string, Addr>>, rid: string, d: string, a: Addr)
    returns (r: map<string, map<string, Addr>>)
    ensures r == m[rid := Answers(m, rid)[d := a]]
  {
    r := m;
    if rid !in r { r := r[rid := map[]]; }
    r := r[rid := r[rid][d := a]];
  }

  method LoadAllow(f: Fetch<AllowRow>) returns (m: map<string, set<string>>)
    ensures m == AllowOf(f.rows)
  {
    m := map[];
    for i := 0 to |f.rows|
      invariant m == AllowOf(f.rows[..i])
    {
      assert f.rows[..i + 1][..i] == f.rows[..i];
      var rid := ToLower(f.rows[i].routeID);
      m := AddRule(m, rid, Normalize(f.rows[i].domain));
    }
    assert f.rows[..|f.rows|] == f.rows;
  }

  method LoadOver(f: Fetch<OverrideRow>) returns (m: map<string, map<string, Addr>>)
    ensures m == OverOf(f.rows)
  {
    m := map[];
    for i := 0 to |f.rows|
      invariant m == OverOf(f.rows[..i])
    {
      assert f.rows[..i + 1][..i] == f.rows[..i];
      var r := f.rows[i];
      if r.answer == None { continue; }
      var rid := ToLower(r.routeID);
      m := AddAnswer(m, rid, Normalize(r.domain), r.answer.value);
    }
    assert f.rows[..|f.rows|] == f.rows;
  }

  function Built(tenants: seq<TenantRow>, ips: seq<IPRow>, allow: seq<AllowRow>, over: seq<OverrideRow>): Snapshot {
    Snapshot(TenantsOf(tenants), AddressesOf(ips), AllowOf(allow), OverOf(over))
  }

  /** Reload. Rows are handled as they come; the first error ends it, and only a
      reload without any replaces the snapshot. */
  method Reload(store: PolicyStore, tenants: Fetch<TenantRow>, ips: Fetch<IPRow>,
                allow: Fetch<AllowRow>, over: Fetch<OverrideRow>) returns (ok: bool)
    modifies store
    ensures ok <==> tenants.Read? && ips.Read? && allow.Read? && over.Read?
    ensures store.snap == if ok then Built(tenants.rows, ips.rows, allow.rows, over.rows) else old(store.snap)
  {
    var snap := Snapshot(map[], map[], map[], map[]);
    var t := LoadTenants(tenants);
    if tenants.Broken? { return false; }
    var i := LoadAddresses(ips);
    if ips.Broken? { return false; }
    var a := LoadAllow(allow);
    if allow.Broken? { return false; }
    var o := LoadOver(over);
    if over.Broken? { return false; }
    store.snap := snap.(tenants := t, byIP := i, allow := a, over := o);
    return true;
  }

  // ---- what a reloaded snapshot answers ----

  /** The rows of a tenant, whatever the case of its route in them; the last one
      decides. */
  ghost predicate LastOf(rows: seq<TenantRow>, rid: string, i: int) {
    && 0 <= i < |rows| && ToLower(rows[i].routeID) == rid
    && forall j :: i < j < |rows| ==> ToLower(rows[j].routeID) != rid
  }

  /** The tenant table holds a route exactly if some row is of it, and then all
      that the last such row says, column by column. */
  lemma {:induction false} TenantsExact(rows: seq<TenantRow>, rid: string)
    ensures rid in TenantsOf(rows) <==> exists r :: r in rows && ToLower(r.routeID) == rid
    ensures rid in TenantsOf(rows) ==> exists i :: LastOf(rows, rid, i) && Holds(TenantsOf(rows)[rid], rows[i])
  {
    if rows != [] {
      var n := |rows| - 1;
      var init := rows[..n];
      TenantsExact(init, rid);
      assert rows == init + [rows[n]];
      if ToLower(rows[n].routeID) == rid {
        assert LastOf(rows, rid, n);
      } else if rid in TenantsOf(init) {
        var i :| LastOf(init, rid, i) && Holds(TenantsOf(init)[rid], init[i]);
        assert LastOf(rows, rid, i);
      }
    }
  }

  predicate Holds(t: Tenant, r: TenantRow) {
    && t.routeID == r.routeID && t.name == r.name && t.status == r.status && t.expiresAt == r.expiresAt
    && t.pausedUntil == r.pausedUntil && (t.blockAds <==> r.blockAds != 0)
  }

  ghost predicate LastAt(rows: seq<IPRow>, ip: string, i: int) {
    && 0 <= i < |rows| && rows[i].ip == ip
    && forall j :: i < j < |rows| ==> rows[j].ip != ip
  }

  /** And an address belongs to the tenant of its last row, in lower case. */
  lemma {:induction false} AddressesExact(rows: seq<IPRow>, ip: string)
    ensures ip in AddressesOf(rows) <==> exists r :: r in rows && r.ip == ip
    ensures ip in AddressesOf(rows) ==>
      exists i :: LastAt(rows, ip, i) && AddressesOf(rows)[ip] == ToLower(rows[i].routeID)
  {
    if rows != [] {
      var n := |rows| - 1;
      var init := rows[..n];
      AddressesExact(init, ip);
      assert rows == init + [rows[n]];
      if rows[n].ip == ip {
        assert LastAt(rows, ip, n);
      } else if ip in AddressesOf(init) {
        var i :| LastAt(init, ip, i) && AddressesOf(init)[ip] == ToLower(init[i].routeID);
        assert LastAt(rows, ip, i);
      }
    }
  }

  predicate Says(r: AllowRow, rid: string, d: string) { ToLower(r.routeID) == rid && Normalize(r.domain) == d }

  lemma RuleAdded(rows: seq<AllowRow>, r: AllowRow, rid: string, d: string)
    ensures d in Rules(AllowOf(rows + [r]), rid) <==> d in Rules(AllowOf(rows), rid) || Says(r, rid, d)
  {
    assert (rows + [r])[..|rows|] == rows;
  }

  /** An allow rule is in force exactly if some row has it, after lower-casing
      and normalising. */
  lemma {:induction false} AllowExact(rows: seq<AllowRow>, rid: string, d: string)
    ensures d in Rules(AllowOf(rows), rid) <==> exists r :: r in rows && Says(r, rid, d)
  {
    if rows != [] {
      var init, r := rows[..|rows| - 1], rows[|rows| - 1];
      AllowExact(init, rid, d);
      RuleAdded(init, r, rid, d);
      assert rows == init + [r] && forall x :: x in rows <==> x in init || x == r;
    }
  }

  predicate Speaks(r: OverrideRow, rid: string, d: string) {
    r.answer.Some? && ToLower(r.routeID) == rid && Normalize(r.domain) == d
  }

  /** The last readable row for a tenant and domain. */
  function LastAnswer(rows: seq<OverrideRow>, rid: string, d: string): Option<Addr> {
    if rows == [] then None
    else if Speaks(rows[|rows| - 1], rid, d) then rows[|rows| - 1].answer
    else LastAnswer(rows[..|rows| - 1], rid, d)
  }

  lemma {:induction false} OverExact(rows: seq<OverrideRow>, rid: string, d: string)
    ensures d in Answers(OverOf(rows), rid) <==> LastAnswer(rows, rid, d).Some?
    ensures d in Answers(OverOf(rows), rid) ==> LastAnswer(rows, rid, d) == Some(Answers(OverOf(rows), rid)[d])
  {
    if rows != [] { OverExact(rows[..|rows| - 1], rid, d); }
  }

  /** No two readable rows say different things of one tenant and domain. */
  ghost predicate Consistent(rows: seq<OverrideRow>) {
    forall i, j :: 0 <= i < |rows| && 0 <= j < |rows| && rows[i].answer.Some? && rows[j].answer.Some?
      && ToLower(rows[i].routeID) == ToLower(rows[j].routeID) && Normalize(rows[i].domain) == Normalize(rows[j].domain)
      ==> rows[i].answer == rows[j].answer
  }

  /** The same table read in another order gives the same overrides. */
  ghost predicate OrderFree(rows: seq<OverrideRow>) {
    forall again: seq<OverrideRow>, rid, d :: multiset(again) == multiset(rows) ==>
      LastAnswer(again, rid, d) == LastAnswer(rows, rid, d)
  }

  lemma {:induction false} LastAnswerOf(rows: seq<OverrideRow>, rid: string, d: string) returns (i: int)
    ensures LastAnswer(rows, rid, d) == None ==> forall k :: 0 <= k < |rows| ==> !Speaks(rows[k], rid, d)
    ensures LastAnswer(rows, rid, d).Some? ==>
      0 <= i < |rows| && Speaks(rows[i], rid, d) && rows[i].answer == LastAnswer(rows, rid, d)
  {
    i := |rows| - 1;
    if rows != [] && !Speaks(rows[i], rid, d) { i := LastAnswerOf(rows[..i], rid, d); }
  }

  lemma ConsistentIsOrderFree(rows: seq<OverrideRow>, again: seq<OverrideRow>, rid: string, d: string)
    requires Consistent(rows) && multiset(again) == multiset(rows)
    ensures LastAnswer(again, rid, d) == LastAnswer(rows, rid, d)
  {
    var i := LastAnswerOf(rows, rid, d);
    var j := LastAnswerOf(again, rid, d);
    assert forall r :: r in again <==> r in rows by {
      forall r ensures r in again <==> r in rows { assert r in multiset(again) <==> r in multiset(rows); }
    }
    if LastAnswer(again, rid, d).Some? { assert again[j] in rows; }
    if LastAnswer(rows, rid, d).Some? { assert rows[i] in again; }
  }

  /** What the overrides in force are is settled by the stored rows alone, and
      not by the order a SELECT happens to return them in, exactly when no two of
      them conflict once lower-cased and normalised. */
  lemma OrderFreeIff(rows: seq<OverrideRow>)
    ensures OrderFree(rows) <==> Consistent(rows)
  {
    if Consistent(rows) {
      forall again: seq<OverrideRow>, rid, d | multiset(again) == multiset(rows)
        ensures LastAnswer(again, rid, d) == LastAnswer(rows, rid, d)
      {
        ConsistentIsOrderFree(rows, again, rid, d);
      }
    } else {
      var i, j :| 0 <= i < |rows| && 0 <= j < |rows| && rows[i].answer.Some? && rows[j].answer.Some?
        && ToLower(rows[i].routeID) == ToLower(rows[j].routeID)
        && Normalize(rows[i].domain) == Normalize(rows[j].domain)
        && rows[i].answer != rows[j].answer;
      if i < j { Conflict(rows, i, j); } else { Conflict(rows, j, i); }
    }
  }

  /** Two of the rows, read last, in either order. */
  lemma ReadLast<T>(rows: seq<T>, i: int, j: int) returns (rest: seq<T>)
    requires 0 <= i < j < |rows|
    ensures multiset(rest + [rows[i], rows[j]]) == multiset(rows)
    ensures multiset(rest + [rows[j], rows[i]]) == multiset(rows)
  {
    rest := rows[..i] + rows[i + 1..j] + rows[j + 1..];
    assert rows == rows[..i] + [rows[i]] + rows[i + 1..j] + [rows[j]] + rows[j + 1..];
  }

  lemma Conflict(rows: seq<OverrideRow>, i: int, j: int)
    requires 0 <= i < j < |rows| && rows[i].answer.Some? && rows[j].answer.Some? && rows[i].answer != rows[j].answer
    requires ToLower(rows[i].routeID) == ToLower(rows[j].routeID)
    requires Normalize(rows[i].domain) == Normalize(rows[j].domain)
    ensures !OrderFree(rows)
  {
    var rid, d := ToLower(rows[i].routeID), Normalize(rows[i].domain);
    var rest := ReadLast(rows, i, j);
    Lasts(rest + [rows[i]], rows[j], rid, d);
    Lasts(rest + [rows[j]], rows[i], rid, d);
    assert rest + [rows[i], rows[j]] == rest + [rows[i]] + [rows[j]];
    assert rest + [rows[j], rows[i]] == rest + [rows[j]] + [rows[i]];
    TwoOrders(rows, rest + [rows[i], rows[j]], rest + [rows[j], rows[i]], rid, d);
  }

  lemma TwoOrders(rows: seq<OverrideRow>, a: seq<OverrideRow>, b: seq<OverrideRow>, rid: string, d: string)
    requires multiset(a) == multiset(rows) && multiset(b) == multiset(rows)
    requires LastAnswer(a, rid, d) != LastAnswer(b, rid, d)
    ensures !OrderFree(rows)
  {}

  lemma Lasts(rows: seq<OverrideRow>, r: OverrideRow, rid: string, d: string)
    requires Speaks(r, rid, d)
    ensures LastAnswer(rows + [r], rid, d) == r.answer
  {}

  // ---- what the write paths leave to be read ----

  /** The row SetOverride writes for an address it could parse. */
  function RowFor(routeID: string, domain: string, answer: Addr): OverrideRow {
    OverrideRow(ToLower(routeID), Normalize(domain), Some(answer))
  }

  /** Rows under the table's key, all of them in lower case and readable. */
  ghost predicate Keyed(rows: seq<OverrideRow>) {
    && (forall i :: 0 <= i < |rows| ==> rows[i].answer.Some? && ToLower(rows[i].routeID) == rows[i].routeID)
    && (forall i, j :: 0 <= i < j < |rows| ==> rows[i].routeID != rows[j].routeID || rows[i].domain != rows[j].domain)
  }

  /** Such rows never conflict, as long as normalising what is stored changes
      nothing ... */
  lemma KeyedIsConsistent(rows: seq<OverrideRow>)
    requires Keyed(rows) && forall i :: 0 <= i < |rows| ==> Normalize(rows[i].domain) == rows[i].domain
    ensures Consistent(rows)
  {}

  lemma PairKeyed(rows: seq<OverrideRow>)
    requires |rows| == 2 && rows[0].answer.Some? && rows[1].answer.Some? && rows[0].domain != rows[1].domain
    requires ToLower(rows[0].routeID) == rows[0].routeID && ToLower(rows[1].routeID) == rows[1].routeID
    ensures Keyed(rows)
  {
    forall i, j | 0 <= i < j < |rows| ensures rows[i].domain != rows[j].domain { assert i == 0 && j == 1; }
    forall i | 0 <= i < |rows| ensures ToLower(rows[i].routeID) == rows[i].routeID { assert i == 0 || i == 1; }
  }

  lemma DotsMeet()
    ensures Normalize("a..") != Normalize("a.") && Normalize(Normalize("a..")) == Normalize(Normalize("a."))
  {
    NormalizeNotIdempotent();
    AlreadyNormal("a");
    assert |"a."| != |"a"|;
  }

  /** ... but the write path normalises once and the reload once more, so two
      names that are stored apart can meet again, and then the order decides. */
  lemma WrittenMayConflict(routeID: string, a: Addr, b: Addr)
    requires a != b
    ensures var rows := [RowFor(routeID, "a..", a), RowFor(routeID, "a.", b)];
      Keyed(rows) && !OrderFree(rows)
  {
    DotsMeet();
    ToLowerIdempotent(routeID);
    var rows := [RowFor(routeID, "a..", a), RowFor(routeID, "a.", b)];
    PairKeyed(rows);
    Conflict(rows, 0, 1);
  }

  /** AddAllow, then a reload that reads it: every name under the domain is
      allowed to that tenant, if normalising the domain twice is normalising it
      once (see NormalizeTwice for when it is). */
  lemma AddedRuleCovers(snap: Snapshot, rows: seq<AllowRow>, routeID: string, domain: string, name: string)
    requires snap.allow == AllowOf(rows) && AllowRow(ToLower(routeID), Normalize(domain)) in rows
    requires Under(Normalize(name), Normalize(domain)) && !LeavesTail(TrimSpace(domain))
    ensures Covered(Rules(snap.allow, ToLower(routeID)) + Rules(snap.allow, GLOBAL), Normalize(name))
  {
    NormalizeTwice(domain);
    ToLowerIdempotent(routeID);
    assert Says(AllowRow(ToLower(routeID), Normalize(domain)), ToLower(routeID), Normalize(domain));
    AllowExact(rows, ToLower(routeID), Normalize(domain));
  }
}
