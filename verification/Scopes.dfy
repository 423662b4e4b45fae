/** backend/rbac.go and backend/middleware.go:199-226: scopes as they are stored
    with a token, and what a token may be used for. */
module Scopes {
  import opened GoStrings

  const ALL_SCOPES: seq<string> := [
    "tenants:read", "tenants:write", "tenants:bind_ip", "customers:read", "customers:write", "policy:read",
    "policy:write", "stats:read", "system:read", "system:write", "audit:read"]

  // ---- lists of scopes as text ----

  /** `strings.Split(s, ",")`. */
  function Split(s: string): (parts: seq<string>)
    ensures |parts| > 0
    decreases |s|
  {
    var i := IndexOf(s, ',');
    if i < 0 then [s] else [s[..i]] + Split(s[i + 1..])
  }

  /** `strings.Join(parts, ",")`. */
  function Join(parts: seq<string>): string {
    if parts == [] then ""
    else if |parts| == 1 then parts[0]
    else parts[0] + "," + Join(parts[1..])
  }

  lemma SplitAtComma(part: string, rest: string)
    requires ',' !in part
    ensures Split(part + "," + rest) == [part] + Split(rest)
  {
    var s, n := part + "," + rest, |part|;
    assert s[n] == ',' && s[..n] == part && s[n + 1..] == rest;
    assert IndexOf(s, ',') == n;
  }

  lemma {:induction false} SplitJoin(parts: seq<string>)
    requires parts != [] && forall i :: 0 <= i < |parts| ==> ',' !in parts[i]
    ensures Split(Join(parts)) == parts
  {
    if |parts| > 1 {
      SplitJoin(parts[1..]);
      SplitAtComma(parts[0], Join(parts[1..]));
    }
  }

  predicate PlainText(s: string) { s != "" && ',' !in s && TrimSpace(s) == s }

  /** Scopes that survive being written down: no comma, no space around. */
  ghost predicate Plain(all: seq<string>) {
    forall i :: 0 <= i < |all| ==> PlainText(all[i])
  }

  /** The known scopes a text names. */
  function Named(all: seq<string>, parts: seq<string>): set<string> {
    set i | 0 <= i < |parts| && TrimSpace(parts[i]) in all :: TrimSpace(parts[i])
  }

  function Parsed(all: seq<string>, s: string): set<string> { Named(all, Split(s)) }

  /** The members of a set, in the standing order. */
  function Chosen(all: seq<string>, scopes: set<string>): seq<string> {
    if all == [] then []
    else
      var rest, x := Chosen(all[..|all| - 1], scopes), all[|all| - 1];
      if x in scopes then rest + [x] else rest
  }

  function Formatted(all: seq<string>, scopes: set<string>): string { Join(Chosen(all, scopes)) }

  method ValidScope(all: seq<string>, s: string) returns (ok: bool)
    ensures ok <==> s in all
  {
    for i := 0 to |all|
      invariant s !in all[..i]
    {
      if all[i] == s { return true; }
    }
    return false;
  }

  /** ParseScopes: anything unrecognised is dropped. */
  method ParseScopes(all: seq<string>, s: string) returns (out: set<string>)
    requires "" !in all
    ensures out == Parsed(all, s)
  {
    var parts := Split(s);
    out := {};
    for i := 0 to |parts|
      invariant out == Named(all, parts[..i])
    {
      var part := TrimSpace(parts[i]);
      assert parts[..i + 1] == parts[..i] + [parts[i]];
      NamedOneMore(all, parts[..i], parts[i]);
      if part == "" { continue; }
      var ok := ValidScope(all, part);
      if ok { out := out + {part}; }
    }
    assert parts[..|parts|] == parts;
  }

  lemma NamedOneMore(all: seq<string>, parts: seq<string>, p: string)
    ensures Named(all, parts + [p]) == Named(all, parts) + if TrimSpace(p) in all then {TrimSpace(p)} else {}
  {
    var more := parts + [p];
    forall x | x in Named(all, parts) ensures x in Named(all, more) {
      var i :| 0 <= i < |parts| && TrimSpace(parts[i]) in all && TrimSpace(parts[i]) == x;
      assert more[i] == parts[i];
    }
    assert more[|parts|] == p;
  }

  /** FormatScopes. */
  method FormatScopes(all: seq<string>, scopes: set<string>) returns (s: string)
    ensures s == Formatted(all, scopes)
  {
    var parts: seq<string> := [];
    for i := 0 to |all|
      invariant parts == Chosen(all[..i], scopes)
    {
      assert all[..i + 1][..i] == all[..i];
      if all[i] in scopes { parts := parts + [all[i]]; }
    }
    assert all[..|all|] == all;
    return Join(parts);
  }

  lemma {:induction false} ChosenMembers(all: seq<string>, scopes: set<string>)
    ensures forall x :: x in Chosen(all, scopes) <==> x in all && x in scopes
    ensures forall i :: 0 <= i < |Chosen(all, scopes)| ==> Chosen(all, scopes)[i] in all
  {
    if all != [] {
      ChosenMembers(all[..|all| - 1], scopes);
      assert all == all[..|all| - 1] + [all[|all| - 1]];
    }
  }

  /** Strictly increasing positions, all of them below `n`. */
  ghost predicate Positions(at: seq<int>, n: nat) {
    && (forall k :: 0 <= k < |at| ==> 0 <= at[k] < n)
    && (forall j, k :: 0 <= j < k < |at| ==> at[j] < at[k])
  }

  /** What is written of a set: its members, each in its place of the standing
      order. */
  lemma {:induction false} ChosenInOrder(all: seq<string>, scopes: set<string>) returns (at: seq<int>)
    ensures Positions(at, |all|) && |at| == |Chosen(all, scopes)|
    ensures forall k :: 0 <= k < |at| ==> Chosen(all, scopes)[k] == all[at[k]]
    ensures forall i :: 0 <= i < |all| ==> (i in at <==> all[i] in scopes)
  {
    at := [];
    if all != [] {
      var n := |all| - 1;
      at := ChosenInOrder(all[..n], scopes);
      if all[n] in scopes { at := at + [n]; }
    }
  }

  /** What a text is read as: the known scopes among its parts between commas,
      whatever space stands around them. */
  lemma ParsedExact(all: seq<string>, parts: seq<string>, scope: string)
    requires parts != [] && forall i :: 0 <= i < |parts| ==> ',' !in parts[i]
    ensures scope in Parsed(all, Join(parts))
       <==> scope in all && exists i :: 0 <= i < |parts| && TrimSpace(parts[i]) == scope
  {
    SplitJoin(parts);
  }

  lemma {:induction false} ChosenDepends(all: seq<string>, a: set<string>, b: set<string>)
    requires forall x :: x in all ==> (x in a <==> x in b)
    ensures Chosen(all, a) == Chosen(all, b)
  {
    if all != [] {
      assert all[|all| - 1] in all && forall x :: x in all[..|all| - 1] ==> x in all;
      ChosenDepends(all[..|all| - 1], a, b);
    }
  }

  function Known(all: seq<string>): set<string> { set x | x in all }

  /** Reading back what was written gives the known scopes of the set. */
  lemma RoundTrip(all: seq<string>, scopes: set<string>)
    requires Plain(all)
    ensures Parsed(all, Formatted(all, scopes)) == scopes * Known(all)
  {
    var parts := Chosen(all, scopes);
    ChosenMembers(all, scopes);
    if parts == [] {
      assert Split("") == [""] && TrimSpace("") == "";
    } else {
      forall i | 0 <= i < |parts| ensures ',' !in parts[i] && TrimSpace(parts[i]) == parts[i] {
        var j :| 0 <= j < |all| && all[j] == parts[i];
      }
      SplitJoin(parts);
      forall x | x in scopes * Known(all) ensures x in Named(all, parts) {
        assert x in parts;
        var i :| 0 <= i < |parts| && parts[i] == x;
        assert TrimSpace(parts[i]) in all;
      }
      assert forall i :: 0 <= i < |parts| ==> parts[i] in parts;
    }
  }

  /** What is stored is canonical: writing what was read from any text whatever
      is a fixed point, and two texts are stored alike exactly when they name the
      same known scopes. */
  lemma StoredIsCanonical(all: seq<string>, s: string, t: string)
    requires Plain(all)
    ensures var c := Formatted(all, Parsed(all, s));
      Formatted(all, Parsed(all, c)) == c && Parsed(all, c) == Parsed(all, s)
    ensures Formatted(all, Parsed(all, s)) == Formatted(all, Parsed(all, t)) <==> Parsed(all, s) == Parsed(all, t)
  {
    RoundTrip(all, Parsed(all, s));
    RoundTrip(all, Parsed(all, t));
    assert Parsed(all, s) * Known(all) == Parsed(all, s) && Parsed(all, t) * Known(all) == Parsed(all, t);
  }

  predicate ScopeChar(c: char) { 'a' <= c <= 'z' || c == ':' || c == '_' }

  lemma ScopeText(s: string)
    requires s != "" && forall i :: 0 <= i < |s| ==> ScopeChar(s[i])
    ensures PlainText(s)
  {
    assert ScopeChar(s[0]) && ScopeChar(s[|s| - 1]);
  }

  lemma AllScopesPlain()
    ensures Plain(ALL_SCOPES)
  {
    ScopeText("tenants:read");
    ScopeText("tenants:write");
    ScopeText("tenants:bind_ip");
    ScopeText("customers:read");
    ScopeText("customers:write");
    ScopeText("policy:read");
    ScopeText("policy:write");
    ScopeText("stats:read");
    ScopeText("system:read");
    ScopeText("system:write");
    ScopeText("audit:read");
  }

  // ---- tokens ----

  /** What each role may do at all (roleScopes). */
  type Ceilings = map<string, set<string>>

  predicate RoleHasScope(roles: Ceilings, role: string, scope: string) { role in roles && scope in roles[role] }

  datatype User = User(id: int, role: string, status: string)

  datatype Token = Token(userID: int, scopes: string, expiresAt: int, revokedAt: int)

  datatype Principal = Principal(kind: string, role: string, scopes: set<string>)

  predicate Usable(t: Token, now: int) { t.revokedAt == 0 && (t.expiresAt == 0 || t.expiresAt > now) }

  /** Can; a missing principal can do nothing. */
  predicate Can(roles: Ceilings, p: Option<Principal>, scope: string) {
    p.Some? && RoleHasScope(roles, p.value.role, scope) && scope in p.value.scopes
  }

  /** A grant within a role's ceiling. */
  function Cut(roles: Ceilings, role: string, granted: set<string>): set<string> {
    set x | x in granted && RoleHasScope(roles, role, x)
  }

  /** The principal a token stands for, given what the two lookups found. */
  ghost predicate StandsFor(all: seq<string>, roles: Ceilings, token: Option<Token>, user: Option<User>, now: int,
                            p: Option<Principal>) {
    && (p.Some? <==> token.Some? && Usable(token.value, now) && user.Some? && user.value.status == "active")
    && (p.Some? ==> p.value.role == user.value.role
                    && p.value.scopes == Cut(roles, user.value.role, Parsed(all, token.value.scopes)))
  }

  /** principalFromToken: the grant cut down to the owner's present role. */
  method PrincipalFromToken(all: seq<string>, roles: Ceilings, token: Option<Token>, user: Option<User>, now: int)
    returns (p: Option<Principal>)
    requires "" !in all
    ensures StandsFor(all, roles, token, user, now, p)
  {
    if token == None || !Usable(token.value, now) { return None; }
    if user == None || user.value.status != "active" { return None; }
    var granted := ParseScopes(all, token.value.scopes);
    var effective: set<string> := {};
    var todo := granted;
    while todo != {}
      invariant todo <= granted
      invariant forall x :: x in effective <==> x in granted - todo && RoleHasScope(roles, user.value.role, x)
    {
      var x :| x in todo;
      if RoleHasScope(roles, user.value.role, x) { effective := effective + {x}; }
      todo := todo - {x};
    }
    return Some(Principal("token", user.value.role, effective));
  }

  predicate Grantable(all: seq<string>, roles: Ceilings, role: string, asked: seq<string>) {
    && asked != []
    && forall i :: 0 <= i < |asked| ==> TrimSpace(asked[i]) in all && RoleHasScope(roles, role, TrimSpace(asked[i]))
  }

  function Trimmed(asked: seq<string>): set<string> { set i | 0 <= i < |asked| :: TrimSpace(asked[i]) }

  /** The checks of handleCreateToken: every scope asked for must be known and
      within the owner's role. */
  method GrantScopes(all: seq<string>, roles: Ceilings, role: string, asked: seq<string>)
    returns (granted: Option<set<string>>)
    ensures granted == if Grantable(all, roles, role, asked) then Some(Trimmed(asked)) else None
  {
    if |asked| == 0 { return None; }
    var scopes: set<string> := {};
    for k := 0 to |asked|
      invariant forall i :: 0 <= i < k ==> TrimSpace(asked[i]) in all && RoleHasScope(roles, role, TrimSpace(asked[i]))
      invariant scopes == set i | 0 <= i < k :: TrimSpace(asked[i])
    {
      var sc := TrimSpace(asked[k]);
      var ok := ValidScope(all, sc);
      if !ok { return None; }
      if !RoleHasScope(roles, role, sc) { return None; }
      scopes := scopes + {sc};
    }
    assert scopes == Trimmed(asked);
    return Some(scopes);
  }

  /** The life of a token: it can be used for a scope exactly when it is usable,
      its owner active, the scope was asked for when it was issued, and the
      owner's role allows the scope now - as the role then did. */
  lemma TokenLife(all: seq<string>, atIssue: Ceilings, owner: string, asked: seq<string>, token: Token,
                  atUse: Ceilings, user: Option<User>, now: int, p: Option<Principal>, scope: string)
    requires Plain(all) && Grantable(all, atIssue, owner, asked) && token.scopes == Formatted(all, Trimmed(asked))
    requires StandsFor(all, atUse, Some(token), user, now, p)
    ensures Can(atUse, p, scope) <==>
      && token.revokedAt == 0 && (token.expiresAt == 0 || now < token.expiresAt)
      && user.Some? && user.value.status == "active"
      && scope in Trimmed(asked) && user.value.role in atUse && scope in atUse[user.value.role]
    ensures p.Some? ==> (scope in p.value.scopes <==>
      scope in Trimmed(asked) && user.value.role in atUse && scope in atUse[user.value.role])
    ensures Can(atUse, p, scope) ==> RoleHasScope(atIssue, owner, scope)
  {
    RoundTrip(all, Trimmed(asked));
    forall x | x in Trimmed(asked) ensures x in Known(all) && RoleHasScope(atIssue, owner, x) {
      var i :| 0 <= i < |asked| && TrimSpace(asked[i]) == x;
    }
  }

  /** A ceiling that shrinks only ever narrows what tokens can do; and it narrows
      them at once, even a principal made before. */
  lemma ShrinkingNarrows(before: Ceilings, after: Ceilings, p: Option<Principal>, scope: string)
    requires forall role, x :: RoleHasScope(after, role, x) ==> RoleHasScope(before, role, x)
    ensures Can(after, p, scope) ==> Can(before, p, scope)
    ensures p.Some? && !RoleHasScope(after, p.value.role, scope) ==> !Can(after, p, scope)
  {}
}
