/** resolver/domain.go: one spelling per name, the suffix walk, and the tenant
    label in a TLS server name. */
module Domain {
  import opened GoStrings

  function Normalize(name: string): string {
    ToLower(TrimSuffix(TrimSpace(name), "."))
  }

  /** What a rule written against `rule` is meant to cover: the name itself and
      every name below it, on a label boundary. */
  predicate Under(name: string, rule: string) {
    rule != "" && (name == rule || HasSuffix(name, "." + rule))
  }

  /** The walk over a non-empty, already normalised name. */
  function Walk(name: string): seq<string>
    requires name != ""
    decreases |name|
  {
    var i := IndexOf(name, '.');
    if i < 0 || name[i + 1..] == "" then [name] else [name] + Walk(name[i + 1..])
  }

  function Suffixes(name: string): seq<string> {
    var n := Normalize(name);
    if n == "" then [] else Walk(n)
  }

  method DomainSuffixes(raw: string) returns (out: seq<string>)
    ensures out == Suffixes(raw)
  {
    var name := Normalize(raw);
    if name == "" { return []; }
    out := Parents(name);
  }

  /** The loop of domainSuffixes. */
  method Parents(start: string) returns (out: seq<string>)
    requires start != ""
    ensures out == Walk(start)
  {
    var name := start;
    out := [name];
    ghost var done: seq<string> := [];
    assert done + Walk(name) == Walk(name) && done + [name] == [name];
    while true
      invariant name != "" && Walk(start) == done + Walk(name) && out == done + [name]
      decreases |name|
    {
      var i := IndexOf(name, '.');
      if i < 0 { return; }
      var rest := name[i + 1..];
      if rest == "" { return; }
      Reassociate(done, name, Walk(rest));
      done := out;
      name := rest;
      out := out + [name];
    }
  }

  lemma DotSuffix(name: string, rule: string)
    ensures HasSuffix(name, "." + rule)
       <==> |rule| < |name| && name[|name| - |rule| - 1] == '.' && name[|name| - |rule|..] == rule
  {
    var dot := |name| - |rule| - 1;
    if 0 <= dot {
      assert name[dot..] == [name[dot]] + name[dot + 1..];
      assert "." + rule == ['.'] + rule;
    }
  }

  lemma UnderStep(name: string, rule: string, i: nat)
    requires i < |name| && name[i] == '.' && forall j :: 0 <= j < i ==> name[j] != '.'
    ensures Under(name, rule) <==> rule != "" && (rule == name || Under(name[i + 1..], rule))
  {
    var rest := name[i + 1..];
    DotSuffix(name, rule);
    DotSuffix(rest, rule);
    if |rule| <= |rest| {
      assert rest[|rest| - |rule|..] == name[|name| - |rule|..];
    }
  }

  /** The walk visits exactly the rules that cover the name. */
  lemma {:induction false} WalkIsUnder(name: string, rule: string)
    requires name != ""
    ensures rule in Walk(name) <==> Under(name, rule)
    decreases |name|
  {
    var i := IndexOf(name, '.');
    if i < 0 {
      DotSuffix(name, rule);
    } else {
      assert forall j :: 0 <= j < i ==> name[j] == name[..i][j];
      UnderStep(name, rule, i);
      if name[i + 1..] != "" { WalkIsUnder(name[i + 1..], rule); }
    }
  }

  /** Each name of a list is longer than all that follow it. */
  ghost predicate Shrinking(w: seq<string>) {
    forall i, j :: 0 <= i < j < |w| ==> |w[j]| < |w[i]|
  }

  lemma ShrinkingGrows(name: string, w: seq<string>)
    requires w != [] && Shrinking(w) && |w[0]| < |name|
    ensures Shrinking([name] + w)
  {
    var v := [name] + w;
    forall i, j | 0 <= i < j < |v| ensures |v[j]| < |v[i]| {
      assert v[j] == w[j - 1];
      if i > 0 { assert v[i] == w[i - 1]; }
    }
  }

  lemma {:induction false} WalkShrinks(name: string)
    requires name != ""
    ensures Walk(name) != [] && Walk(name)[0] == name && Shrinking(Walk(name))
    decreases |name|
  {
    var i := IndexOf(name, '.');
    if 0 <= i && name[i + 1..] != "" {
      var rest := name[i + 1..];
      WalkShrinks(rest);
      ShrinkingGrows(name, Walk(rest));
      assert Walk(name) == [name] + Walk(rest);
    }
  }

  /** domainSuffixes against its plain definition: the non-empty names `s` with
      the normalised name equal to `s` or ending in "." + s, longest first. */
  lemma SuffixesExact(name: string, rule: string)
    ensures rule in Suffixes(name) <==> Under(Normalize(name), rule)
    ensures Shrinking(Suffixes(name))
  {
    if Normalize(name) != "" {
      WalkIsUnder(Normalize(name), rule);
      WalkShrinks(Normalize(name));
    }
  }

  /** Two rules of equal length covering one name are the same rule. */
  lemma UnderSameLength(name: string, r: string, s: string)
    requires Under(name, r) && Under(name, s) && |r| == |s|
    ensures r == s
  {
    if HasSuffix(name, "." + r) {
      assert name[|name| - |r| - 1..][1..] == name[|name| - |r|..];
      assert ("." + r)[1..] == r && ("." + s)[1..] == s;
    }
  }

  // ---- how far normalising twice differs from normalising once ----

  /** A dot left exposed by removing the trailing one, or a blank. */
  predicate LeavesTail(trimmed: string) {
    && |trimmed| >= 2
    && trimmed[|trimmed| - 1] == '.'
    && (trimmed[|trimmed| - 2] == '.' || IsSpace(trimmed[|trimmed| - 2]))
  }

  lemma TrimSpaceFixed(s: string)
    ensures TrimSpace(s) == s <==> s == "" || (!IsSpace(s[0]) && !IsSpace(s[|s| - 1]))
    ensures |TrimSpace(s)| <= |s|
  {
    if s != "" && IsSpace(s[0]) { TrimSpaceFixed(s[1..]); }
    else if s != "" && IsSpace(s[|s| - 1]) { TrimSpaceFixed(s[..|s| - 1]); }
  }

  lemma LowerKeepsShape(c: char)
    ensures IsSpace(LowerChar(c)) == IsSpace(c)
    ensures LowerChar(c) == '.' <==> c == '.'
    ensures LowerChar(LowerChar(c)) == LowerChar(c)
  {}

  lemma NormalFixed(s: string)
    requires ToLower(s) == s
    ensures Normalize(s) == s
       <==> s == "" || (!IsSpace(s[0]) && !IsSpace(s[|s| - 1]) && s[|s| - 1] != '.')
  {
    TrimSpaceFixed(s);
    if s != "" {
      assert s[|s| - 1..] == [s[|s| - 1]];
      if TrimSpace(s) != s {
        assert |TrimSpace(s)| < |s| by { TrimSpaceShrinks(s); }
      }
    }
  }

  lemma TrimSpaceShrinks(s: string)
    ensures |TrimSpace(s)| <= |s| && (|TrimSpace(s)| == |s| ==> TrimSpace(s) == s)
  {
    if s != "" && IsSpace(s[0]) { TrimSpaceShrinks(s[1..]); }
    else if s != "" && IsSpace(s[|s| - 1]) { TrimSpaceShrinks(s[..|s| - 1]); }
  }

  lemma DropDot(t: string)
    requires t != ""
    ensures TrimSuffix(t, ".") == if t[|t| - 1] == '.' then t[..|t| - 1] else t
  {
    assert t[|t| - 1..] == [t[|t| - 1]];
  }

  /** One spelling: white space around a name, one dot at its end and the case of
      its letters make no difference, and nothing else is lost. */
  lemma NormalizeExact(lead: string, name: string, dot: string, tail: string)
    requires Spaces(lead) && Spaces(tail) && (dot == "" || dot == ".")
    requires name != "" ==> !IsSpace(name[0]) && !IsSpace(name[|name| - 1])
    requires dot == "" && name != "" ==> name[|name| - 1] != '.'
    ensures Normalize(lead + name + dot + tail) == ToLower(name)
  {
    CoreEnds(name, dot);
    TrimExact(lead, name + dot, tail);
    DotDropped(name, dot);
    Regroup(lead, name, dot, tail);
  }

  lemma Regroup(a: string, b: string, c: string, d: string)
    ensures a + b + c + d == a + (b + c) + d
  {}

  lemma CoreEnds(name: string, dot: string)
    requires dot == "" || dot == "."
    requires name != "" ==> !IsSpace(name[0]) && !IsSpace(name[|name| - 1])
    ensures var core := name + dot; core != "" ==> !IsSpace(core[0]) && !IsSpace(core[|core| - 1])
  {}

  lemma DotDropped(name: string, dot: string)
    requires dot == "" || dot == "."
    requires dot == "" && name != "" ==> name[|name| - 1] != '.'
    ensures TrimSuffix(name + dot, ".") == name
  {
    var core := name + dot;
    if core != "" { DropDot(core); }
    assert dot == "." ==> core[..|core| - 1] == name;
    assert dot == "" ==> core == name;
  }

  lemma LowerFixed(u: string)
    ensures Normalize(ToLower(u)) == ToLower(u)
       <==> u == "" || (!IsSpace(u[0]) && !IsSpace(u[|u| - 1]) && u[|u| - 1] != '.')
  {
    ToLowerIdempotent(u);
    NormalFixed(ToLower(u));
    if u != "" {
      LowerKeepsShape(u[0]);
      LowerKeepsShape(u[|u| - 1]);
    }
  }

  lemma TwiceOnTrimmed(t: string)
    requires t != "" ==> !IsSpace(t[0]) && !IsSpace(t[|t| - 1])
    ensures var n := ToLower(TrimSuffix(t, ".")); Normalize(n) == n <==> !LeavesTail(t)
  {
    LowerFixed(TrimSuffix(t, "."));
    if t != "" { DropDot(t); }
  }

  /** normalizeDomain is not idempotent. It is exactly when the trimmed input
      does not end in a dot preceded by another dot or by white space. */
  lemma NormalizeTwice(s: string)
    ensures Normalize(Normalize(s)) == Normalize(s) <==> !LeavesTail(TrimSpace(s))
  {
    TwiceOnTrimmed(TrimSpace(s));
  }

  lemma NormalizeNotIdempotent()
    ensures Normalize("a..") == "a." && Normalize("a.") == "a"
  {
    assert TrimSpace("a..") == "a.." && TrimSpace("a.") == "a.";
    assert "a.."[2..] == "." && "a."[1..] == ".";
    assert ToLower("a.") == "a." && ToLower("a") == "a";
    assert "a.."[..2] == "a." && "a."[..1] == "a";
  }

  lemma AlreadyNormal(s: string)
    requires s != "" && forall i :: 0 <= i < |s| ==> LowerChar(s[i]) == s[i] && !IsSpace(s[i])
    requires s[|s| - 1] != '.'
    ensures Normalize(s) == s
  {
    assert s[|s| - 1..] == [s[|s| - 1]];
    assert TrimSuffix(TrimSpace(s), ".") == s;
  }

  // ---- tenant label ----

  function RouteIDFromSNI(sni: string, base: string): string { LabelBefore(Normalize(sni), Normalize(base)) }

  /** The one label in front of `b`, if `s` is that and nothing more. */
  function LabelBefore(s: string, b: string): string {
    if s == "" || b == "" || s == b then ""
    else if !HasSuffix(s, "." + b) then ""
    else
      var tenant := TrimSuffix(s, "." + b);
      if tenant == "" || '.' in tenant then "" else tenant
  }

  lemma SuffixSplit(s: string, front: string, tail: string)
    ensures HasSuffix(s, tail) && TrimSuffix(s, tail) == front <==> s == front + tail
  {
    if s == front + tail {
      assert s[|s| - |tail|..] == tail && s[..|s| - |tail|] == front;
    }
    if HasSuffix(s, tail) { assert s == s[..|s| - |tail|] + s[|s| - |tail|..]; }
  }

  lemma LabelExact(s: string, b: string, tenant: string)
    requires tenant != ""
    ensures LabelBefore(s, b) == tenant <==> b != "" && '.' !in tenant && s == tenant + ("." + b)
  {
    SuffixSplit(s, tenant, "." + b);
    if s == tenant + ("." + b) { assert |s| > |b|; }
  }

  /** A server name identifies `tenant` exactly when, normalised, it is
      that one dot-free label in front of the normalised base domain. */
  lemma RouteIDExact(sni: string, base: string, tenant: string)
    requires tenant != ""
    ensures RouteIDFromSNI(sni, base) == tenant
       <==> Normalize(base) != "" && '.' !in tenant && Normalize(sni) == tenant + "." + Normalize(base)
  {
    LabelExact(Normalize(sni), Normalize(base), tenant);
    assert tenant + "." + Normalize(base) == tenant + ("." + Normalize(base));
  }

  /** hardening_test.go:240 expects labels of at most 63 characters; no such
      check exists, so the returned label is exactly as long as the one sent. */
  lemma RouteIDLengthUnbounded(tenant: string, base: string)
    requires Normalize(base) == base && base != ""
    requires tenant != "" && '.' !in tenant
    requires Normalize(tenant + "." + base) == tenant + "." + base
    ensures RouteIDFromSNI(tenant + "." + base, base) == tenant
  {
    RouteIDExact(tenant + "." + base, base, tenant);
  }

  /** A label keeps to the 63 characters exactly when the server name is at most
      64 characters longer than the base domain, the dot being one of them. */
  lemma LabelShortIff(sni: string, base: string)
    requires RouteIDFromSNI(sni, base) != ""
    ensures |RouteIDFromSNI(sni, base)| <= 63 <==> |Normalize(sni)| <= |Normalize(base)| + 64
  {
    RouteIDExact(sni, base, RouteIDFromSNI(sni, base));
  }

  lemma OverlongLabelAccepted()
    ensures exists sni :: |RouteIDFromSNI(sni, "dns.example.com")| == 64
  {
    var tenant := seq(64, _ => 'a');
    var base := "dns.example.com";
    AlreadyNormal(base);
    AlreadyNormal(tenant + "." + base);
    RouteIDLengthUnbounded(tenant, base);
  }
}
