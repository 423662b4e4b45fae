/** The few functions of Go's `strings` package the resolver leans on, over
    sequences of characters, with the facts about them the proofs need. */
module GoStrings {

  datatype Option<+T> = None | Some(value: T)

  /** White space as Go's `unicode.IsSpace` defines it. */
  predicate IsSpace(c: char) {
    || c in "\t\n\r "
    || c in ['\U{000B}', '\U{000C}', '\U{0085}', '\U{00A0}', '\U{1680}']
    || '\U{2000}' <= c <= '\U{200A}'
    || c in ['\U{2028}', '\U{2029}', '\U{202F}', '\U{205F}', '\U{3000}']
  }

  function TrimSpace(s: string): (r: string)
    ensures r != "" ==> !IsSpace(r[0]) && !IsSpace(r[|r| - 1])
  {
    if s == "" then s
    else if IsSpace(s[0]) then TrimSpace(s[1..])
    else if IsSpace(s[|s| - 1]) then TrimSpace(s[..|s| - 1])
    else s
  }

  /** Lower-casing, for the letters a host name may carry. */
  function LowerChar(c: char): char {
    if 'A' <= c <= 'Z' then (c as int + 32) as char else c
  }

  function ToLower(s: string): (r: string)
    ensures |r| == |s|
    ensures forall i :: 0 <= i < |s| ==> r[i] == LowerChar(s[i])
  {
    seq(|s|, i requires 0 <= i < |s| => LowerChar(s[i]))
  }

  lemma ToLowerIdempotent(s: string)
    ensures ToLower(ToLower(s)) == ToLower(s)
  {
    assert forall i :: 0 <= i < |s| ==> LowerChar(LowerChar(s[i])) == LowerChar(s[i]);
  }

  const CAPITALS := "ABCDEFGHIJKLMNOPQRSTUVWXYZ"
  const SMALL := "abcdefghijklmnopqrstuvwxyz"

  /** Exactly the capital letters change, each to its small one. */
  lemma LowerExact(c: char)
    ensures c in CAPITALS ==> exists i :: 0 <= i < 26 && CAPITALS[i] == c && LowerChar(c) == SMALL[i]
    ensures c !in CAPITALS ==> LowerChar(c) == c
  {
    if 'A' <= c <= 'Z' {
      var i := c as int - 'A' as int;
      assert CAPITALS[i] == c && SMALL[i] == LowerChar(c);
    }
  }

  predicate Spaces(s: string) { forall i :: 0 <= i < |s| ==> IsSpace(s[i]) }

  lemma {:induction false} AllSpaces(s: string)
    requires Spaces(s)
    ensures TrimSpace(s) == ""
  {
    if s != "" { AllSpaces(s[1..]); }
  }

  /** What is left of a text is all between the white space around it. */
  lemma {:induction false} TrimExact(lead: string, core: string, tail: string)
    requires Spaces(lead) && Spaces(tail) && (core != "" ==> !IsSpace(core[0]) && !IsSpace(core[|core| - 1]))
    ensures TrimSpace(lead + core + tail) == core
  {
    var s := lead + core + tail;
    if core == "" {
      AllSpaces(s);
    } else if lead != "" {
      assert s[0] == lead[0] && s[1..] == lead[1..] + core + tail;
      TrimExact(lead[1..], core, tail);
    } else {
      assert s == core + tail;
      TrimTail(core, tail);
    }
  }

  lemma {:induction false} TrimTail(core: string, tail: string)
    requires Spaces(tail) && core != "" && !IsSpace(core[0]) && !IsSpace(core[|core| - 1])
    ensures TrimSpace(core + tail) == core
  {
    var s := core + tail;
    if tail == "" {
      assert s == core;
    } else {
      var n := |tail| - 1;
      assert s[0] == core[0] && s[|s| - 1] == tail[n] && s[..|s| - 1] == core + tail[..n];
      TrimTail(core, tail[..n]);
    }
  }

  predicate HasSuffix(s: string, t: string) {
    |t| <= |s| && s[|s| - |t|..] == t
  }

  function TrimSuffix(s: string, t: string): string {
    if HasSuffix(s, t) then s[..|s| - |t|] else s
  }

  /** `strings.IndexByte`: the first position of `c`, or -1. */
  function IndexOf(s: string, c: char): (i: int)
    ensures -1 <= i < |s|
    ensures i == -1 <==> c !in s
    ensures i >= 0 ==> s[i] == c && c !in s[..i]
  {
    if s == "" then -1
    else if s[0] == c then 0
    else
      var i := IndexOf(s[1..], c);
      if i < 0 then -1 else (assert s[..i + 1] == [s[0]] + s[1..][..i]; i + 1)
  }

  /** A string read back from its last separator: two strings of the form
      `a + sep + b`, with no separator in `b`, agree only part by part. */
  lemma LastSeparatorSplits(a: string, b: string, a': string, b': string, sep: char)
    requires sep !in b && sep !in b'
    requires a + [sep] + b == a' + [sep] + b'
    ensures a == a' && b == b'
  {
    var s := a + [sep] + b;
    var t := a' + [sep] + b';
    assert s[|a|] == sep && t[|a'|] == sep;
    assert forall j :: |a| < j < |s| ==> s[j] == b[j - |a| - 1];
    assert forall j :: |a'| < j < |t| ==> t[j] == b'[j - |a'| - 1];
    assert |a| == |a'|;
    assert a == s[..|a|] && a' == t[..|a|];
    assert b == s[|a| + 1..] && b' == t[|a| + 1..];
  }

  lemma Reassociate<T>(a: seq<T>, x: T, b: seq<T>)
    ensures a + ([x] + b) == (a + [x]) + b
  {}
}
