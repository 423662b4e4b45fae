/** resolver/blocklist.go:29-89: block lists read from feed files, line by line,
    and swapped in whole. */
module Feeds {
  import opened GoStrings
  import opened Domain
  import opened Policy

  /** Names of the local machine that the parser leaves out. */
  const NEVER_BLOCK: set<string> := {
    "localhost", "localhost.localdomain", "local", "broadcasthost", "ip6-localhost", "ip6-loopback",
    "ip6-localnet", "ip6-mcastprefix", "ip6-allnodes", "ip6-allrouters"}

  /** The length of the word a string starts with. */
  function Word(s: string): (k: nat)
    ensures k <= |s| && (s != "" && !IsSpace(s[0]) ==> k > 0)
  {
    if s == "" || IsSpace(s[0]) then 0 else 1 + Word(s[1..])
  }

  /** `strings.Fields`. */
  function Fields(s: string): seq<string>
    decreases |s|
  {
    if s == "" then []
    else if IsSpace(s[0]) then Fields(s[1..])
    else [s[..Word(s)]] + Fields(s[Word(s)..])
  }

  predicate HostsAddress(s: string) { s == "0.0.0.0" || s == "127.0.0.1" || s == "::" || s == "::1" }

  predicate BadChar(c: char) { c == '/' || c == ' ' || c == '*' || c == ':' }

  predicate NoBadChar(s: string) { forall i :: 0 <= i < |s| ==> !BadChar(s[i]) }

  /** The word of a line that stands for a name. */
  function NameField(line: string): string {
    var fields := Fields(line);
    if |fields| < 2 then line else if HostsAddress(fields[0]) then fields[1] else fields[0]
  }

  /** The name a line lists, if it lists one. */
  function Listed(raw: string): Option<string> {
    var line := TrimSpace(raw);
    if line == "" || line[0] == '#' || line[0] == '!' then None
    else
      var name := Normalize(NameField(line));
      if name == "" || !NoBadChar(name) || name in NEVER_BLOCK then None else Some(name)
  }

  /** A directory entry: whether it is a text file to be read, its lines, and
      whether it can be opened and read to its end. */
  datatype File = File(isText: bool, lines: seq<string>, readable: bool)

  /** The longest line the scanner takes is one short of its buffer. */
  const MAX_LINE: nat := 0x10_0000

  datatype Dir = Missing | Unreadable | Files(files: seq<File>)

  function Collected(found: seq<Option<string>>): set<string> {
    if found == [] then {}
    else
      var rest, name := Collected(found[..|found| - 1]), found[|found| - 1];
      if name.Some? then rest + {name.value} else rest
  }

  function Found(lines: seq<string>): (r: seq<Option<string>>)
    ensures |r| == |lines| && forall i :: 0 <= i < |lines| ==> r[i] == Listed(lines[i])
  {
    seq(|lines|, i requires 0 <= i < |lines| => Listed(lines[i]))
  }

  /** All that some lines list. */
  function Names(lines: seq<string>): set<string> { Collected(Found(lines)) }

  /** All that the text files list, as far as they were read. */
  function AllNames(files: seq<File>): set<string> {
    if files == [] then {}
    else
      var f := files[|files| - 1];
      AllNames(files[..|files| - 1]) + if f.isText then Names(f.lines) else {}
  }

  /** The first `n` lines all fit the scanner. */
  predicate Short(lines: seq<string>, n: nat)
    requires n <= |lines|
  {
    n == 0 || (|lines[n - 1]| < MAX_LINE && Short(lines, n - 1))
  }

  lemma {:induction false} ShortEach(lines: seq<string>, n: nat, k: nat)
    requires k < n <= |lines| && |lines[k]| >= MAX_LINE
    ensures !Short(lines, n)
  {
    if k < n - 1 { ShortEach(lines, n - 1, k); }
  }

  /** A file is read to its end exactly if it can be, and every line is shorter
      than a mebibyte. */
  lemma {:induction false} ShortIff(lines: seq<string>, n: nat)
    requires n <= |lines|
    ensures Short(lines, n) <==> forall i :: 0 <= i < n ==> |lines[i]| < 1_048_576
  {
    if n > 0 { ShortIff(lines, n - 1); }
  }

  predicate Scannable(file: File) { file.readable && Short(file.lines, |file.lines|) }

  predicate AllReadable(files: seq<File>) {
    forall f :: 0 <= f < |files| && files[f].isText ==> Scannable(files[f])
  }

  /** loadListFile. What it gathered before an error is of no use to its caller. */
  method LoadFile(file: File, names: set<string>) returns (r: set<string>, ok: bool)
    ensures ok <==> file.readable && forall i :: 0 <= i < |file.lines| ==> |file.lines[i]| < 1_048_576
    ensures ok ==> r == names + Names(file.lines)
  {
    ShortIff(file.lines, |file.lines|);
    var n := ScanLines(file.lines);
    r := AddLines(file.lines, n, names);
    ok := n == |file.lines| && file.readable;
    assert Found(file.lines)[..|file.lines|] == Found(file.lines);
  }

  /** How many lines the scanner delivers. */
  method ScanLines(lines: seq<string>) returns (n: nat)
    ensures n <= |lines| && (n == |lines| <==> Short(lines, |lines|))
  {
    n := 0;
    while n < |lines| && |lines[n]| < MAX_LINE
      invariant n <= |lines| && Short(lines, n)
    {
      n := n + 1;
    }
    if n < |lines| { ShortEach(lines, |lines|, n); }
  }

  method AddLines(lines: seq<string>, n: nat, names: set<string>) returns (r: set<string>)
    requires n <= |lines|
    ensures r == names + Collected(Found(lines)[..n])
  {
    r := names;
    ghost var found := Found(lines);
    for k := 0 to n
      invariant r == names + Collected(found[..k])
    {
      assert found[..k + 1][..k] == found[..k];
      var name := Listed(lines[k]);
      if name.Some? { r := r + {name.value}; }
    }
  }

  /** Load. A directory that does not exist leaves the list as it is and is no
      error; any other failure leaves it as well. */
  method Load(block: Blocklist, dir: Dir) returns (count: nat, ok: bool)
    modifies block
    ensures ok <==> dir.Missing? || (dir.Files? && AllReadable(dir.files))
    ensures block.names == if dir.Files? && ok then AllNames(dir.files) else old(block.names)
    ensures dir.Files? && ok ==> count == |block.names|
  {
    if dir.Missing? { return 0, true; }
    if dir.Unreadable? { return 0, false; }
    var names: set<string> := {};
    for k := 0 to |dir.files|
      invariant AllReadable(dir.files[..k])
      invariant names == AllNames(dir.files[..k])
      invariant block.names == old(block.names)
    {
      var f := dir.files[k];
      assert dir.files[..k + 1][..k] == dir.files[..k];
      if !f.isText { continue; }
      var fine: bool;
      ShortIff(f.lines, |f.lines|);
      names, fine := LoadFile(f, names);
      if !fine { return 0, false; }
    }
    assert dir.files[..|dir.files|] == dir.files;
    block.names := names;
    return |names|, true;
  }

  predicate Lists(line: string, name: string) { Listed(line) == Some(name) }

  lemma {:induction false} CollectedExact(found: seq<Option<string>>, name: string)
    ensures name in Collected(found) <==> Some(name) in found
  {
    if found != [] {
      CollectedExact(found[..|found| - 1], name);
      assert found == found[..|found| - 1] + [found[|found| - 1]];
    }
  }

  lemma NamesExact(lines: seq<string>, name: string)
    ensures name in Names(lines) <==> exists i :: 0 <= i < |lines| && Lists(lines[i], name)
  {
    CollectedExact(Found(lines), name);
    if i :| 0 <= i < |lines| && Lists(lines[i], name) { assert Found(lines)[i] == Some(name); }
  }

  /** A loaded list holds exactly what some line of some text file lists. */
  lemma {:induction false} AllNamesExact(files: seq<File>, name: string)
    ensures name in AllNames(files) <==>
      exists f :: 0 <= f < |files| && files[f].isText && name in Names(files[f].lines)
  {
    if files != [] {
      var n := |files| - 1;
      AllNamesExact(files[..n], name);
      assert forall f :: 0 <= f < n ==> files[..n][f] == files[f];
    }
  }

  // ---- which names no feed can block ----

  /** Some line lists the name. */
  ghost predicate Listable(name: string) { exists line :: Lists(line, name) }

  /** A name a line can list: one word in lower case, without the characters the
      parser refuses, that is not one of those left out. */
  predicate ListableName(name: string) {
    && name != "" && NoBadChar(name) && name !in NEVER_BLOCK
    && forall i :: 0 <= i < |name| ==> !IsSpace(name[i]) && LowerChar(name[i]) == name[i]
  }

  predicate NoSpace(s: string) { forall i :: 0 <= i < |s| ==> !IsSpace(s[i]) }

  lemma {:induction false} WordExact(s: string)
    ensures NoSpace(s[..Word(s)]) && (Word(s) < |s| ==> IsSpace(s[Word(s)]))
  {
    if s != "" && !IsSpace(s[0]) { WordExact(s[1..]); }
  }

  lemma {:induction false} FieldsAreWords(s: string)
    ensures forall f :: f in Fields(s) ==> NoSpace(f)
    ensures Fields(s) == [] ==> forall i :: 0 <= i < |s| ==> IsSpace(s[i])
    decreases |s|
  {
    if s != "" {
      if IsSpace(s[0]) { FieldsAreWords(s[1..]); } else {
        WordExact(s);
        FieldsAreWords(s[Word(s)..]);
      }
    }
  }

  lemma SomeField(s: string)
    requires s != "" && !IsSpace(s[|s| - 1])
    ensures Fields(s) != []
  {
    FieldsAreWords(s);
  }

  /** The name field of a trimmed line is one word. */
  lemma NameFieldIsWord(line: string)
    requires line != "" && !IsSpace(line[0]) && !IsSpace(line[|line| - 1])
    ensures NoSpace(NameField(line))
  {
    FieldsAreWords(line);
    WordExact(line);
    var k := Word(line);
    assert line[..|line|] == line;
    if k < |line| { SomeField(line[k..]); }
  }

  lemma {:induction false} TrimSpaceWord(s: string)
    requires NoSpace(s)
    ensures TrimSpace(s) == s
  {}

  /** What normalising a word leaves. */
  lemma NormalWord(w: string)
    requires NoSpace(w)
    ensures var n := Normalize(w);
      forall i :: 0 <= i < |n| ==> !IsSpace(n[i]) && LowerChar(n[i]) == n[i]
  {
    TrimSpaceWord(w);
    var t := TrimSuffix(w, ".");
    var n := Normalize(w);
    forall i | 0 <= i < |n| ensures !IsSpace(n[i]) && LowerChar(n[i]) == n[i] {
      assert t[i] == w[i];
      LowerKeepsShape(t[i]);
    }
  }

  lemma ListedIsListable(line: string, name: string)
    requires Lists(line, name)
    ensures ListableName(name)
  {
    NameFieldIsWord(TrimSpace(line));
    NormalWord(NameField(TrimSpace(line)));
  }

  /** The line "0.0.0.0 name." lists any listable name. */
  lemma ListableIsListed(name: string) returns (line: string)
    requires ListableName(name)
    ensures Lists(line, name) && |line| == |name| + 9
  {
    var head, w := "0.0.0.0", name + ".";
    line := head + " " + w;
    HostsLine(head, w);
    assert TrimSpace(line) == line && NameField(line) == w;
    TrimSpaceWord(w);
    assert w[|w| - 1..] == "." && w[..|w| - 1] == name;
    assert ToLower(name) == name;
  }

  lemma {:induction false} WordOf(w: string, rest: string)
    requires NoSpace(w) && (rest == "" || IsSpace(rest[0]))
    ensures Word(w + rest) == |w|
  {
    if w == "" { assert w + rest == rest; } else {
      assert (w + rest)[1..] == w[1..] + rest;
      WordOf(w[1..], rest);
    }
  }

  lemma OneWord(w: string)
    requires w != "" && NoSpace(w)
    ensures Fields(w) == [w]
  {
    WordOf(w, "");
    assert w + "" == w && w[..|w|] == w && w[|w|..] == "";
    assert Fields("") == [];
  }

  lemma HostsLine(head: string, w: string)
    requires head != "" && w != "" && NoSpace(head) && NoSpace(w)
    ensures Fields(head + " " + w) == [head, w]
  {
    var line, rest := head + " " + w, " " + w;
    assert line == head + rest && rest[0] == ' ' && rest[1..] == w;
    WordOf(head, rest);
    OneWord(w);
    assert Fields(rest) == Fields(rest[1..]) == [w];
    assert line[0] == head[0] && line[..|head|] == head && line[|head|..] == rest;
    assert Fields(line) == [head] + Fields(rest);
  }

  lemma {:induction false} SkipSpaces(gap: string, s: string)
    requires Spaces(gap)
    ensures Fields(gap + s) == Fields(s)
  {
    if gap == "" { assert gap + s == s; } else {
      assert (gap + s)[1..] == gap[1..] + s;
      SkipSpaces(gap[1..], s);
    }
  }

  /** How many spaces a string starts with. */
  function Gap(s: string): (k: nat)
    ensures k <= |s| && Spaces(s[..k]) && (k < |s| ==> !IsSpace(s[k]))
  {
    if s == "" || !IsSpace(s[0]) then 0
    else
      var k := Gap(s[1..]);
      assert s[..k + 1] == [s[0]] + s[1..][..k];
      k + 1
  }

  /** The name a word stands for: in lower case and without one dot at its end,
      unless it is empty, holds a slash, star or colon, or is left out. */
  function NameOf(w: string): Option<string> {
    var n := ToLower(if w != "" && w[|w| - 1] == '.' then w[..|w| - 1] else w);
    if n == "" || '/' in n || '*' in n || ':' in n || ' ' in n || n in NEVER_BLOCK then None else Some(n)
  }

  /** A line as it is laid out: two words at the front, as far as there are any. */
  datatype Layout = Layout(lead: string, first: string, gap: string, second: string, tail: string)

  predicate LaidOut(line: string, y: Layout) {
    && line == y.lead + y.first + y.gap + y.second + y.tail
    && Spaces(y.lead) && NoSpace(y.first) && Spaces(y.gap) && NoSpace(y.second)
    && (y.second != "" ==> y.first != "" && y.gap != "") && (y.first == "" ==> y.gap == "")
    && (y.tail != "" ==> y.second != "" && IsSpace(y.tail[0]))
  }

  lemma FirstField(first: string, rest: string)
    requires first != "" && NoSpace(first) && (rest != "" ==> IsSpace(rest[0]))
    ensures Fields(first + rest) == [first] + Fields(rest)
  {
    var s := first + rest;
    WordOf(first, rest);
    assert s[0] == first[0] && s[..|first|] == first && s[|first|..] == rest;
  }

  lemma Grouped4(a: string, b: string, c: string, d: string)
    ensures a + b + c + d == a + (b + (c + d))
  {}

  lemma Grouped5(a: string, b: string, c: string, d: string, e: string)
    ensures a + b + c + d + e == a + (b + c + d + e) == a + (b + (c + (d + e)))
  {
    Grouped4(a, b, c, d);
    Grouped4(b, c, d, e);
  }

  lemma TwoFields(first: string, gap: string, second: string, tail: string)
    requires first != "" && gap != "" && second != "" && NoSpace(first) && Spaces(gap) && NoSpace(second)
    requires tail != "" ==> IsSpace(tail[0])
    ensures Fields(first + gap + second + tail) == [first, second] + Fields(tail)
  {
    Grouped4(first, gap, second, tail);
    SkipSpaces(gap, second + tail);
    FirstField(second, tail);
    FirstField(first, gap + (second + tail));
    Pair(first, second, Fields(tail));
  }

  lemma Pair(a: string, b: string, rest: seq<string>)
    ensures [a] + ([b] + rest) == [a, b] + rest
  {}

  lemma WordNamed(w: string)
    requires NoSpace(w) && w != ""
    ensures Normalize(w) == ToLower(if w[|w| - 1] == '.' then w[..|w| - 1] else w)
    ensures var n := Normalize(w);
      NameOf(w) == if n == "" || !NoBadChar(n) || n in NEVER_BLOCK then None else Some(n)
  {
    TrimSpaceWord(w);
    DropDot(w);
    var n := Normalize(w);
    if !NoBadChar(n) {
      var i :| 0 <= i < |n| && BadChar(n[i]);
      assert n[i] in n;
    }
  }

  lemma OneWordLine(line: string, y: Layout)
    requires LaidOut(line, y) && y.second == "" && y.first != ""
    ensures TrimSpace(line) == y.first && NameField(y.first) == y.first
  {
    assert line == y.lead + y.first + y.gap;
    TrimExact(y.lead, y.first, y.gap);
    OneWord(y.first);
  }

  lemma TailApart(line: string, y: Layout, kept: string, cut: string)
    requires LaidOut(line, y) && y.tail == kept + cut
    ensures line == y.lead + (y.first + y.gap + y.second + kept) + cut
  {
    var head := y.lead + y.first + y.gap + y.second;
    assert line == head + y.tail == head + kept + cut;
    Grouped5(y.lead, y.first, y.gap, y.second, kept);
  }

  lemma TwoWordLine(line: string, y: Layout)
    requires LaidOut(line, y) && y.second != ""
    ensures TrimSpace(line) != "" && TrimSpace(line)[0] == y.first[0]
    ensures NameField(TrimSpace(line)) == if HostsAddress(y.first) then y.second else y.first
  {
    var kept, cut := SplitTail(y.tail);
    var t := y.first + y.gap + y.second + kept;
    TailApart(line, y, kept, cut);
    EndsOf(y.first, y.gap, y.second, kept);
    TrimExact(y.lead, t, cut);
    TwoFields(y.first, y.gap, y.second, kept);
  }

  lemma EndsOf(a: string, b: string, c: string, d: string)
    requires a != "" && c != ""
    ensures var s := a + b + c + d; s[0] == a[0] && s[|s| - 1] == if d == "" then c[|c| - 1] else d[|d| - 1]
  {}

  /** The format of a feed, line by line: nothing is read out of a line without a
      word, or whose first word starts with '#' or '!'; of any other, the second
      word, if there is one and the first is the address of a hosts file, and else
      the first. */
  lemma LineExact(line: string, y: Layout)
    requires LaidOut(line, y)
    ensures Listed(line) ==
      if y.first == "" || y.first[0] == '#' || y.first[0] == '!' then None
      else if y.second != "" && y.first in {"0.0.0.0", "127.0.0.1", "::", "::1"} then NameOf(y.second)
      else NameOf(y.first)
  {
    if y.first == "" {
      assert line == y.lead;
      AllSpaces(line);
    } else {
      if y.second == "" { OneWordLine(line, y); } else { TwoWordLine(line, y); }
      Named(line, y.first, if y.second != "" && HostsAddress(y.first) then y.second else y.first);
    }
  }

  lemma Named(line: string, first: string, w: string)
    requires first != "" && TrimSpace(line) != "" && TrimSpace(line)[0] == first[0]
    requires w != "" && NoSpace(w) && NameField(TrimSpace(line)) == w
    ensures Listed(line) == if first[0] == '#' || first[0] == '!' then None else NameOf(w)
  {
    WordNamed(w);
  }

  /** The white space at the end of a text, apart. */
  lemma {:induction false} SplitTail(s: string) returns (kept: string, cut: string)
    ensures s == kept + cut && Spaces(cut) && (kept != "" ==> !IsSpace(kept[|kept| - 1]))
    ensures kept != "" ==> kept[0] == s[0]
  {
    if s == "" || !IsSpace(s[|s| - 1]) {
      kept, cut := s, "";
    } else {
      var n := |s| - 1;
      kept, cut := SplitTail(s[..n]);
      cut := cut + [s[n]];
    }
  }

  /** A text that is empty or starts with a word, apart. */
  lemma WordApart(t: string) returns (w: string, rest: string)
    ensures t == w + rest && NoSpace(w) && (rest != "" ==> IsSpace(rest[0]))
    ensures t != "" && !IsSpace(t[0]) ==> w != ""
  {
    WordExact(t);
    w, rest := t[..Word(t)], t[Word(t)..];
  }

  lemma GapApart(t: string) returns (g: string, rest: string)
    ensures t == g + rest && Spaces(g) && (rest != "" ==> !IsSpace(rest[0]))
    ensures t != "" && IsSpace(t[0]) ==> g != ""
  {
    g, rest := t[..Gap(t)], t[Gap(t)..];
  }

  /** And every line is laid out in some such way. */
  lemma EveryLineLaidOut(line: string) returns (y: Layout)
    ensures LaidOut(line, y)
  {
    var lead, t := GapApart(line);
    var first, u := WordApart(t);
    var gap, w := GapApart(u);
    var second, tail := WordApart(w);
    y := Layout(lead, first, gap, second, tail);
    Grouped5(lead, first, gap, second, tail);
  }

  lemma ListableIff(name: string)
    ensures Listable(name) <==> ListableName(name)
  {
    if Listable(name) {
      var line :| Lists(line, name);
      ListedIsListable(line, name);
    }
    if ListableName(name) {
      var line := ListableIsListed(name);
    }
  }

  /** Whatever the feeds say, the name is not blocked. */
  ghost predicate NeverBlocked(name: string) {
    forall files: seq<File> :: AllReadable(files) ==> !Covered(AllNames(files), Normalize(name))
  }

  lemma OneLine(line: string, name: string) returns (files: seq<File>)
    requires Lists(line, name)
    ensures name in AllNames(files) && (|line| < MAX_LINE ==> AllReadable(files))
  {
    files := [File(true, [line], true)];
    assert Short([line], 0) && (|line| < MAX_LINE ==> Short([line], 1));
    assert Found([line])[0] == Some(name);
    CollectedExact(Found([line]), name);
    assert files[..0] == [];
  }

  /** "Names no feed may filter, whatever it says" (blocklist.go:122): that holds
      of a name, if it is not itself too long for a line, exactly when neither it
      nor any parent of it can be listed. */
  lemma NeverBlockedIff(name: string)
    requires |Normalize(name)| + 9 < MAX_LINE
    ensures NeverBlocked(name) <==> forall s :: s in Suffixes(name) ==> !ListableName(s)
  {
    if forall s :: s in Suffixes(name) ==> !ListableName(s) {
      forall files: seq<File> ensures !Covered(AllNames(files), Normalize(name)) { NothingListed(files, name); }
    } else {
      var s :| s in Suffixes(name) && ListableName(s);
      SuffixesExact(name, s);
      var line := ListableIsListed(s);
      var files := OneLine(line, s);
      CoveredByWalk(AllNames(files), name);
    }
  }

  lemma NothingListed(files: seq<File>, name: string)
    requires forall s :: s in Suffixes(name) ==> !ListableName(s)
    ensures !Covered(AllNames(files), Normalize(name))
  {
    CoveredByWalk(AllNames(files), name);
    forall s | s in AllNames(files) ensures ListableName(s) {
      AllNamesExact(files, s);
      var f :| 0 <= f < |files| && files[f].isText && s in Names(files[f].lines);
      NamesExact(files[f].lines, s);
      var i :| 0 <= i < |files[f].lines| && Lists(files[f].lines[i], s);
      ListedIsListable(files[f].lines[i], s);
    }
  }

  /** It does hold of the names left out that have no parent. */
  lemma DotlessNeverBlocked(name: string)
    requires name in NEVER_BLOCK && '.' !in name && Normalize(name) == name != ""
    ensures NeverBlocked(name)
  {
    assert IndexOf(name, '.') == -1 && Suffixes(name) == [name];
    forall files: seq<File> ensures !Covered(AllNames(files), Normalize(name)) { NothingListed(files, name); }
  }

  lemma LettersListable(name: string)
    requires name != "" && name !in NEVER_BLOCK && forall i :: 0 <= i < |name| ==> 'a' <= name[i] <= 'z'
    ensures ListableName(name)
  {}

  lemma NoneOfElevenLetters(name: string)
    requires |name| == 11
    ensures name !in NEVER_BLOCK
  {}

  lemma ParentListed(name: string, parent: string)
    requires Normalize(name) == name && Under(name, parent) && ListableName(parent) && |name| + 9 < MAX_LINE
    ensures !NeverBlocked(name)
  {
    SuffixesExact(name, parent);
    NeverBlockedIff(name);
  }

  /** One of the names left out can be blocked all the same: its parent is not
      left out. */
  lemma LocaldomainCanBeBlocked()
    ensures "localhost.localdomain" in NEVER_BLOCK && !NeverBlocked("localhost.localdomain")
  {
    var name, parent := "localhost.localdomain", "localdomain";
    AlreadyNormal(name);
    NoneOfElevenLetters(parent);
    LettersListable(parent);
    assert name[9..] == "." + parent;
    ParentListed(name, parent);
  }
}
