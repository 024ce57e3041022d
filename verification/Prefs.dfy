/** The preferences text format: a printer, the joining of lines, and an index-arithmetic parser. */
module Prefs {

  import opened Results

  type Options = map<string, string>
  type Config = map<string, Options>

  // ---- Strings as the C++ library sees them ----

  /** `std::string::npos`, the largest 64-bit number. */
  const NPOS := 0xffff_ffff_ffff_ffff

  /** Unsigned 64-bit arithmetic. */
  function U(x: int): (r: nat)
    requires -NPOS <= x <= NPOS + 1
  {
    if x < 0 then x + NPOS + 1 else if x == NPOS + 1 then 0 else x
  }

  type Text = s: string | |s| < 0x7fff_ffff_ffff_ffff

  function Find(s: Text, c: char, from: nat): (r: nat)
    ensures r == NPOS || (from <= r < |s| && s[r] == c && forall i :: from <= i < r ==> s[i] != c)
    ensures r == NPOS <==> forall i :: from <= i < |s| ==> s[i] != c
    decreases |s| - from
  {
    if from >= |s| then NPOS else if s[from] == c then from else Find(s, c, from + 1)
  }

  /** `substr(pos, count)` */
  function Substr(s: Text, pos: nat, count: nat): Text
    requires pos <= |s|
  {
    if count >= |s| - pos then s[pos..] else s[pos..pos + count]
  }

  function ToLower(c: char): char { if 'A' <= c <= 'Z' then c - 'A' + 'a' else c }

  /** Each capital has become the small letter at the same place in the alphabet, and all else is kept. */
  ghost predicate InSmall(r: string, s: string) {
    |r| == |s| && forall i :: 0 <= i < |s| ==>
      if IsCapital(s[i]) then r[i] as int - 'a' as int == s[i] as int - 'A' as int else r[i] == s[i]
  }

  ghost predicate IsCapital(c: char) { 'A' <= c <= 'Z' }

  function Lower(s: string): (r: string)
    ensures InSmall(r, s)
  {
    seq(|s|, i requires 0 <= i < |s| => ToLower(s[i]))
  }

  predicate IsSpace(c: char) { c == ' ' || '\t' <= c <= '\r' }

  /** What is left when all whitespace is erased: spaces, tabs and the four kinds of line ends and feeds. */
  function Strip(s: string): (r: string)
    ensures |r| <= |s| && forall c :: c in r <==> c in s && c as int !in {9, 10, 11, 12, 13, 32}
  {
    if s == "" then "" else if IsSpace(s[0]) then Strip(s[1..]) else [s[0]] + Strip(s[1..])
  }

  // ---- The parser ----

  function Get(m: Config, section: string): Options { if section in m then m[section] else map[] }

  datatype Parsed = Parsed(next: nat, opts: Options)

  function OptionBetween(subsec: Text, nextOpt: nat, nextVal: nat, next: nat, opts: Options): Parsed
    requires nextOpt < |subsec| && (nextVal < |subsec| || nextVal == NPOS) && (next < |subsec| || next == NPOS)
    requires nextOpt <= nextVal <= next
  {
    var option := Substr(subsec, nextOpt + 1, U(nextVal - nextOpt - 1));
    var value := Substr(subsec, U(nextVal + 1), U(next - nextVal - 1));
    Parsed(next, opts[Lower(option) := value])
  }

  /** One option, from the hash mark before it; and where the next hash mark is. */
  function ParseOption(subsec: Text, nextOpt: nat, opts: Options): (r: Parsed)
    requires nextOpt < |subsec| && subsec[nextOpt] == '#'
    ensures r.next == NPOS || (nextOpt < r.next < |subsec| && subsec[r.next] == '#')
  {
    var nextVal := Find(subsec, '=', nextOpt);
    OptionBetween(subsec, nextOpt, nextVal, Find(subsec, '#', nextVal), opts)
  }

  /** The options from index nextOpt on, one `#name=value` after the other. */
  function ParseOptions(subsec: Text, nextOpt: nat, opts: Options): Options
    requires nextOpt == NPOS || (nextOpt < |subsec| && subsec[nextOpt] == '#')
    decreases if nextOpt == NPOS then 0 else |subsec| - nextOpt
  {
    if nextOpt >= U(|subsec| - 1) then opts
    else
      var p := ParseOption(subsec, nextOpt, opts);
      ParseOptions(subsec, p.next, p.opts)
  }

  datatype Stepped = Broken | Stepped(next: nat, config: Config)

  /** One section, from its bracket on; and where the next one starts. */
  function ParseSection(sub: Text, m: Config): (r: Stepped)
    requires sub != "" && sub[0] == '['
    ensures r.Stepped? ==> r.next == NPOS || (0 < r.next < |sub| && sub[r.next] == '[')
  {
    var secEnd := Find(sub, ']', 0);
    if secEnd == NPOS then Broken
    else
      var sec := Lower(Substr(sub, 1, secEnd - 1));
      var nextSecStart: int := Find(sub, '[', secEnd);
      var subsec := Substr(sub, secEnd + 1, U(nextSecStart - secEnd - 2));
      Stepped(nextSecStart, m[sec := ParseOptions(subsec, Find(subsec, '#', 0), Get(m, sec))])
  }

  /** The sections of a text that starts with one; fails on a section label without an end. */
  function ParseSections(sub: Text, m: Config): Result<Config>
    requires sub != "" && sub[0] == '['
    decreases |sub|
  {
    match ParseSection(sub, m)
    case Broken => Err
    case Stepped(next, m') => if next == NPOS then Ok(m') else ParseSections(sub[next..], m')
  }

  function Parse(conf: Text, m: Config): Result<Config> {
    var secStart := Find(conf, '[', 0);
    if secStart == NPOS then Ok(m) else ParseSections(conf[secStart..], m)
  }

  // ---- The printer and the joining of lines ----

  datatype Entry = Entry(name: string, value: string)
  datatype Section = Section(name: string, entries: seq<Entry>)

  /** A line, and what is printed after it. */
  function Line(line: string, rest: string): string { line + "\n" + rest }

  function PrintEntries(es: seq<Entry>, rest: string): string {
    if es == [] then rest else Line(es[0].name + " = " + es[0].value, PrintEntries(es[1..], rest))
  }

  /** What `to_string` prints for sections and options in the order of its iterators. */
  function Print(ss: seq<Section>): string {
    if ss == [] then ""
    else Line("[" + ss[0].name + "]", PrintEntries(ss[0].entries, Line("", Print(ss[1..]))))
  }

  const LINE_MAX: nat := 1023

  /** The first line of a text: up to the line end, or all of it. */
  function LineEnd(text: string): (n: nat)
    ensures n <= |text| && (forall i :: 0 <= i < n ==> text[i] != '\n') && (n < |text| ==> text[n] == '\n')
  {
    if text == "" || text[0] == '\n' then 0 else 1 + LineEnd(text[1..])
  }

  function BeforeHash(line: string): (r: string)
    ensures '#' !in r && r <= line && (|r| < |line| ==> line[|r|] == '#')
  {
    if line == "" || line[0] == '#' then "" else [line[0]] + BeforeHash(line[1..])
  }

  /** Empty lines and comment lines are dropped; each other line ends in one hash mark. */
  function JoinLine(line: string): string {
    if line == "" || line[0] == '#' then "" else BeforeHash(line) + "#"
  }

  /** None where a line is too long: then getline fails without reaching the end of the file, and
      the reading loop goes on for ever. */
  datatype Read = Text(s: string) | Stuck

  function ReadLines(text: string): Read {
    var n := LineEnd(text);
    if n > LINE_MAX then Stuck
    else if n == |text| then Text(JoinLine(text))
    else
      match ReadLines(text[n + 1..])
      case Stuck => Stuck
      case Text(rest) => Text(JoinLine(text[..n]) + rest)
  }

  lemma {:induction false} HashEnds(a: string, comment: string)
    requires '#' !in a
    ensures BeforeHash(a + "#" + comment) == a
  {
    var line := a + "#" + comment;
    if a != "" {
      assert line[1..] == a[1..] + "#" + comment;
      HashEnds(a[1..], comment);
    }
  }

  /** A line with a comment behind it reads as the line without it. */
  lemma CommentIgnored(a: string, comment: string)
    requires '#' !in a
    ensures JoinLine(a + "#" + comment) == JoinLine(a) == if a == "" then "" else a + "#"
  {
    HashEnds(a, comment);
    if a != "" {
      HashEnds(a, "");
      NoHash(a);
      assert a[0] in a && (a + "#" + comment)[0] == a[0];
    }
  }

  /** And so does a text with such a line. */
  lemma CommentedText(a: string, comment: string, rest: string)
    requires '#' !in a && '\n' !in a && '\n' !in comment && |a| + 1 + |comment| <= LINE_MAX
    ensures ReadLines(Line(a + "#" + comment, rest)) == ReadLines(Line(a, rest))
  {
    var line := a + "#" + comment;
    CommentIgnored(a, comment);
    LineEndOf(a, rest);
    LineEndOf(line, rest);
    assert Line(a, rest)[..|a|] == a && Line(a, rest)[|a| + 1..] == rest;
    assert Line(line, rest)[..|line|] == line && Line(line, rest)[|line| + 1..] == rest;
  }

  ghost predicate Unbroken(text: string, i: int, j: int) {
    0 <= i <= j <= |text| && forall k :: i <= k < j ==> text[k] != '\n'
  }

  ghost predicate LongLine(text: string) { exists i, j :: Unbroken(text, i, j) && j - i >= 1024 }

  lemma Shifted(text: string, n: nat, i: int, j: int)
    requires n <= |text|
    ensures Unbroken(text[n..], i, j) ==> Unbroken(text, n + i, n + j)
    ensures i >= n && Unbroken(text, i, j) ==> Unbroken(text[n..], i - n, j - n)
  {
    if Unbroken(text[n..], i, j) {
      assert forall k :: n + i <= k < n + j ==> text[k] == text[n..][k - n];
    }
    if i >= n && Unbroken(text, i, j) {
      assert forall k :: i - n <= k < j - n ==> text[n..][k] == text[n + k];
    }
  }

  /** A long line lies beyond a short first one. */
  lemma LongBeyond(text: string, n: nat)
    requires n < |text| && text[n] == '\n' && n <= LINE_MAX
    ensures LongLine(text) <==> LongLine(text[n + 1..])
  {
    if LongLine(text[n + 1..]) {
      var i, j :| Unbroken(text[n + 1..], i, j) && j - i >= 1024;
      Shifted(text, n + 1, i, j);
    }
    if LongLine(text) {
      var i, j :| Unbroken(text, i, j) && j - i >= 1024;
      if i > n {
        Shifted(text, n + 1, i, j);
      }
    }
  }

  /** Reading gets stuck exactly on a line of 1024 characters or more. */
  lemma {:induction false} StuckOnLongLines(text: string)
    ensures ReadLines(text) == Stuck <==> LongLine(text)
    decreases |text|
  {
    var n := LineEnd(text);
    if n > LINE_MAX {
      assert Unbroken(text, 0, n);
    } else if n < |text| {
      StuckOnLongLines(text[n + 1..]);
      LongBeyond(text, n);
    }
  }

  // ---- Reading what was printed ----

  /** What joining and stripping make of the printed text. */
  function JoinedEntry(e: Entry, rest: string): string { e.name + ("=" + (e.value + ("#" + rest))) }

  function JoinedEntries(es: seq<Entry>, rest: string): string {
    if es == [] then rest else JoinedEntry(es[0], JoinedEntries(es[1..], rest))
  }

  function Joined(ss: seq<Section>): string {
    if ss == [] then "" else ("[" + ss[0].name + "]#") + JoinedEntries(ss[0].entries, Joined(ss[1..]))
  }

  /** Sections and entries without the whitespace in their names and values. */
  function BareEntry(e: Entry): Entry { Entry(Strip(e.name), Strip(e.value)) }

  function BareEntries(es: seq<Entry>): (r: seq<Entry>)
    ensures |r| == |es|
  {
    if es == [] then [] else [BareEntry(es[0])] + BareEntries(es[1..])
  }

  function Bare(ss: seq<Section>): (r: seq<Section>)
    ensures |r| == |ss|
  {
    if ss == [] then [] else [Section(Strip(ss[0].name), BareEntries(ss[0].entries))] + Bare(ss[1..])
  }

  ghost predicate Plain(s: string, forbidden: set<char>) {
    forall c :: c in s ==> c != '\n' && c !in forbidden
  }

  ghost predicate NameOk(s: string) { Plain(s, {'[', ']', '#', '='}) }

  ghost predicate EntryOk(e: Entry) {
    NameOk(e.name) && Plain(e.value, {'[', '#'}) && |e.name| + 3 + |e.value| <= LINE_MAX
  }

  ghost predicate SectionOk(x: Section) {
    NameOk(x.name) && |x.name| + 2 <= LINE_MAX && forall e :: e in x.entries ==> EntryOk(e)
  }

  ghost predicate Printable(ss: seq<Section>) { forall x :: x in ss ==> SectionOk(x) }

  lemma {:induction false} BareEntriesOk(es: seq<Entry>)
    requires forall e :: e in es ==> EntryOk(e)
    ensures forall e :: e in BareEntries(es) ==> EntryOk(e)
  {
    if es != [] {
      assert EntryOk(es[0]);
      BareEntriesOk(es[1..]);
    }
  }

  lemma {:induction false} BarePrintable(ss: seq<Section>)
    requires Printable(ss)
    ensures Printable(Bare(ss))
  {
    if ss != [] {
      assert SectionOk(ss[0]);
      BareEntriesOk(ss[0].entries);
      BarePrintable(ss[1..]);
    }
  }

  /** Nothing is erased where there is no whitespace. */
  ghost predicate NoSpaces(s: string) {
    forall i :: 0 <= i < |s| ==> s[i] as int !in {9, 10, 11, 12, 13, 32}
  }

  ghost predicate NoSpacesIn(es: seq<Entry>) { forall e :: e in es ==> NoSpaces(e.name) && NoSpaces(e.value) }

  lemma {:induction false} BareEntriesAlready(es: seq<Entry>)
    requires NoSpacesIn(es)
    ensures BareEntries(es) == es
  {
    if es != [] {
      assert es[0] in es;
      StripPlain(es[0].name);
      StripPlain(es[0].value);
      BareEntriesAlready(es[1..]);
    }
  }

  lemma {:induction false} BareAlready(ss: seq<Section>)
    requires forall x :: x in ss ==> NoSpaces(x.name) && NoSpacesIn(x.entries)
    ensures Bare(ss) == ss
  {
    if ss != [] {
      assert ss[0] in ss;
      StripPlain(ss[0].name);
      BareEntriesAlready(ss[0].entries);
      BareAlready(ss[1..]);
    }
  }

  lemma {:induction false} StripConcat(a: string, b: string)
    ensures Strip(a + b) == Strip(a) + Strip(b)
  {
    if a == "" {
      assert a + b == b;
    } else {
      assert (a + b)[1..] == a[1..] + b;
      StripConcat(a[1..], b);
    }
  }

  lemma {:induction false} StripPlain(s: string)
    requires NoSpaces(s)
    ensures Strip(s) == s
  {
    if s != "" {
      StripPlain(s[1..]);
    }
  }

  lemma {:induction false} NoHash(line: string)
    requires '#' !in line
    ensures BeforeHash(line) == line
  {
    if line != "" {
      NoHash(line[1..]);
    }
  }

  lemma {:induction false} LineEndOf(line: string, rest: string)
    requires forall i :: 0 <= i < |line| ==> line[i] != '\n'
    ensures LineEnd(Line(line, rest)) == |line|
  {
    if line != "" {
      assert Line(line, rest)[1..] == Line(line[1..], rest);
      LineEndOf(line[1..], rest);
    }
  }

  /** One line of a text, joined to what is read of the rest, up to whitespace. */
  lemma ReadStripped(line: string, rest: string)
    requires (forall i :: 0 <= i < |line| ==> line[i] != '\n') && |line| <= LINE_MAX
    requires ReadLines(rest).Text?
    ensures ReadLines(Line(line, rest)).Text?
    ensures Strip(ReadLines(Line(line, rest)).s) == Strip(JoinLine(line)) + Strip(ReadLines(rest).s)
  {
    LineEndOf(line, rest);
    var text := Line(line, rest);
    assert text[..|line|] == line && text[|line| + 1..] == rest;
    StripConcat(JoinLine(line), ReadLines(rest).s);
  }

  lemma JoinPlainLine(line: string)
    requires line != "" && '#' !in line
    ensures JoinLine(line) == line + "#"
  {
    NoHash(line);
    assert line[0] in line;
  }

  lemma InParts(a: string, b: string, c: string)
    ensures forall i :: 0 <= i < |a + b + c| ==> (a + b + c)[i] in a || (a + b + c)[i] in b || (a + b + c)[i] in c
    ensures forall x :: x in a + b + c ==> x in a || x in b || x in c
  {
  }

  lemma EntryLine(e: Entry)
    requires EntryOk(e)
    ensures var line := e.name + " = " + e.value;
            && (forall i :: 0 <= i < |line| ==> line[i] != '\n') && |line| <= LINE_MAX
            && JoinLine(line) == line + "#" && Strip(line + "#") == JoinedEntry(BareEntry(e), "")
  {
    var line := e.name + " = " + e.value;
    InParts(e.name, " = ", e.value);
    JoinPlainLine(line);
    StripParts(e.name, " = ", e.value, "#");
    StripPlain("#");
    SpacesAround();
    EntryParts(BareEntry(e));
  }

  lemma StripParts(a: string, b: string, c: string, d: string)
    ensures Strip(a + b + c + d) == Strip(a) + Strip(b) + Strip(c) + Strip(d)
  {
    StripConcat(a + b + c, d);
    StripConcat(a + b, c);
    StripConcat(a, b);
  }

  lemma EntryParts(e: Entry)
    ensures e.name + "=" + e.value + "#" == JoinedEntry(e, "")
  {
  }

  lemma SpacesAround()
    ensures Strip(" = ") == "="
  {
    assert " = "[1..] == "= " && "= "[1..] == " " && " "[1..] == "";
  }

  lemma EntryThen(e: Entry, rest: string)
    ensures JoinedEntry(e, "") + rest == JoinedEntry(e, rest)
  {
  }

  lemma {:induction false} ReadEntries(es: seq<Entry>, rest: string)
    requires (forall e :: e in es ==> EntryOk(e)) && ReadLines(rest).Text?
    ensures ReadLines(PrintEntries(es, rest)).Text?
    ensures Strip(ReadLines(PrintEntries(es, rest)).s) == JoinedEntries(BareEntries(es), Strip(ReadLines(rest).s))
    decreases |es|
  {
    if es != [] {
      ReadEntries(es[1..], rest);
      EntryLine(es[0]);
      ReadStripped(es[0].name + " = " + es[0].value, PrintEntries(es[1..], rest));
      EntryThen(BareEntry(es[0]), JoinedEntries(BareEntries(es[1..]), Strip(ReadLines(rest).s)));
      assert BareEntries(es)[1..] == BareEntries(es[1..]);
    }
  }

  lemma SectionLine(name: string)
    requires NameOk(name) && |name| + 2 <= LINE_MAX
    ensures var line := "[" + name + "]";
            && (forall i :: 0 <= i < |line| ==> line[i] != '\n') && |line| <= LINE_MAX
            && JoinLine(line) == line + "#" && Strip(line + "#") == "[" + Strip(name) + "]#"
  {
    var line := "[" + name + "]";
    InParts("[", name, "]");
    JoinPlainLine(line);
    StripParts("[", name, "]", "#");
    StripPlain("[");
    StripPlain("]");
    StripPlain("#");
    assert "[" + Strip(name) + "]" + "#" == "[" + Strip(name) + "]#";
  }

  /** The printed text, read back and stripped, is the text that the parser is made for. */
  lemma {:induction false} ReadPrinted(ss: seq<Section>)
    requires Printable(ss)
    ensures ReadLines(Print(ss)).Text? && Strip(ReadLines(Print(ss)).s) == Joined(Bare(ss))
    decreases |ss|
  {
    if ss != [] {
      var x, after := ss[0], Print(ss[1..]);
      assert SectionOk(x);
      ReadPrinted(ss[1..]);
      ReadStripped("", after);
      var tail := Line("", after);
      assert Bare(ss)[1..] == Bare(ss[1..]);
      assert Strip(ReadLines(tail).s) == Joined(Bare(ss)[1..]);
      ReadEntries(x.entries, tail);
      SectionLine(x.name);
      ReadStripped("[" + x.name + "]", PrintEntries(x.entries, tail));
    }
  }

  // ---- Parsing it ----

  /** Entries put on top of some options, under their names in small letters. */
  function Merge(es: seq<Entry>, opts: Options): Options {
    if es == [] then opts else Merge(es[1..], opts[Lower(es[0].name) := es[0].value])
  }

  function OnTop(x: Section, m: Config): Config {
    m[Lower(x.name) := Merge(x.entries, Get(m, Lower(x.name)))]
  }

  /** What the printed sections stand for, put on top of a configuration. */
  function Meaning(ss: seq<Section>, m: Config): Config {
    if ss == [] then m else Meaning(ss[1..], OnTop(ss[0], m))
  }

  lemma FoundAt(s: Text, c: char, from: nat, at: nat)
    requires from <= at < |s| && s[at] == c && forall i :: from <= i < at ==> s[i] != c
    ensures Find(s, c, from) == at
  {
  }

  lemma NotFound(s: Text, c: char, from: nat)
    requires forall i :: from <= i < |s| ==> s[i] != c
    ensures Find(s, c, from) == NPOS
  {
  }

  /** A text that goes on with a from place k on. */
  lemma Skip(s: string, k: nat, a: string, b: string)
    requires k <= |s| && s[k..] == a + b
    ensures k + |a| <= |s| && s[k + |a|..] == b && s[k..k + |a|] == a
    ensures forall i :: k <= i < k + |a| ==> s[i] == a[i - k]
  {
    assert s[k + |a|..] == s[k..][|a|..] == b;
    assert s[k..k + |a|] == s[k..][..|a|] == a;
    assert forall i :: k <= i < k + |a| ==> s[i] == s[k..][i - k];
  }

  /** An option stands in a text: the hash mark before it, the equals sign, the hash mark behind it. */
  ghost predicate Placed(full: string, k: nat, v: nat, n: nat, e: Entry) {
    && v == k + 1 + |e.name| && n == k + 2 + |e.name| + |e.value| < |full|
    && full[k] == '#' && full[v] == '=' && full[n] == '#' && full[k + 1..v] == e.name && full[v + 1..n] == e.value
    && (forall i :: k + 1 <= i < v ==> full[i] in e.name) && forall i :: v + 1 <= i < n ==> full[i] in e.value
  }

  lemma OptionAt(full: string, k: nat, e: Entry, more: string, v: nat, n: nat)
    requires k <= |full| && full[k..] == "#" + JoinedEntry(e, more)
    requires v == k + 1 + |e.name| && n == k + 2 + |e.name| + |e.value|
    ensures Placed(full, k, v, n, e) && full[n..] == "#" + more
  {
    Skip(full, k, "#", JoinedEntry(e, more));
    Skip(full, k + 1, e.name, "=" + (e.value + ("#" + more)));
    Skip(full, v, "=", e.value + ("#" + more));
    Skip(full, v + 1, e.value, "#" + more);
    Skip(full, n, "#", more);
  }

  /** Where the parser finds the next option when the last hash mark of the section may be cut off. */
  function Upcoming(subsec: Text, k: nat): nat { if k < |subsec| then k else NPOS }

  ghost predicate MaybeCut(subsec: Text, full: Text) { full == subsec || full == subsec + "#" }

  lemma OneOption(subsec: Text, full: Text, k: nat, v: nat, n: nat, e: Entry, opts: Options)
    requires MaybeCut(subsec, full) && EntryOk(e) && Placed(full, k, v, n, e)
    ensures k + 1 < |subsec| && subsec[k] == '#'
    ensures ParseOption(subsec, k, opts) == Parsed(Upcoming(subsec, n), opts[Lower(e.name) := e.value])
  {
    OptionFound(subsec, full, k, v, n, e);
    NameCut(subsec, full, k, v, n);
    ValueCut(subsec, full, v, n);
    ParseStep(subsec, k, opts, v, Upcoming(subsec, n), e.name, e.value);
  }

  lemma ParseStep(subsec: Text, k: nat, opts: Options, v: nat, next: nat, option: string, value: string)
    requires k + 1 < |subsec| && subsec[k] == '#' && v != NPOS
    requires v == Find(subsec, '=', k) && next == Find(subsec, '#', v)
    requires option == Substr(subsec, k + 1, U(v - k - 1)) && value == Substr(subsec, v + 1, U(next - v - 1))
    ensures ParseOption(subsec, k, opts) == Parsed(next, opts[Lower(option) := value])
  {
    Between(subsec, k, opts, v, next, option, value);
  }

  lemma Between(subsec: Text, k: nat, opts: Options, v: nat, next: nat, option: string, value: string)
    requires k < v < |subsec| && v <= next && (next < |subsec| || next == NPOS)
    requires option == Substr(subsec, k + 1, U(v - k - 1)) && value == Substr(subsec, v + 1, U(next - v - 1))
    ensures OptionBetween(subsec, k, v, next, opts) == Parsed(next, opts[Lower(option) := value])
  {
  }

  lemma NameCut(subsec: Text, full: Text, k: nat, v: nat, n: nat)
    requires MaybeCut(subsec, full) && k < v < n < |full|
    ensures v <= |subsec| && Substr(subsec, k + 1, U(v - k - 1)) == full[k + 1..v]
  {
    assert subsec[k + 1..v] == full[k + 1..v];
  }

  lemma OptionFound(subsec: Text, full: Text, k: nat, v: nat, n: nat, e: Entry)
    requires MaybeCut(subsec, full) && EntryOk(e) && v == k + 1 + |e.name| && n == k + 2 + |e.name| + |e.value| < |full|
    requires full[k] == '#' && full[v] == '=' && full[n] == '#'
    requires (forall i :: k + 1 <= i < v ==> full[i] in e.name) && forall i :: v + 1 <= i < n ==> full[i] in e.value
    ensures Find(subsec, '=', k) == v && Find(subsec, '#', v) == Upcoming(subsec, n)
  {
    assert forall i :: 0 <= i < |subsec| ==> subsec[i] == full[i];
    assert '=' !in e.name && '#' !in e.value;
    FoundAt(subsec, '=', k, v);
    if n < |subsec| {
      FoundAt(subsec, '#', v, n);
    } else {
      NotFound(subsec, '#', v);
    }
  }

  lemma ValueCut(subsec: Text, full: Text, v: nat, n: nat)
    requires MaybeCut(subsec, full) && v < n < |full|
    ensures v + 1 <= |subsec| && Substr(subsec, v + 1, U(Upcoming(subsec, n) - v - 1)) == full[v + 1..n]
  {
    if n < |subsec| {
      assert subsec[v + 1..n] == full[v + 1..n];
    } else {
      assert n == |subsec| && subsec[v + 1..] == full[v + 1..n];
    }
  }

  /** One turn of the parser's loop, and its end. */
  lemma ParseTurn(subsec: Text, k: nat, opts: Options, p: Parsed)
    requires k + 1 < |subsec| && subsec[k] == '#' && p == ParseOption(subsec, k, opts)
    ensures ParseOptions(subsec, k, opts) == ParseOptions(subsec, p.next, p.opts)
  {
  }

  lemma ParseEnds(subsec: Text, k: nat, opts: Options)
    requires k == NPOS || (k + 1 == |subsec| && subsec[k] == '#')
    ensures ParseOptions(subsec, k, opts) == opts
  {
  }

  lemma NextOption(subsec: Text, full: Text, k: nat, e: Entry, more: string, opts: Options) returns (n: nat)
    requires MaybeCut(subsec, full) && EntryOk(e) && k < |full| && full[k..] == "#" + JoinedEntry(e, more)
    ensures n < |full| && full[n] == '#' && full[n..] == "#" + more
    ensures k < |subsec| && subsec[k] == '#'
    ensures ParseOptions(subsec, k, opts) == ParseOptions(subsec, Upcoming(subsec, n), opts[Lower(e.name) := e.value])
  {
    var v := k + 1 + |e.name|;
    n := k + 2 + |e.name| + |e.value|;
    OptionAt(full, k, e, more, v, n);
    OptionTurn(subsec, full, k, v, n, e, opts);
  }

  lemma OptionTurn(subsec: Text, full: Text, k: nat, v: nat, n: nat, e: Entry, opts: Options)
    requires MaybeCut(subsec, full) && EntryOk(e) && Placed(full, k, v, n, e)
    ensures k < |subsec| && subsec[k] == '#'
    ensures ParseOptions(subsec, k, opts) == ParseOptions(subsec, Upcoming(subsec, n), opts[Lower(e.name) := e.value])
  {
    OneOption(subsec, full, k, v, n, e, opts);
    ParseTurn(subsec, k, opts, Parsed(Upcoming(subsec, n), opts[Lower(e.name) := e.value]));
  }

  lemma {:induction false} OptionsParsed(subsec: Text, full: Text, k: nat, es: seq<Entry>, opts: Options)
    requires MaybeCut(subsec, full) && forall e :: e in es ==> EntryOk(e)
    requires k < |full| && full[k] == '#' && full[k..] == "#" + JoinedEntries(es, "")
    ensures ParseOptions(subsec, Upcoming(subsec, k), opts) == Merge(es, opts)
    decreases |es|
  {
    if es != [] {
      var n := NextOption(subsec, full, k, es[0], JoinedEntries(es[1..], ""), opts);
      OptionsParsed(subsec, full, n, es[1..], opts[Lower(es[0].name) := es[0].value]);
    } else {
      assert |full[k..]| == 1;
      ParseEnds(subsec, Upcoming(subsec, k), opts);
    }
  }

  lemma {:induction false} EntriesThenRest(es: seq<Entry>, rest: string)
    requires forall e :: e in es ==> EntryOk(e)
    ensures JoinedEntries(es, rest) == JoinedEntries(es, "") + rest
    ensures '[' !in JoinedEntries(es, "")
    decreases |es|
  {
    if es != [] {
      EntriesThenRest(es[1..], rest);
      assert EntryOk(es[0]);
      NoBracket(es[0], JoinedEntries(es[1..], ""));
    }
  }

  lemma NoBracket(e: Entry, rest: string)
    requires EntryOk(e) && '[' !in rest
    ensures '[' !in JoinedEntry(e, rest)
  {
    assert '[' !in e.name && '[' !in e.value;
  }

  lemma {:induction false} EndsInHash(es: seq<Entry>)
    ensures var full := "#" + JoinedEntries(es, ""); full[|full| - 1] == '#'
  {
    if es != [] {
      EndsInHash(es[1..]);
      var rest := JoinedEntries(es[1..], "");
      var t := es[0].name + ("=" + es[0].value);
      assert "#" + JoinedEntry(es[0], rest) == "#" + t + ("#" + rest);
    }
  }

  /** Where the parts of a section stand in the text. */
  lemma SectionAt(sub: string, name: string, full: string, rest: string)
    requires sub == "[" + (name + ("]" + (full + rest)))
    ensures var end := 1 + |name|;
            && end < |sub| == end + 1 + |full| + |rest|
            && sub[0] == '[' && sub[1..end] == name && sub[end] == ']'
            && (forall i :: 1 <= i < end ==> sub[i] in name)
            && sub[end + 1..end + 1 + |full|] == full
            && (forall i :: end + 1 <= i < end + 1 + |full| ==> sub[i] in full)
            && sub[end + 1 + |full|..] == rest
  {
    assert sub[0..] == sub;
    Skip(sub, 0, "[", name + ("]" + (full + rest)));
    Skip(sub, 1, name, "]" + (full + rest));
    Skip(sub, 1 + |name|, "]", full + rest);
    Skip(sub, 2 + |name|, full, rest);
  }

  lemma SectionText(x: Section, rest: string)
    requires forall e :: e in x.entries ==> EntryOk(e)
    ensures ("[" + x.name + "]#") + JoinedEntries(x.entries, rest) ==
            "[" + (x.name + ("]" + (("#" + JoinedEntries(x.entries, "")) + rest)))
  {
    EntriesThenRest(x.entries, rest);
  }

  /** What the parser takes for the options of a section: all but the last hash mark if another
      section follows. */
  lemma OptionsPart(sub: Text, secEnd: nat, full: string, rest: string, next: nat) returns (subsec: Text)
    requires secEnd + 1 + |full| + |rest| == |sub| && full != "" && sub[secEnd + 1..secEnd + 1 + |full|] == full
    requires full[|full| - 1] == '#'
    requires next == if rest == "" then NPOS else secEnd + 1 + |full|
    ensures subsec == Substr(sub, secEnd + 1, U(next - secEnd - 2)) && MaybeCut(subsec, full)
  {
    subsec := Substr(sub, secEnd + 1, U(next - secEnd - 2));
    if rest == "" {
      assert sub[secEnd + 1..] == sub[secEnd + 1..secEnd + 1 + |full|];
      assert subsec == full;
    } else {
      assert subsec == full[..|full| - 1];
      assert subsec + "#" == full;
    }
  }

  lemma BracketsFound(sub: Text, name: string, full: string, rest: string)
    requires sub == "[" + (name + ("]" + (full + rest))) && NameOk(name)
             && '[' !in full && (rest == "" || rest[0] == '[')
    ensures Find(sub, ']', 0) == 1 + |name|
    ensures Find(sub, '[', 1 + |name|) == if rest == "" then NPOS else 2 + |name| + |full|
  {
    SectionAt(sub, name, full, rest);
    var end := 1 + |name|;
    assert ']' !in name;
    FoundAt(sub, ']', 0, end);
    if rest == "" {
      NotFound(sub, '[', end);
    } else {
      assert sub[end + 1 + |full|] == rest[0];
      FoundAt(sub, '[', end, end + 1 + |full|);
    }
  }

  lemma HashFirst(subsec: Text, full: Text)
    requires MaybeCut(subsec, full) && full != "" && full[0] == '#'
    ensures Find(subsec, '#', 0) == Upcoming(subsec, 0)
  {
  }

  lemma SectionOptions(subsec: Text, full: Text, es: seq<Entry>, opts: Options)
    requires MaybeCut(subsec, full) && full == "#" + JoinedEntries(es, "") && forall e :: e in es ==> EntryOk(e)
    ensures ParseOptions(subsec, Find(subsec, '#', 0), opts) == Merge(es, opts)
  {
    HashFirst(subsec, full);
    assert full[0..] == full;
    OptionsParsed(subsec, full, 0, es, opts);
  }

  lemma OneSection(sub: Text, x: Section, rest: string, m: Config, next: nat)
    requires SectionOk(x) && (rest == "" || rest[0] == '[')
    requires sub == ("[" + x.name + "]#") + JoinedEntries(x.entries, rest)
    requires if rest == "" then next == NPOS else next + |rest| == |sub|
    ensures sub != "" && sub[0] == '['
    ensures ParseSection(sub, m) == Stepped(next, OnTop(x, m))
  {
    SectionText(x, rest);
    EntriesThenRest(x.entries, rest);
    EndsInHash(x.entries);
    SectionWith(sub, x.name, x.entries, "#" + JoinedEntries(x.entries, ""), rest, m, next);
  }

  lemma SectionWith(sub: Text, name: string, es: seq<Entry>, full: string, rest: string, m: Config, next: nat)
    requires NameOk(name) && (forall e :: e in es ==> EntryOk(e)) && full == "#" + JoinedEntries(es, "")
    requires sub == "[" + (name + ("]" + (full + rest))) && '[' !in full && full[|full| - 1] == '#'
    requires (rest == "" || rest[0] == '[') && if rest == "" then next == NPOS else next + |rest| == |sub|
    ensures sub != "" && sub[0] == '['
    ensures ParseSection(sub, m) == Stepped(next, m[Lower(name) := Merge(es, Get(m, Lower(name)))])
  {
    var subsec := SectionParsed(sub, name, full, rest, m, next);
    SectionOptions(subsec, full, es, Get(m, Lower(name)));
  }

  lemma SectionTail(sub: Text, x: Section, rest: string)
    requires SectionOk(x) && (rest == "" || rest[0] == '[')
    requires sub == ("[" + x.name + "]#") + JoinedEntries(x.entries, rest)
    ensures |rest| + 2 <= |sub| && sub[|sub| - |rest|..] == rest
  {
    SectionText(x, rest);
    EntriesThenRest(x.entries, rest);
    SectionShape(sub, x.name, "#" + JoinedEntries(x.entries, ""), rest);
  }

  lemma SectionParsed(sub: Text, name: string, full: string, rest: string, m: Config, next: nat) returns (subsec: Text)
    requires NameOk(name) && (rest == "" || rest[0] == '[') && full != ""
    requires sub == "[" + (name + ("]" + (full + rest))) && '[' !in full && full[|full| - 1] == '#'
    requires if rest == "" then next == NPOS else next + |rest| == |sub|
    ensures sub != "" && sub[0] == '[' && MaybeCut(subsec, full)
    ensures ParseSection(sub, m) ==
            Stepped(next, m[Lower(name) := ParseOptions(subsec, Find(subsec, '#', 0), Get(m, Lower(name)))])
  {
    SectionShape(sub, name, full, rest);
    subsec := OptionsPart(sub, 1 + |name|, full, rest, next);
    SectionStep(sub, m, 1 + |name|, next, name, subsec);
  }

  lemma SectionShape(sub: Text, name: string, full: string, rest: string)
    requires sub == "[" + (name + ("]" + (full + rest))) && NameOk(name)
             && '[' !in full && (rest == "" || rest[0] == '[')
    ensures |sub| == 2 + |name| + |full| + |rest| && sub[0] == '[' && sub[1..1 + |name|] == name
    ensures sub[2 + |name|..2 + |name| + |full|] == full && sub[|sub| - |rest|..] == rest
    ensures Find(sub, ']', 0) == 1 + |name|
    ensures Find(sub, '[', 1 + |name|) == if rest == "" then NPOS else 2 + |name| + |full|
  {
    SectionAt(sub, name, full, rest);
    BracketsFound(sub, name, full, rest);
  }

  lemma SectionStep(sub: Text, m: Config, secEnd: nat, next: nat, name: string, subsec: Text)
    requires sub != "" && sub[0] == '[' && secEnd == Find(sub, ']', 0) && 0 < secEnd < |sub|
             && next == Find(sub, '[', secEnd)
    requires sub[1..secEnd] == name && subsec == Substr(sub, secEnd + 1, U(next - secEnd - 2))
    ensures ParseSection(sub, m) ==
            Stepped(next, m[Lower(name) := ParseOptions(subsec, Find(subsec, '#', 0), Get(m, Lower(name)))])
  {
    assert Substr(sub, 1, secEnd - 1) == sub[1..secEnd];
  }

  /** One turn over the sections, and the last one. */
  lemma SectionsTurn(sub: Text, m: Config, next: nat, more: Config, rest: string)
    requires sub != "" && sub[0] == '[' && ParseSection(sub, m) == Stepped(next, more)
    requires next == NPOS || (next < |sub| && sub[next..] == rest)
    ensures next == NPOS ==> ParseSections(sub, m) == Ok(more)
    ensures next != NPOS ==> rest != "" && rest[0] == '[' && ParseSections(sub, m) == ParseSections(rest, more)
  {
  }

  /** The parser reads the joined text as what was printed. */
  lemma {:induction false} JoinedParses(ss: seq<Section>, m: Config, sub: Text)
    requires Printable(ss) && ss != [] && sub == Joined(ss)
    ensures sub != "" && sub[0] == '[' && ParseSections(sub, m) == Ok(Meaning(ss, m))
    decreases |ss|
  {
    var x, rest := ss[0], Joined(ss[1..]);
    var more := OnTop(x, m);
    assert SectionOk(x);
    RestShorter(ss);
    if |ss| > 1 {
      JoinedParses(ss[1..], more, rest);
    }
    SectionTail(sub, x, rest);
    var next := if rest == "" then NPOS else |sub| - |rest|;
    OneSection(sub, x, rest, m, next);
    SectionsTurn(sub, m, next, more, rest);
  }

  lemma RestShorter(ss: seq<Section>)
    requires Printable(ss) && ss != []
    ensures |Joined(ss[1..])| < |Joined(ss)|
  {
    assert SectionOk(ss[0]);
    EntriesThenRest(ss[0].entries, Joined(ss[1..]));
  }

  /** Printing, reading the lines back, erasing whitespace and parsing gives back what was printed, but for
      the whitespace. */
  lemma RoundTrip(ss: seq<Section>)
    requires Printable(ss) && |Joined(Bare(ss))| < 0x7fff_ffff_ffff_ffff
    ensures ReadLines(Print(ss)).Text? && |Strip(ReadLines(Print(ss)).s)| == |Joined(Bare(ss))|
    ensures Parse(Strip(ReadLines(Print(ss)).s), map[]) == Ok(Meaning(Bare(ss), map[]))
  {
    ReadPrinted(ss);
    BarePrintable(ss);
    BareParses(Bare(ss), Joined(Bare(ss)));
  }

  lemma BareParses(ss: seq<Section>, text: Text)
    requires Printable(ss) && text == Joined(ss)
    ensures Parse(text, map[]) == Ok(Meaning(ss, map[]))
  {
    if ss != [] {
      JoinedParses(ss, map[], text);
      FoundAt(text, '[', 0, 0);
      assert text[0..] == text;
    }
  }

  // ---- As maps ----

  lemma {:induction false} MergeLast(es: seq<Entry>, e: Entry, opts: Options)
    ensures Merge(es + [e], opts) == Merge(es, opts)[Lower(e.name) := e.value]
    decreases |es|
  {
    var all := es + [e];
    if es == [] {
      assert all[1..] == [];
    } else {
      assert all[1..] == es[1..] + [e];
      MergeLast(es[1..], e, opts[Lower(es[0].name) := es[0].value]);
    }
  }

  lemma {:induction false} MeaningLast(ss: seq<Section>, x: Section, m: Config)
    ensures Meaning(ss + [x], m) == OnTop(x, Meaning(ss, m))
    decreases |ss|
  {
    var all := ss + [x];
    if ss == [] {
      assert all[1..] == [];
    } else {
      assert all[1..] == ss[1..] + [x];
      MeaningLast(ss[1..], x, OnTop(ss[0], m));
    }
  }

  /** The last of the entries with a name, letter cases aside. */
  ghost predicate LastNamed(es: seq<Entry>, option: string, j: int) {
    && 0 <= j < |es| && InSmall(option, es[j].name)
    && forall k :: j < k < |es| ==> !InSmall(option, es[k].name)
  }

  lemma InSmallIsLower(r: string, s: string)
    ensures InSmall(r, s) <==> r == Lower(s)
  {
    if InSmall(r, s) {
      assert forall i :: 0 <= i < |s| ==> r[i] == Lower(s)[i];
    }
  }

  /** An option stands for the value of the last entry of its name. */
  lemma {:induction false} MergeLookup(es: seq<Entry>, opts: Options, option: string)
    ensures option in Merge(es, opts) <==> option in opts || exists j :: LastNamed(es, option, j)
    ensures forall j :: LastNamed(es, option, j) ==> option in Merge(es, opts) && Merge(es, opts)[option] == es[j].value
    ensures (forall j :: !LastNamed(es, option, j)) && option in opts ==>
              option in Merge(es, opts) && Merge(es, opts)[option] == opts[option]
  {
    if es != [] {
      var n := |es| - 1;
      assert es == es[..n] + [es[n]];
      MergeLookup(es[..n], opts, option);
      MergeLast(es[..n], es[n], opts);
      InSmallIsLower(option, es[n].name);
      LastOfMore(es[..n], es[n], option);
      if InSmall(option, es[n].name) {
        assert LastNamed(es, option, n);
      } else if j :| LastNamed(es[..n], option, j) {
        assert LastNamed(es, option, j);
      }
    }
  }

  lemma LastOfMore(es: seq<Entry>, e: Entry, option: string)
    ensures InSmall(option, e.name) ==> forall j :: LastNamed(es + [e], option, j) <==> j == |es|
    ensures !InSmall(option, e.name) ==> forall j :: LastNamed(es + [e], option, j) <==> LastNamed(es, option, j)
  {
    var all := es + [e];
    assert all[|es|] == e && forall k :: 0 <= k < |es| ==> all[k] == es[k];
  }

  ghost predicate Has(m: Config, section: string, option: string) { section in m && option in m[section] }

  /** The last entry with an option's name among all sections with a section's name, letter cases aside. */
  ghost predicate LastIn(ss: seq<Section>, section: string, option: string, i: int, j: int) {
    && 0 <= i < |ss| && InSmall(section, ss[i].name) && LastNamed(ss[i].entries, option, j)
    && forall k, l :: i < k < |ss| && InSmall(section, ss[k].name) ==> !LastNamed(ss[k].entries, option, l)
  }

  /** Names in any letters: a section is there if some section of its name was, and an option stands for the
      last value that was given to it under any spelling of its names. */
  lemma {:induction false} MeaningLookup(ss: seq<Section>, m: Config, section: string, option: string)
    ensures section in Meaning(ss, m) <==> section in m || exists i :: 0 <= i < |ss| && InSmall(section, ss[i].name)
    ensures Has(Meaning(ss, m), section, option) <==>
              Has(m, section, option) || exists i, j :: LastIn(ss, section, option, i, j)
    ensures forall i, j :: LastIn(ss, section, option, i, j) ==>
              Has(Meaning(ss, m), section, option) && Meaning(ss, m)[section][option] == ss[i].entries[j].value
    ensures (forall i, j :: !LastIn(ss, section, option, i, j)) && Has(m, section, option) ==>
              Has(Meaning(ss, m), section, option) && Meaning(ss, m)[section][option] == m[section][option]
  {
    if ss != [] {
      var n := |ss| - 1;
      assert ss == ss[..n] + [ss[n]];
      MeaningLookup(ss[..n], m, section, option);
      MeaningLast(ss[..n], ss[n], m);
      OneMoreSection(ss[..n], ss[n], m, Meaning(ss[..n], m), section, option);
    }
  }

  lemma LastInMore(ss: seq<Section>, x: Section, section: string, option: string)
    ensures forall i, j :: LastIn(ss + [x], section, option, i, j) <==>
              if InSmall(section, x.name) && (exists l :: LastNamed(x.entries, option, l))
              then i == |ss| && LastNamed(x.entries, option, j)
              else LastIn(ss, section, option, i, j)
  {
    var all := ss + [x];
    assert all[|ss|] == x && forall k :: 0 <= k < |ss| ==> all[k] == ss[k];
  }

  lemma OneMoreSection(ss: seq<Section>, x: Section, m: Config, before: Config, section: string, option: string)
    requires section in before <==> section in m || exists i :: 0 <= i < |ss| && InSmall(section, ss[i].name)
    requires Has(before, section, option) <==>
               Has(m, section, option) || exists i, j :: LastIn(ss, section, option, i, j)
    requires forall i, j :: LastIn(ss, section, option, i, j) ==>
               Has(before, section, option) && before[section][option] == ss[i].entries[j].value
    requires (forall i, j :: !LastIn(ss, section, option, i, j)) && Has(m, section, option) ==>
               Has(before, section, option) && before[section][option] == m[section][option]
    ensures var all, after := ss + [x], OnTop(x, before);
      && (section in after <==> section in m || exists i :: 0 <= i < |all| && InSmall(section, all[i].name))
      && (Has(after, section, option) <==>
          Has(m, section, option) || exists i, j :: LastIn(all, section, option, i, j))
      && (forall i, j :: LastIn(all, section, option, i, j) ==>
            Has(after, section, option) && after[section][option] == all[i].entries[j].value)
      && ((forall i, j :: !LastIn(all, section, option, i, j)) && Has(m, section, option) ==>
            Has(after, section, option) && after[section][option] == m[section][option])
  {
    var all := ss + [x];
    assert all[|ss|] == x && forall k :: 0 <= k < |ss| ==> all[k] == ss[k];
    InSmallIsLower(section, x.name);
    LastInMore(ss, x, section, option);
    MergeLookup(x.entries, Get(before, section), option);
    if InSmall(section, x.name) && exists l :: LastNamed(x.entries, option, l) {
      var l :| LastNamed(x.entries, option, l);
      assert LastIn(all, section, option, |ss|, l);
    } else if i, j :| LastIn(ss, section, option, i, j) {
      assert LastIn(all, section, option, i, j);
    }
  }

  /** A configuration without a capital in any name. */
  ghost predicate Small(m: Config) {
    forall section :: section in m ==> NoCapital(section) && SmallOptions(m[section])
  }

  ghost predicate SmallOptions(opts: Options) { forall option :: option in opts ==> NoCapital(option) }

  ghost predicate NoCapital(s: string) { forall i :: 0 <= i < |s| ==> !IsCapital(s[i]) }

  lemma SmallStays(s: string)
    ensures NoCapital(Lower(s)) && (NoCapital(s) ==> Lower(s) == s)
  {
  }

  ghost predicate DistinctEntries(es: seq<Entry>) { forall i, j :: 0 <= i < j < |es| ==> es[i].name != es[j].name }

  /** The sections and options of a configuration, in some order. */
  ghost predicate Lists(ss: seq<Section>, m: Config) {
    && (forall i, j :: 0 <= i < j < |ss| ==> ss[i].name != ss[j].name)
    && (forall name :: name in m <==> exists i :: 0 <= i < |ss| && ss[i].name == name)
    && forall i :: 0 <= i < |ss| ==> DistinctEntries(ss[i].entries) && ListsOptions(ss[i].entries, Get(m, ss[i].name))
  }

  ghost predicate ListsOptions(es: seq<Entry>, opts: Options) {
    && (forall name :: name in opts <==> exists i :: 0 <= i < |es| && es[i].name == name)
    && forall i :: 0 <= i < |es| && es[i].name in opts ==> opts[es[i].name] == es[i].value
  }

  lemma SmallNamed(name: string, s: string)
    requires NoCapital(s)
    ensures InSmall(name, s) <==> name == s
  {
    InSmallIsLower(name, s);
    SmallStays(s);
  }

  lemma MergeListed(es: seq<Entry>, opts: Options)
    requires DistinctEntries(es) && ListsOptions(es, opts) && SmallOptions(opts)
    ensures Merge(es, map[]) == opts
  {
    forall name
      ensures name in Merge(es, map[]) <==> name in opts
      ensures name in opts ==> name in Merge(es, map[]) && Merge(es, map[])[name] == opts[name]
    {
      MergeLookup(es, map[], name);
      forall j | 0 <= j < |es|
        ensures InSmall(name, es[j].name) <==> name == es[j].name
      {
        assert es[j].name in opts;
        SmallNamed(name, es[j].name);
      }
      if i :| 0 <= i < |es| && es[i].name == name {
        assert LastNamed(es, name, i);
      }
    }
  }

  lemma MeaningListed(ss: seq<Section>, m: Config, name: string)
    requires Lists(ss, m) && Small(m)
    ensures name in Meaning(ss, map[]) <==> name in m
    ensures name in m ==> Meaning(ss, map[])[name] == m[name]
  {
    forall i | 0 <= i < |ss|
      ensures InSmall(name, ss[i].name) <==> name == ss[i].name
    {
      assert ss[i].name in m;
      SmallNamed(name, ss[i].name);
    }
    MeaningLookup(ss, map[], name, "");
    if name in m {
      var i :| 0 <= i < |ss| && ss[i].name == name;
      OnlyThatSection(ss, map[], i, name);
      MergeListed(ss[i].entries, m[name]);
    }
  }

  /** If just one section has a name, its options are those of that section. */
  lemma {:induction false} OnlyThatSection(ss: seq<Section>, m: Config, i: nat, name: string)
    requires i < |ss| && name !in m && forall k :: 0 <= k < |ss| ==> (InSmall(name, ss[k].name) <==> k == i)
    ensures name in Meaning(ss, m) && Meaning(ss, m)[name] == Merge(ss[i].entries, map[])
    decreases |ss|
  {
    var n := |ss| - 1;
    assert ss == ss[..n] + [ss[n]];
    MeaningLast(ss[..n], ss[n], m);
    InSmallIsLower(name, ss[n].name);
    if i < n {
      OnlyThatSection(ss[..n], m, i, name);
    } else {
      MeaningLookup(ss[..n], m, name, "");
    }
  }

  lemma MeaningIs(ss: seq<Section>, m: Config)
    requires Lists(ss, m) && Small(m)
    ensures Meaning(ss, map[]) == m
  {
    forall name
      ensures name in Meaning(ss, map[]) <==> name in m
      ensures name in m ==> Meaning(ss, map[])[name] == m[name]
    {
      MeaningListed(ss, m, name);
    }
  }

  /** Any configuration as the parser makes them comes back, in whatever order it is printed. */
  lemma ConfigRoundTrip(m: Config, ss: seq<Section>)
    requires Lists(ss, m) && Printable(ss) && Small(m) && |Joined(ss)| < 0x7fff_ffff_ffff_ffff
    requires forall x :: x in ss ==> NoSpaces(x.name) && NoSpacesIn(x.entries)
    ensures ReadLines(Print(ss)).Text? && |Strip(ReadLines(Print(ss)).s)| == |Joined(ss)|
    ensures Parse(Strip(ReadLines(Print(ss)).s), map[]) == Ok(m)
  {
    BareAlready(ss);
    RoundTrip(ss);
    MeaningIs(ss, m);
  }

  // ---- No capitals ----

  lemma {:induction false} ParseOptionsSmall(subsec: Text, nextOpt: nat, opts: Options)
    requires nextOpt == NPOS || (nextOpt < |subsec| && subsec[nextOpt] == '#')
    requires SmallOptions(opts)
    ensures SmallOptions(ParseOptions(subsec, nextOpt, opts))
    decreases if nextOpt == NPOS then 0 else |subsec| - nextOpt
  {
    if nextOpt < U(|subsec| - 1) {
      var p := ParseOption(subsec, nextOpt, opts);
      OptionSmall(subsec, nextOpt, opts);
      ParseOptionsSmall(subsec, p.next, p.opts);
    }
  }

  lemma OptionSmall(subsec: Text, nextOpt: nat, opts: Options)
    requires nextOpt < |subsec| && subsec[nextOpt] == '#' && SmallOptions(opts)
    ensures SmallOptions(ParseOption(subsec, nextOpt, opts).opts)
  {
    var nextVal := Find(subsec, '=', nextOpt);
    var next := Find(subsec, '#', nextVal);
    var option := Substr(subsec, nextOpt + 1, U(nextVal - nextOpt - 1));
    SmallStays(option);
    OptionAdded(opts, Lower(option), Substr(subsec, U(nextVal + 1), U(next - nextVal - 1)));
  }

  lemma OptionAdded(opts: Options, option: string, value: string)
    requires SmallOptions(opts) && NoCapital(option)
    ensures SmallOptions(opts[option := value])
  {
  }

  lemma SectionSmall(sub: Text, m: Config)
    requires sub != "" && sub[0] == '[' && Small(m)
    ensures ParseSection(sub, m).Stepped? ==> Small(ParseSection(sub, m).config)
  {
    var secEnd := Find(sub, ']', 0);
    if secEnd != NPOS {
      var sec := Lower(Substr(sub, 1, secEnd - 1));
      SmallStays(Substr(sub, 1, secEnd - 1));
      var nextSecStart: int := Find(sub, '[', secEnd);
      var subsec := Substr(sub, secEnd + 1, U(nextSecStart - secEnd - 2));
      var options := ParseOptions(subsec, Find(subsec, '#', 0), Get(m, sec));
      ParseOptionsSmall(subsec, Find(subsec, '#', 0), Get(m, sec));
      SectionDone(sub, m, secEnd, nextSecStart, subsec, sec, options);
      SmallAdded(m, sec, options);
    }
  }

  lemma SmallAdded(m: Config, sec: string, options: Options)
    requires Small(m) && NoCapital(sec) && SmallOptions(options)
    ensures Small(m[sec := options])
  {
  }

  /** Whatever text is parsed, no name in the configuration gets a capital. */
  lemma {:induction false} SectionsSmall(sub: Text, m: Config)
    requires sub != "" && sub[0] == '[' && Small(m)
    ensures ParseSections(sub, m).Ok? ==> Small(ParseSections(sub, m).value)
    decreases |sub|
  {
    SectionSmall(sub, m);
    var p := ParseSection(sub, m);
    if p.Stepped? && p.next != NPOS {
      SectionsSmall(sub[p.next..], p.config);
    }
  }

  lemma ParseSmall(conf: Text, m: Config)
    requires Small(m)
    ensures Parse(conf, m).Ok? ==> Small(Parse(conf, m).value)
  {
    var secStart := Find(conf, '[', 0);
    if secStart != NPOS {
      SectionsSmall(conf[secStart..], m);
    }
  }

  // ---- Where it goes wrong ----

  /** With nothing between two section labels the count of characters drops below zero and wraps
      around: the first section is given everything after its label. */
  lemma AdjacentLabels(sub: Text, m: Config)
    requires sub != "" && sub[0] == '[' && Find(sub, ']', 0) != NPOS
    requires Find(sub, '[', Find(sub, ']', 0)) == Find(sub, ']', 0) + 1
    ensures var secEnd := Find(sub, ']', 0);
            var all: Text := sub[secEnd + 1..];
            var name := Lower(Substr(sub, 1, secEnd - 1));
            ParseSection(sub, m) == Stepped(secEnd + 1, m[name := ParseOptions(all, Find(all, '#', 0), Get(m, name))])
  {
    var secEnd := Find(sub, ']', 0);
    var all: Text := sub[secEnd + 1..];
    var name := Lower(Substr(sub, 1, secEnd - 1));
    assert Substr(sub, secEnd + 1, U(-1)) == all;
    SectionDone(sub, m, secEnd, secEnd + 1, all, name, ParseOptions(all, Find(all, '#', 0), Get(m, name)));
  }

  /** A line without an equals sign becomes an option whose value is the whole section, and ends it. */
  lemma NoEquals(subsec: Text, k: nat, opts: Options)
    requires k + 1 < |subsec| && subsec[k] == '#' && Find(subsec, '=', k) == NPOS
    ensures ParseOptions(subsec, k, opts) == opts[Lower(subsec[k + 1..]) := subsec]
  {
    assert Find(subsec, '#', NPOS) == NPOS;
    assert Substr(subsec, k + 1, U(NPOS - k - 1)) == subsec[k + 1..];
    assert Substr(subsec, U(NPOS + 1), U(NPOS - NPOS - 1)) == subsec[0..] == subsec;
    ParseTurn(subsec, k, opts, Parsed(NPOS, opts[Lower(subsec[k + 1..]) := subsec]));
    ParseEnds(subsec, NPOS, opts[Lower(subsec[k + 1..]) := subsec]);
  }

  // ---- The code ----

  /** What the scanning loop still has to do comes to the goal. */
  ghost predicate ToGo(goal: Result<Config>, sub: Text, secStart: nat, m: Config) {
    if secStart == NPOS then goal == Ok(m)
    else secStart < |sub| && sub[secStart] == '[' && goal == ParseSections(sub[secStart..], m)
  }

  lemma SectionDone(sub: Text, m: Config, secEnd: nat, next: nat, subsec: Text, sec: string, options: Options)
    requires sub != "" && sub[0] == '[' && secEnd == Find(sub, ']', 0) && secEnd != NPOS
    requires next == Find(sub, '[', secEnd) && subsec == Substr(sub, secEnd + 1, U(next - secEnd - 2))
    requires sec == Lower(Substr(sub, 1, secEnd - 1))
    requires options == ParseOptions(subsec, Find(subsec, '#', 0), Get(m, sec))
    ensures ParseSection(sub, m) == Stepped(next, m[sec := options]) && (next == NPOS || secEnd < next < |sub|)
  {
  }

  lemma Onward(sub: Text, m: Config, next: nat, more: Config)
    requires sub != "" && sub[0] == '[' && ParseSection(sub, m) == Stepped(next, more)
    requires next == NPOS || 0 < next < |sub|
    ensures ToGo(ParseSections(sub, m), sub, next, more)
  {
    SectionsTurn(sub, m, next, more, if next == NPOS then "" else sub[next..]);
  }

  lemma Unclosed(sub: Text, m: Config)
    requires sub != "" && sub[0] == '[' && Find(sub, ']', 0) == NPOS
    ensures ParseSections(sub, m) == Err
  {
  }

  class Prefs {
    var configMap: Config

    constructor ()
      ensures configMap == map[]
    {
      configMap := map[];
    }

    /** The scanning loops. Nothing is raised but for a label without its bracket. */
    method ConvertToMap(conf: Text) returns (ok: bool)
      modifies this
      ensures ok <==> Parse(conf, old(configMap)).Ok?
      ensures ok ==> Parse(conf, old(configMap)) == Ok(configMap)
      ensures ok && Small(old(configMap)) ==> Small(configMap)
    {
      if Small(configMap) {
        ParseSmall(conf, configMap);
      }
      ghost var goal := Parse(conf, configMap);
      var sub := conf;
      var secStart := Find(sub, '[', 0);
      while secStart != NPOS
        invariant ToGo(goal, sub, secStart, configMap)
        decreases if secStart == NPOS then 0 else |sub| - secStart
      {
        sub, secStart := ReadSection(sub[secStart..]);
        if secStart == 0 {
          return false;
        }
      }
      ok := true;
    }

    /** One turn of the outer loop, from a section's bracket to the next; 0 where the label is not closed. */
    method ReadSection(sub: Text) returns (same: Text, secStart: nat)
      requires sub != "" && sub[0] == '['
      modifies this
      ensures same == sub && (secStart == NPOS || secStart < |sub|)
      ensures secStart == 0 ==> ParseSections(sub, old(configMap)) == Err
      ensures secStart != 0 ==> ToGo(ParseSections(sub, old(configMap)), sub, secStart, configMap)
    {
      same := sub;
      var secEnd := Find(sub, ']', 0);
      if secEnd == NPOS {
        Unclosed(sub, configMap);
        return sub, 0;
      }
      var sec := Lower(Substr(sub, 1, secEnd - 1));
      var nextSecStart: int := Find(sub, '[', secEnd);
      var subsec := Substr(sub, secEnd + 1, U(nextSecStart - secEnd - 2));
      var options := ReadOptions(subsec, Get(configMap, sec));
      SectionDone(sub, configMap, secEnd, nextSecStart, subsec, sec, options);
      Onward(sub, configMap, nextSecStart, configMap[sec := options]);
      configMap := configMap[sec := options];
      secStart := nextSecStart;
    }

    method ReadOptions(subsec: Text, opts: Options) returns (optionsMap: Options)
      ensures optionsMap == ParseOptions(subsec, Find(subsec, '#', 0), opts)
    {
      optionsMap := opts;
      var nextOpt := Find(subsec, '#', 0);
      while nextOpt < U(|subsec| - 1)
        invariant nextOpt == NPOS || (nextOpt < |subsec| && subsec[nextOpt] == '#')
        invariant ParseOptions(subsec, nextOpt, optionsMap) == ParseOptions(subsec, Find(subsec, '#', 0), opts)
        decreases if nextOpt == NPOS then 0 else |subsec| - nextOpt
      {
        ghost var p := ParseOption(subsec, nextOpt, optionsMap);
        ParseTurn(subsec, nextOpt, optionsMap, p);
        nextOpt, optionsMap := ReadOption(subsec, nextOpt, optionsMap);
      }
      ParseEnds(subsec, nextOpt, optionsMap);
    }

    method ReadOption(subsec: Text, at: nat, opts: Options) returns (nextOpt: nat, optionsMap: Options)
      requires at < |subsec| && subsec[at] == '#'
      ensures ParseOption(subsec, at, opts) == Parsed(nextOpt, optionsMap)
    {
      var nextVal := Find(subsec, '=', at);
      var option := Substr(subsec, at + 1, U(nextVal - at - 1));
      nextOpt := Find(subsec, '#', nextVal);
      var value := Substr(subsec, U(nextVal + 1), U(nextOpt - nextVal - 1));
      optionsMap := opts[Lower(option) := value];
    }

    method HasSection(section: string) returns (found: bool)
      ensures found <==> exists s :: InSmall(s, section) && s in configMap
    {
      found := Lower(section) in configMap;
      OnlyLower(section, "");
    }

    /** A variable of the environment goes before the configuration. */
    method HasOption(section: string, option: string, env: Option<string>) returns (found: bool)
      ensures found <==> env.Some? || exists s, o :: InSmall(s, section) && InSmall(o, option) && Has(configMap, s, o)
    {
      if env.Some? {
        return true;
      }
      OnlyLower(section, option);
      found := HasSection(section);
      if found {
        found := Lower(option) in configMap[Lower(section)];
      }
      assert found <==> Has(configMap, Lower(section), Lower(option));
    }

    method GetString(section: string, option: string, default: string, env: Option<string>) returns (r: string)
      ensures env.Some? ==> r == env.value
      ensures env.None? ==> forall s, o :: InSmall(s, section) && InSmall(o, option) ==>
                r == if Has(configMap, s, o) then configMap[s][o] else default
    {
      OnlyLower(section, option);
      if env.Some? {
        return env.value;
      }
      var found := HasOption(section, option, env);
      assert found ==> Has(configMap, Lower(section), Lower(option));
      r := if found then configMap[Lower(section)][Lower(option)] else default;
    }
  }

  lemma OnlyLower(section: string, option: string)
    ensures forall s :: InSmall(s, section) <==> s == Lower(section)
    ensures forall o :: InSmall(o, option) <==> o == Lower(option)
  {
    forall s
      ensures (InSmall(s, section) <==> s == Lower(section)) && (InSmall(s, option) <==> s == Lower(option))
    {
      InSmallIsLower(s, section);
      InSmallIsLower(s, option);
    }
  }

  /** What is read of a text, after what has been read already. */
  function After(config: string, r: Read): Read { if r.Stuck? then Stuck else Text(config + r.s) }

  function Append(config: string, line: string): string { config + JoinLine(line) }

  /** What reading the rest of a file after some of it comes to. */
  ghost predicate Reading(goal: Read, config: string, rest: string) { goal == After(config, ReadLines(rest)) }

  lemma ReadStep(goal: Read, config: string, rest: string, n: nat)
    requires n == LineEnd(rest) && Reading(goal, config, rest)
    ensures n > LINE_MAX ==> goal == Stuck
    ensures n <= LINE_MAX && n == |rest| ==> goal == Text(Append(config, rest[..n]))
    ensures n <= LINE_MAX && n < |rest| ==> Reading(goal, Append(config, rest[..n]), rest[n + 1..])
  {
    FirstLine(rest, n);
    if n == |rest| {
      assert rest[..n] == rest;
    } else if n <= LINE_MAX {
      AfterTwo(config, JoinLine(rest[..n]), ReadLines(rest[n + 1..]));
    }
  }

  lemma FirstLine(rest: string, n: nat)
    requires n == LineEnd(rest)
    ensures n > LINE_MAX ==> ReadLines(rest) == Stuck
    ensures n <= LINE_MAX && n == |rest| ==> ReadLines(rest) == Text(JoinLine(rest))
    ensures n <= LINE_MAX && n < |rest| ==> ReadLines(rest) == After(JoinLine(rest[..n]), ReadLines(rest[n + 1..]))
  {
  }

  lemma AfterTwo(a: string, b: string, r: Read)
    ensures After(a, After(b, r)) == After(a + b, r)
  {
    if r.Text? {
      Associates(a, b, r.s);
    }
  }

  lemma Associates(a: string, b: string, c: string)
    ensures a + (b + c) == a + b + c
  {
  }

  /** Reads the lines of one file; false where it would go on for ever. */
  method ReadFile(text: string) returns (ok: bool, config: string)
    ensures ok <==> !LongLine(text)
    ensures ok ==> ReadLines(text) == Text(config)
  {
    StuckOnLongLines(text);
    Prefixed(ReadLines(text));
    ok, config := ReadAll(text, ReadLines(text));
  }

  method ReadAll(fin: string, ghost goal: Read) returns (ok: bool, config: string)
    requires Reading(goal, "", fin)
    ensures goal == if ok then Text(config) else Stuck
  {
    config, ok := "", true;
    var rest := fin;
    var eof := false;
    while !eof
      invariant if eof then goal == Text(config) else Reading(goal, config, rest)
      decreases |rest|, !eof
    {
      var n := LineEnd(rest);
      ReadStep(goal, config, rest, n);
      if n > LINE_MAX {
        return false, config;
      }
      config := ReadLine(config, rest[..n]);
      if n == |rest| {
        eof := true;
      } else {
        rest := rest[n + 1..];
      }
    }
  }

  lemma Prefixed(r: Read)
    ensures After("", r) == r
  {
    if r.Text? {
      assert "" + r.s == r.s;
    }
  }

  method ReadLine(config: string, t: string) returns (more: string)
    ensures more == Append(config, t)
  {
    more := config;
    if |t| > 0 && t[0] != '#' {
      more := more + (BeforeHash(t) + "#");
    } else {
      assert JoinLine(t) == "" && config + "" == config;
    }
  }

  lemma Written(s: string, line: string, rest: string)
    ensures s + Line(line, rest) == (s + (line + "\n")) + rest
  {
  }

  /** Prints sections and options in the order given. */
  method ToString(ss: seq<Section>) returns (s: string)
    ensures s == Print(ss)
  {
    s := "";
    var i := 0;
    assert ss[0..] == ss && "" + Print(ss) == Print(ss);
    while i < |ss|
      invariant i <= |ss| && s + Print(ss[i..]) == Print(ss)
    {
      assert ss[i..][0] == ss[i] && ss[i..][1..] == ss[i + 1..];
      ghost var rest := Print(ss[i + 1..]);
      Written(s, "[" + ss[i].name + "]", PrintEntries(ss[i].entries, Line("", rest)));
      s := s + ("[" + ss[i].name + "]" + "\n");
      s := PrintOptions(s, ss[i].entries, Line("", rest));
      Written(s, "", rest);
      s := s + ("" + "\n");
      i := i + 1;
    }
    assert s + "" == s;
  }

  method PrintOptions(before: string, es: seq<Entry>, ghost rest: string) returns (s: string)
    ensures s + rest == before + PrintEntries(es, rest)
  {
    s := before;
    var j := 0;
    assert es[0..] == es;
    while j < |es|
      invariant j <= |es| && s + PrintEntries(es[j..], rest) == before + PrintEntries(es, rest)
    {
      var line := es[j].name + " = " + es[j].value;
      assert es[j..][0] == es[j] && es[j..][1..] == es[j + 1..];
      Written(s, line, PrintEntries(es[j + 1..], rest));
      s := s + (line + "\n");
      j := j + 1;
    }
  }
}
