/** Parsing the output of `uci show`, proved against a printer of that output.

    A line is "config.section=type" or "config.section.option=value"; values are quoted as a
    shell does it. The parser and the printer agree on every config that uci can hold, except
    that a list of fewer than two items cannot be told from a plain value. */
module UciShow {
  import opened Options
  import opened ShellWords

  datatype Value = Str(text: string) | Items(items: seq<string>)
  datatype Section = Section(index: nat, typ: Option<Value>, options: map<string, Value>)
  type Sections = map<string, Section>

  // --------------------------------------------------------------- values

  function StripLeft(s: string): string {
    if s != "" && s[0] == '\'' then StripLeft(s[1..]) else s
  }

  function StripRight(s: string): string {
    if s != "" && s[|s| - 1] == '\'' then StripRight(s[..|s| - 1]) else s
  }

  /** Unquotes one value; an unbalanced quote is only stripped. */
  function ShowValue(raw: string): Value {
    match Split(raw)
    case None => Str(StripRight(StripLeft(raw)))
    case Some(words) => if words == [] then Str("") else if |words| == 1 then Str(words[0]) else Items(words)
  }

  function PrintValue(v: Value): string {
    match v
    case Str(s) => QuoteWord(s)
    case Items(ws) => QuoteWords(ws)
  }

  /** What a value looks like after printing: a list of fewer than two items is no list any more. */
  function Canonical(v: Value): Value {
    if v.Str? || |v.items| >= 2 then v else if v.items == [] then Str("") else Str(v.items[0])
  }

  lemma ShowPrintedValue(v: Value)
    ensures ShowValue(PrintValue(v)) == Canonical(v)
  {
    var words := if v.Str? then [v.text] else v.items;
    assert PrintValue(v) == QuoteWords(words);
    SplitUndoesQuoting(words);
  }

  // ---------------------------------------------------------------- lines

  predicate IsDigit(c: char) {
    '0' <= c <= '9'
  }

  predicate IsWord(c: char) {
    'a' <= c <= 'z' || 'A' <= c <= 'Z' || IsDigit(c) || c == '_'
  }

  predicate IsName(c: char) {
    IsWord(c) || c == '-'
  }

  /** The length of the longest prefix whose characters satisfy `p`. */
  function Span(s: string, p: char -> bool): (n: nat)
    ensures n <= |s|
  {
    if s != "" && p(s[0]) then 1 + Span(s[1..], p) else 0
  }

  predicate StartsWith(s: string, c: char) {
    s != "" && s[0] == c
  }

  datatype Match = Match(config: string, section: string, option: Option<string>, value: string)

  /** The length of the index part, "[n]" with an optional minus sign. */
  function IndexLength(s: string): (r: Option<nat>)
    ensures r.Some? ==> r.value <= |s|
  {
    if !StartsWith(s, '[') then None
    else
      var sign := if StartsWith(s[1..], '-') then 1 else 0;
      var digits := Span(s[1 + sign..], IsDigit);
      if digits > 0 && StartsWith(s[1 + sign + digits..], ']') then Some(2 + sign + digits) else None
  }

  /** The length of the section name: a name, or the extended form of an anonymous section. */
  function SectionLength(s: string): (r: Option<nat>)
    ensures r.Some? ==> r.value <= |s|
  {
    if StartsWith(s, '@') then
      var n := Span(s[1..], IsName);
      if n == 0 then None
      else
        var index := IndexLength(s[1 + n..]);
        if index.Some? then Some(1 + n + index.value) else None
    else
      var n := Span(s, IsName);
      if n > 0 then Some(n) else None
  }

  /** The optional option name, the equals sign and the value. */
  function MatchTail(config: string, section: string, tail: string): Option<Match> {
    if StartsWith(tail, '=') then Some(Match(config, section, None, tail[1..]))
    else if StartsWith(tail, '.') then
      var n := Span(tail[1..], IsWord);
      if n > 0 && StartsWith(tail[1 + n..], '=')
      then Some(Match(config, section, Some(tail[1..1 + n]), tail[2 + n..]))
      else None
    else None
  }

  function MatchLine(line: string): Option<Match> {
    var n := Span(line, IsWord);
    if n == 0 || !StartsWith(line[n..], '.') then None
    else
      var rest := line[n + 1..];
      match SectionLength(rest)
      case None => None
      case Some(k) => MatchTail(line[..n], rest[..k], rest[k..])
  }

  /** The characters `str.splitlines` breaks at. */
  predicate IsBreak(c: char) {
    c in {'\n', '\r', '\U{000B}', '\U{000C}', '\U{001C}', '\U{001D}', '\U{001E}', '\U{0085}', '\U{2028}', '\U{2029}'}
  }

  function BreakAt(s: string): (n: nat)
    ensures n <= |s| && (n < |s| ==> IsBreak(s[n])) && forall i | 0 <= i < n :: !IsBreak(s[i])
  {
    if s == "" || IsBreak(s[0]) then 0 else 1 + BreakAt(s[1..])
  }

  function SplitLines(text: string): seq<string>
    decreases |text|
  {
    if text == "" then []
    else
      var n := BreakAt(text);
      if n == |text| then [text]
      else if text[n] == '\r' && n + 1 < |text| && text[n + 1] == '\n' then [text[..n]] + SplitLines(text[n + 2..])
      else [text[..n]] + SplitLines(text[n + 1..])
  }

  // -------------------------------------------------------------- parsing

  function Apply(sections: Sections, m: Match): Sections {
    var old_ := if m.section in sections then sections[m.section] else Section(|sections|, None, map[]);
    var v := ShowValue(m.value);
    sections[m.section := if m.option.None? then old_.(typ := Some(v))
                          else old_.(options := old_.options[m.option.value := v])]
  }

  function ApplyLine(sections: Sections, line: string, config: string): Sections {
    var m := MatchLine(line);
    if m.None? || m.value.config != config then sections else Apply(sections, m.value)
  }

  function ApplyLines(sections: Sections, lines: seq<string>, config: string): Sections
    decreases |lines|
  {
    if lines == [] then sections else ApplyLines(ApplyLine(sections, lines[0], config), lines[1..], config)
  }

  function Parsed(text: string, config: string): Sections {
    ApplyLines(map[], SplitLines(text), config)
  }

  method ParseUciShow(text: string, config: string) returns (sections: Sections)
    ensures sections == Parsed(text, config)
  {
    sections := map[];
    var lines := SplitLines(text);
    for i := 0 to |lines|
      invariant ApplyLines(sections, lines[i..], config) == Parsed(text, config)
    {
      assert lines[i..][0] == lines[i] && lines[i..][1..] == lines[i + 1..];
      var found := MatchLine(lines[i]);
      if found.None? || found.value.config != config {
        continue;
      }
      sections := Store(sections, found.value);
    }
  }

  /** Enters one matched line into the sections. */
  method Store(before: Sections, m: Match) returns (sections: Sections)
    ensures sections == Apply(before, m)
  {
    sections := before;
    if m.section !in sections {
      sections := sections[m.section := Section(|sections|, None, map[])];
    }
    var section := sections[m.section];
    var v := ShowValue(m.value);
    if m.option.None? {
      section := section.(typ := Some(v));
    } else {
      section := section.(options := section.options[m.option.value := v]);
    }
    sections := sections[m.section := section];
  }

  // ------------------------------------------------------------- printing

  datatype Entry = Entry(option: string, value: Value)
  datatype SectionSpec = SectionSpec(name: string, typ: string, entries: seq<Entry>)

  function SectionLine(config: string, s: SectionSpec): string {
    config + ("." + (s.name + ("=" + s.typ)))
  }

  function OptionLine(config: string, name: string, e: Entry): string {
    config + ("." + (name + ("." + (e.option + ("=" + PrintValue(e.value))))))
  }

  function EntryLines(config: string, name: string, entries: seq<Entry>): seq<string> {
    if entries == [] then [] else [OptionLine(config, name, entries[0])] + EntryLines(config, name, entries[1..])
  }

  function ConfigLines(config: string, spec: seq<SectionSpec>): seq<string> {
    if spec == [] then []
    else
      [SectionLine(config, spec[0])] + EntryLines(config, spec[0].name, spec[0].entries) +
      ConfigLines(config, spec[1..])
  }

  function JoinLines(lines: seq<string>): string {
    if lines == [] then "" else lines[0] + ("\n" + JoinLines(lines[1..]))
  }

  function Print(config: string, spec: seq<SectionSpec>): string {
    JoinLines(ConfigLines(config, spec))
  }

  predicate AllOf(s: string, p: char -> bool) {
    s != "" && forall c | c in s :: p(c)
  }

  predicate Identifier(s: string) {
    AllOf(s, IsWord)
  }

  /** "@type[n]" as uci prints an anonymous section. */
  ghost predicate ExtendedName(s: string) {
    exists typ, index :: AllOf(typ, IsName) && IndexPart(index) && s == "@" + (typ + index)
  }

  predicate IndexPart(s: string) {
    |s| >= 3 && s[0] == '[' && s[|s| - 1] == ']'
    && (AllOf(s[1..|s| - 1], IsDigit) || (s[1] == '-' && AllOf(s[2..|s| - 1], IsDigit)))
  }

  ghost predicate SectionName(s: string) {
    AllOf(s, IsName) || ExtendedName(s)
  }

  predicate NoBreaks(s: string) {
    forall c | c in s :: !IsBreak(c)
  }

  predicate OneLine(v: Value) {
    match v
    case Str(s) => NoBreaks(s)
    case Items(ws) => forall w | w in ws :: NoBreaks(w)
  }

  /** A config uci can hold: proper, distinct names and values that stay on one line. */
  ghost predicate WellFormed(spec: seq<SectionSpec>) {
    && (forall s | s in spec :: WellFormedSection(s))
    && (forall i, j | 0 <= i < j < |spec| :: spec[i].name != spec[j].name)
  }

  ghost predicate WellFormedSection(s: SectionSpec) {
    && SectionName(s.name) && Plain(s.typ) && NoBreaks(s.typ)
    && (forall e | e in s.entries :: Identifier(e.option) && OneLine(e.value))
    && (forall i, j | 0 <= i < j < |s.entries| :: s.entries[i].option != s.entries[j].option)
  }

  // ----------------------------------------------------------- round trip

  /** `m` holds exactly the options of the entries, each with its canonical value. */
  ghost predicate HoldsEntries(m: map<string, Value>, entries: seq<Entry>) {
    && (forall k :: k in m <==> exists e | e in entries :: e.option == k)
    && (forall e | e in entries :: e.option in m && m[e.option] == Canonical(e.value))
  }

  /** The parsed sections say what was printed: names, positions, types and options. */
  ghost predicate Represents(sections: Sections, spec: seq<SectionSpec>) {
    && (forall k :: k in sections <==> exists s | s in spec :: s.name == k)
    && (forall i | 0 <= i < |spec| :: PlacedAt(sections, spec[i], i))
  }

  ghost predicate PlacedAt(sections: Sections, s: SectionSpec, i: nat) {
    && s.name in sections
    && sections[s.name].index == i
    && sections[s.name].typ == Some(Str(s.typ))
    && HoldsEntries(sections[s.name].options, s.entries)
  }

  lemma {:induction false} SpanExact(w: string, rest: string, p: char -> bool)
    requires forall c | c in w :: p(c)
    requires rest == "" || !p(rest[0])
    ensures Span(w + rest, p) == |w|
  {
    if w == "" {
      assert w + rest == rest;
    } else {
      assert (w + rest)[1..] == w[1..] + rest;
      SpanExact(w[1..], rest, p);
    }
  }

  lemma IndexLengthExact(index: string, rest: string)
    requires IndexPart(index)
    ensures IndexLength(index + rest) == Some(|index|)
  {
    var s := index + rest;
    var sign := if StartsWith(s[1..], '-') then 1 else 0;
    var n := |index| - 1;
    var digits := index[1 + sign..n];
    assert index[1] == s[1];
    assert sign == 1 <==> s[1] == '-';
    assert index[1..n][0] == index[1] && index[1] in index[1..n];
    assert AllOf(digits, IsDigit);
    assert s[1 + sign..] == digits + (index[n..] + rest);
    SpanExact(digits, index[n..] + rest, IsDigit);
    assert s[n..] == index[n..] + rest;
  }

  lemma SectionLengthExact(name: string, rest: string)
    requires SectionName(name) && (rest == "" || !IsName(rest[0]))
    ensures SectionLength(name + rest) == Some(|name|)
  {
    if AllOf(name, IsName) {
      PlainLengthExact(name, rest);
    } else {
      var typ, index :| AllOf(typ, IsName) && IndexPart(index) && name == "@" + (typ + index);
      assert name + rest == "@" + (typ + (index + rest));
      ExtendedLengthExact(typ, index, rest);
    }
  }

  lemma PlainLengthExact(name: string, rest: string)
    requires AllOf(name, IsName) && (rest == "" || !IsName(rest[0]))
    ensures SectionLength(name + rest) == Some(|name|)
  {
    assert name[0] in name;
    SpanExact(name, rest, IsName);
  }

  lemma ExtendedLengthExact(typ: string, index: string, rest: string)
    requires AllOf(typ, IsName) && IndexPart(index)
    ensures SectionLength("@" + (typ + (index + rest))) == Some(1 + |typ| + |index|)
  {
    var s := "@" + (typ + (index + rest));
    assert s[1..] == typ + (index + rest) && s[1 + |typ|..] == index + rest;
    SpanExact(typ, index + rest, IsName);
    IndexLengthExact(index, rest);
  }

  /** A printed line is read back into its parts. */
  lemma MatchPrinted(config: string, name: string, tail: string)
    requires Identifier(config) && SectionName(name) && (StartsWith(tail, '=') || StartsWith(tail, '.'))
    ensures MatchLine(config + ("." + (name + tail))) == MatchTail(config, name, tail)
  {
    var line := config + ("." + (name + tail));
    SpanExact(config, "." + (name + tail), IsWord);
    assert line[|config|..] == "." + (name + tail);
    assert line[..|config|] == config && line[|config| + 1..] == name + tail;
    SectionLengthExact(name, tail);
    assert (name + tail)[..|name|] == name && (name + tail)[|name|..] == tail;
  }

  lemma MatchSectionLine(config: string, s: SectionSpec)
    requires Identifier(config) && SectionName(s.name)
    ensures MatchLine(SectionLine(config, s)) == Some(Match(config, s.name, None, s.typ))
  {
    MatchPrinted(config, s.name, "=" + s.typ);
    assert ("=" + s.typ)[1..] == s.typ;
  }

  lemma MatchOptionLine(config: string, name: string, e: Entry)
    requires Identifier(config) && SectionName(name) && Identifier(e.option)
    ensures MatchLine(OptionLine(config, name, e)) == Some(Match(config, name, Some(e.option), PrintValue(e.value)))
  {
    var value := PrintValue(e.value);
    MatchPrinted(config, name, "." + (e.option + ("=" + value)));
    MatchOptionTail(config, name, e.option, value);
  }

  lemma MatchOptionTail(config: string, name: string, option: string, value: string)
    requires Identifier(option)
    ensures MatchTail(config, name, "." + (option + ("=" + value))) == Some(Match(config, name, Some(option), value))
  {
    var tail := "." + (option + ("=" + value));
    assert tail[1..] == option + ("=" + value);
    SpanExact(option, "=" + value, IsWord);
    var n := |option|;
    assert tail[1..1 + n] == option && tail[1 + n..] == "=" + value && tail[2 + n..] == value;
  }

  /** One line that matches is one application, then come the rest. */
  lemma ApplyFirst(sections: Sections, line: string, m: Match, rest: seq<string>, config: string)
    requires MatchLine(line) == Some(m) && m.config == config
    ensures ApplyLines(sections, [line] + rest, config) == ApplyLines(Apply(sections, m), rest, config)
  {
    assert ([line] + rest)[1..] == rest;
  }

  lemma {:induction false} ApplySplit(sections: Sections, a: seq<string>, b: seq<string>, config: string)
    ensures ApplyLines(sections, a + b, config) == ApplyLines(ApplyLines(sections, a, config), b, config)
    decreases |a|
  {
    if a == [] {
      assert a + b == b;
    } else {
      assert (a + b)[1..] == a[1..] + b;
      ApplySplit(ApplyLine(sections, a[0], config), a[1..], b, config);
    }
  }

  function WithEntries(m: map<string, Value>, entries: seq<Entry>): map<string, Value>
    decreases |entries|
  {
    if entries == [] then m else WithEntries(m[entries[0].option := Canonical(entries[0].value)], entries[1..])
  }

  lemma ApplyOption(sections: Sections, m: Match, v: Value)
    requires m.section in sections && m.option.Some? && m.value == PrintValue(v)
    ensures var old_ := sections[m.section];
            Apply(sections, m) == sections[m.section := old_.(options := old_.options[m.option.value := Canonical(v)])]
  {
    ShowPrintedValue(v);
  }

  lemma ApplyType(sections: Sections, m: Match)
    requires m.section !in sections && m.option.None? && Plain(m.value)
    ensures Apply(sections, m) == sections[m.section := Section(|sections|, Some(Str(m.value)), map[])]
  {
    SplitPlain(m.value);
  }

  lemma {:induction false} ApplyEntries(sections: Sections, config: string, name: string, entries: seq<Entry>)
    requires Identifier(config) && SectionName(name) && name in sections
    requires forall e | e in entries :: Identifier(e.option)
    ensures ApplyLines(sections, EntryLines(config, name, entries), config)
         == sections[name := sections[name].(options := WithEntries(sections[name].options, entries))]
    decreases |entries|
  {
    if entries == [] {
      assert sections[name := sections[name]] == sections;
    } else {
      var e := entries[0];
      assert e in entries;
      var m := Match(config, name, Some(e.option), PrintValue(e.value));
      MatchOptionLine(config, name, e);
      ApplyFirst(sections, OptionLine(config, name, e), m, EntryLines(config, name, entries[1..]), config);
      ApplyOption(sections, m, e.value);
      ApplyEntries(Apply(sections, m), config, name, entries[1..]);
    }
  }

  lemma {:induction false} WithEntriesHolds(m: map<string, Value>, done: seq<Entry>, entries: seq<Entry>)
    requires HoldsEntries(m, done)
    requires forall i, j | 0 <= i < j < |done + entries| :: (done + entries)[i].option != (done + entries)[j].option
    ensures HoldsEntries(WithEntries(m, entries), done + entries)
    decreases |entries|
  {
    if entries == [] {
      assert done + entries == done;
    } else {
      var e := entries[0];
      var all := done + entries;
      var more := done + [e];
      assert more + entries[1..] == all;
      var m' := m[e.option := Canonical(e.value)];
      assert all[|done|] == e;
      forall f | f in done ensures f.option != e.option {
        var i :| 0 <= i < |done| && done[i] == f;
        assert all[i] == f;
      }
      assert forall f :: f in more <==> f in done || f == e;
      assert HoldsEntries(m', more);
      WithEntriesHolds(m', more, entries[1..]);
    }
  }

  /** Printing one more section adds one more section. */
  lemma ApplySection(sections: Sections, config: string, s: SectionSpec)
    requires Identifier(config) && WellFormedSection(s) && s.name !in sections
    ensures ApplyLines(sections, [SectionLine(config, s)] + EntryLines(config, s.name, s.entries), config)
         == sections[s.name := Section(|sections|, Some(Str(s.typ)), WithEntries(map[], s.entries))]
  {
    var m := Match(config, s.name, None, s.typ);
    var opened_ := Apply(sections, m);
    MatchSectionLine(config, s);
    ApplyFirst(sections, SectionLine(config, s), m, EntryLines(config, s.name, s.entries), config);
    ApplyType(sections, m);
    ApplyEntries(opened_, config, s.name, s.entries);
    Overwrite(sections, s.name, opened_[s.name], opened_[s.name].(options := WithEntries(map[], s.entries)));
  }

  lemma Overwrite(sections: Sections, name: string, a: Section, b: Section)
    ensures sections[name := a][name := b] == sections[name := b]
  {
  }

  lemma {:induction false} ApplyConfig(sections: Sections, config: string, done: seq<SectionSpec>,
                                       spec: seq<SectionSpec>)
    requires Identifier(config) && WellFormed(done + spec) && Represents(sections, done) && |sections| == |done|
    ensures Represents(ApplyLines(sections, ConfigLines(config, spec), config), done + spec)
    decreases |spec|
  {
    if spec == [] {
      assert done + spec == done;
    } else {
      var s, all := spec[0], done + spec;
      var more := done + [s];
      assert more + spec[1..] == all && all[|done|] == s && s in all;
      forall t | t in done ensures t.name != s.name {
        var i :| 0 <= i < |done| && done[i] == t;
        assert all[i] == t;
      }
      var next := ApplyNext(sections, config, done, s, ConfigLines(config, spec[1..]));
      ApplyConfig(next, config, more, spec[1..]);
    }
  }

  lemma ApplyNext(sections: Sections, config: string, done: seq<SectionSpec>, s: SectionSpec, rest: seq<string>)
    returns (next: Sections)
    requires Identifier(config) && Represents(sections, done) && |sections| == |done|
    requires WellFormedSection(s) && forall t | t in done :: t.name != s.name
    ensures Represents(next, done + [s]) && |next| == |done| + 1
    ensures ApplyLines(next, rest, config) ==
            ApplyLines(sections, [SectionLine(config, s)] + EntryLines(config, s.name, s.entries) + rest, config)
  {
    ApplySection(sections, config, s);
    WithEntriesHolds(map[], [], s.entries);
    assert [] + s.entries == s.entries;
    next := sections[s.name := Section(|sections|, Some(Str(s.typ)), WithEntries(map[], s.entries))];
    RepresentsMore(sections, next, done, s, WithEntries(map[], s.entries));
    ApplySplit(sections, [SectionLine(config, s)] + EntryLines(config, s.name, s.entries), rest, config);
  }

  lemma RepresentsMore(sections: Sections, next: Sections, done: seq<SectionSpec>, s: SectionSpec,
                       options: map<string, Value>)
    requires Represents(sections, done) && |sections| == |done| && s.name !in sections
             && HoldsEntries(options, s.entries)
    requires next == sections[s.name := Section(|sections|, Some(Str(s.typ)), options)]
    ensures Represents(next, done + [s]) && |next| == |done| + 1
  {
    assert next.Keys == sections.Keys + {s.name};
    NamesMore(sections.Keys, done, s);
    PlacesMore(sections, next, done, s, options);
  }

  lemma NamesMore(names: set<string>, done: seq<SectionSpec>, s: SectionSpec)
    requires forall k :: k in names <==> exists t | t in done :: t.name == k
    ensures forall k :: k in names + {s.name} <==> exists t | t in done + [s] :: t.name == k
  {
    forall k ensures k in names + {s.name} <==> exists t | t in done + [s] :: t.name == k {
      OneMoreName(done, s, k);
    }
  }

  lemma PlacesMore(sections: Sections, next: Sections, done: seq<SectionSpec>, s: SectionSpec,
                   options: map<string, Value>)
    requires forall i | 0 <= i < |done| :: PlacedAt(sections, done[i], i)
    requires |sections| == |done| && s.name !in sections && HoldsEntries(options, s.entries)
    requires next == sections[s.name := Section(|sections|, Some(Str(s.typ)), options)]
    ensures forall i | 0 <= i <= |done| :: PlacedAt(next, (done + [s])[i], i)
  {
    forall i | 0 <= i <= |done| ensures PlacedAt(next, (done + [s])[i], i) {
      if i < |done| {
        assert PlacedAt(sections, done[i], i);
        StaysPlaced(sections, next, done[i], i, s.name);
      }
    }
  }

  lemma StaysPlaced(sections: Sections, next: Sections, t: SectionSpec, i: nat, name: string)
    requires PlacedAt(sections, t, i) && name !in sections && next - {name} == sections
    ensures PlacedAt(next, t, i)
  {
    assert t.name in next - {name} && (next - {name})[t.name] == next[t.name];
  }

  lemma OneMoreName(done: seq<SectionSpec>, s: SectionSpec, name: string)
    ensures (exists t | t in done + [s] :: t.name == name) <==> s.name == name || exists t | t in done :: t.name == name
  {
    assert s in done + [s] && forall t | t in done :: t in done + [s];
  }

  // -------------------------------------------------------- lines of text

  lemma {:induction false} NoBreakInside(line: string, rest: string)
    requires NoBreaks(line)
    ensures BreakAt(line + ("\n" + rest)) == |line|
  {
    var s := line + ("\n" + rest);
    if line != "" {
      assert line[0] in line && s[1..] == line[1..] + ("\n" + rest);
      NoBreakInside(line[1..], rest);
    }
  }

  lemma {:induction false} SplitJoined(lines: seq<string>)
    requires forall l | l in lines :: NoBreaks(l)
    ensures SplitLines(JoinLines(lines)) == lines
  {
    if lines != [] {
      var l, rest := lines[0], JoinLines(lines[1..]);
      assert l in lines;
      var text := l + ("\n" + rest);
      NoBreakInside(l, rest);
      assert text[..|l|] == l && text[|l| + 1..] == rest;
      SplitJoined(lines[1..]);
    }
  }

  lemma {:induction false} QuotedStaysOnLine(w: string)
    requires NoBreaks(w)
    ensures NoBreaks(QuoteRest(w))
  {
    if w != "" {
      assert w[0] in w;
      QuotedStaysOnLine(w[1..]);
    }
  }

  lemma {:induction false} QuotedWordsStayOnLine(ws: seq<string>)
    requires forall w | w in ws :: NoBreaks(w)
    ensures NoBreaks(QuoteWords(ws))
  {
    if ws != [] {
      assert ws[0] in ws;
      QuotedStaysOnLine(ws[0]);
      QuotedWordsStayOnLine(ws[1..]);
    }
  }

  lemma NameStaysOnLine(name: string)
    requires SectionName(name)
    ensures NoBreaks(name)
  {
    if !AllOf(name, IsName) {
      var typ, index :| AllOf(typ, IsName) && IndexPart(index) && name == "@" + (typ + index);
      IndexStaysOnLine(index);
    }
  }

  lemma IndexStaysOnLine(index: string)
    requires IndexPart(index)
    ensures NoBreaks(index)
  {
    var m := |index| - 1;
    forall k | 0 <= k < |index| ensures !IsBreak(index[k]) {
      if AllOf(index[1..m], IsDigit) {
        if 0 < k < m { assert index[k] in index[1..m]; }
      } else {
        if 1 < k < m { assert index[k] in index[2..m]; }
      }
    }
  }

  lemma {:induction false} EntriesStayOnLines(config: string, name: string, entries: seq<Entry>)
    requires Identifier(config) && SectionName(name)
    requires forall e | e in entries :: Identifier(e.option) && OneLine(e.value)
    ensures forall l | l in EntryLines(config, name, entries) :: NoBreaks(l)
  {
    if entries != [] {
      var e := entries[0];
      assert e in entries;
      NameStaysOnLine(name);
      QuotedWordsStayOnLine(if e.value.Str? then [e.value.text] else e.value.items);
      assert NoBreaks(OptionLine(config, name, e));
      EntriesStayOnLines(config, name, entries[1..]);
    }
  }

  lemma {:induction false} ConfigStaysOnLines(config: string, spec: seq<SectionSpec>)
    requires Identifier(config) && forall s | s in spec :: WellFormedSection(s)
    ensures forall l | l in ConfigLines(config, spec) :: NoBreaks(l)
  {
    if spec != [] {
      var s := spec[0];
      assert s in spec;
      NameStaysOnLine(s.name);
      assert NoBreaks(SectionLine(config, s));
      EntriesStayOnLines(config, s.name, s.entries);
      ConfigStaysOnLines(config, spec[1..]);
    }
  }

  /** Printing any well-formed config and parsing the text gives back its sections with
      their positions, types and options; values come back in canonical form. */
  lemma RoundTrip(config: string, spec: seq<SectionSpec>)
    requires Identifier(config) && WellFormed(spec)
    ensures Represents(Parsed(Print(config, spec), config), spec)
  {
    ConfigStaysOnLines(config, spec);
    SplitJoined(ConfigLines(config, spec));
    assert [] + spec == spec;
    ApplyConfig(map[], config, [], spec);
  }

  /** Every value survives unchanged exactly when every list has at least two items. */
  lemma ValuesSurviveIff(config: string, spec: seq<SectionSpec>)
    requires Identifier(config) && WellFormed(spec)
    ensures (forall s, e | s in spec && e in s.entries ::
               var sections := Parsed(Print(config, spec), config);
               s.name in sections && e.option in sections[s.name].options
                 && sections[s.name].options[e.option] == e.value) <==>
            (forall s, e | s in spec && e in s.entries :: e.value.Items? ==> |e.value.items| >= 2)
  {
    forall s, e | s in spec && e in s.entries
      ensures var sections := Parsed(Print(config, spec), config);
              s.name in sections && e.option in sections[s.name].options
                && sections[s.name].options[e.option] == Canonical(e.value)
    {
      ValueComesBack(config, spec, s, e);
    }
  }

  lemma ValueComesBack(config: string, spec: seq<SectionSpec>, s: SectionSpec, e: Entry)
    requires Identifier(config) && WellFormed(spec) && s in spec && e in s.entries
    ensures var sections := Parsed(Print(config, spec), config);
            s.name in sections && e.option in sections[s.name].options
              && sections[s.name].options[e.option] == Canonical(e.value)
  {
    RoundTrip(config, spec);
    var i :| 0 <= i < |spec| && spec[i] == s;
    assert PlacedAt(Parsed(Print(config, spec), config), spec[i], i);
  }

  /** A section with one list option of one item: the list comes back as a plain value. */
  lemma OneItemIsNoList()
    ensures var spec := [SectionSpec("s", "t", [Entry("o", Items(["x"]))])];
            var sections := Parsed(Print("c", spec), "c");
            && WellFormed(spec) && "s" in sections && "o" in sections["s"].options
            && sections["s"].options["o"] == Str("x") != Items(["x"])
  {
    var e := Entry("o", Items(["x"]));
    var s := SectionSpec("s", "t", [e]);
    SmallSection(s, e);
    ValueComesBack("c", [s], s, e);
  }

  lemma SmallSection(s: SectionSpec, e: Entry)
    requires s == SectionSpec("s", "t", [e]) && e.option == "o" && OneLine(e.value)
    ensures WellFormed([s]) && Identifier("c")
  {
    assert AllOf("s", IsName) && Plain("t") && NoBreaks("t") && Identifier("o");
  }

  /** Lines of other configs and other output never matter. */
  lemma {:induction false} OtherOutputIsSkipped(sections: Sections, before: seq<string>, line: string,
                                                after: seq<string>, config: string)
    requires MatchLine(line).None? || MatchLine(line).value.config != config
    ensures ApplyLines(sections, before + [line] + after, config) == ApplyLines(sections, before + after, config)
  {
    ApplySplit(sections, before, after, config);
    assert before + [line] + after == before + ([line] + after);
    ApplySplit(sections, before, [line] + after, config);
    assert ([line] + after)[1..] == after;
  }
}
