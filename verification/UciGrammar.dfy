/** What the parser of `uci show` accepts and what its answer holds, for any text: how it falls into
    lines, which lines match and into which parts, and which of several lines about one
    option counts. The round trip speaks of printed configs only. */
module UciGrammar {
  import opened Options
  import opened UciShow
  import opened ShellWords

  // ---------------------------------------------------------------- characters

  lemma DigitsAre(c: char)
    ensures IsDigit(c) <==> c in "0123456789"
  {
    var digits := "0123456789";
    if IsDigit(c) { assert digits[c as int - '0' as int] == c; }
  }

  lemma SmallLetters(c: char)
    ensures 'a' <= c <= 'z' <==> c in "abcdefghijklmnopqrstuvwxyz"
  {
    var letters := "abcdefghijklmnopqrstuvwxyz";
    if 'a' <= c <= 'z' { assert letters[c as int - 'a' as int] == c; }
  }

  lemma Capitals(c: char)
    ensures 'A' <= c <= 'Z' <==> c in "ABCDEFGHIJKLMNOPQRSTUVWXYZ"
  {
    var letters := "ABCDEFGHIJKLMNOPQRSTUVWXYZ";
    if 'A' <= c <= 'Z' { assert letters[c as int - 'A' as int] == c; }
  }

  /** Names are made of letters, digits and the underscore, section names of the hyphen, too. */
  lemma WordsAre(c: char)
    ensures IsWord(c) <==> c in "abcdefghijklmnopqrstuvwxyz" || c in "ABCDEFGHIJKLMNOPQRSTUVWXYZ"
                           || c in "0123456789" || c == '_'
    ensures IsName(c) <==> IsWord(c) || c == '-'
  {
    SmallLetters(c);
    Capitals(c);
    DigitsAre(c);
  }

  // -------------------------------------------------------------------- lines

  /** A way to end a line. */
  predicate LineEnd(s: string) {
    s in ["\r\n", "\n", "\r", "\U{000B}", "\U{000C}", "\U{001C}", "\U{001D}", "\U{001E}", "\U{0085}", "\U{2028}",
          "\U{2029}"]
  }

  /** No character that could end a line. */
  predicate OneLineText(s: string) {
    forall c | c in s :: !LineEnd([c])
  }

  /** The lines with their ends; the last line need not have one. */
  function Text(lines: seq<string>, ends: seq<string>, last: string): string
    requires |lines| == |ends|
  {
    if lines == [] then last else lines[0] + (ends[0] + Text(lines[1..], ends[1..], last))
  }

  /** A carriage return ends a line alone only where no line feed follows. */
  ghost predicate EndsApart(lines: seq<string>, ends: seq<string>, last: string)
    requires |lines| == |ends|
  {
    forall i | 0 <= i < |ends| && ends[i] == "\r" :: !StartsWith(Text(lines[i + 1..], ends[i + 1..], last), '\n')
  }

  lemma BreaksAre(c: char)
    ensures IsBreak(c) <==> LineEnd([c])
  {
    if IsBreak(c) { assert [c][0] == c; }
  }

  lemma {:induction false} FirstLine(line: string, rest: string)
    requires OneLineText(line) && rest != "" && IsBreak(rest[0])
    ensures BreakAt(line + rest) == |line|
  {
    if line == "" {
      assert line + rest == rest;
    } else {
      assert line[0] in line && (line + rest)[1..] == line[1..] + rest;
      BreaksAre(line[0]);
      FirstLine(line[1..], rest);
    }
  }

  lemma {:induction false} OnlyLine(line: string)
    requires OneLineText(line)
    ensures BreakAt(line) == |line|
  {
    if line != "" {
      assert line[0] in line;
      BreaksAre(line[0]);
      OnlyLine(line[1..]);
    }
  }

  /** Any text falls into lines at its line ends, a carriage return with a line feed being one; a
      last line without an end counts if it is not empty. */
  lemma {:induction false} LinesOfText(lines: seq<string>, ends: seq<string>, last: string)
    requires |lines| == |ends| && (forall l | l in lines :: OneLineText(l)) && OneLineText(last)
    requires (forall e | e in ends :: LineEnd(e)) && EndsApart(lines, ends, last)
    ensures SplitLines(Text(lines, ends, last)) == lines + if last == "" then [] else [last]
    decreases |lines|
  {
    if lines == [] {
      OnlyLine(last);
    } else {
      var l, e, rest := lines[0], ends[0], Text(lines[1..], ends[1..], last);
      assert l in lines && e in ends;
      BreaksAre(e[0]);
      FirstLine(l, e + rest);
      RestApart(lines, ends, last);
      LinesOfText(lines[1..], ends[1..], last);
      assert lines[0..][1..] == lines[1..] && ends[0..][1..] == ends[1..];
      AfterFirstLine(l, e, rest);
    }
  }

  lemma RestApart(lines: seq<string>, ends: seq<string>, last: string)
    requires |lines| == |ends| && lines != [] && EndsApart(lines, ends, last)
    ensures EndsApart(lines[1..], ends[1..], last)
    ensures ends[0] == "\r" ==> !StartsWith(Text(lines[1..], ends[1..], last), '\n')
  {
    forall i | 0 <= i < |ends[1..]| && ends[1..][i] == "\r"
      ensures !StartsWith(Text(lines[1..][i + 1..], ends[1..][i + 1..], last), '\n')
    {
      assert lines[1..][i + 1..] == lines[i + 2..] && ends[1..][i + 1..] == ends[i + 2..];
    }
  }

  lemma AfterFirstLine(l: string, e: string, rest: string)
    requires LineEnd(e) && BreakAt(l + (e + rest)) == |l| && (e == "\r" ==> !StartsWith(rest, '\n'))
    ensures SplitLines(l + (e + rest)) == [l] + SplitLines(rest)
  {
    var text := l + (e + rest);
    assert text[..|l|] == l && text[|l|] == e[0];
    if e == "\r\n" {
      assert text[|l| + 1] == '\n' && text[|l| + 2..] == rest;
    } else {
      assert |e| == 1 && text[|l| + 1..] == rest;
    }
  }

  // ------------------------------------------------------------- one line

  /** A line of the form config.section=value or config.section.option=value. */
  ghost predicate HasParts(line: string, m: Match) {
    && Identifier(m.config) && SectionName(m.section) && (m.option.Some? ==> Identifier(m.option.value))
    && line == m.config + ("." + (m.section + ((if m.option.Some? then "." + m.option.value else "")
                                               + ("=" + m.value))))
  }

  lemma {:induction false} SpanHolds(s: string, p: char -> bool)
    ensures forall c | c in s[..Span(s, p)] :: p(c)
  {
    if s != "" && p(s[0]) {
      SpanHolds(s[1..], p);
      var n := Span(s[1..], p);
      assert s[..1 + n] == [s[0]] + s[1..][..n];
    }
  }

  lemma IndexIs(s: string)
    requires IndexLength(s).Some?
    ensures IndexPart(s[..IndexLength(s).value])
  {
    var sign := if StartsWith(s[1..], '-') then 1 else 0;
    var rest := s[1 + sign..];
    var digits := Span(rest, IsDigit);
    SpanHolds(rest, IsDigit);
    var part := s[..2 + sign + digits];
    assert part[1 + sign..|part| - 1] == rest[..digits];
    assert rest[digits..] == s[1 + sign + digits..];
    assert part[|part| - 1] == rest[digits..][0];
    assert AllOf(rest[..digits], IsDigit);
  }

  lemma SectionIs(s: string)
    requires SectionLength(s).Some?
    ensures SectionName(s[..SectionLength(s).value])
  {
    if StartsWith(s, '@') {
      var n := Span(s[1..], IsName);
      SpanHolds(s[1..], IsName);
      var typ, index := s[1..][..n], s[1 + n..];
      IndexIs(index);
      var k := IndexLength(index).value;
      assert s[..1 + n + k] == "@" + (typ + index[..k]);
      assert AllOf(typ, IsName);
    } else {
      SpanHolds(s, IsName);
    }
  }

  lemma TailIs(config: string, section: string, tail: string)
    requires MatchTail(config, section, tail).Some?
    ensures var m := MatchTail(config, section, tail).value;
            && m.config == config && m.section == section && (m.option.Some? ==> Identifier(m.option.value))
            && tail == (if m.option.Some? then "." + m.option.value else "") + ("=" + m.value)
  {
    if !StartsWith(tail, '=') {
      var rest := tail[1..];
      var n := Span(rest, IsWord);
      SpanHolds(rest, IsWord);
      assert tail[1..1 + n] == rest[..n] && tail[1 + n..] == rest[n..];
      assert tail == "." + (rest[..n] + rest[n..]) && rest[n..] == "=" + tail[2 + n..];
    }
  }

  lemma CutAt(line: string, n: nat)
    requires n < |line| && line[n] == '.'
    ensures line == line[..n] + ("." + line[n + 1..])
  {
  }

  lemma MatchBegins(line: string) returns (config: string, section: string, tail: string)
    requires MatchLine(line).Some?
    ensures MatchLine(line) == MatchTail(config, section, tail)
    ensures Identifier(config) && SectionName(section) && line == config + ("." + (section + tail))
  {
    var n := Span(line, IsWord);
    var rest := line[n + 1..];
    var k := SectionLength(rest).value;
    config, section, tail := line[..n], rest[..k], rest[k..];
    SpanHolds(line, IsWord);
    SectionIs(rest);
    CutAt(line, n);
    Glue(rest, k);
  }

  lemma Glue(s: string, k: nat)
    requires k <= |s|
    ensures s == s[..k] + s[k..]
  {
  }

  lemma MatchHasParts(line: string, m: Match)
    requires MatchLine(line) == Some(m)
    ensures HasParts(line, m)
  {
    var config, section, tail := MatchBegins(line);
    TailIs(config, section, tail);
  }

  lemma PartsMatch(line: string, m: Match)
    requires HasParts(line, m)
    ensures MatchLine(line) == Some(m)
  {
    var tail := (if m.option.Some? then "." + m.option.value else "") + ("=" + m.value);
    TailMatches(m, tail);
    MatchPrinted(m.config, m.section, tail);
  }

  lemma TailMatches(m: Match, tail: string)
    requires m.option.Some? ==> Identifier(m.option.value)
    requires tail == (if m.option.Some? then "." + m.option.value else "") + ("=" + m.value)
    ensures (StartsWith(tail, '=') || StartsWith(tail, '.')) && MatchTail(m.config, m.section, tail) == Some(m)
  {
    if m.option.Some? {
      assert tail == "." + (m.option.value + ("=" + m.value));
      MatchOptionTail(m.config, m.section, m.option.value, m.value);
    } else {
      assert tail == "=" + m.value && tail[1..] == m.value;
    }
  }

  /** A line matches exactly if it has this form, and the parts are unique. */
  lemma MatchesIff(line: string, m: Match)
    ensures MatchLine(line) == Some(m) <==> HasParts(line, m)
  {
    if MatchLine(line) == Some(m) { MatchHasParts(line, m); }
    if HasParts(line, m) { PartsMatch(line, m); }
  }

  // --------------------------------------------------------------- values

  predicate OnlyQuotes(s: string) {
    forall c | c in s :: c == '\''
  }

  lemma {:induction false} QuotesOffLeft(s: string) returns (head: string)
    ensures s == head + StripLeft(s) && OnlyQuotes(head) && !StartsWith(StripLeft(s), '\'')
  {
    head := "";
    if s != "" && s[0] == '\'' {
      head := QuotesOffLeft(s[1..]);
      head := "'" + head;
    }
  }

  lemma {:induction false} QuotesOffRight(s: string) returns (tail: string)
    ensures s == StripRight(s) + tail && OnlyQuotes(tail)
    ensures StripRight(s) != "" ==> StripRight(s)[0] == s[0] && StripRight(s)[|StripRight(s)| - 1] != '\''
  {
    tail := "";
    if s != "" && s[|s| - 1] == '\'' {
      tail := QuotesOffRight(s[..|s| - 1]);
      tail := tail + "'";
    }
  }

  /** A value whose quotes do not balance only loses the quotes at its two ends. */
  lemma UnbalancedValue(raw: string) returns (head: string, text: string, tail: string)
    requires Split(raw).None?
    ensures ShowValue(raw) == Str(text) && OnlyQuotes(head) && OnlyQuotes(tail)
    ensures raw == head + (text + tail) && (text != "" ==> text[0] != '\'' && text[|text| - 1] != '\'')
  {
    head := QuotesOffLeft(raw);
    var rest := StripLeft(raw);
    tail := QuotesOffRight(rest);
    text := StripRight(rest);
  }

  // ------------------------------------------------------- the whole answer

  /** What a line of this config says about an option of this section, or without an option
      about the type of the section. */
  function Said(line: string, config: string, section: string, option: Option<string>): Option<string> {
    var m := MatchLine(line);
    if m.Some? && m.value.config == config && m.value.section == section && m.value.option == option
    then Some(m.value.value) else None
  }

  lemma SaidIff(line: string, config: string, section: string, option: Option<string>, value: string)
    ensures Said(line, config, section, option) == Some(value)
            <==> HasParts(line, Match(config, section, option, value))
  {
    MatchesIff(line, Match(config, section, option, value));
  }

  type Speaker = string -> Option<string>

  function About(config: string, section: string, option: Option<string>): Speaker {
    (line: string) => Said(line, config, section, option)
  }

  /** What the last line that says something says. */
  function LastSaid(lines: seq<string>, said: Speaker): Option<string> {
    if lines == [] then None
    else if said(lines[|lines| - 1]).Some? then said(lines[|lines| - 1])
    else LastSaid(lines[..|lines| - 1], said)
  }

  /** A line says `value`, and no line after it says anything. */
  ghost predicate SaidLast(lines: seq<string>, said: Speaker, value: string) {
    exists i | 0 <= i < |lines| :: said(lines[i]) == Some(value) && forall j | i < j < |lines| :: said(lines[j]).None?
  }

  lemma {:induction false} LastSaidIff(lines: seq<string>, said: Speaker, value: string)
    ensures LastSaid(lines, said) == Some(value) <==> SaidLast(lines, said, value)
  {
    if lines != [] {
      LastSaidIff(lines[..|lines| - 1], said, value);
      OneMoreSaid(lines, said, value);
    }
  }

  lemma OneMoreSaid(lines: seq<string>, said: Speaker, value: string)
    requires lines != []
    ensures var last := said(lines[|lines| - 1]);
            SaidLast(lines, said, value) <==>
            if last.Some? then last.value == value else SaidLast(lines[..|lines| - 1], said, value)
  {
    var n := |lines| - 1;
    var front := lines[..n];
    assert forall j | 0 <= j < n :: front[j] == lines[j];
    if SaidLast(lines, said, value) {
      var i :| 0 <= i <= n && said(lines[i]) == Some(value) && forall j | i < j <= n :: said(lines[j]).None?;
      if i < n { assert said(front[i]) == Some(value); }
    }
    if said(lines[n]).None? && SaidLast(front, said, value) {
      var i :| 0 <= i < n && said(front[i]) == Some(value) && forall j | i < j < n :: said(front[j]).None?;
      assert said(lines[i]) == Some(value);
    }
  }

  /** The section a line of this config is about. */
  function Named(line: string, config: string): Option<string> {
    var m := MatchLine(line);
    if m.Some? && m.value.config == config then Some(m.value.section) else None
  }

  /** The sections in the order of their first lines. */
  function Order(lines: seq<string>, config: string): seq<string> {
    if lines == [] then []
    else
      var front, name := Order(lines[..|lines| - 1], config), Named(lines[|lines| - 1], config);
      if name.Some? && name.value !in front then front + [name.value] else front
  }

  /** The sections of the answer are those named, each at its place in that order. */
  ghost predicate InItsPlace(sections: Sections, order: seq<string>) {
    && |sections| == |order|
    && (forall k :: k in sections <==> k in order)
    && (forall i | 0 <= i < |order| :: order[i] in sections && sections[order[i]].index == i)
  }

  lemma OneMoreLine(lines: seq<string>, config: string)
    requires lines != []
    ensures ApplyLines(map[], lines, config) ==
            ApplyLine(ApplyLines(map[], lines[..|lines| - 1], config), lines[|lines| - 1], config)
  {
    var n := |lines| - 1;
    ApplySplit(map[], lines[..n], [lines[n]], config);
    assert lines == lines[..n] + [lines[n]] && [lines[n]][1..] == [];
    var s := ApplyLines(map[], lines[..n], config);
    assert ApplyLines(s, [lines[n]], config) == ApplyLines(ApplyLine(s, lines[n], config), [], config);
  }

  lemma {:induction false} SectionsAreOrdered(lines: seq<string>, config: string)
    ensures InItsPlace(ApplyLines(map[], lines, config), Order(lines, config))
  {
    if lines != [] {
      var n := |lines| - 1;
      SectionsAreOrdered(lines[..n], config);
      OneMoreLine(lines, config);
      var m := MatchLine(lines[n]);
      if m.Some? && m.value.config == config {
        PlaceOne(ApplyLines(map[], lines[..n], config), Order(lines[..n], config), m.value);
      }
    }
  }

  lemma PlaceOne(sections: Sections, order: seq<string>, m: Match)
    requires InItsPlace(sections, order)
    ensures InItsPlace(Apply(sections, m), if m.section in order then order else order + [m.section])
  {
    if m.section in order {
      assert Apply(sections, m).Keys == sections.Keys;
    } else {
      assert Apply(sections, m).Keys == sections.Keys + {m.section};
    }
  }

  /** The type and the options of the section are what the last lines about them say. */
  ghost predicate SaysLast(sections: Sections, lines: seq<string>, config: string, k: string, o: string) {
    k in sections ==>
      var typ, option := LastSaid(lines, About(config, k, None)), LastSaid(lines, About(config, k, Some(o)));
      && sections[k].typ == (if typ.Some? then Some(ShowValue(typ.value)) else None)
      && (o in sections[k].options <==> option.Some?)
      && (option.Some? ==> sections[k].options[o] == ShowValue(option.value))
  }

  lemma {:induction false} NothingSaid(lines: seq<string>, config: string, k: string, option: Option<string>)
    requires k !in Order(lines, config)
    ensures LastSaid(lines, About(config, k, option)).None?
  {
    if lines != [] {
      NothingSaid(lines[..|lines| - 1], config, k, option);
    }
  }

  lemma {:induction false} LastLinesCount(lines: seq<string>, config: string, k: string, o: string)
    ensures SaysLast(ApplyLines(map[], lines, config), lines, config, k, o)
  {
    if lines != [] {
      var n := |lines| - 1;
      LastLinesCount(lines[..n], config, k, o);
      OneMoreLine(lines, config);
      SectionsAreOrdered(lines[..n], config);
      if k !in Order(lines[..n], config) {
        NothingSaid(lines[..n], config, k, None);
        NothingSaid(lines[..n], config, k, Some(o));
      }
      var s := ApplyLines(map[], lines[..n], config);
      var typ, option := LastSaid(lines[..n], About(config, k, None)), LastSaid(lines[..n], About(config, k, Some(o)));
      LineCounts(s, lines[n], config, k, o, typ, option);
    }
  }

  /** What one line changes about the type and one option of a section. */
  lemma LineCounts(s: Sections, line: string, config: string, k: string, o: string,
                   typ: Option<string>, option: Option<string>)
    requires k !in s ==> typ.None? && option.None?
    requires k in s ==> s[k].typ == (if typ.Some? then Some(ShowValue(typ.value)) else None)
                        && (o in s[k].options <==> option.Some?)
                        && (option.Some? ==> s[k].options[o] == ShowValue(option.value))
    ensures var t := ApplyLine(s, line, config);
            k in t ==>
              var saidTyp, saidOption := Said(line, config, k, None), Said(line, config, k, Some(o));
              var typNow := if saidTyp.Some? then saidTyp else typ;
              var optionNow := if saidOption.Some? then saidOption else option;
              && t[k].typ == (if typNow.Some? then Some(ShowValue(typNow.value)) else None)
              && (o in t[k].options <==> optionNow.Some?)
              && (optionNow.Some? ==> t[k].options[o] == ShowValue(optionNow.value))
  {
  }

  /** For any text: the answer has the sections that its lines of this config name, at their
      places in the order of first lines; and the type and every option of a section hold what the
      last line about them says, unquoted. */
  lemma AnswerIsTold(text: string, config: string, k: string, o: string, value: string)
    ensures InItsPlace(Parsed(text, config), Order(SplitLines(text), config))
    ensures k in Parsed(text, config) ==>
              (SaidLast(SplitLines(text), About(config, k, None), value) ==>
                 Parsed(text, config)[k].typ == Some(ShowValue(value)))
              && (SaidLast(SplitLines(text), About(config, k, Some(o)), value) ==>
                    o in Parsed(text, config)[k].options && Parsed(text, config)[k].options[o] == ShowValue(value))
    ensures k in Parsed(text, config) && o in Parsed(text, config)[k].options ==>
              exists v :: SaidLast(SplitLines(text), About(config, k, Some(o)), v)
  {
    var lines := SplitLines(text);
    SectionsAreOrdered(lines, config);
    LastLinesCount(lines, config, k, o);
    LastSaidIff(lines, About(config, k, None), value);
    LastSaidIff(lines, About(config, k, Some(o)), value);
    if LastSaid(lines, About(config, k, Some(o))).Some? {
      LastSaidIff(lines, About(config, k, Some(o)), LastSaid(lines, About(config, k, Some(o))).value);
    }
  }
}
