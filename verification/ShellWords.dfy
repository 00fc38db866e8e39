/** Splitting a string into words the way Python's `shlex.split` does.

    The rules are those of POSIX shell quoting: section 2.2 (Quoting) of the Shell Command
    Language, POSIX.1-2017. `Lex` reads one character after the other in one of four modes;
    `QuoteWords` is the inverse that uci uses for printing, single quotes around every word
    and a quote inside a word written as close, escaped quote, reopen. */
module ShellWords {
  import opened Options

  datatype Mode = Space | Word | Quote(mark: char) | Escape(inQuotes: bool)

  predicate IsBlank(c: char) {
    c in {' ', '\t', '\r', '\n'}
  }

  predicate IsQuote(c: char) {
    c == '\'' || c == '"'
  }

  const BACKSLASH := '\\'

  /** Reads `s` on from a mode, an unfinished word (`quoted` when quotes opened it) and
      finished words. None is the error for an unbalanced quote or a final backslash. */
  function Lex(s: string, mode: Mode, word: string, quoted: bool, words: seq<string>): Option<seq<string>>
    decreases |s|
  {
    if s == "" then
      match mode
      case Space => Some(words)
      case Word => Some(if word != "" || quoted then words + [word] else words)
      case _ => None
    else
      var c, rest := s[0], s[1..];
      match mode
      case Space =>
        if IsBlank(c) then Lex(rest, Space, "", false, words)
        else if c == BACKSLASH then Lex(rest, Escape(false), "", false, words)
        else if IsQuote(c) then Lex(rest, Quote(c), "", true, words)
        else Lex(rest, Word, [c], false, words)
      case Word =>
        if IsBlank(c) then Lex(rest, Space, "", false, if word != "" || quoted then words + [word] else words)
        else if IsQuote(c) then Lex(rest, Quote(c), word, true, words)
        else if c == BACKSLASH then Lex(rest, Escape(false), word, quoted, words)
        else Lex(rest, Word, word + [c], quoted, words)
      case Quote(mark) =>
        if c == mark then Lex(rest, Word, word, quoted, words)
        else if c == BACKSLASH && mark == '"' then Lex(rest, Escape(true), word, quoted, words)
        else Lex(rest, mode, word + [c], quoted, words)
      case Escape(inQuotes) =>
        if !inQuotes then Lex(rest, Word, word + [c], quoted, words)
        else if c == BACKSLASH || c == '"' then Lex(rest, Quote('"'), word + [c], quoted, words)
        else Lex(rest, Quote('"'), word + [BACKSLASH, c], quoted, words)
  }

  function Split(s: string): Option<seq<string>> {
    Lex(s, Space, "", false, [])
  }

  /** A word in single quotes; a quote inside is written as: close, escaped quote, reopen. */
  function QuoteRest(w: string): string {
    if w == "" then "'"
    else (if w[0] == '\'' then ['\'', BACKSLASH, '\'', '\''] else [w[0]]) + QuoteRest(w[1..])
  }

  function QuoteWord(w: string): string {
    "'" + QuoteRest(w)
  }

  function QuoteWords(ws: seq<string>): string {
    if ws == [] then "" else if |ws| == 1 then QuoteWord(ws[0]) else QuoteWord(ws[0]) + " " + QuoteWords(ws[1..])
  }

  /** A quote inside a quoted word: close, escaped quote, reopen. */
  lemma LexEscapedQuote(rest: string, word: string, words: seq<string>)
    ensures Lex(['\'', BACKSLASH, '\'', '\''] + rest, Quote('\''), word, true, words) ==
            Lex(rest, Quote('\''), word + ['\''], true, words)
  {
    var s0 := ['\'', BACKSLASH, '\'', '\''] + rest;
    var s1, s2, s3 := s0[1..], s0[2..], s0[3..];
    assert s1[1..] == s2 && s2[1..] == s3 && s3[1..] == rest;
    assert Lex(s3, Word, word + ['\''], true, words) == Lex(rest, Quote('\''), word + ['\''], true, words);
    assert Lex(s2, Escape(false), word, true, words) == Lex(s3, Word, word + ['\''], true, words);
    assert Lex(s1, Word, word, true, words) == Lex(s2, Escape(false), word, true, words);
  }

  lemma {:induction false} LexQuoteRest(w: string, rest: string, word: string, words: seq<string>)
    ensures Lex(QuoteRest(w) + rest, Quote('\''), word, true, words) == Lex(rest, Word, word + w, true, words)
  {
    if w == "" {
      assert QuoteRest(w) + rest == ['\''] + rest;
      assert word + w == word;
    } else if w[0] == '\'' {
      var more := QuoteRest(w[1..]) + rest;
      assert QuoteRest(w) + rest == ['\'', BACKSLASH, '\'', '\''] + more;
      LexEscapedQuote(more, word, words);
      LexQuoteRest(w[1..], rest, word + ['\''], words);
      assert word + ['\''] + w[1..] == word + w;
    } else {
      assert (QuoteRest(w) + rest)[1..] == QuoteRest(w[1..]) + rest;
      LexQuoteRest(w[1..], rest, word + [w[0]], words);
      assert word + [w[0]] + w[1..] == word + w;
    }
  }

  lemma LexQuoteWord(w: string, rest: string, words: seq<string>)
    ensures Lex(QuoteWord(w) + rest, Space, "", false, words) == Lex(rest, Word, w, true, words)
  {
    assert (QuoteWord(w) + rest)[1..] == QuoteRest(w) + rest;
    LexQuoteRest(w, rest, "", words);
    assert "" + w == w;
  }

  lemma {:induction false} LexQuoteWords(ws: seq<string>, words: seq<string>)
    ensures Lex(QuoteWords(ws), Space, "", false, words) == Some(words + ws)
  {
    if |ws| == 0 {
      assert words + ws == words;
    } else if |ws| == 1 {
      LexQuoteWord(ws[0], "", words);
      assert QuoteWord(ws[0]) + "" == QuoteWord(ws[0]);
      assert words + [ws[0]] == words + ws;
    } else {
      var rest := " " + QuoteWords(ws[1..]);
      assert QuoteWords(ws) == QuoteWord(ws[0]) + rest;
      LexQuoteWord(ws[0], rest, words);
      assert rest[1..] == QuoteWords(ws[1..]);
      LexQuoteWords(ws[1..], words + [ws[0]]);
      assert words + [ws[0]] + ws[1..] == words + ws;
    }
  }

  /** Quoting and splitting are inverse, for any words at all. */
  lemma SplitUndoesQuoting(ws: seq<string>)
    ensures Split(QuoteWords(ws)) == Some(ws)
  {
    LexQuoteWords(ws, []);
    assert [] + ws == ws;
  }

  predicate Plain(w: string) {
    w != "" && forall c | c in w :: !IsBlank(c) && !IsQuote(c) && c != BACKSLASH
  }

  lemma TailIsInside(w: string)
    requires w != ""
    ensures w[0] in w && forall c | c in w[1..] :: c in w
  {
    assert w == [w[0]] + w[1..];
  }

  lemma {:induction false} LexPlain(w: string, word: string)
    requires word != "" && forall c | c in w :: !IsBlank(c) && !IsQuote(c) && c != BACKSLASH
    ensures Lex(w, Word, word, false, []) == Some([word + w])
  {
    if w == "" {
      assert word + w == word && [] + [word] == [word];
    } else {
      TailIsInside(w);
      LexPlain(w[1..], word + [w[0]]);
      assert word + [w[0]] + w[1..] == word + w;
    }
  }

  lemma SplitPlain(w: string)
    requires Plain(w)
    ensures Split(w) == Some([w])
  {
    TailIsInside(w);
    LexPlain(w[1..], [w[0]]);
    assert [w[0]] + w[1..] == w;
  }

  // -------------------------------------------------------- double quotes

  /** A word in double quotes, its double quotes and backslashes escaped. */
  function DoubleRest(w: string): string {
    if w == "" then "\""
    else (if w[0] == '"' || w[0] == BACKSLASH then [BACKSLASH, w[0]] else [w[0]]) + DoubleRest(w[1..])
  }

  /** Inside double quotes a backslash escapes the double quote and itself, and stays before any
      other character. */
  lemma LexEscapeInDouble(c: char, rest: string, word: string, words: seq<string>)
    ensures Lex([BACKSLASH, c] + rest, Quote('"'), word, true, words) ==
            Lex(rest, Quote('"'), word + if c == '"' || c == BACKSLASH then [c] else [BACKSLASH, c], true, words)
  {
    var s0 := [BACKSLASH, c] + rest;
    var s1 := s0[1..];
    assert s1[0] == c && s1[1..] == rest;
    assert Lex(s0, Quote('"'), word, true, words) == Lex(s1, Escape(true), word, true, words);
  }

  lemma {:induction false} LexDoubleRest(w: string, word: string)
    ensures Lex(DoubleRest(w), Quote('"'), word, true, []) == Some([word + w])
  {
    if w == "" {
      assert DoubleRest(w)[1..] == "";
      assert word + w == word && [] + [word] == [word];
    } else if w[0] == '"' || w[0] == BACKSLASH {
      LexEscapeInDouble(w[0], DoubleRest(w[1..]), word, []);
      LexDoubleRest(w[1..], word + [w[0]]);
      assert word + [w[0]] + w[1..] == word + w;
    } else {
      assert DoubleRest(w)[1..] == DoubleRest(w[1..]);
      LexDoubleRest(w[1..], word + [w[0]]);
      assert word + [w[0]] + w[1..] == word + w;
    }
  }

  /** Any word in double quotes is read back, too. */
  lemma SplitDoubleQuoted(w: string)
    ensures Split("\"" + DoubleRest(w)) == Some([w])
  {
    assert ("\"" + DoubleRest(w))[1..] == DoubleRest(w);
    LexDoubleRest(w, "");
    assert "" + w == w;
  }
}
