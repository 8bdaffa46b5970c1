// Single-quote escaping for remote shell commands (apps/load-tests/src/cli/infra.ts),
// read back by the quoting rules of the POSIX.1-2017 Shell Command Language,
// sections 2.2.1 (backslash), 2.2.2 (single quotes) and 2.3 (token recognition).

module ShellQuoting {

  /** Replaces every ' by '\'' . */
  function Escape(s: string): string {
    if s == "" then "" else (if s[0] == '\'' then "'\\''" else [s[0]]) + Escape(s[1..])
  }

  function Quote(s: string): string { "'" + Escape(s) + "'" }

  // Where the reader stands: outside quotes, right after an unquoted backslash, or inside '...'.
  datatype Mode = Plain | Backslash | Single

  datatype Word = NoWord | InWord(text: string)

  datatype Reader = Reader(mode: Mode, words: seq<string>, current: Word)

  function Append(w: Word, c: char): Word {
    if w.NoWord? then InWord([c]) else InWord(w.text + [c])
  }

  // A quote starts a word even if nothing is inside it.
  function Open(w: Word): Word { if w.NoWord? then InWord("") else w }

  predicate Blank(c: char) { c == ' ' || c == '\t' || c == '\n' }

  function Read(r: Reader, c: char): Reader {
    match r.mode
    case Single => if c == '\'' then r.(mode := Plain) else r.(current := Append(r.current, c))
    case Backslash =>
      // 2.2.1: a backslash before a newline is a line continuation; otherwise it preserves the character.
      if c == '\n' then r.(mode := Plain) else r.(mode := Plain, current := Append(r.current, c))
    case Plain =>
      if c == '\'' then r.(mode := Single, current := Open(r.current))
      else if c == '\\' then r.(mode := Backslash)
      else if Blank(c) then
        if r.current.NoWord? then r else Reader(Plain, r.words + [r.current.text], NoWord)
      else r.(current := Append(r.current, c))
  }

  function ReadAll(r: Reader, s: string): Reader
    decreases |s|
  {
    if s == "" then r else ReadAll(Read(r, s[0]), s[1..])
  }

  const START := Reader(Plain, [], NoWord)

  function Words(r: Reader): seq<string> {
    if r.current.NoWord? then r.words else r.words + [r.current.text]
  }

  function TextOf(w: Word): string { if w.NoWord? then "" else w.text }

  lemma {:induction false} ReadAllConcat(r: Reader, s: string, t: string)
    ensures ReadAll(r, s + t) == ReadAll(ReadAll(r, s), t)
    decreases |s|
  {
    if s == "" {
      assert s + t == t;
    } else {
      assert (s + t)[0] == s[0] && (s + t)[1..] == s[1..] + t;
      ReadAllConcat(Read(r, s[0]), s[1..], t);
    }
  }

  lemma ReadStep(r: Reader, c: char, t: string)
    ensures ReadAll(r, [c] + t) == ReadAll(Read(r, c), t)
  {
    assert ([c] + t)[1..] == t;
  }

  lemma ReadTwo(r: Reader, c: char, d: char, t: string)
    ensures ReadAll(r, [c, d] + t) == ReadAll(Read(Read(r, c), d), t)
  {
    assert [c, d] + t == [c] + ([d] + t);
    ReadStep(r, c, [d] + t);
    ReadStep(Read(r, c), d, t);
  }

  // '\'' read inside quotes: close, escaped quote, open again.
  lemma ReadEscapedQuote(r: Reader, t: string)
    requires r.mode.Single? && r.current.InWord?
    ensures ReadAll(r, "'\\''" + t) == ReadAll(r.(current := Append(r.current, '\'')), t)
  {
    var rest := ['\'', '\''] + t;
    assert "'\\''" + t == ['\'', '\\'] + rest;
    ReadTwo(r, '\'', '\\', rest);
    var escaping, again := r.(mode := Backslash), r.(mode := Plain, current := Append(r.current, '\''));
    assert Read(Read(r, '\''), '\\') == escaping;
    assert Read(escaping, '\'') == again && Read(again, '\'') == again.(mode := Single);
    ReadTwo(escaping, '\'', '\'', t);
  }

  lemma {:induction false} ReadEscaped(r: Reader, s: string)
    requires r.mode.Single? && r.current.InWord?
    ensures ReadAll(r, Escape(s)) == r.(current := InWord(r.current.text + s))
    decreases |s|
  {
    if s == "" {
      assert r.current.text + s == r.current.text;
    } else {
      var next := r.(current := Append(r.current, s[0]));
      if s[0] == '\'' {
        ReadEscapedQuote(r, Escape(s[1..]));
      } else {
        ReadStep(r, s[0], Escape(s[1..]));
      }
      ReadEscaped(next, s[1..]);
      assert next.current.text + s[1..] == r.current.text + s;
    }
  }

  /** Wherever a quoted argument is inserted outside quotes, the shell appends exactly the
      original text to the current word and is outside quotes again. */
  lemma QuoteInContext(r: Reader, s: string)
    requires r.mode.Plain?
    ensures ReadAll(r, Quote(s)) == r.(current := InWord(TextOf(r.current) + s))
  {
    var r1 := Read(r, '\'');
    assert Quote(s) == ['\''] + (Escape(s) + "'");
    ReadStep(r, '\'', Escape(s) + "'");
    ReadAllConcat(r1, Escape(s), "'");
    ReadEscaped(r1, s);
    ReadStep(r1.(current := InWord(r1.current.text + s)), '\'', "");
    assert ['\''] + "" == "'";
  }

  /** Round trip: a quoted string is read back as one word, itself, with the quotes closed. */
  lemma QuoteRoundTrip(s: string)
    ensures Words(ReadAll(START, Quote(s))) == [s]
    ensures ReadAll(START, Quote(s)).mode.Plain?
  {
    QuoteInContext(START, s);
    assert "" + s == s;
  }

  lemma {:induction false} ReadUnescaped(r: Reader, s: string)
    requires r.mode.Single? && r.current.InWord? && '\'' !in s
    ensures ReadAll(r, s) == r.(current := InWord(r.current.text + s))
    decreases |s|
  {
    if s == "" {
      assert r.current.text + s == r.current.text;
    } else {
      var next := Read(r, s[0]);
      ReadUnescaped(next, s[1..]);
      assert next.current.text + s[1..] == r.current.text + s;
    }
  }

  // How many characters the words read so far hold.
  function Size(words: seq<string>): nat {
    if words == [] then 0 else Size(words[..|words| - 1]) + |words[|words| - 1]|
  }

  function Chars(r: Reader): nat { Size(r.words) + |TextOf(r.current)| }

  // A pending backslash is a character read but not yet kept.
  function Held(r: Reader): nat { Chars(r) + if r.mode.Backslash? then 1 else 0 }

  lemma {:induction false} ReadAddsAtMost(r: Reader, s: string)
    ensures Held(ReadAll(r, s)) <= Held(r) + |s|
    decreases |s|
  {
    if s != "" {
      var next := Read(r, s[0]);
      if next.words != r.words {
        assert next.words[..|next.words| - 1] == r.words;
      }
      ReadAddsAtMost(next, s[1..]);
    }
  }

  lemma {:induction false} SplitAtQuote(s: string) returns (pre: string, post: string)
    requires '\'' in s
    ensures s == pre + "'" + post && '\'' !in pre
  {
    if s[0] == '\'' {
      pre, post := "", s[1..];
    } else {
      var p, q := SplitAtQuote(s[1..]);
      pre, post := [s[0]] + p, q;
      assert s == [s[0]] + s[1..];
    }
  }

  // The reader after a bare '...' around s.
  function ReadBare(s: string): Reader { ReadAll(START, "'" + s + "'") }

  lemma BareQuotesKeepQuoteFree(s: string)
    requires '\'' !in s
    ensures ReadBare(s) == Reader(Plain, [], InWord(s))
  {
    var inside := Read(START, '\'');
    assert "'" + s + "'" == ['\''] + (s + "'");
    ReadStep(START, '\'', s + "'");
    ReadAllConcat(inside, s, "'");
    ReadUnescaped(inside, s);
    ReadStep(inside.(current := InWord(s)), '\'', "");
    assert ['\''] + "" == "'";
    assert "" + s == s;
  }

  // A quote in s is lost, so the words hold fewer characters than s unless the reader ends inside quotes.
  lemma BareQuotesLoseAQuote(s: string, pre: string, post: string)
    requires s == pre + "'" + post && '\'' !in pre
    ensures ReadBare(s).mode.Plain? ==> Chars(ReadBare(s)) < |s|
  {
    var inside := Read(START, '\'');
    assert "'" + s + "'" == ['\''] + (pre + (['\''] + (post + "'")));
    ReadStep(START, '\'', pre + (['\''] + (post + "'")));
    ReadAllConcat(inside, pre, ['\''] + (post + "'"));
    ReadUnescaped(inside, pre);
    var closed := Read(inside.(current := InWord("" + pre)), '\'');
    ReadStep(inside.(current := InWord("" + pre)), '\'', post + "'");
    assert Chars(closed) == |pre|;
    ReadAllConcat(closed, post, "'");
    var last := ReadAll(closed, post);
    ReadAddsAtMost(closed, post);
    ReadStep(last, '\'', "");
    assert ['\''] + "" == "'";
    assert ReadBare(s) == Read(last, '\'');
  }

  /** Escaping is needed exactly for strings that hold a quote: bare '...' around s reads back as
      the one word s, with the quotes closed, if and only if s contains no quote. */
  lemma BareQuotesRoundTripIff(s: string)
    ensures ReadBare(s).mode.Plain? && ReadBare(s).current.InWord? && Words(ReadBare(s)) == [s] <==> '\'' !in s
  {
    if '\'' !in s {
      BareQuotesKeepQuoteFree(s);
    } else {
      var pre, post := SplitAtQuote(s);
      BareQuotesLoseAQuote(s, pre, post);
      var r := ReadBare(s);
      if r.current.InWord? && Words(r) == [s] {
        assert Words(r)[..|Words(r)| - 1] == r.words;
        assert r.words == [] && r.current.text == s;
      }
    }
  }
}
