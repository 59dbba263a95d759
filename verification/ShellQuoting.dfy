/**
 Quoting for a POSIX shell: `quote_device_shell_arg` of cli/src/config.rs and
 `shell_single_quote` of cli/src/cli.rs, read back by the quoting rules of
 section 2.2 of the POSIX.1-2017 Shell Command Language.
 */
module ShellQuoting {
  import opened Basics
  import opened Text

  // ---- the two quoters ------------------------------------------------------------

  /** `replace` of every apostrophe. */
  function Escaped(s: string, apostrophe: string): string {
    if s == "" then ""
    else (if s[0] == '\'' then apostrophe else [s[0]]) + Escaped(s[1..], apostrophe)
  }

  /** Leaves the single quotes for a double-quoted apostrophe. */
  const DOUBLE_QUOTED := "'\"'\"'"

  /** Leaves the single quotes for an escaped apostrophe. */
  const BACKSLASHED := "'\\''"

  function Quoted(value: string, apostrophe: string): string {
    "'" + Escaped(value, apostrophe) + "'"
  }

  function QuoteDeviceShellArg(value: string): string {
    Quoted(value, DOUBLE_QUOTED)
  }

  function ShellSingleQuote(value: string): string {
    Quoted(value, BACKSLASHED)
  }

  // ---- how a shell reads words -------------------------------------------------------

  datatype Mode = Bare | Single | Double

  /** Characters that mean something of their own outside quotes. */
  predicate IsSpecial(c: char) {
    c in ['|', '&', ';', '<', '>', '(', ')', '$', '`', '\n', '*', '?', '[', '#', '~', '=', '%', '\0']
  }

  predicate IsBlank(c: char) {
    c == ' ' || c == '\t'
  }

  function Finish(word: Option<string>): seq<string> {
    if word.Some? then [word.value] else []
  }

  function Grown(word: Option<string>, more: string): Option<string> {
    Some((if word.Some? then word.value else "") + more)
  }

  /**
   The words of `s`, after `words` and with `word` begun, or nothing when a quote is
   left open or a character calls for more than quote removal.
   */
  function Lex(s: string, mode: Mode, word: Option<string>, words: seq<string>): Option<seq<string>> {
    if s == "" then (if mode.Bare? then Some(words + Finish(word)) else None)
    else
      var c, rest := s[0], s[1..];
      match mode
      case Single =>
        if c == '\0' then None
        else if c == '\'' then Lex(rest, Bare, word, words)
        else Lex(rest, Single, Grown(word, [c]), words)
      case Double =>
        if c in ['$', '`', '\0'] then None
        else if c == '"' then Lex(rest, Bare, word, words)
        else if c == '\\' && rest != "" && rest[0] in ['$', '`', '"', '\\'] then
          Lex(rest[1..], Double, Grown(word, [rest[0]]), words)
        else if c == '\\' && rest != "" && rest[0] == '\n' then Lex(rest[1..], Double, word, words)
        else Lex(rest, Double, Grown(word, [c]), words)
      case Bare =>
        if c == '\'' then Lex(rest, Single, Grown(word, ""), words)
        else if c == '"' then Lex(rest, Double, Grown(word, ""), words)
        else if c == '\\' then
          if rest == "" || rest[0] == '\0' then None
          else if rest[0] == '\n' then Lex(rest[1..], Bare, word, words)
          else Lex(rest[1..], Bare, Grown(word, [rest[0]]), words)
        else if IsBlank(c) then Lex(rest, Bare, None, words + Finish(word))
        else if IsSpecial(c) then None
        else Lex(rest, Bare, Grown(word, [c]), words)
  }

  function WordsOf(s: string): Option<seq<string>> {
    Lex(s, Bare, None, [])
  }

  // ---- quoting round-trips --------------------------------------------------------------

  /** What is asked of the text that stands for an apostrophe. */
  ghost predicate StandsForApostrophe(code: string) {
    forall rest: string, word: string, words: seq<string> ::
      Lex(code + rest, Single, Some(word), words) == Lex(rest, Single, Some(word + "'"), words)
  }

  lemma DoubleQuotedStands()
    ensures StandsForApostrophe(DOUBLE_QUOTED)
  {
    forall rest: string, word: string, words: seq<string>
      ensures Lex(DOUBLE_QUOTED + rest, Single, Some(word), words) == Lex(rest, Single, Some(word + "'"), words)
    {
      var s := DOUBLE_QUOTED + rest;
      assert s[1..] == "\"'\"'" + rest && s[1..][1..] == "'\"'" + rest;
      assert s[1..][1..][1..] == "\"'" + rest && s[1..][1..][1..][1..] == "'" + rest;
      assert s[1..][1..][1..][1..][1..] == rest;
      assert word + "" == word && word + "'" + "" == word + "'";
      assert Lex(s, Single, Some(word), words) == Lex(s[1..], Bare, Some(word), words);
      assert Lex(s[1..], Bare, Some(word), words) == Lex(s[1..][1..], Double, Some(word), words);
      assert Lex(s[1..][1..], Double, Some(word), words) == Lex(s[1..][1..][1..], Double, Some(word + "'"), words);
      assert Lex(s[1..][1..][1..], Double, Some(word + "'"), words)
        == Lex(s[1..][1..][1..][1..], Bare, Some(word + "'"), words);
    }
  }

  lemma BackslashedStands()
    ensures StandsForApostrophe(BACKSLASHED)
  {
    forall rest: string, word: string, words: seq<string>
      ensures Lex(BACKSLASHED + rest, Single, Some(word), words) == Lex(rest, Single, Some(word + "'"), words)
    {
      var s := BACKSLASHED + rest;
      assert s[1..] == "\\''" + rest && s[1..][1..] == "''" + rest && s[1..][1..][1..] == "'" + rest;
      assert s[1..][1..][1..][1..] == rest;
      assert word + "'" + "" == word + "'";
      assert Lex(s, Single, Some(word), words) == Lex(s[1..], Bare, Some(word), words);
      assert Lex(s[1..], Bare, Some(word), words) == Lex(s[1..][1..][1..], Bare, Some(word + "'"), words);
    }
  }

  /** Inside single quotes the escaped text is read as the text itself. */
  lemma {:induction false} EscapedIsRead(s: string, code: string, rest: string, word: string, words: seq<string>)
    requires StandsForApostrophe(code) && '\0' !in s
    ensures Lex(Escaped(s, code) + rest, Single, Some(word), words) == Lex(rest, Single, Some(word + s), words)
  {
    hide StandsForApostrophe, Lex;
    if s == "" {
      assert Escaped(s, code) + rest == rest && word + s == word;
    } else {
      var c, more := s[0], Escaped(s[1..], code) + rest;
      EscapedIsRead(s[1..], code, rest, word + [c], words);
      assert word + [c] + s[1..] == word + s;
      if c == '\'' {
        assert Escaped(s, code) + rest == code + more;
        OneApostrophe(code, more, word, words);
      } else {
        assert Escaped(s, code) + rest == [c] + more;
        OneCharacter(c, more, word, words);
      }
    }
  }

  lemma OneApostrophe(code: string, rest: string, word: string, words: seq<string>)
    requires StandsForApostrophe(code)
    ensures Lex(code + rest, Single, Some(word), words) == Lex(rest, Single, Some(word + "'"), words)
  {
  }

  lemma OneCharacter(c: char, rest: string, word: string, words: seq<string>)
    requires c != '\'' && c != '\0'
    ensures Lex([c] + rest, Single, Some(word), words) == Lex(rest, Single, Some(word + [c]), words)
  {
    assert ([c] + rest)[1..] == rest;
  }

  lemma OpeningQuote(rest: string, words: seq<string>)
    ensures Lex("'" + rest, Bare, None, words) == Lex(rest, Single, Some(""), words)
  {
    assert ("'" + rest)[1..] == rest;
    var nothing: string := "";
    assert nothing + nothing == nothing;
    assert Grown(None, nothing) == Some(nothing);
  }

  lemma ClosingQuote(rest: string, word: string, words: seq<string>)
    ensures Lex("'" + rest, Single, Some(word), words) == Lex(rest, Bare, Some(word), words)
  {
    assert ("'" + rest)[1..] == rest;
  }

  /** A quoted text is read as itself, and the shell is back where it was. */
  lemma QuotedIsRead(s: string, code: string, rest: string, words: seq<string>)
    requires StandsForApostrophe(code) && '\0' !in s
    ensures Lex(Quoted(s, code) + rest, Bare, None, words) == Lex(rest, Bare, Some(s), words)
  {
    hide StandsForApostrophe, Escaped, Lex;
    var open := Escaped(s, code) + ("'" + rest);
    assert Quoted(s, code) + rest == "'" + open;
    OpeningQuote(open, words);
    EscapedIsRead(s, code, "'" + rest, "", words);
    assert "" + s == s;
    ClosingQuote(rest, s, words);
  }

  /** Either quoter gives exactly one word: the original. */
  lemma QuotersRoundTrip(value: string)
    requires '\0' !in value
    ensures WordsOf(QuoteDeviceShellArg(value)) == Some([value])
    ensures WordsOf(ShellSingleQuote(value)) == Some([value])
  {
    hide Escaped, StandsForApostrophe;
    DoubleQuotedStands();
    BackslashedStands();
    QuotedIsRead(value, DOUBLE_QUOTED, "", []);
    QuotedIsRead(value, BACKSLASHED, "", []);
    assert QuoteDeviceShellArg(value) + "" == QuoteDeviceShellArg(value);
    assert ShellSingleQuote(value) + "" == ShellSingleQuote(value);
    assert [] + [value] == [value];
  }

  function QuotedAll(values: seq<string>, code: string): seq<string> {
    seq(|values|, i requires 0 <= i < |values| => Quoted(values[i], code))
  }

  /** Quoted words put side by side with a space are read back as the list. */
  lemma {:induction false} CommandLineRoundTrip(values: seq<string>, code: string, words: seq<string>)
    requires StandsForApostrophe(code) && forall v :: v in values ==> '\0' !in v
    ensures Lex(Join(QuotedAll(values, code), ' '), Bare, None, words) == Some(words + values)
    decreases |values|
  {
    hide StandsForApostrophe, Escaped, Lex;
    var all := QuotedAll(values, code);
    if values == [] {
      LexEnds(None, words);
      assert words + [] == words;
    } else {
      HeadAndTail(values);
      assert all[1..] == QuotedAll(values[1..], code);
      if |values| == 1 {
        QuotedIsRead(values[0], code, "", words);
        LexEnds(Some(values[0]), words);
        assert all[0] + "" == all[0] && values == [values[0]];
      } else {
        var tail := Join(all[1..], ' ');
        QuotedIsRead(values[0], code, [' '] + tail, words);
        assert Join(all, ' ') == all[0] + ([' '] + tail);
        BlankEndsWord(tail, values[0], words);
        CommandLineRoundTrip(values[1..], code, words + [values[0]]);
        assert words + [values[0]] + values[1..] == words + values;
      }
    }
  }

  lemma LexEnds(word: Option<string>, words: seq<string>)
    ensures Lex("", Bare, word, words) == Some(words + Finish(word))
  {
  }

  lemma BlankEndsWord(rest: string, word: string, words: seq<string>)
    ensures Lex([' '] + rest, Bare, Some(word), words) == Lex(rest, Bare, None, words + [word])
  {
    assert ([' '] + rest)[1..] == rest;
  }

  lemma CommandLinesRoundTrip(values: seq<string>)
    requires forall v :: v in values ==> '\0' !in v
    ensures WordsOf(Join(QuotedAll(values, DOUBLE_QUOTED), ' ')) == Some(values)
    ensures WordsOf(Join(QuotedAll(values, BACKSLASHED), ' ')) == Some(values)
  {
    hide StandsForApostrophe, Lex, QuotedAll;
    DoubleQuotedStands();
    BackslashedStands();
    CommandLineRoundTrip(values, DOUBLE_QUOTED, []);
    CommandLineRoundTrip(values, BACKSLASHED, []);
    assert [] + values == values;
  }
}
