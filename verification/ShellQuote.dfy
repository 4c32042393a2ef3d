/**
 A key file's path as one word of the command git runs `ssh` with, and the shell that splits it.

 The shell is the quoting part of the POSIX Shell Command Language: a backslash (section 2.2.1),
 single quotes (2.2.2) and double quotes (2.2.3), with words ended by blanks and newlines.
 */
module ShellQuote {
  import opened Wrappers

  // ---- What is printed

  /** `text.replace('\'', r"'\''")`. */
  function Escaped(text: string): (r: string) {
    if text == "" then ""
    else (if text[0] == '\'' then "'\\''" else [text[0]]) + Escaped(text[1..])
  }

  function Quoted(path: string): (r: string) {
    "'" + Escaped(path) + "'"
  }

  datatype SshAuth = Agent | Key(path: string) | Command(command: string)

  function CommandOf(auth: SshAuth): (r: Option<string>) {
    match auth
    case Agent => None
    case Key(path) => Some("ssh -i " + Quoted(path) + " -o IdentitiesOnly=yes")
    case Command(command) => Some(command)
  }

  // ---- The shell

  datatype Mode = Plain | Single | InDouble

  /** Words finished, the word begun if there is one, and how the next character is read. */
  datatype Lexer = Lexer(words: seq<string>, word: Option<string>, mode: Mode)

  const START := Lexer([], None, Plain)

  predicate IsBlank(c: char) {
    c == ' ' || c == '\t' || c == '\n'
  }

  /** What a backslash still escapes between double quotes. */
  predicate EscapesInDouble(c: char) {
    c == '$' || c == '`' || c == '"' || c == '\\'
  }

  function Began(lexer: Lexer): (r: string) {
    if lexer.word.Some? then lexer.word.value else ""
  }

  function Adds(lexer: Lexer, text: string): (r: Lexer) {
    lexer.(word := Some(Began(lexer) + text))
  }

  function Ends(lexer: Lexer): (r: Lexer) {
    if lexer.word.Some? then Lexer(lexer.words + [lexer.word.value], None, lexer.mode) else lexer
  }

  /** The lexer at the end of the text; `None` when a quotation or an escape is left open. */
  function Lexed(lexer: Lexer, text: string): (r: Option<Lexer>)
    decreases |text|
  {
    if text == "" then
      if lexer.mode.Plain? then Some(lexer) else None
    else
      var c, rest := text[0], text[1..];
      match lexer.mode
      case Single =>
        Lexed(if c == '\'' then lexer.(mode := Plain) else Adds(lexer, [c]), rest)
      case InDouble =>
        if c == '"' then Lexed(lexer.(mode := Plain), rest)
        else if c == '\\' && rest != "" && rest[0] == '\n' then Lexed(lexer, rest[1..])
        else if c == '\\' && rest != "" && EscapesInDouble(rest[0]) then Lexed(Adds(lexer, [rest[0]]), rest[1..])
        else Lexed(Adds(lexer, [c]), rest)
      case Plain =>
        if c == '\'' then Lexed(Adds(lexer, "").(mode := Single), rest)
        else if c == '"' then Lexed(Adds(lexer, "").(mode := InDouble), rest)
        else if c == '\\' then
          if rest == "" then None
          else if rest[0] == '\n' then Lexed(lexer, rest[1..])
          else Lexed(Adds(lexer, [rest[0]]), rest[1..])
        else if IsBlank(c) then Lexed(Ends(lexer), rest)
        else Lexed(Adds(lexer, [c]), rest)
  }

  function Words(text: string): (r: Option<seq<string>>) {
    match Lexed(START, text)
    case None => None
    case Some(lexer) => Some(Ends(lexer).words)
  }

  // ---- What is printed is what is read

  /** Inside the quotation, an escaped text is read as the text, whatever it holds, and the quotation goes on. */
  lemma {:induction false} EscapedReadsBack(words: seq<string>, begun: string, text: string, rest: string)
    ensures Lexed(Lexer(words, Some(begun), Single), Escaped(text) + rest) ==
            Lexed(Lexer(words, Some(begun + text), Single), rest)
    decreases |text|
  {
    if text == "" {
      assert Escaped(text) + rest == rest && begun + text == begun;
    } else {
      var c, tail := text[0], Escaped(text[1..]) + rest;
      assert (begun + [c]) + text[1..] == begun + text;
      if c == '\'' {
        QuoteReadsBack(words, begun, tail);
        assert Escaped(text) + rest == "'\\''" + tail;
      } else {
        assert Escaped(text) + rest == [c] + tail;
        assert ([c] + tail)[1..] == tail;
      }
      EscapedReadsBack(words, begun + [c], text[1..], rest);
    }
  }

  /** Out of the quotation, one quote by itself, and back in. */
  lemma QuoteReadsBack(words: seq<string>, begun: string, tail: string)
    ensures Lexed(Lexer(words, Some(begun), Single), "'\\''" + tail) ==
            Lexed(Lexer(words, Some(begun + "'"), Single), tail)
  {
    var one, two, three, four := "'\\''" + tail, "\\''" + tail, "''" + tail, "'" + tail;
    assert one[1..] == two && two[1..] == three && three[1..] == four && four[1..] == tail;
    var inside, outside := Lexer(words, Some(begun), Single), Lexer(words, Some(begun), Plain);
    var quoted := Lexer(words, Some(begun + "'"), Plain);
    assert Lexed(inside, one) == Lexed(outside, two);
    assert two[0] == '\\' && three[0] == '\'' && Adds(outside, ['\'']) == quoted;
    assert Lexed(outside, two) == Lexed(quoted, two[1..][1..]);
    assert Adds(quoted, "") == quoted by { assert (begun + "'") + "" == begun + "'"; }
    assert Lexed(quoted, four) == Lexed(quoted.(mode := Single), tail);
  }

  /** A run of ordinary characters is read as itself. */
  predicate IsOrdinary(text: string) {
    forall i :: 0 <= i < |text| ==> text[i] !in {'\'', '"', '\\', ' ', '\t', '\n'}
  }

  lemma {:induction false} OrdinaryReadsBack(words: seq<string>, begun: string, text: string, rest: string)
    requires IsOrdinary(text)
    ensures Lexed(Lexer(words, Some(begun), Plain), text + rest) == Lexed(Lexer(words, Some(begun + text), Plain), rest)
    decreases |text|
  {
    if text == "" {
      assert text + rest == rest && begun + text == begun;
    } else {
      assert (text + rest)[1..] == text[1..] + rest;
      assert (begun + [text[0]]) + text[1..] == begun + text;
      OrdinaryReadsBack(words, begun + [text[0]], text[1..], rest);
    }
  }

  /** An ordinary word and the blank after it. */
  lemma WordReadsBack(words: seq<string>, word: string, rest: string)
    requires IsOrdinary(word) && word != ""
    ensures Lexed(Lexer(words, None, Plain), word + " " + rest) == Lexed(Lexer(words + [word], None, Plain), rest)
  {
    var text := word + " " + rest;
    assert text[1..] == word[1..] + (" " + rest);
    assert "" + [word[0]] == [word[0]] && [word[0]] + word[1..] == word;
    OrdinaryReadsBack(words, [word[0]], word[1..], " " + rest);
    assert (" " + rest)[1..] == rest;
  }

  /** A quoted path is exactly one word, the path, whatever characters the path holds. */
  lemma QuotedIsOneWord(words: seq<string>, path: string, rest: string)
    ensures Lexed(Lexer(words, None, Plain), Quoted(path) + rest) == Lexed(Lexer(words, Some(path), Plain), rest)
  {
    var inside := Escaped(path) + ("'" + rest);
    assert Quoted(path) + rest == "'" + inside && ("'" + inside)[1..] == inside;
    EscapedReadsBack(words, "", path, "'" + rest);
    assert "" + path == path;
    assert ("'" + rest)[1..] == rest;
  }

  /** The last word, with nothing after it. */
  lemma LastWord(words: seq<string>, word: string)
    requires IsOrdinary(word) && word != ""
    ensures Lexed(Lexer(words, None, Plain), word) == Some(Lexer(words, Some(word), Plain))
  {
    assert word[1..] + "" == word[1..];
    assert "" + [word[0]] == [word[0]] && [word[0]] + word[1..] == word;
    OrdinaryReadsBack(words, [word[0]], word[1..], "");
  }

  /** Two ordinary words, a quoted path and two more, as the shell splits them. */
  lemma FiveWords(a: string, b: string, path: string, c: string, d: string)
    requires IsOrdinary(a) && IsOrdinary(b) && IsOrdinary(c) && IsOrdinary(d)
    requires a != "" && b != "" && c != "" && d != ""
    ensures Words(a + " " + (b + " " + (Quoted(path) + (" " + (c + " " + d))))) == Some([a, b, path, c, d])
  {
    var options := c + " " + d;
    var after := " " + options;
    var three := [a, b, path];
    WordReadsBack([], a, b + " " + (Quoted(path) + after));
    assert [] + [a] == [a];
    WordReadsBack([a], b, Quoted(path) + after);
    assert [a] + [b] == [a, b];
    QuotedIsOneWord([a, b], path, after);
    assert [a, b] + [path] == three;
    BlankEnds([a, b], path, options);
    WordReadsBack(three, c, d);
    LastWord(three + [c], d);
    assert (three + [c]) + [d] == [a, b, path, c, d];
  }

  lemma BlankEnds(words: seq<string>, word: string, rest: string)
    ensures Lexed(Lexer(words, Some(word), Plain), " " + rest) == Lexed(Lexer(words + [word], None, Plain), rest)
  {
    assert (" " + rest)[1..] == rest;
  }

  /** The command the shell runs for a key: five words, the third of them the path. */
  lemma KeyIsOneArgument(path: string)
    ensures Words(CommandOf(Key(path)).value) == Some(["ssh", "-i", path, "-o", "IdentitiesOnly=yes"])
  {
    FiveWords("ssh", "-i", path, "-o", "IdentitiesOnly=yes");
    CommandIsFiveWords(path);
  }

  lemma CommandIsFiveWords(path: string)
    ensures CommandOf(Key(path)).value ==
            "ssh" + " " + ("-i" + " " + (Quoted(path) + (" " + ("-o" + " " + "IdentitiesOnly=yes"))))
  {
    var options := " " + ("-o" + " " + "IdentitiesOnly=yes");
    assert options == " -o IdentitiesOnly=yes";
    assert "ssh -i " + Quoted(path) + options == "ssh" + " " + ("-i" + " " + (Quoted(path) + options));
  }

  /** No two paths are quoted alike. */
  lemma QuotedTellsApart(path: string, other: string)
    requires Quoted(path) == Quoted(other)
    ensures path == other
  {
    QuotedIsOneWord([], path, "");
    QuotedIsOneWord([], other, "");
    assert Quoted(path) + "" == Quoted(other) + "";
  }
}
