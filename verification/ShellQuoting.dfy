/** Quoting for the POSIX shell, and the tokeniser that undoes it. */
module ShellQuoting {
  import opened Basics
  import opened Strings

  /** strings.ReplaceAll(value, "'", "'\\''") */
  function Escaped(value: string): string {
    if value == "" then ""
    else EscapedChar(value[0]) + Escaped(value[1..])
  }

  function EscapedChar(c: char): string {
    if c == '\'' then "'\\''" else [c]
  }

  function ShellQuote(value: string): string {
    if value == "" then "''" else "'" + Escaped(value) + "'"
  }

  // ---- Token recognition: sections 2.2.1, 2.2.2 and 2.3 of POSIX.1-2017 -----------------

  datatype Token = Word(text: string) | Pipe

  predicate Blank(c: char) {
    c == ' ' || c == '\t'
  }

  /** Characters that outside quotes do more than stand for themselves (section 2.2). The
      tokeniser gives up on them, except for blanks, quotes, backslash and a single `|`. */
  predicate Special(c: char) {
    c in "|&;<>()$`\\\"' \t\n*?[#~"
  }

  function Text(word: Option<string>): string {
    match word
    case None => ""
    case Some(text) => text
  }

  function Flush(done: seq<Token>, word: Option<string>): seq<Token> {
    match word
    case None => done
    case Some(text) => done + [Word(text)]
  }

  /** Reading on with `done` finished tokens and the current word, inside or outside
      single quotes. */
  function Scan(s: string, quoted: bool, word: Option<string>, done: seq<Token>): Option<seq<Token>>
    decreases |s|
  {
    if s == "" then
      if quoted then None else Some(Flush(done, word))
    else if quoted then
      if s[0] == '\'' then Scan(s[1..], false, word, done)
      else Scan(s[1..], true, Some(Text(word) + [s[0]]), done)
    else if s[0] == '\'' then Scan(s[1..], true, Some(Text(word)), done)
    else if s[0] == '\\' then
      if |s| == 1 then None
      else if s[1] == '\n' then Scan(s[2..], false, word, done)
      else Scan(s[2..], false, Some(Text(word) + [s[1]]), done)
    else if Blank(s[0]) then Scan(s[1..], false, None, Flush(done, word))
    else if s[0] == '|' then
      if |s| > 1 && s[1] == '|' then None else Scan(s[1..], false, None, Flush(done, word) + [Pipe])
    else if Special(s[0]) then None
    else Scan(s[1..], false, Some(Text(word) + [s[0]]), done)
  }

  function Tokenise(s: string): Option<seq<Token>> {
    Scan(s, false, None, [])
  }

  // ---- Quoting is undone -----------------------------------------------------------------

  lemma {:induction false} EscapedScans(value: string, rest: string, word: string, done: seq<Token>)
    ensures Scan(Escaped(value) + ("'" + rest), true, Some(word), done) == Scan(rest, false, Some(word + value), done)
    decreases |value|
  {
    var tail := "'" + rest;
    if value == "" {
      EscapedEnds(value, rest, word, done);
    } else {
      var c, after := value[0], Escaped(value[1..]) + tail;
      EscapedSplits(value, tail);
      EscapedCharScans(c, after, word, done);
      EscapedScans(value[1..], rest, word + [c], done);
      WordGrows(word, value);
    }
  }

  lemma EscapedEnds(value: string, rest: string, word: string, done: seq<Token>)
    requires value == ""
    ensures Scan(Escaped(value) + ("'" + rest), true, Some(word), done) == Scan(rest, false, Some(word + value), done)
  {
    var tail := "'" + rest;
    assert Escaped(value) + tail == tail && tail[1..] == rest && word + value == word;
  }

  lemma WordGrows(word: string, value: string)
    requires value != ""
    ensures word + [value[0]] + value[1..] == word + value
  {
  }

  lemma EscapedSplits(value: string, tail: string)
    requires value != ""
    ensures Escaped(value) + tail == EscapedChar(value[0]) + (Escaped(value[1..]) + tail)
  {
  }

  lemma EscapedCharScans(c: char, after: string, word: string, done: seq<Token>)
    ensures Scan(EscapedChar(c) + after, true, Some(word), done) == Scan(after, true, Some(word + [c]), done)
  {
    if c == '\'' {
      EscapedQuoteScans(after, word, done);
    } else {
      assert ([c] + after)[1..] == after;
    }
  }

  /** Closing the quotes, an escaped quote, and opening them again. */
  lemma EscapedQuoteScans(after: string, word: string, done: seq<Token>)
    ensures Scan("'\\''" + after, true, Some(word), done) == Scan(after, true, Some(word + "'"), done)
  {
    var s := "'\\''" + after;
    var closed, reopening := "\\''" + after, "'" + after;
    assert s[1..] == closed && closed[2..] == reopening && reopening[1..] == after;
    assert Scan(s, true, Some(word), done) == Scan(closed, false, Some(word), done);
    assert closed[1] == '\'' && word + [closed[1]] == word + "'";
    assert Scan(closed, false, Some(word), done) == Scan(reopening, false, Some(word + "'"), done);
  }

  lemma QuoteScans(value: string, rest: string, word: Option<string>, done: seq<Token>)
    ensures Scan(ShellQuote(value) + rest, false, word, done) == Scan(rest, false, Some(Text(word) + value), done)
  {
    var inside := Escaped(value) + ("'" + rest);
    assert ShellQuote(value) + rest == "'" + inside;
    assert ("'" + inside)[1..] == inside;
    EscapedScans(value, rest, Text(word), done);
  }

  /** Text that needs no quotes. */
  predicate Bare(text: string) {
    forall k :: 0 <= k < |text| ==> !Special(text[k]) && !IsSpace(text[k])
  }

  predicate WordChar(c: char) {
    'a' <= c <= 'z' || 'A' <= c <= 'Z' || '0' <= c <= '9' || c == '-' || c == '_' || c == '.' || c == ':' ||
      c == '/' || c == '='
  }

  /** The fixed words of the commands. */
  predicate FixedWord(text: string) {
    text != "" && forall k :: 0 <= k < |text| ==> WordChar(text[k])
  }

  lemma FixedWordsAreBare(text: string)
    requires FixedWord(text)
    ensures Bare(text)
  {
    forall k | 0 <= k < |text| ensures !Special(text[k]) && !IsSpace(text[k]) {
      WordCharsAreOrdinary(text[k]);
    }
  }

  lemma WordCharsAreOrdinary(c: char)
    requires WordChar(c)
    ensures !Special(c) && !IsSpace(c)
  {
  }

  lemma {:induction false} BareScans(text: string, rest: string, word: Option<string>, done: seq<Token>)
    requires Bare(text) && text != ""
    ensures Scan(text + rest, false, word, done) == Scan(rest, false, Some(Text(word) + text), done)
    decreases |text|
  {
    var after := text[1..] + rest;
    assert text + rest == [text[0]] + after;
    BareCharScans(text[0], after, word, done);
    if |text| > 1 {
      BareScans(text[1..], rest, Some(Text(word) + [text[0]]), done);
      assert Text(word) + [text[0]] + text[1..] == Text(word) + text;
    } else {
      assert after == rest && text == [text[0]];
    }
  }

  lemma BareCharScans(c: char, after: string, word: Option<string>, done: seq<Token>)
    requires !Special(c)
    ensures Scan([c] + after, false, word, done) == Scan(after, false, Some(Text(word) + [c]), done)
  {
    assert ([c] + after)[1..] == after;
  }

  // ---- Scripts made of pieces --------------------------------------------------------------

  /** What the command builders put between two spaces. */
  datatype Piece =
    | Plain(text: string)
    | Quoted(prefix: string, value: string)
    | PipeSign
    | Nothing

  predicate ValidPiece(piece: Piece) {
    match piece
    case Plain(text) => text != "" && Bare(text)
    case Quoted(prefix, _) => Bare(prefix)
    case PipeSign => true
    case Nothing => true
  }

  function Source(piece: Piece): string {
    match piece
    case Plain(text) => text
    case Quoted(prefix, value) => prefix + ShellQuote(value)
    case PipeSign => "|"
    case Nothing => ""
  }

  function TokensOf(piece: Piece): seq<Token> {
    match piece
    case Plain(text) => [Word(text)]
    case Quoted(prefix, value) => [Word(prefix + value)]
    case PipeSign => [Pipe]
    case Nothing => []
  }

  predicate AllValid(pieces: seq<Piece>) {
    forall k :: 0 <= k < |pieces| ==> ValidPiece(pieces[k])
  }

  function Sources(pieces: seq<Piece>): (sources: seq<string>)
    ensures |sources| == |pieces| && forall k :: 0 <= k < |pieces| ==> sources[k] == Source(pieces[k])
  {
    if pieces == [] then [] else [Source(pieces[0])] + Sources(pieces[1..])
  }

  function Meaning(pieces: seq<Piece>): seq<Token> {
    if pieces == [] then [] else TokensOf(pieces[0]) + Meaning(pieces[1..])
  }

  /** A piece that ends at a space or at the end of the script is read as its tokens. */
  lemma PieceScans(piece: Piece, rest: string, done: seq<Token>)
    requires ValidPiece(piece) && (rest == "" || rest[0] == ' ')
    ensures Scan(Source(piece) + rest, false, None, done) == Scan(rest, false, None, done + TokensOf(piece))
  {
    match piece
    case Plain(text) =>
      BareScans(text, rest, None, done);
      assert "" + text == text;
      WordEnds(text, rest, done);
    case Quoted(prefix, value) =>
      QuotedPieceScans(prefix, value, rest, done);
    case PipeSign =>
      assert ("|" + rest)[1..] == rest;
    case Nothing =>
      assert "" + rest == rest && done + [] == done;
  }

  lemma QuotedPieceScans(prefix: string, value: string, rest: string, done: seq<Token>)
    requires Bare(prefix) && (rest == "" || rest[0] == ' ')
    ensures Scan(prefix + ShellQuote(value) + rest, false, None, done) ==
            Scan(rest, false, None, done + [Word(prefix + value)])
  {
    var word := if prefix == "" then None else Some(prefix);
    var quote := ShellQuote(value) + rest;
    assert prefix + ShellQuote(value) + rest == prefix + quote;
    if prefix == "" {
      assert prefix + quote == quote;
    } else {
      BareScans(prefix, quote, None, done);
      assert "" + prefix == prefix;
    }
    QuoteScans(value, rest, word, done);
    assert Text(word) + value == prefix + value;
    WordEnds(prefix + value, rest, done);
  }

  lemma WordEnds(text: string, rest: string, done: seq<Token>)
    requires rest == "" || rest[0] == ' '
    ensures Scan(rest, false, Some(text), done) == Scan(rest, false, None, done + [Word(text)])
  {
  }

  lemma {:induction false} JoinedScans(pieces: seq<Piece>, done: seq<Token>)
    requires AllValid(pieces)
    ensures Scan(Join(Sources(pieces), " "), false, None, done) == Some(done + Meaning(pieces))
    decreases |pieces|
  {
    if pieces == [] {
      assert done + [] == done;
    } else {
      var first := Source(pieces[0]);
      assert done + TokensOf(pieces[0]) + Meaning(pieces[1..]) == done + Meaning(pieces);
      if |pieces| == 1 {
        PieceScans(pieces[0], "", done);
        assert first + "" == first && Join(Sources(pieces), " ") == first;
        assert Meaning(pieces) == TokensOf(pieces[0]);
      } else {
        var rest := Join(Sources(pieces[1..]), " ");
        assert first + " " + rest == first + (" " + rest);
        PieceScans(pieces[0], " " + rest, done);
        assert (" " + rest)[1..] == rest;
        JoinedScans(pieces[1..], done + TokensOf(pieces[0]));
      }
    }
  }

  function Words(texts: seq<string>): seq<Token> {
    if texts == [] then [] else [Word(texts[0])] + Words(texts[1..])
  }

  function QuoteAll(texts: seq<string>): seq<string> {
    if texts == [] then [] else [ShellQuote(texts[0])] + QuoteAll(texts[1..])
  }

  /** Reading a list of quoted texts gives back the list, whatever the texts hold. */
  lemma QuotingRoundTrip(texts: seq<string>)
    ensures Tokenise(Join(QuoteAll(texts), " ")) == Some(Words(texts))
  {
    var pieces := seq(|texts|, k requires 0 <= k < |texts| => Quoted("", texts[k]));
    QuotedPieces(texts, pieces);
    JoinedScans(pieces, []);
    assert [] + Meaning(pieces) == Meaning(pieces);
  }

  lemma {:induction false} QuotedPieces(texts: seq<string>, pieces: seq<Piece>)
    requires |pieces| == |texts| && forall k :: 0 <= k < |texts| ==> pieces[k] == Quoted("", texts[k])
    ensures Sources(pieces) == QuoteAll(texts) && Meaning(pieces) == Words(texts)
    decreases |texts|
  {
    if texts != [] {
      QuotedPieces(texts[1..], pieces[1..]);
      assert "" + ShellQuote(texts[0]) == ShellQuote(texts[0]) && "" + texts[0] == texts[0];
    }
  }

  // ---- Pieces at the edges of a script --------------------------------------------------------

  lemma SourceEdges(piece: Piece)
    requires ValidPiece(piece) && !piece.Nothing?
    ensures Source(piece) != "" && !IsSpace(Source(piece)[0]) && !IsSpace(Source(piece)[|Source(piece)| - 1])
  {
    if piece.Quoted? {
      var quote := ShellQuote(piece.value);
      assert quote[0] == '\'' && quote[|quote| - 1] == '\'';
      assert Source(piece)[|Source(piece)| - 1] == quote[|quote| - 1];
      assert Source(piece)[0] == if piece.prefix == "" then quote[0] else piece.prefix[0];
    }
  }

  lemma {:induction false} JoinedEdges(pieces: seq<Piece>)
    requires AllValid(pieces) && pieces != [] && forall k :: 0 <= k < |pieces| ==> !pieces[k].Nothing?
    ensures var text := Join(Sources(pieces), " ");
            text != "" && !IsSpace(text[0]) && !IsSpace(text[|text| - 1])
    decreases |pieces|
  {
    SourceEdges(pieces[0]);
    if |pieces| > 1 {
      JoinedEdges(pieces[1..]);
      var rest := Join(Sources(pieces[1..]), " ");
      var text := Join(Sources(pieces), " ");
      assert text == Source(pieces[0]) + " " + rest;
      assert text[|text| - 1] == rest[|rest| - 1];
    }
  }

  /** Joining a list whose last element is itself a joined list. */
  lemma {:induction false} JoinNested(a: seq<string>, b: seq<string>)
    requires b != []
    ensures Join(a + [Join(b, " ")], " ") == Join(a + b, " ")
    decreases |a|
  {
    if a == [] {
      assert a + b == b && a + [Join(b, " ")] == [Join(b, " ")];
    } else {
      assert (a + b)[1..] == a[1..] + b && (a + [Join(b, " ")])[1..] == a[1..] + [Join(b, " ")];
      JoinNested(a[1..], b);
    }
  }

  /** Trimming a script that has no space at its ends changes nothing. */
  lemma TrimmedJoin(pieces: seq<Piece>)
    requires AllValid(pieces) && forall k :: 0 <= k < |pieces| ==> !pieces[k].Nothing?
    ensures TrimSpace(Join(Sources(pieces), " ")) == Join(Sources(pieces), " ")
  {
    var text := Join(Sources(pieces), " ");
    if pieces != [] {
      JoinedEdges(pieces);
    } else {
      assert text == "";
    }
    TrimSpaceKeeps(text);
  }
}
