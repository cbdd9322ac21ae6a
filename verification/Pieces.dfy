/**
 The scanner read backwards: SQL written from known pieces, spaces between them, is read as exactly those pieces. The
 tokens are the names and words in order, comments and literals are silent, and nothing follows a single statement.
 */
module Pieces {
  import opened Contracts
  import opened Tokens

  datatype Piece =
    | Name(quote: char, value: string) | Literal(value: string) | Word(text: string)
    | Line(text: string) | Block(text: string) | End | Sign(c: char)

  /** Nothing else begins with this character; before a space `-` and `/` begin no comment. */
  predicate StandsAlone(c: char) {
    !IsSpace(c) && !StartsWord(c) && c != ';' && c != '\'' && c != '"' && c != '`' && c != '['
  }

  predicate WellFormed(p: Piece) {
    match p
    case Name(quote, value) => quote == '"' || quote == '`' || (quote == '[' && ']' !in value)
    case Literal(_) => true
    case Word(text) => text != "" && StartsWord(text[0]) && forall i :: 0 <= i < |text| ==> InWord(text[i])
    case Line(text) => '\n' !in text
    case Block(text) => forall i :: 0 <= i < |text| ==> !((text + "*/")[i] == '*' && (text + "*/")[i + 1] == '/')
    case End => true
    case Sign(c) => StandsAlone(c)
  }

  function Written(p: Piece): string {
    match p
    case Name(quote, value) => if quote == '[' then "[" + value + "]" else [quote] + Doubled(value, quote) + [quote]
    case Literal(value) => Quoted(value)
    case Word(text) => text
    case Line(text) => "--" + text + "\n"
    case Block(text) => "/*" + text + "*/"
    case End => ";"
    case Sign(c) => [c]
  }

  /** Each piece and a space after it. */
  function Joined(pieces: seq<Piece>, space: char): string {
    if pieces == [] then "" else Written(pieces[0]) + [space] + Joined(pieces[1..], space)
  }

  predicate IsContent(p: Piece) {
    !p.Line? && !p.Block? && !p.End?
  }

  function TokenOf(upper: Upper, p: Piece): seq<string> {
    match p
    case Name(_, value) => if value == "" then [] else [upper(value)]
    case Word(text) => [upper(text)]
    case _ => []
  }

  function TokensOf(upper: Upper, pieces: seq<Piece>): seq<string> {
    if pieces == [] then [] else TokenOf(upper, pieces[0]) + TokensOf(upper, pieces[1..])
  }

  predicate Ends(pieces: seq<Piece>) {
    exists i :: 0 <= i < |pieces| && pieces[i].End?
  }

  /** Content where the statement has already ended. */
  predicate GoesOn(pieces: seq<Piece>, ended: bool) {
    exists j :: 0 <= j < |pieces| && IsContent(pieces[j]) && (ended || exists i :: 0 <= i < j && pieces[i].End?)
  }

  // ---------------------------------------------------------------- one piece

  lemma {:induction false} DoubledRest(value: string, quote: char)
    requires quote != ']'
    ensures NameRest(Doubled(value, quote) + [quote], quote) == Named(value, |Doubled(value, quote)| + 1, true)
  {
    var text := Doubled(value, quote) + [quote];
    if value != "" {
      DoubledRest(value[1..], quote);
      var head := if value[0] == quote then [quote, quote] else [value[0]];
      assert text == head + (Doubled(value[1..], quote) + [quote]);
      assert text[|head|..] == Doubled(value[1..], quote) + [quote];
      assert [value[0]] + value[1..] == value;
    }
  }

  lemma {:induction false} BracketRest(value: string)
    requires ']' !in value
    ensures NameRest(value + "]", ']') == Named(value, |value| + 1, true)
  {
    if value != "" {
      assert value[0] in value;
      assert (value + "]")[1..] == value[1..] + "]" && [value[0]] + value[1..] == value;
      BracketRest(value[1..]);
    }
  }

  lemma {:induction false} WholeWord(text: string)
    requires forall i :: 0 <= i < |text| ==> InWord(text[i])
    ensures WordLength(text) == |text|
  {
    if text != "" {
      assert forall i :: 0 <= i < |text| - 1 ==> text[1..][i] == text[i + 1];
      WholeWord(text[1..]);
    }
  }

  lemma {:induction false} WholeLine(text: string)
    requires '\n' !in text
    ensures LineRest(text + "\n") == Scan(|text| + 1, true)
  {
    if text != "" {
      assert text[0] in text && (text + "\n")[1..] == text[1..] + "\n";
      WholeLine(text[1..]);
    }
  }

  lemma {:induction false} WholeBlock(text: string)
    requires WellFormed(Block(text))
    ensures BlockRest(text + "*/") == Scan(|text| + 2, true)
  {
    var all := text + "*/";
    if text == "" {
      assert all[..2] == "*/";
    } else {
      assert !(all[0] == '*' && all[1] == '/');
      assert all[..2] == [all[0], all[1]];
      assert all[1..] == text[1..] + "*/";
      forall i | 0 <= i < |text| - 1 ensures !((text[1..] + "*/")[i] == '*' && (text[1..] + "*/")[i + 1] == '/') {
        assert (text[1..] + "*/")[i] == all[i + 1] && (text[1..] + "*/")[i + 1] == all[i + 2];
      }
      WholeBlock(text[1..]);
    }
  }

  function ContentOf(p: Piece): Content {
    match p
    case Name(_, value) => if value == "" then Silent else Token(value)
    case Word(text) => Token(text)
    case Line(_) => Gap
    case Block(_) => Gap
    case End => Semicolon
    case _ => Silent
  }

  /** A piece is one lexeme, whole and closed. */
  lemma PieceIsRead(p: Piece)
    requires WellFormed(p)
    ensures Written(p) != "" && Next(Written(p)) == Lexeme(|Written(p)|, ContentOf(p), true)
  {
    hide NameRest, StringRest, WordLength, LineRest, BlockRest, Doubled;
    var text := Written(p);
    match p
    case Name(quote, value) =>
      if quote == '[' {
        BracketRest(value);
        assert text[1..] == value + "]";
      } else {
        DoubledRest(value, quote);
        assert text[1..] == Doubled(value, quote) + [quote];
      }
    case Literal(value) =>
      DoubledLiteral(value);
      assert text[1..] == Doubled(value, '\'') + "'";
    case Word(word) =>
      WholeWord(word);
      assert text[..|text|] == text;
    case Line(comment) =>
      WholeLine(comment);
      assert text[2..] == comment + "\n";
    case Block(comment) =>
      WholeBlock(comment);
      assert text[2..] == comment + "*/";
    case End =>
    case Sign(_) =>
  }

  lemma PieceLexes(upper: Upper, p: Piece, single: bool, ended: bool)
    requires WellFormed(p)
    ensures Closed(Written(p))
    ensures Lex(upper, Written(p), single, ended) ==
      if single && ended && IsContent(p) then Threw("SQLITE_SINGLE_STATEMENT_REQUIRED")
      else Returned(Lexed(TokenOf(upper, p), ended || p.End?))
  {
    PieceIsRead(p);
    hide Next, Written;
    var text := Written(p);
    assert text[|text|..] == "";
    assert forall after :: Lex(upper, "", single, after) == Returned(Lexed([], after));
    assert TokenOf(upper, p) + [] == TokenOf(upper, p);
  }

  // -------------------------------------------------------------- all of them

  lemma FirstThenRest(pieces: seq<Piece>, ended: bool)
    requires pieces != []
    ensures Ends(pieces) <==> pieces[0].End? || Ends(pieces[1..])
    ensures GoesOn(pieces, ended) <==> (ended && IsContent(pieces[0])) || GoesOn(pieces[1..], ended || pieces[0].End?)
  {
    var rest := pieces[1..];
    assert forall i :: 0 <= i < |rest| ==> rest[i] == pieces[i + 1];
    if i :| 0 <= i < |pieces| && pieces[i].End? && i > 0 {
      assert rest[i - 1].End?;
    }
    if j :| 0 <= j < |pieces| && IsContent(pieces[j]) && (ended || exists i :: 0 <= i < j && pieces[i].End?) {
      if j > 0 {
        assert IsContent(rest[j - 1]);
        if !ended && !pieces[0].End? {
          var i :| 0 <= i < j && pieces[i].End?;
          assert rest[i - 1].End?;
        }
      }
    }
    if j :| 0 <= j < |rest| && IsContent(rest[j]) && (ended || pieces[0].End? || exists i :: 0 <= i < j && rest[i].End?) {
      assert IsContent(pieces[j + 1]);
      if !ended && !pieces[0].End? {
        var i :| 0 <= i < j && rest[i].End?;
        assert pieces[i + 1].End?;
      }
    }
  }

  /** Written text is read as it was written. */
  lemma {:induction false} PiecesAreRead(upper: Upper, pieces: seq<Piece>, space: char, single: bool, ended: bool)
    requires IsSpace(space) && forall i :: 0 <= i < |pieces| ==> WellFormed(pieces[i])
    ensures Lex(upper, Joined(pieces, space), single, ended) ==
      if single && GoesOn(pieces, ended) then Threw("SQLITE_SINGLE_STATEMENT_REQUIRED")
      else Returned(Lexed(TokensOf(upper, pieces), ended || Ends(pieces)))
    decreases |pieces|
  {
    if pieces != [] {
      hide Lex, Written, WellFormed, Closed, IsSpace;
      PieceLexes(upper, pieces[0], single, ended);
      PiecesAreRead(upper, pieces[1..], space, single, ended || pieces[0].End?);
      LexConcat(upper, Written(pieces[0]), space, Joined(pieces[1..], space), single, ended);
      FirstThenRest(pieces, ended);
      hide GoesOn, Ends;
    }
  }
}
