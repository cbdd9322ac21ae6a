/** The SQLite adapter's scanner, and the identifiers and literals it must read back. */
module Tokens {
  import opened Contracts

  // -------------------------------------------------------------- characters

  predicate IsSpace(c: char) {
    || c == ' ' || '\t' <= c <= '\r'
    || c == '\U{00A0}' || c == '\U{1680}' || '\U{2000}' <= c <= '\U{200A}' || c == '\U{2028}' || c == '\U{2029}'
    || c == '\U{202F}' || c == '\U{205F}' || c == '\U{3000}' || c == '\U{FEFF}'
  }

  predicate StartsWord(c: char) {
    'A' <= c <= 'Z' || 'a' <= c <= 'z' || c == '_'
  }

  predicate InWord(c: char) {
    StartsWord(c) || '0' <= c <= '9'
  }

  // ----------------------------------------------------------------- lexemes

  /** What a scan consumed, and whether it met its end before the text ran out. */
  datatype Scan = Scan(length: nat, closed: bool)

  /** The rest of a string literal after its opening quote. */
  function StringRest(s: string): (scan: Scan)
    ensures scan.length <= |s|
  {
    if s == "" then Scan(0, false)
    else if s[0] == '\'' then
      if |s| > 1 && s[1] == '\'' then
        var rest := StringRest(s[2..]);
        Scan(2 + rest.length, rest.closed)
      else Scan(1, true)
    else
      var rest := StringRest(s[1..]);
      Scan(1 + rest.length, rest.closed)
  }

  datatype Named = Named(value: string, length: nat, closed: bool)

  /** The rest of a quoted identifier. A bracket cannot be doubled. */
  function NameRest(s: string, close: char): (named: Named)
    ensures named.length <= |s|
  {
    if s == "" then Named("", 0, false)
    else if s[0] == close then
      if close != ']' && |s| > 1 && s[1] == close then
        var rest := NameRest(s[2..], close);
        Named([close] + rest.value, 2 + rest.length, rest.closed)
      else Named("", 1, true)
    else
      var rest := NameRest(s[1..], close);
      Named([s[0]] + rest.value, 1 + rest.length, rest.closed)
  }

  function WordLength(s: string): (length: nat)
    ensures length <= |s|
  {
    if s == "" || !InWord(s[0]) then 0 else 1 + WordLength(s[1..])
  }

  /** A line comment, with its newline if it has one. */
  function LineRest(s: string): (scan: Scan)
    ensures scan.length <= |s|
  {
    if s == "" then Scan(0, false)
    else if s[0] == '\n' then Scan(1, true)
    else
      var rest := LineRest(s[1..]);
      Scan(1 + rest.length, rest.closed)
  }

  function BlockRest(s: string): (scan: Scan)
    ensures scan.length <= |s|
  {
    if |s| < 2 then Scan(|s|, false)
    else if s[..2] == "*/" then Scan(2, true)
    else
      var rest := BlockRest(s[1..]);
      Scan(1 + rest.length, rest.closed)
  }

  datatype Content = Gap | Semicolon | Silent | Token(text: string) | Broken

  datatype Lexeme = Lexeme(length: nat, content: Content, closed: bool)

  predicate Opens(c: char) {
    c == '"' || c == '`' || c == '['
  }

  function CloseOf(c: char): char {
    if c == '[' then ']' else c
  }

  /** The next lexeme of a text that is not empty; every one consumes something. */
  function Next(s: string): (lexeme: Lexeme)
    requires s != ""
    ensures 1 <= lexeme.length <= |s|
  {
    if IsSpace(s[0]) then Lexeme(1, Gap, true)
    else if |s| > 1 && s[0] == '-' && s[1] == '-' then
      var line := LineRest(s[2..]);
      Lexeme(2 + line.length, Gap, line.closed)
    else if |s| > 1 && s[0] == '/' && s[1] == '*' then
      var block := BlockRest(s[2..]);
      Lexeme(2 + block.length, if block.closed then Gap else Broken, block.closed)
    else if s[0] == ';' then Lexeme(1, Semicolon, true)
    else if s[0] == '\'' then
      var literal := StringRest(s[1..]);
      Lexeme(1 + literal.length, Silent, literal.closed)
    else if Opens(s[0]) then
      var named := NameRest(s[1..], CloseOf(s[0]));
      Lexeme(1 + named.length, if named.value == "" then Silent else Token(named.value), named.closed)
    else if StartsWord(s[0]) then Lexeme(WordLength(s), Token(s[..WordLength(s)]), true)
    else Lexeme(1, Silent, true)
  }

  // ------------------------------------------------------------------ tokens

  /** Tokens so far, and whether a semicolon has been seen. */
  datatype Lexed = Lexed(tokens: seq<string>, ended: bool)

  type Upper = string -> string

  function Prepend(upper: Upper, content: Content, rest: Outcome<Lexed>): Outcome<Lexed> {
    match rest
    case Threw(error) => Threw(error)
    case Returned(lexed) => Returned(lexed.(tokens := (if content.Token? then [upper(content.text)] else []) + lexed.tokens))
  }

  /** `sqlTokens` from some point on. */
  function Lex(upper: Upper, s: string, single: bool, ended: bool): Outcome<Lexed>
    decreases |s|
  {
    if s == "" then Returned(Lexed([], ended))
    else
      var lexeme := Next(s);
      var rest := s[lexeme.length..];
      match lexeme.content
      case Broken => Threw("SQLITE_INVALID_SQL")
      case Gap => Lex(upper, rest, single, ended)
      case Semicolon => Lex(upper, rest, single, true)
      case _ =>
        if single && ended then Threw("SQLITE_SINGLE_STATEMENT_REQUIRED")
        else Prepend(upper, lexeme.content, Lex(upper, rest, single, ended))
  }

  /** Every literal, name and comment of the fragment ends inside it. */
  predicate Closed(s: string)
    decreases |s|
  {
    s == "" || (Next(s).closed && Closed(s[Next(s).length..]))
  }

  // ----------------------------------------------------------- concatenation

  lemma {:induction false} StringRestLocal(s: string, t: string)
    requires StringRest(s).closed && t != "" && t[0] != '\''
    ensures StringRest(s + t) == StringRest(s)
    decreases |s|
  {
    if s[0] == '\'' && |s| > 1 && s[1] == '\'' {
      assert (s + t)[2..] == s[2..] + t;
      StringRestLocal(s[2..], t);
    } else if s[0] != '\'' {
      assert (s + t)[1..] == s[1..] + t;
      StringRestLocal(s[1..], t);
    }
  }

  lemma {:induction false} NameRestLocal(s: string, close: char, t: string)
    requires NameRest(s, close).closed && t != "" && t[0] != close
    ensures NameRest(s + t, close) == NameRest(s, close)
    decreases |s|
  {
    if s[0] == close && close != ']' && |s| > 1 && s[1] == close {
      assert (s + t)[2..] == s[2..] + t;
      NameRestLocal(s[2..], close, t);
    } else if s[0] != close {
      assert (s + t)[1..] == s[1..] + t;
      NameRestLocal(s[1..], close, t);
    }
  }

  lemma {:induction false} WordLengthLocal(s: string, t: string)
    requires t != "" && !InWord(t[0])
    ensures WordLength(s + t) == WordLength(s)
  {
    if s == "" {
      assert s + t == t;
    } else {
      assert (s + t)[1..] == s[1..] + t;
      WordLengthLocal(s[1..], t);
    }
  }

  lemma {:induction false} LineRestLocal(s: string, t: string)
    requires LineRest(s).closed
    ensures LineRest(s + t) == LineRest(s)
  {
    if s[0] != '\n' {
      assert (s + t)[1..] == s[1..] + t;
      LineRestLocal(s[1..], t);
    }
  }

  lemma {:induction false} BlockRestLocal(s: string, t: string)
    requires BlockRest(s).closed
    ensures BlockRest(s + t) == BlockRest(s)
  {
    assert (s + t)[..2] == s[..2];
    if s[..2] != "*/" {
      assert (s + t)[1..] == s[1..] + t;
      BlockRestLocal(s[1..], t);
    }
  }

  /** A closed lexeme is not changed by what follows a space. */
  lemma NextLocal(s: string, t: string)
    requires s != "" && Next(s).closed && t != "" && IsSpace(t[0])
    ensures Next(s + t) == Next(s)
  {
    assert (s + t)[0] == s[0] && (s + t)[1..] == s[1..] + t;
    assert |s| > 1 ==> (s + t)[1] == s[1] && (s + t)[2..] == s[2..] + t;
    assert |s| == 1 ==> (s + t)[1] == t[0];
    if IsSpace(s[0]) {
    } else if |s| > 1 && s[0] == '-' && s[1] == '-' {
      LineRestLocal(s[2..], t);
    } else if |s| > 1 && s[0] == '/' && s[1] == '*' {
      BlockRestLocal(s[2..], t);
    } else if s[0] == '\'' {
      StringRestLocal(s[1..], t);
    } else if Opens(s[0]) {
      NameRestLocal(s[1..], CloseOf(s[0]), t);
    } else if StartsWord(s[0]) {
      WordLengthLocal(s, t);
      assert (s + t)[..WordLength(s)] == s[..WordLength(s)];
    }
  }

  /** What `b` adds after a fragment has been read. */
  function Followed(upper: Upper, first: Outcome<Lexed>, b: string, single: bool): Outcome<Lexed> {
    match first
    case Threw(error) => Threw(error)
    case Returned(left) =>
      match Lex(upper, b, single, left.ended)
      case Threw(error) => Threw(error)
      case Returned(right) => Returned(Lexed(left.tokens + right.tokens, right.ended))
  }

  lemma FollowedPrepend(upper: Upper, content: Content, first: Outcome<Lexed>, b: string, single: bool)
    ensures Followed(upper, Prepend(upper, content, first), b, single)
      == Prepend(upper, content, Followed(upper, first, b, single))
  {
    hide Lex;
    if first.Returned? && Lex(upper, b, single, first.value.ended).Returned? {
      var head := if content.Token? then [upper(content.text)] else [];
      var right := Lex(upper, b, single, first.value.ended).value;
      assert (head + first.value.tokens) + right.tokens == head + (first.value.tokens + right.tokens);
    }
  }

  lemma FollowedNothing(upper: Upper, b: string, single: bool, ended: bool)
    ensures Followed(upper, Returned(Lexed([], ended)), b, single) == Lex(upper, b, single, ended)
  {
    hide Lex;
    if Lex(upper, b, single, ended).Returned? {
      assert [] + Lex(upper, b, single, ended).value.tokens == Lex(upper, b, single, ended).value.tokens;
    }
  }

  lemma LexGap(upper: Upper, space: char, b: string, single: bool, ended: bool)
    requires IsSpace(space)
    ensures Lex(upper, "" + [space] + b, single, ended) == Followed(upper, Lex(upper, "", single, ended), b, single)
  {
    hide Followed;
    var t := [space] + b;
    assert "" + [space] + b == t && t[1..] == b;
    assert Next(t) == Lexeme(1, Gap, true);
    FollowedNothing(upper, b, single, ended);
  }

  /**
   Reading a closed fragment, a space and anything else is reading the one and then the other: tokens
   concatenate, errors and the end of the statement carry over.
   */
  lemma {:induction false} LexConcat(upper: Upper, a: string, space: char, b: string, single: bool, ended: bool)
    requires Closed(a) && IsSpace(space)
    ensures Lex(upper, a + [space] + b, single, ended) == Followed(upper, Lex(upper, a, single, ended), b, single)
    decreases |a|
  {
    hide Followed, Prepend;
    var t := [space] + b;
    assert a + [space] + b == a + t;
    if a == "" {
      LexGap(upper, space, b, single, ended);
    } else {
      var lexeme := Next(a);
      var rest := a[lexeme.length..];
      NextLocal(a, t);
      assert (a + t)[lexeme.length..] == rest + [space] + b;
      hide Next;
      var next := ended || lexeme.content.Semicolon?;
      LexConcat(upper, rest, space, b, single, next);
      FollowedPrepend(upper, lexeme.content, Lex(upper, rest, single, next), b, single);
      FollowedThrew(upper, b, single);
    }
  }

  lemma FollowedThrew(upper: Upper, b: string, single: bool)
    ensures forall error :: Followed(upper, Threw(error), b, single) == Threw(error)
  {
  }

  // --------------------------------------------------------------- round trips

  function Doubled(s: string, quote: char): string {
    if s == "" then "" else (if s[0] == quote then [quote, quote] else [s[0]]) + Doubled(s[1..], quote)
  }

  /** `ident`. */
  function Ident(name: string): Outcome<string> {
    if name == "" || '\0' in name then Threw("INVALID_IDENTIFIER") else Returned("\"" + Doubled(name, '"') + "\"")
  }

  /** `quoted`. */
  function Quoted(value: string): string {
    "'" + Doubled(value, '\'') + "'"
  }

  lemma {:induction false} DoubledName(name: string)
    ensures NameRest(Doubled(name, '"') + "\"", '"') == Named(name, |Doubled(name, '"')| + 1, true)
  {
    var text := Doubled(name, '"') + "\"";
    if name != "" {
      DoubledName(name[1..]);
      var head := if name[0] == '"' then ['"', '"'] else [name[0]];
      assert text == head + (Doubled(name[1..], '"') + "\"");
      assert text[|head|..] == Doubled(name[1..], '"') + "\"";
      assert [name[0]] + name[1..] == name;
    }
  }

  lemma {:induction false} DoubledLiteral(value: string)
    ensures StringRest(Doubled(value, '\'') + "'") == Scan(|Doubled(value, '\'')| + 1, true)
  {
    var text := Doubled(value, '\'') + "'";
    if value != "" {
      DoubledLiteral(value[1..]);
      var head := if value[0] == '\'' then ['\'', '\''] else [value[0]];
      assert text == head + (Doubled(value[1..], '\'') + "'");
      assert text[|head|..] == Doubled(value[1..], '\'') + "'";
    }
  }

  lemma OneLexeme(upper: Upper, text: string, single: bool)
    requires text != "" && Next(text).length == |text| && Next(text).closed
    requires Next(text).content.Token? || Next(text).content.Silent?
    ensures Closed(text)
    ensures Lex(upper, text, single, false)
      == Returned(Lexed(if Next(text).content.Token? then [upper(Next(text).content.text)] else [], false))
  {
    hide Next;
    assert text[|text|..] == "";
    assert Lex(upper, "", single, false) == Returned(Lexed([], false));
    var content := Next(text).content;
    var head := if content.Token? then [upper(content.text)] else [];
    assert head + [] == head;
  }

  /** A quoted identifier reads back as exactly its upper-cased name, and closes itself. */
  lemma IdentRoundTrip(upper: Upper, name: string, single: bool)
    requires Ident(name).Returned?
    ensures Closed(Ident(name).value)
    ensures Lex(upper, Ident(name).value, single, false) == Returned(Lexed([upper(name)], false))
  {
    var text := Ident(name).value;
    DoubledName(name);
    assert text[1..] == Doubled(name, '"') + "\"";
    assert Next(text) == Lexeme(|text|, Token(name), true);
    hide Next;
    OneLexeme(upper, text, single);
  }

  /** A quoted literal contributes no token, whatever it contains. */
  lemma QuotedIsSilent(upper: Upper, value: string, single: bool)
    ensures Closed(Quoted(value))
    ensures Lex(upper, Quoted(value), single, false) == Returned(Lexed([], false))
  {
    var text := Quoted(value);
    DoubledLiteral(value);
    assert text[1..] == Doubled(value, '\'') + "'";
    assert Next(text) == Lexeme(|text|, Silent, true);
    hide Next;
    OneLexeme(upper, text, single);
  }

  /** After a semicolon a single statement admits no further content. */
  lemma EndedRefuses(upper: Upper, text: string, ended: bool)
    ensures text != "" && text[0] == '"' && Lex(upper, text, true, ended).Returned? ==> !ended
  {
  }

  /** A name between closed fragments is always seen: its token stands between theirs. */
  lemma NameIsSeen(upper: Upper, before: string, name: string, after: string, space: char)
    requires Closed(before) && IsSpace(space) && Ident(name).Returned?
    requires Lex(upper, before + [space] + (Ident(name).value + [space] + after), true, false).Returned?
    ensures var text := before + [space] + (Ident(name).value + [space] + after);
      Lex(upper, before, true, false).Returned? && Lex(upper, after, true, false).Returned?
      && Lex(upper, text, true, false).value.tokens
         == Lex(upper, before, true, false).value.tokens + [upper(name)] + Lex(upper, after, true, false).value.tokens
  {
    var quoted := Ident(name).value;
    var tail := quoted + [space] + after;
    assert tail[0] == '"';
    IdentRoundTrip(upper, name, true);
    hide Ident, Closed;
    LexConcat(upper, before, space, tail, true, false);
    var left := Lex(upper, before, true, false).value;
    EndedRefuses(upper, tail, left.ended);
    hide Lex;
    LexConcat(upper, quoted, space, after, true, false);
    var right := Lex(upper, after, true, false).value;
    assert left.tokens + ([upper(name)] + right.tokens) == left.tokens + [upper(name)] + right.tokens;
  }

  // -------------------------------------------------------------- the scanner

  function Resumed(tokens: seq<string>, rest: Outcome<Lexed>): Outcome<seq<string>> {
    match rest
    case Threw(error) => Threw(error)
    case Returned(lexed) => Returned(tokens + lexed.tokens)
  }

  /** `text.indexOf(needle, from)`. */
  method LineEnd(text: string, from: nat) returns (end: nat)
    requires from <= |text|
    ensures end == from + LineRest(text[from..]).length
  {
    end := from;
    while end < |text| && text[end] != '\n'
      invariant from <= end <= |text|
      invariant LineRest(text[from..]) == Scan(end - from + LineRest(text[end..]).length, LineRest(text[end..]).closed)
      decreases |text| - end
    {
      assert text[end..][1..] == text[end + 1..];
      end := end + 1;
    }
    if end < |text| {
      end := end + 1;
    }
  }

  method BlockEnd(text: string, from: nat) returns (end: Option<nat>)
    requires from <= |text|
    ensures end.Some? <==> BlockRest(text[from..]).closed
    ensures end.Some? ==> end.value == from + BlockRest(text[from..]).length
  {
    var at := from;
    while at + 1 < |text| && !(text[at] == '*' && text[at + 1] == '/')
      invariant from <= at <= |text|
      invariant BlockRest(text[from..]) == Scan(at - from + BlockRest(text[at..]).length, BlockRest(text[at..]).closed)
      decreases |text| - at
    {
      assert text[at..][1..] == text[at + 1..];
      assert text[at..][..2][0] == text[at] && text[at..][..2][1] == text[at + 1];
      assert "*/"[0] == '*' && "*/"[1] == '/';
      at := at + 1;
    }
    if at + 1 < |text| {
      assert text[at..][..2] == [text[at], text[at + 1]] == "*/";
      return Some(at + 2);
    }
    return None;
  }

  method StringEnd(text: string, from: nat) returns (index: nat)
    requires from <= |text|
    ensures index == from + StringRest(text[from..]).length
  {
    index := from;
    while index < |text|
      invariant from <= index <= |text|
      invariant StringRest(text[from..]).length == index - from + StringRest(text[index..]).length
      decreases |text| - index
    {
      if text[index] == '\'' {
        if index + 1 < |text| && text[index + 1] == '\'' {
          assert text[index..][2..] == text[index + 2..];
          index := index + 2;
          continue;
        }
        index := index + 1;
        return;
      }
      assert text[index..][1..] == text[index + 1..];
      index := index + 1;
    }
  }

  method QuotedName(text: string, from: nat, close: char) returns (value: string, index: nat)
    requires from <= |text|
    ensures value == NameRest(text[from..], close).value && index == from + NameRest(text[from..], close).length
  {
    value, index := "", from;
    while index < |text|
      invariant from <= index <= |text|
      invariant NameRest(text[from..], close).length == index - from + NameRest(text[index..], close).length
      invariant NameRest(text[from..], close).value == value + NameRest(text[index..], close).value
      decreases |text| - index
    {
      if text[index] == close {
        if close != ']' && index + 1 < |text| && text[index + 1] == close {
          assert text[index..][2..] == text[index + 2..];
          value, index := value + [close], index + 2;
          continue;
        }
        index := index + 1;
        return;
      }
      assert text[index..][1..] == text[index + 1..];
      value, index := value + [text[index]], index + 1;
    }
  }

  method WordEnd(text: string, from: nat) returns (index: nat)
    requires from <= |text|
    ensures index == from + WordLength(text[from..])
  {
    index := from;
    while index < |text| && InWord(text[index])
      invariant from <= index <= |text|
      invariant WordLength(text[from..]) == index - from + WordLength(text[index..])
      decreases |text| - index
    {
      assert text[index..][1..] == text[index + 1..];
      index := index + 1;
    }
  }

  /** One lexeme with a moving index. */
  method NextAt(text: string, at: nat) returns (content: Content, index: nat)
    requires at < |text|
    ensures content == Next(text[at..]).content
    ensures !content.Broken? ==> index == at + Next(text[at..]).length && at < index <= |text|
  {
    var s := text[at..];
    assert s[0] == text[at] && s[1..] == text[at + 1..];
    assert |s| > 1 ==> s[1] == text[at + 1] && s[2..] == text[at + 2..];
    index := at + 1;
    if IsSpace(text[at]) {
      return Gap, index;
    }
    if at + 1 < |text| && text[at] == '-' && text[at + 1] == '-' {
      index := LineEnd(text, at + 2);
      return Gap, index;
    }
    if at + 1 < |text| && text[at] == '/' && text[at + 1] == '*' {
      var end := BlockEnd(text, at + 2);
      if end.None? {
        return Broken, index;
      }
      return Gap, end.value;
    }
    if text[at] == ';' {
      return Semicolon, index;
    }
    if text[at] == '\'' {
      index := StringEnd(text, at + 1);
      return Silent, index;
    }
    if Opens(text[at]) {
      var value;
      value, index := QuotedName(text, at + 1, CloseOf(text[at]));
      return if value == "" then Silent else Token(value), index;
    }
    if StartsWord(text[at]) {
      index := WordEnd(text, at);
      assert text[at..index] == s[..index - at];
      return Token(text[at..index]), index;
    }
    return Silent, index;
  }

  /** One lexeme later, what is left to read is the same. */
  lemma ResumedStep(upper: Upper, tokens: seq<string>, s: string, single: bool, ended: bool)
    requires s != "" && !Next(s).content.Broken?
    ensures var content := Next(s).content;
      var rest := s[Next(s).length..];
      var more := if content.Token? then [upper(content.text)] else [];
      Resumed(tokens, Lex(upper, s, single, ended))
      == if single && ended && !content.Gap? && !content.Semicolon? then Threw("SQLITE_SINGLE_STATEMENT_REQUIRED")
         else Resumed(tokens + more, Lex(upper, rest, single, ended || content.Semicolon?))
  {
    hide Next;
    var content := Next(s).content;
    var rest := Lex(upper, s[Next(s).length..], single, ended || content.Semicolon?);
    var more := if content.Token? then [upper(content.text)] else [];
    if rest.Returned? {
      assert tokens + (more + rest.value.tokens) == tokens + more + rest.value.tokens;
      assert tokens + [] == tokens;
    }
  }

  /** `sqlTokens`. */
  method SqlTokens(upper: Upper, text: string, single: bool) returns (result: Outcome<seq<string>>)
    ensures result == Resumed([], Lex(upper, text, single, false))
  {
    hide Next, Resumed;
    var tokens: seq<string> := [];
    var ended := false;
    var index := 0;
    assert text[0..] == text;
    while index < |text|
      invariant 0 <= index <= |text|
      invariant Resumed(tokens, Lex(upper, text[index..], single, ended)) == Resumed([], Lex(upper, text, single, false))
      decreases |text| - index
    {
      ghost var rest := text[index..];
      var content, next := NextAt(text, index);
      if content.Broken? {
        BrokenEnds(upper, tokens, rest, single, ended);
        return Threw("SQLITE_INVALID_SQL");
      }
      ResumedStep(upper, tokens, rest, single, ended);
      assert rest[next - index..] == text[next..];
      if content.Semicolon? {
        ended := true;
      } else if !content.Gap? {
        if single && ended {
          return Threw("SQLITE_SINGLE_STATEMENT_REQUIRED");
        }
        if content.Token? {
          tokens := tokens + [upper(content.text)];
        }
      }
      assert content.Token? || tokens + [] == tokens;
      index := next;
    }
    NothingLeft(upper, tokens, text[index..], single, ended);
    result := Returned(tokens);
  }

  lemma BrokenEnds(upper: Upper, tokens: seq<string>, s: string, single: bool, ended: bool)
    requires s != "" && Next(s).content.Broken?
    ensures Resumed(tokens, Lex(upper, s, single, ended)) == Threw("SQLITE_INVALID_SQL")
  {
    hide Next;
  }

  lemma NothingLeft(upper: Upper, tokens: seq<string>, s: string, single: bool, ended: bool)
    requires s == ""
    ensures Resumed(tokens, Lex(upper, s, single, ended)) == Returned(tokens)
  {
    assert tokens + [] == tokens;
  }
}
