// The lexical structure of SQL (PostgreSQL manual, section 4.1): how a statement's text
// splits into tokens, and when a piece of text keeps its tokens whatever follows it.

module SqlLexer {
  import opened Results
  import opened Identifiers
  import opened Decimals

  datatype Token =
    | TQuoted(name: string)   // "name"
    | TWord(word: string)     // key word or bare name
    | TParam(index: nat)      // $n
    | TString(text: string)   // 'text'
    | TNumber(digits: string)
    | TOp(op: string)         // longest run of operator characters
    | TCast                   // ::
    | TSym(c: char)           // one of ( ) , . ; [ ]
    | TBad

  predicate WordPart(c: char) {
    IdentPart(c) || c == '$'
  }

  predicate OpChar(c: char) {
    || c == '+' || c == '-' || c == '*' || c == '/' || c == '<' || c == '>' || c == '=' || c == '~' || c == '!'
    || c == '@' || c == '#' || c == '%' || c == '^' || c == '&' || c == '|' || c == '`' || c == '?'
  }

  predicate SymChar(c: char) {
    c == '(' || c == ')' || c == ',' || c == '.' || c == ';' || c == '[' || c == ']'
  }

  predicate Blank(c: char) {
    c == ' ' || c == '\n' || c == '\t' || c == '\r'
  }

  /** Length of the longest prefix made of such characters. */
  function Span(s: string, p: char -> bool): (k: nat)
    ensures k <= |s| && forall i | 0 <= i < k :: p(s[i])
    ensures k < |s| ==> !p(s[k])
  {
    if s == "" || !p(s[0]) then 0 else 1 + Span(s[1..], p)
  }

  /** The text up to the closing quote, a doubled quote standing for one, and what follows it. */
  function QuotedBody(s: string, quote: char): (r: Option<(string, string)>)
    ensures r.Some? ==> |r.value.1| < |s|
  {
    if s == "" then None
    else if s[0] != quote then
      match QuotedBody(s[1..], quote)
      case None => None
      case Some((body, rest)) => Some(([s[0]] + body, rest))
    else if |s| > 1 && s[1] == quote then
      match QuotedBody(s[2..], quote)
      case None => None
      case Some((body, rest)) => Some(([quote] + body, rest))
    else Some(("", s[1..]))
  }

  function Lex(s: string): seq<Token>
    decreases |s|
  {
    if s == "" then []
    else if Blank(s[0]) then Lex(s[1..])
    else if s[0] == '"' then
      match QuotedBody(s[1..], '"')
      case Some((body, rest)) => [TQuoted(body)] + Lex(rest)
      case None => [TBad]
    else if s[0] == '\'' then
      match QuotedBody(s[1..], '\'')
      case Some((body, rest)) => [TString(body)] + Lex(rest)
      case None => [TBad]
    else if IdentStart(s[0]) then
      var k := Span(s, WordPart);
      assert k > 0;
      [TWord(s[..k])] + Lex(s[k..])
    else if IsDigit(s[0]) then
      var k := Span(s, IsDigit);
      assert k > 0;
      [TNumber(s[..k])] + Lex(s[k..])
    else if s[0] == '$' && |s| > 1 && IsDigit(s[1]) then
      var k := Span(s[1..], IsDigit);
      [TParam(NatValue(s[1..][..k]))] + Lex(s[1..][k..])
    else if s[0] == ':' && |s| > 1 && s[1] == ':' then [TCast] + Lex(s[2..])
    else if SymChar(s[0]) then [TSym(s[0])] + Lex(s[1..])
    else if OpChar(s[0]) then
      var k := Span(s, OpChar);
      assert k > 0;
      [TOp(s[..k])] + Lex(s[k..])
    else [TBad]
  }

  // ----- Texts that keep their tokens -----

  /** A text after which the pieces below are never glued to what comes next. */
  predicate Boundary(rest: string) {
    rest == "" || rest[0] == ' ' || rest[0] == ')' || rest[0] == ','
  }

  /** `text` gives these tokens whatever follows it. */
  ghost predicate Closed(text: string, tokens: seq<Token>) {
    forall rest :: Lex(text + rest) == tokens + Lex(rest)
  }

  /** `text` gives these tokens in front of any boundary. */
  ghost predicate Lexes(text: string, tokens: seq<Token>) {
    forall rest | Boundary(rest) :: Lex(text + rest) == tokens + Lex(rest)
  }

  lemma {:induction false} ClosedLexes(text: string, tokens: seq<Token>)
    requires Closed(text, tokens)
    ensures Lexes(text, tokens)
  {
  }

  lemma {:induction false} NothingLexes()
    ensures Closed("", [])
  {
    forall rest ensures Lex("" + rest) == [] + Lex(rest) {
      assert "" + rest == rest;
      assert [] + Lex(rest) == Lex(rest);
    }
  }

  lemma {:induction false} Glued(whole: seq<Token>, s: seq<Token>, middle: seq<Token>, t: seq<Token>, end: seq<Token>)
    requires whole == s + middle && middle == t + end
    ensures whole == s + t + end
  {
  }

  lemma {:induction false} GluedAt(a: string, s: seq<Token>, b: string, t: seq<Token>, rest: string)
    requires Lex(a + (b + rest)) == s + Lex(b + rest)
    requires Lex(b + rest) == t + Lex(rest)
    ensures Lex(a + b + rest) == s + t + Lex(rest)
  {
    assert a + b + rest == a + (b + rest);
    Glued(Lex(a + b + rest), s, Lex(b + rest), t, Lex(rest));
  }

  lemma {:induction false} BoundaryStays(b: string, rest: string)
    requires b != "" && Boundary(b)
    ensures Boundary(b + rest)
  {
    assert (b + rest)[0] == b[0];
  }

  lemma {:induction false} ThenLexes(a: string, s: seq<Token>, b: string, t: seq<Token>)
    requires Closed(a, s) || (Lexes(a, s) && b != "" && Boundary(b))
    requires Lexes(b, t)
    ensures Lexes(a + b, s + t)
  {
    forall rest | Boundary(rest) ensures Lex(a + b + rest) == s + t + Lex(rest) {
      if !Closed(a, s) {
        BoundaryStays(b, rest);
      }
      GluedAt(a, s, b, t, rest);
    }
  }

  lemma {:induction false} ThenClosed(a: string, s: seq<Token>, b: string, t: seq<Token>)
    requires Closed(a, s) || (Lexes(a, s) && b != "" && Boundary(b))
    requires Closed(b, t)
    ensures Closed(a + b, s + t)
  {
    forall rest ensures Lex(a + b + rest) == s + t + Lex(rest) {
      if !Closed(a, s) {
        BoundaryStays(b, rest);
      }
      GluedAt(a, s, b, t, rest);
    }
  }

  /** The same for a text and a token list known to be made of two parts. */
  lemma {:induction false} LexesAs(a: string, s: seq<Token>, b: string, t: seq<Token>, text: string, tokens: seq<Token>)
    requires Closed(a, s) && Lexes(b, t) && text == a + b && tokens == s + t
    ensures Lexes(text, tokens)
  {
    ThenLexes(a, s, b, t);
  }

  lemma {:induction false} ClosedAs(a: string, s: seq<Token>, b: string, t: seq<Token>, text: string, tokens: seq<Token>)
    requires Closed(a, s) && Closed(b, t) && text == a + b && tokens == s + t
    ensures Closed(text, tokens)
  {
    ThenClosed(a, s, b, t);
  }

  /** A whole text made of such pieces gives exactly their tokens. */
  lemma {:induction false} WholeText(text: string, tokens: seq<Token>)
    requires Lexes(text, tokens)
    ensures Lex(text) == tokens
  {
    assert text + "" == text;
    assert tokens + Lex("") == tokens;
  }

  // ----- Single tokens -----

  lemma {:induction false} SpanStops(w: string, rest: string, p: char -> bool)
    requires forall i | 0 <= i < |w| :: p(w[i])
    requires rest == "" || !p(rest[0])
    ensures Span(w + rest, p) == |w|
  {
    if w == "" {
      assert w + rest == rest;
    } else {
      assert (w + rest)[1..] == w[1..] + rest;
      SpanStops(w[1..], rest, p);
    }
  }

  lemma {:induction false} QuotedBodyStops(body: string, quote: char, rest: string)
    requires quote !in body
    requires rest == "" || rest[0] != quote
    ensures QuotedBody(body + [quote] + rest, quote) == Some((body, rest))
  {
    var s := body + [quote] + rest;
    if body == "" {
      assert s[1..] == rest;
    } else {
      assert s[1..] == body[1..] + [quote] + rest;
      QuotedBodyStops(body[1..], quote, rest);
      assert [body[0]] + body[1..] == body;
    }
  }

  /** A blank in front changes nothing. */
  lemma {:induction false} BlankFirst(rest: string)
    ensures Lex(" " + rest) == Lex(rest)
  {
    assert (" " + rest)[1..] == rest;
  }

  lemma {:induction false} SymFirst(c: char, rest: string)
    requires SymChar(c)
    ensures Lex([c] + rest) == [TSym(c)] + Lex(rest)
  {
    assert ([c] + rest)[1..] == rest;
  }

  lemma {:induction false} CastFirst(rest: string)
    ensures Lex("::" + rest) == [TCast] + Lex(rest)
  {
    assert ("::" + rest)[2..] == rest;
  }

  lemma {:induction false} WordFirst(w: string, rest: string)
    requires w != "" && IdentStart(w[0]) && forall i | 0 <= i < |w| :: WordPart(w[i])
    requires rest == "" || !WordPart(rest[0])
    ensures Lex(w + rest) == [TWord(w)] + Lex(rest)
  {
    SpanStops(w, rest, WordPart);
    assert (w + rest)[..|w|] == w && (w + rest)[|w|..] == rest;
  }

  lemma {:induction false} OpFirst(w: string, rest: string)
    requires w != "" && forall i | 0 <= i < |w| :: OpChar(w[i])
    requires rest == "" || !OpChar(rest[0])
    ensures Lex(w + rest) == [TOp(w)] + Lex(rest)
  {
    var s := w + rest;
    SpanStops(w, rest, OpChar);
    assert s[0] == w[0] && OpChar(w[0]);
    OpStep(s);
    assert s[..|w|] == w && s[|w|..] == rest;
  }

  lemma {:induction false} OpStep(s: string)
    requires s != "" && OpChar(s[0])
    ensures var k := Span(s, OpChar);
            Lex(s) == [TOp(s[..k])] + Lex(s[k..])
  {
  }

  lemma {:induction false} ParamFirst(n: nat, rest: string)
    requires rest == "" || !IsDigit(rest[0])
    ensures Lex("$" + NatText(n) + rest) == [TParam(n)] + Lex(rest)
  {
    NatTextRoundTrip(n);
    DigitsFirst(NatText(n), rest);
  }

  lemma {:induction false} DigitsFirst(digits: string, rest: string)
    requires digits != "" && AllDigits(digits)
    requires rest == "" || !IsDigit(rest[0])
    ensures Lex("$" + digits + rest) == [TParam(NatValue(digits))] + Lex(rest)
  {
    var s := "$" + digits + rest;
    var after := digits + rest;
    assert s[1..] == after && s[0] == '$' && s[1] == digits[0];
    ParamStep(s);
    SpanStops(digits, rest, IsDigit);
    assert after[..|digits|] == digits && after[|digits|..] == rest;
  }

  lemma {:induction false} ParamStep(s: string)
    requires |s| > 1 && s[0] == '$' && IsDigit(s[1])
    ensures var after := s[1..];
            var k := Span(after, IsDigit);
            Lex(s) == [TParam(NatValue(after[..k]))] + Lex(after[k..])
  {
  }

  lemma {:induction false} QuotedFirst(id: PgIdentifier, rest: string)
    requires rest == "" || rest[0] != '"'
    ensures Lex(Quoted(id) + rest) == [TQuoted(id)] + Lex(rest)
  {
    var s := Quoted(id) + rest;
    assert s[1..] == id + ['"'] + rest;
    QuotedBodyStops(id, '"', rest);
  }

  lemma {:induction false} EmptyStringFirst(rest: string)
    requires rest == "" || rest[0] != '\''
    ensures Lex("''" + rest) == [TString("")] + Lex(rest)
  {
    var s := "''" + rest;
    assert s[1..] == "" + ['\''] + rest;
    QuotedBodyStops("", '\'', rest);
  }
}
