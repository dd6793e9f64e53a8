/** Conditions of keybindings: their trees, how they are printed, and what the reader makes of a text. */
module WhenSyntax {
  import opened Optional
  import opened Text

  datatype Node =
    | Identifier(name: string)
    | Not(node: Node)
    | And(left: Node, right: Node)
    | Or(left: Node, right: Node)

  const MAX_WHEN_EXPRESSION_DEPTH: nat := 64

  function EncodeWhenAst(node: Node): string {
    match node
    case Identifier(name) => name
    case Not(inner) => "!(" + EncodeWhenAst(inner) + ")"
    case And(left, right) => "(" + EncodeWhenAst(left) + " && " + EncodeWhenAst(right) + ")"
    case Or(left, right) => "(" + EncodeWhenAst(left) + " || " + EncodeWhenAst(right) + ")"
  }

  // ---- tokens ----

  datatype Token = Word(value: string) | AndSign | OrSign | NotSign | LeftParen | RightParen

  predicate IsWordStart(c: char) {
    'a' <= c <= 'z' || 'A' <= c <= 'Z' || c == '_'
  }

  predicate IsWordPart(c: char) {
    IsWordStart(c) || IsDigit(c) || c == '.' || c == '-'
  }

  predicate IsWord(s: string) {
    s != "" && IsWordStart(s[0]) && forall k :: 0 <= k < |s| ==> IsWordPart(s[k])
  }

  /** How far the characters of an identifier go. */
  function WordLength(s: string): (n: nat)
    ensures n <= |s|
    ensures forall k :: 0 <= k < n ==> IsWordPart(s[k])
    ensures n < |s| ==> !IsWordPart(s[n])
  {
    if s != "" && IsWordPart(s[0]) then 1 + WordLength(s[1..]) else 0
  }

  /** The first token and the number of characters it takes; a length without a token for white space. */
  datatype Lexeme = Lexeme(token: Option<Token>, length: nat) | NoLexeme

  function FirstLexeme(s: string): (r: Lexeme)
    requires s != ""
    ensures r.Lexeme? ==> 0 < r.length <= |s|
  {
    if IsSpace(s[0]) then Lexeme(None, 1)
    else if "&&" <= s then Lexeme(Some(AndSign), 2)
    else if "||" <= s then Lexeme(Some(OrSign), 2)
    else if s[0] == '!' then Lexeme(Some(NotSign), 1)
    else if s[0] == '(' then Lexeme(Some(LeftParen), 1)
    else if s[0] == ')' then Lexeme(Some(RightParen), 1)
    else if IsWordStart(s[0]) then Lexeme(Some(Word(s[..WordLength(s)])), WordLength(s))
    else NoLexeme
  }

  function Tokenize(s: string): Option<seq<Token>>
    decreases |s|
  {
    if s == "" then Some([])
    else
      match FirstLexeme(s)
      case NoLexeme => None
      case Lexeme(token, length) =>
        Prefixed(if token.Some? then [token.value] else [], Tokenize(s[length..]))
  }

  function Prefixed(tokens: seq<Token>, rest: Option<seq<Token>>): Option<seq<Token>> {
    if rest.Some? then Some(tokens + rest.value) else None
  }

  lemma PrefixedTwice(a: seq<Token>, b: seq<Token>, rest: Option<seq<Token>>)
    ensures Prefixed(a, Prefixed(b, rest)) == Prefixed(a + b, rest)
    ensures Prefixed([], rest) == rest && a + [] == a && [] + b == b
  {
    if rest.Some? {
      assert a + (b + rest.value) == a + b + rest.value;
      assert [] + rest.value == rest.value;
    }
  }

  // ---- the grammar, with a limit on nesting and on signs in a row ----

  datatype Parsed = Fail | Ok(node: Node, next: nat)

  predicate At(tokens: seq<Token>, i: nat, token: Token) {
    i < |tokens| && tokens[i] == token
  }

  function Negated(node: Node, count: nat): Node
    decreases count
  {
    if count == 0 then node else Negated(Not(node), count - 1)
  }

  function NotSigns(tokens: seq<Token>, i: nat): (count: nat)
    requires i <= |tokens|
    ensures i + count <= |tokens|
    ensures forall k :: i <= k < i + count ==> tokens[k] == NotSign
    ensures !At(tokens, i + count, NotSign)
    decreases |tokens| - i
  {
    if At(tokens, i, NotSign) then 1 + NotSigns(tokens, i + 1) else 0
  }

  function Primary(tokens: seq<Token>, i: nat, depth: nat, limit: nat): (r: Parsed)
    requires i <= |tokens|
    ensures r.Ok? ==> i < r.next <= |tokens|
    decreases |tokens| - i, 0
  {
    if depth > limit || i == |tokens| then Fail
    else
      match tokens[i]
      case Word(name) => Ok(Identifier(name), i + 1)
      case LeftParen =>
        var inner := Alternatives(tokens, i + 1, depth + 1, limit);
        if inner.Ok? && At(tokens, inner.next, RightParen) then Ok(inner.node, inner.next + 1) else Fail
      case _ => Fail
  }

  function Unary(tokens: seq<Token>, i: nat, depth: nat, limit: nat): (r: Parsed)
    requires i <= |tokens|
    ensures r.Ok? ==> i < r.next <= |tokens|
    decreases |tokens| - i, 1
  {
    var count := NotSigns(tokens, i);
    if count > limit then Fail
    else
      match Primary(tokens, i + count, depth, limit)
      case Fail => Fail
      case Ok(node, next) => Ok(Negated(node, count), next)
  }

  function Conjuncts(tokens: seq<Token>, i: nat, depth: nat, limit: nat): (r: Parsed)
    requires i <= |tokens|
    ensures r.Ok? ==> i < r.next <= |tokens|
    decreases |tokens| - i, 3
  {
    match Unary(tokens, i, depth, limit)
    case Fail => Fail
    case Ok(left, next) => MoreConjuncts(tokens, left, next, depth, limit)
  }

  function MoreConjuncts(tokens: seq<Token>, left: Node, i: nat, depth: nat, limit: nat): (r: Parsed)
    requires i <= |tokens|
    ensures r.Ok? ==> i <= r.next <= |tokens|
    decreases |tokens| - i, 2
  {
    if !At(tokens, i, AndSign) then Ok(left, i)
    else
      match Unary(tokens, i + 1, depth, limit)
      case Fail => Fail
      case Ok(right, next) => MoreConjuncts(tokens, And(left, right), next, depth, limit)
  }

  function Alternatives(tokens: seq<Token>, i: nat, depth: nat, limit: nat): (r: Parsed)
    requires i <= |tokens|
    ensures r.Ok? ==> i < r.next <= |tokens|
    decreases |tokens| - i, 5
  {
    match Conjuncts(tokens, i, depth, limit)
    case Fail => Fail
    case Ok(left, next) => MoreAlternatives(tokens, left, next, depth, limit)
  }

  function MoreAlternatives(tokens: seq<Token>, left: Node, i: nat, depth: nat, limit: nat): (r: Parsed)
    requires i <= |tokens|
    ensures r.Ok? ==> i <= r.next <= |tokens|
    decreases |tokens| - i, 4
  {
    if !At(tokens, i, OrSign) then Ok(left, i)
    else
      match Conjuncts(tokens, i + 1, depth, limit)
      case Fail => Fail
      case Ok(right, next) => MoreAlternatives(tokens, Or(left, right), next, depth, limit)
  }

  function Parse(expression: string, limit: nat): Option<Node> {
    match Tokenize(expression)
    case None => None
    case Some(tokens) =>
      var r := Alternatives(tokens, 0, 0, limit);
      if r.Ok? && r.next == |tokens| then Some(r.node) else None
  }
}
