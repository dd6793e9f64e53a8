/** The reader of conditions: a loop over characters, then descent over the tokens with one shared index. */
module WhenParser {
  import opened Optional
  import opened Text
  import opened WhenSyntax

  /** One turn of the loop: the sign, identifier or white space at the front. */
  method ReadLexeme(rest: string) returns (r: Lexeme)
    requires rest != ""
    ensures r == FirstLexeme(rest)
  {
    var current := rest[0];
    if IsSpace(current) {
      return Lexeme(None, 1);
    }
    if "&&" <= rest {
      return Lexeme(Some(AndSign), 2);
    }
    if "||" <= rest {
      return Lexeme(Some(OrSign), 2);
    }
    if current == '!' {
      return Lexeme(Some(NotSign), 1);
    }
    if current == '(' {
      return Lexeme(Some(LeftParen), 1);
    }
    if current == ')' {
      return Lexeme(Some(RightParen), 1);
    }
    if !IsWordStart(current) {
      return NoLexeme;
    }
    var length := WordLength(rest);
    return Lexeme(Some(Word(rest[..length])), length);
  }

  method TokenizeWhenExpression(expression: string) returns (r: Option<seq<Token>>)
    ensures r == Tokenize(expression)
  {
    hide FirstLexeme, IsSpace, IsWordPart, IsWordStart;
    var tokens: seq<Token> := [];
    var index := 0;
    PrefixedTwice([], [], Tokenize(expression));
    assert expression[0..] == expression;
    while index < |expression|
      invariant 0 <= index <= |expression|
      invariant Tokenize(expression) == Prefixed(tokens, Tokenize(expression[index..]))
    {
      var rest := expression[index..];
      var lexeme := ReadLexeme(rest);
      if lexeme.NoLexeme? {
        return None;
      }
      var added := if lexeme.token.Some? then [lexeme.token.value] else [];
      PrefixedTwice(tokens, added, Tokenize(rest[lexeme.length..]));
      assert rest[lexeme.length..] == expression[index + lexeme.length..];
      tokens := tokens + added;
      index := index + lexeme.length;
    }
    assert expression[index..] == "" && tokens + [] == tokens;
    return Some(tokens);
  }

  class Parser {
    const tokens: seq<Token>
    var index: nat

    constructor (tokens: seq<Token>)
      ensures this.tokens == tokens && index == 0
    {
      this.tokens := tokens;
      index := 0;
    }

    /** A result and the index it leaves are those of the grammar. */
    ghost predicate Yields(r: Option<Node>, parsed: Parsed)
      reads this
    {
      && index <= |tokens|
      && match parsed
         case Fail => r.None?
         case Ok(node, next) => r == Some(node) && index == next
    }

    method ParsePrimary(depth: nat) returns (r: Option<Node>)
      requires index <= |tokens|
      modifies this`index
      ensures Yields(r, Primary(tokens, old(index), depth, MAX_WHEN_EXPRESSION_DEPTH))
      decreases |tokens| - index, 0
    {
      if depth > MAX_WHEN_EXPRESSION_DEPTH || index == |tokens| {
        return None;
      }
      var token := tokens[index];
      if token.Word? {
        index := index + 1;
        return Some(Identifier(token.value));
      }
      if token == LeftParen {
        index := index + 1;
        var node := ParseOr(depth + 1);
        if node.None? || index == |tokens| || tokens[index] != RightParen {
          return None;
        }
        index := index + 1;
        return node;
      }
      return None;
    }

    method ParseUnary(depth: nat) returns (r: Option<Node>)
      requires index <= |tokens|
      modifies this`index
      ensures Yields(r, Unary(tokens, old(index), depth, MAX_WHEN_EXPRESSION_DEPTH))
      decreases |tokens| - index, 1
    {
      var notCount := 0;
      while index < |tokens| && tokens[index] == NotSign
        invariant index == old(index) + notCount <= |tokens|
        invariant notCount <= MAX_WHEN_EXPRESSION_DEPTH
        invariant NotSigns(tokens, old(index)) == notCount + NotSigns(tokens, index)
      {
        index := index + 1;
        notCount := notCount + 1;
        if notCount > MAX_WHEN_EXPRESSION_DEPTH {
          return None;
        }
      }
      var node := ParsePrimary(depth);
      if node.None? {
        return None;
      }
      var wrapped := node.value;
      ghost var count := notCount;
      while notCount > 0
        invariant 0 <= notCount <= count
        invariant Negated(wrapped, notCount) == Negated(node.value, count)
      {
        wrapped := Not(wrapped);
        notCount := notCount - 1;
      }
      return Some(wrapped);
    }

    method ParseAnd(depth: nat) returns (r: Option<Node>)
      requires index <= |tokens|
      modifies this`index
      ensures Yields(r, Conjuncts(tokens, old(index), depth, MAX_WHEN_EXPRESSION_DEPTH))
      decreases |tokens| - index, 2
    {
      r := ParseUnary(depth);
      while r.Some? && index < |tokens| && tokens[index] == AndSign
        invariant index <= |tokens|
        invariant r.Some? ==> old(index) < index
        invariant var whole := Conjuncts(tokens, old(index), depth, MAX_WHEN_EXPRESSION_DEPTH);
          if r.Some? then whole == MoreConjuncts(tokens, r.value, index, depth, MAX_WHEN_EXPRESSION_DEPTH)
            else whole == Fail
        decreases |tokens| - index
      {
        index := index + 1;
        var right := ParseUnary(depth);
        if right.None? {
          return None;
        }
        r := Some(And(r.value, right.value));
      }
    }

    method ParseOr(depth: nat) returns (r: Option<Node>)
      requires index <= |tokens|
      modifies this`index
      ensures Yields(r, Alternatives(tokens, old(index), depth, MAX_WHEN_EXPRESSION_DEPTH))
      decreases |tokens| - index, 3
    {
      r := ParseAnd(depth);
      while r.Some? && index < |tokens| && tokens[index] == OrSign
        invariant index <= |tokens|
        invariant r.Some? ==> old(index) < index
        invariant var whole := Alternatives(tokens, old(index), depth, MAX_WHEN_EXPRESSION_DEPTH);
          if r.Some? then whole == MoreAlternatives(tokens, r.value, index, depth, MAX_WHEN_EXPRESSION_DEPTH)
            else whole == Fail
        decreases |tokens| - index
      {
        index := index + 1;
        var right := ParseAnd(depth);
        if right.None? {
          return None;
        }
        r := Some(Or(r.value, right.value));
      }
    }
  }

  method ParseKeybindingWhenExpression(expression: string) returns (r: Option<Node>)
    ensures r == Parse(expression, MAX_WHEN_EXPRESSION_DEPTH)
  {
    var tokens := TokenizeWhenExpression(expression);
    if tokens.None? || tokens.value == [] {
      return None;
    }
    var parser := new Parser(tokens.value);
    var ast := parser.ParseOr(0);
    if ast.None? || parser.index != |tokens.value| {
      return None;
    }
    return ast;
  }
}
