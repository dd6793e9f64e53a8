/**
 * How conditions bind: every tree is what its spelling with the fewest parentheses is read as. Signs
 * bind closest, then conjunctions, then alternatives, and chains group to the left.
 */
module WhenPrecedence {
  import opened Optional
  import opened Text
  import opened WhenSyntax
  import opened WhenRoundTrip

  /** Words are of ASCII letters, digits, underscores, dots and dashes, and begin with a letter or underscore. */
  lemma WordsAre(s: string)
    ensures IsWord(s) <==>
      && s != "" && (var n := s[0] as int; 65 <= n <= 90 || 97 <= n <= 122 || n == 95)
      && forall k :: 0 <= k < |s| ==>
           var n := s[k] as int;
           48 <= n <= 57 || 65 <= n <= 90 || 97 <= n <= 122 || n == 95 || n == 45 || n == 46
  {
    forall c: char
      ensures IsWordStart(c) <==> 65 <= c as int <= 90 || 97 <= c as int <= 122 || c as int == 95
    {
    }
  }

  /** What may stand at a place without parentheses: anything, all but alternatives, or signs and words only. */
  datatype Level = Any | Conjunct | Operand

  predicate Stands(node: Node, level: Level) {
    match node
    case Identifier(_) => true
    case Not(_) => true
    case And(_, _) => level != Operand
    case Or(_, _) => level == Any
  }

  function Bare(node: Node): (tokens: seq<Token>)
    ensures tokens != []
    decreases node, 0
  {
    match node
    case Identifier(name) => [Word(name)]
    case Not(inner) => [NotSign] + Spelled(inner, Operand)
    case And(left, right) => Spelled(left, Conjunct) + [AndSign] + Spelled(right, Operand)
    case Or(left, right) => Spelled(left, Any) + [OrSign] + Spelled(right, Conjunct)
  }

  function Spelled(node: Node, level: Level): (tokens: seq<Token>)
    ensures tokens != []
    decreases node, 1
  {
    if Stands(node, level) then Bare(node) else [LeftParen] + Bare(node) + [RightParen]
  }

  function BareText(node: Node): string
    decreases node, 0
  {
    match node
    case Identifier(name) => name
    case Not(inner) => "!" + SpelledText(inner, Operand)
    case And(left, right) => SpelledText(left, Conjunct) + (" && " + SpelledText(right, Operand))
    case Or(left, right) => SpelledText(left, Any) + (" || " + SpelledText(right, Conjunct))
  }

  function SpelledText(node: Node, level: Level): string
    decreases node, 1
  {
    if Stands(node, level) then BareText(node) else "(" + (BareText(node) + ")")
  }

  /** The signs directly before a node, its own included. */
  function Signs(node: Node): nat {
    if node.Not? then 1 + Signs(node.node) else 0
  }

  /** No more parentheses around a word, and no more signs in a row, than the limit. */
  predicate BareFits(node: Node, depth: nat, limit: nat)
    decreases node, 0
  {
    match node
    case Identifier(_) => depth <= limit
    case Not(inner) => Signs(node) <= limit && Fits(inner, Operand, depth, limit)
    case And(left, right) => Fits(left, Conjunct, depth, limit) && Fits(right, Operand, depth, limit)
    case Or(left, right) => Fits(left, Any, depth, limit) && Fits(right, Conjunct, depth, limit)
  }

  predicate Fits(node: Node, level: Level, depth: nat, limit: nat)
    decreases node, 1
  {
    if Stands(node, level) then BareFits(node, depth, limit) else depth <= limit && BareFits(node, depth + 1, limit)
  }

  // ---- from text to tokens ----

  lemma {:induction false} BareReads(node: Node, rest: string)
    requires WordLike(node) && (rest != "" ==> !IsWordPart(rest[0]))
    ensures ReadsAs(BareText(node), Bare(node), rest)
    decreases Size(node), 0
  {
    hide Tokenize, ReadsAs, SpelledText, Spelled;
    match node
    case Identifier(name) => WordReads(name, rest);
    case Not(inner) =>
      SpelledReads(inner, Operand, rest);
      SignReads("!", [NotSign], SpelledText(inner, Operand) + rest);
      ReadsInTurn("!", [NotSign], SpelledText(inner, Operand), Spelled(inner, Operand), rest);
    case And(left, right) =>
      assert " " + "&&" + " " == " && ";
      PairReads(left, Conjunct, right, Operand, "&&", AndSign, rest);
    case Or(left, right) =>
      assert " " + "||" + " " == " || ";
      PairReads(left, Any, right, Conjunct, "||", OrSign, rest);
  }

  lemma {:induction false} PairReads(left: Node, onLeft: Level, right: Node, onRight: Level, sign: string, token: Token,
      rest: string)
    requires WordLike(left) && WordLike(right) && (rest != "" ==> !IsWordPart(rest[0]))
    requires (sign == "&&" && token == AndSign) || (sign == "||" && token == OrSign)
    ensures ReadsAs(SpelledText(left, onLeft) + ((" " + sign + " ") + SpelledText(right, onRight)),
                    Spelled(left, onLeft) + [token] + Spelled(right, onRight), rest)
    decreases Size(left) + Size(right), 2
  {
    hide Tokenize, ReadsAs, SpelledText, Spelled;
    var a, b, s := SpelledText(left, onLeft), SpelledText(right, onRight), " " + sign + " ";
    var at, bt := Spelled(left, onLeft), Spelled(right, onRight);
    SpelledReads(right, onRight, rest);
    SpacedSignReads(sign, token, b + rest);
    ReadsInTurn(s, [token], b, bt, rest);
    SpelledReads(left, onLeft, (s + b) + rest);
    ReadsInTurn(a, at, s + b, [token] + bt, rest);
    assert at + [token] + bt == at + ([token] + bt);
  }

  lemma {:induction false} SpelledReads(node: Node, level: Level, rest: string)
    requires WordLike(node) && (rest != "" ==> !IsWordPart(rest[0]))
    ensures ReadsAs(SpelledText(node, level), Spelled(node, level), rest)
    decreases Size(node), 1
  {
    hide Tokenize, ReadsAs, BareText, Bare;
    if Stands(node, level) {
      BareReads(node, rest);
    } else {
      var text, tokens := BareText(node), Bare(node);
      SignReads(")", [RightParen], rest);
      BareReads(node, ")" + rest);
      ReadsInTurn(text, tokens, ")", [RightParen], rest);
      SignReads("(", [LeftParen], (text + ")") + rest);
      ReadsInTurn("(", [LeftParen], text + ")", tokens + [RightParen], rest);
      assert [LeftParen] + tokens + [RightParen] == [LeftParen] + (tokens + [RightParen]);
    }
  }

  // ---- from tokens to trees ----

  lemma {:induction false} NegatedOnce(node: Node, count: nat)
    ensures Negated(node, count + 1) == Not(Negated(node, count))
    decreases count
  {
    if count > 0 {
      NegatedOnce(Not(node), count - 1);
    }
  }

  /** One more sign in front. */
  lemma SignInFront(tokens: seq<Token>, i: nat, depth: nat, limit: nat)
    requires At(tokens, i, NotSign)
    ensures NotSigns(tokens, i) == 1 + NotSigns(tokens, i + 1)
    ensures Unary(tokens, i, depth, limit) ==
      match Unary(tokens, i + 1, depth, limit)
      case Fail => Fail
      case Ok(node, next) => if NotSigns(tokens, i) <= limit then Ok(Not(node), next) else Fail
  {
    var count := NotSigns(tokens, i + 1);
    hide Primary;
    match Primary(tokens, i + 1 + count, depth, limit)
    case Fail =>
    case Ok(node, _) => NegatedOnce(node, count);
  }

  /** The signs at a place are those the spelling begins with. */
  lemma {:induction false} SignsCount(node: Node, tokens: seq<Token>, i: nat)
    requires Has(tokens, i, Spelled(node, Operand))
    ensures NotSigns(tokens, i) == Signs(node)
    decreases node
  {
    hide Bare, Has;
    HasFirst(tokens, i, Spelled(node, Operand));
    if node.Not? {
      BareOfNot(node.node);
      HasParts(tokens, i, [NotSign], Spelled(node.node, Operand));
      SignsCount(node.node, tokens, i + 1);
    } else if node.Identifier? {
      BareOfWord(node.name);
    }
  }

  lemma BareOfNot(inner: Node)
    ensures Bare(Not(inner)) == [NotSign] + Spelled(inner, Operand)
  {
  }

  lemma BareOfWord(name: string)
    ensures Bare(Identifier(name)) == [Word(name)]
  {
  }

  function Expected(node: Node, level: Level, i: nat, depth: nat, limit: nat): Parsed {
    if Fits(node, level, depth, limit) then Ok(node, i + |Spelled(node, level)|) else Fail
  }

  /** An operand is read whatever follows. */
  lemma {:induction false} OperandReads(node: Node, tokens: seq<Token>, i: nat, depth: nat, limit: nat)
    requires Has(tokens, i, Spelled(node, Operand))
    ensures Unary(tokens, i, depth, limit) == Expected(node, Operand, i, depth, limit)
    decreases Size(node), 3
  {
    hide Unary, Primary, Has, NotSigns;
    SignsCount(node, tokens, i);
    HasFirst(tokens, i, Spelled(node, Operand));
    match node
    case Identifier(name) =>
      BareOfWord(name);
      assert Spelled(node, Operand) == [Word(name)] && Fits(node, Operand, depth, limit) == (depth <= limit);
      UnaryWithoutSign(tokens, i, depth, limit);
      PrimaryOfWord(tokens, i, name, depth, limit);
    case Not(inner) =>
      BareOfNot(inner);
      assert Spelled(node, Operand) == [NotSign] + Spelled(inner, Operand);
      assert Fits(node, Operand, depth, limit) == (Signs(node) <= limit && Fits(inner, Operand, depth, limit));
      hide Bare, Spelled, Fits;
      HasParts(tokens, i, [NotSign], Spelled(inner, Operand));
      OperandReads(inner, tokens, i + 1, depth, limit);
      SignInFront(tokens, i, depth, limit);
    case And(_, _) => ParenthesesRead(node, tokens, i, depth, limit);
    case Or(_, _) => ParenthesesRead(node, tokens, i, depth, limit);
  }

  lemma {:induction false} ParenthesesRead(node: Node, tokens: seq<Token>, i: nat, depth: nat, limit: nat)
    requires Has(tokens, i, [LeftParen] + Bare(node) + [RightParen])
    ensures Unary(tokens, i, depth, limit) ==
      if depth <= limit && BareFits(node, depth + 1, limit) then Ok(node, i + |Bare(node)| + 2) else Fail
    decreases Size(node), 2
  {
    hide Unary, Primary, Has, NotSigns, Alternatives, Bare, BareFits;
    var inner := Bare(node);
    assert [LeftParen] + inner + [RightParen] == [LeftParen] + (inner + [RightParen]);
    HasParts(tokens, i, [LeftParen], inner + [RightParen]);
    HasParts(tokens, i + 1, inner, [RightParen]);
    HasFirst(tokens, i, [LeftParen]);
    HasFirst(tokens, i + 1 + |inner|, [RightParen]);
    UnaryWithoutSign(tokens, i, depth, limit);
    PrimaryInParentheses(tokens, i, depth, limit);
    AnyReads(node, tokens, i + 1, depth + 1, limit);
    AlternativesEnd(tokens, node, i + 1 + |inner|, depth + 1, limit);
  }

  lemma AlternativesEnd(tokens: seq<Token>, left: Node, i: nat, depth: nat, limit: nat)
    requires i <= |tokens| && !At(tokens, i, OrSign)
    ensures MoreAlternatives(tokens, left, i, depth, limit) == Ok(left, i)
  {
  }

  lemma ConjunctsEnd(tokens: seq<Token>, left: Node, i: nat, depth: nat, limit: nat)
    requires i <= |tokens| && !At(tokens, i, AndSign)
    ensures MoreConjuncts(tokens, left, i, depth, limit) == Ok(left, i)
  {
  }

  lemma ConjunctsGoOn(tokens: seq<Token>, left: Node, i: nat, depth: nat, limit: nat)
    requires At(tokens, i, AndSign)
    ensures MoreConjuncts(tokens, left, i, depth, limit) ==
      match Unary(tokens, i + 1, depth, limit)
      case Fail => Fail
      case Ok(right, next) => MoreConjuncts(tokens, And(left, right), next, depth, limit)
  {
  }

  lemma AlternativesGoOn(tokens: seq<Token>, left: Node, i: nat, depth: nat, limit: nat)
    requires At(tokens, i, OrSign)
    ensures MoreAlternatives(tokens, left, i, depth, limit) ==
      match Conjuncts(tokens, i + 1, depth, limit)
      case Fail => Fail
      case Ok(right, next) => MoreAlternatives(tokens, Or(left, right), next, depth, limit)
  {
  }

  lemma ConjunctsBegin(tokens: seq<Token>, i: nat, depth: nat, limit: nat)
    requires i <= |tokens|
    ensures Conjuncts(tokens, i, depth, limit) ==
      match Unary(tokens, i, depth, limit)
      case Fail => Fail
      case Ok(left, next) => MoreConjuncts(tokens, left, next, depth, limit)
  {
  }

  lemma AlternativesBegin(tokens: seq<Token>, i: nat, depth: nat, limit: nat)
    requires i <= |tokens|
    ensures Alternatives(tokens, i, depth, limit) ==
      match Conjuncts(tokens, i, depth, limit)
      case Fail => Fail
      case Ok(left, next) => MoreAlternatives(tokens, left, next, depth, limit)
  {
  }

  lemma HasPair(tokens: seq<Token>, i: nat, a: seq<Token>, sign: Token, b: seq<Token>)
    requires Has(tokens, i, a + [sign] + b)
    ensures Has(tokens, i, a) && At(tokens, i + |a|, sign) && Has(tokens, i + |a| + 1, b)
  {
    assert a + [sign] + b == a + ([sign] + b);
    HasParts(tokens, i, a, [sign] + b);
    HasParts(tokens, i + |a|, [sign], b);
    HasFirst(tokens, i + |a|, [sign]);
  }

  /** A conjunction is read up to its end, and on from there. */
  lemma {:induction false} ConjunctReads(node: Node, tokens: seq<Token>, i: nat, depth: nat, limit: nat)
    requires Has(tokens, i, Spelled(node, Conjunct))
    ensures Conjuncts(tokens, i, depth, limit) ==
      if Fits(node, Conjunct, depth, limit)
      then MoreConjuncts(tokens, node, i + |Spelled(node, Conjunct)|, depth, limit) else Fail
    decreases Size(node), 4
  {
    hide Unary, Conjuncts, MoreConjuncts, Has;
    HasFirst(tokens, i, Spelled(node, Conjunct));
    match node
    case And(left, right) =>
      var a, b := Spelled(left, Conjunct), Spelled(right, Operand);
      HasPair(tokens, i, a, AndSign, b);
      ConjunctReads(left, tokens, i, depth, limit);
      ConjunctsGoOn(tokens, left, i + |a|, depth, limit);
      OperandReads(right, tokens, i + |a| + 1, depth, limit);
    case _ =>
      OperandReads(node, tokens, i, depth, limit);
      ConjunctsBegin(tokens, i, depth, limit);
  }

  /** A tree that is no alternative is read as a conjunction. */
  lemma {:induction false} PlainReads(node: Node, tokens: seq<Token>, i: nat, depth: nat, limit: nat)
    requires Has(tokens, i, Bare(node)) && !At(tokens, i + |Bare(node)|, AndSign) && !node.Or?
    ensures Conjuncts(tokens, i, depth, limit) ==
      if BareFits(node, depth, limit) then Ok(node, i + |Bare(node)|) else Fail
    decreases Size(node), 0
  {
    hide Unary, Conjuncts, MoreConjuncts, Has, Primary;
    HasFirst(tokens, i, Bare(node));
    match node
    case And(left, right) =>
      var a, b := Spelled(left, Conjunct), Spelled(right, Operand);
      HasPair(tokens, i, a, AndSign, b);
      ConjunctReads(left, tokens, i, depth, limit);
      ConjunctsGoOn(tokens, left, i + |a|, depth, limit);
      OperandReads(right, tokens, i + |a| + 1, depth, limit);
      HasFits(tokens, i, Bare(node));
      ConjunctsEnd(tokens, node, i + |Bare(node)|, depth, limit);
    case Not(inner) =>
      SignsCount(node, tokens, i);
      BareOfNot(inner);
      hide Bare, Spelled;
      HasParts(tokens, i, [NotSign], Spelled(inner, Operand));
      OperandReads(inner, tokens, i + 1, depth, limit);
      SignInFront(tokens, i, depth, limit);
      ConjunctsBegin(tokens, i, depth, limit);
      HasFits(tokens, i, Bare(node));
      ConjunctsEnd(tokens, node, i + |Bare(node)|, depth, limit);
    case Identifier(name) =>
      UnaryWithoutSign(tokens, i, depth, limit);
      PrimaryOfWord(tokens, i, name, depth, limit);
      ConjunctsBegin(tokens, i, depth, limit);
      ConjunctsEnd(tokens, node, i + 1, depth, limit);
  }

  lemma HasFits(tokens: seq<Token>, i: nat, part: seq<Token>)
    requires Has(tokens, i, part)
    ensures i + |part| <= |tokens|
  {
  }

  /** Anything is read up to its end, unless a conjunction goes on there, and on from there. */
  lemma {:induction false} AnyReads(node: Node, tokens: seq<Token>, i: nat, depth: nat, limit: nat)
    requires Has(tokens, i, Bare(node)) && !At(tokens, i + |Bare(node)|, AndSign)
    ensures Alternatives(tokens, i, depth, limit) ==
      if BareFits(node, depth, limit)
      then MoreAlternatives(tokens, node, i + |Bare(node)|, depth, limit) else Fail
    decreases Size(node), 1
  {
    hide Unary, Conjuncts, MoreConjuncts, Alternatives, MoreAlternatives, Has;
    if node.Or? {
      var left, right := node.left, node.right;
      var a, b := Spelled(left, Any), Spelled(right, Conjunct);
      HasPair(tokens, i, a, OrSign, b);
      AnyReads(left, tokens, i, depth, limit);
      AlternativesGoOn(tokens, left, i + |a|, depth, limit);
      ConjunctReads(right, tokens, i + |a| + 1, depth, limit);
      HasFits(tokens, i, Bare(node));
      ConjunctsEnd(tokens, right, i + |a| + 1 + |b|, depth, limit);
    } else {
      HasFits(tokens, i, Bare(node));
      PlainReads(node, tokens, i, depth, limit);
      AlternativesBegin(tokens, i, depth, limit);
    }
  }

  /** The spelling with the fewest parentheses is read as the tree, if and only if it stays within the limit. */
  lemma SpellingReads(node: Node, limit: nat)
    requires WordLike(node)
    ensures Parse(BareText(node), limit) == if BareFits(node, 0, limit) then Some(node) else None
  {
    var text, tokens := BareText(node), Bare(node);
    BareReads(node, "");
    assert text + "" == text && tokens + [] == tokens;
    assert Tokenize(text) == Some(tokens);
    hide Bare, Tokenize, BareText, BareFits, Unary, Alternatives, MoreAlternatives;
    assert tokens[0..|tokens|] == tokens;
    AnyReads(node, tokens, 0, 0, limit);
    AlternativesEnd(tokens, node, |tokens|, 0, limit);
  }

  /** A few mixes without parentheses. */
  lemma MixesRead(a: string, b: string, c: string)
    requires IsWord(a) && IsWord(b) && IsWord(c)
    ensures var x, y, z := Identifier(a), Identifier(b), Identifier(c);
      && Parse(a + (" || " + (b + (" && " + c))), 64) == Some(Or(x, And(y, z)))
      && Parse((a + (" && " + b)) + (" || " + c), 64) == Some(Or(And(x, y), z))
      && Parse((a + (" || " + b)) + (" || " + c), 64) == Some(Or(Or(x, y), z))
      && Parse((a + (" && " + b)) + (" && " + c), 64) == Some(And(And(x, y), z))
      && Parse("!" + a + (" && " + b), 64) == Some(And(Not(x), y))
  {
    var x, y, z := Identifier(a), Identifier(b), Identifier(c);
    WordMixes(a);
    WordMixes(b);
    WordMixes(c);
    hide Parse;
    PairMixes(y, b, z, c);
    PairMixes(x, a, And(y, z), b + (" && " + c));
    PairMixes(x, a, y, b);
    PairMixes(And(x, y), a + (" && " + b), z, c);
    PairMixes(Or(x, y), a + (" || " + b), z, c);
    assert SpelledText(x, Operand) == a && Fits(x, Operand, 0, 64) && Signs(Not(x)) == 1;
    assert Mixes(Not(x), "!" + a, Operand);
    PairMixes(Not(x), "!" + a, y, b);
    MixReads(Or(x, And(y, z)), a + (" || " + (b + (" && " + c))));
    MixReads(Or(And(x, y), z), (a + (" && " + b)) + (" || " + c));
    MixReads(Or(Or(x, y), z), (a + (" || " + b)) + (" || " + c));
    MixReads(And(And(x, y), z), (a + (" && " + b)) + (" && " + c));
    MixReads(And(Not(x), y), "!" + a + (" && " + b));
  }

  /** The node may stand there and is spelled like that. */
  predicate Mixes(node: Node, text: string, level: Level) {
    WordLike(node) && Stands(node, level) && BareText(node) == text && BareFits(node, 0, 64)
  }

  lemma WordMixes(name: string)
    requires IsWord(name)
    ensures forall level :: Mixes(Identifier(name), name, level)
  {
  }

  lemma PairMixes(left: Node, leftText: string, right: Node, rightText: string)
    requires Mixes(left, leftText, Any) && Mixes(right, rightText, Conjunct)
    ensures Mixes(Or(left, right), leftText + (" || " + rightText), Any)
    ensures Stands(left, Conjunct) && Stands(right, Operand) ==>
      Mixes(And(left, right), leftText + (" && " + rightText), Conjunct)
  {
  }

  lemma MixReads(node: Node, text: string)
    requires Mixes(node, text, Any)
    ensures Parse(text, 64) == Some(node)
  {
    SpellingReads(node, 64);
  }
}
