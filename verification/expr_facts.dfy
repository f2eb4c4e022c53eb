/** Properties of the `expression` rule: a printed expression parses back to itself, so
    binary chains lean left and unary operators bind tighter than binary ones. */
module ExprFacts {
  import opened Tokens
  import opened Ast
  import opened Names
  import opened Expressions
  import opened NameFacts

  /** `true` and `false` are literals, never names. */
  predicate LiteralWord(x: string) {
    x == "true" || x == "false"
  }

  /** The expressions the printer writes unambiguously under `rev`: chains lean left, a
      unary `-` is not put before a non-negative number (the two would read back as one
      negative literal), names do not start with a literal word, and the backup revision
      has no groups, raw blocks, calls or actions. */
  predicate WfExpr(rev: Revision, e: Expr) {
    match e
    case Unary(op, x) => !x.Binary? && !(op == Neg && x.NumberLit? && !x.num.negative) && WfExpr(rev, x)
    case Binary(_, l, r) => !r.Binary? && WfExpr(rev, l) && WfExpr(rev, r)
    case NumberLit(_) => true
    case BoolLit(_) => true
    case Ref(n) => |n.parts| >= 1 && (n.global || !LiteralWord(n.parts[0]))
    case Call(f, args) => rev == Current && !LiteralWord(f) && forall i :: 0 <= i < |args| ==> WfExpr(rev, args[i])
    case Action(p, _, args) => rev == Current && !LiteralWord(p) && forall i :: 0 <= i < |args| ==> WfExpr(rev, args[i])
    case Group(x) => rev == Current && WfExpr(rev, x)
    case Splice(_) => rev == Current
  }

  /** Tokens after a name that neither extend it nor turn it into a call or an action. */
  predicate NameSafe(rev: Revision, rest: seq<Token>) {
    !At(rest, Sym("(")) && !ContinuesName(rev, rest)
  }

  /** Tokens that end an expression. */
  predicate EndsExpr(rev: Revision, rest: seq<Token>) {
    !AtBinaryOp(rest) && NameSafe(rev, rest)
  }

  function Size(e: Expr): nat
    decreases e, 1
  {
    match e
    case Unary(_, x) => 1 + Size(x)
    case Binary(_, l, r) => 1 + Size(l) + Size(r)
    case Call(_, args) => 1 + ListSize(args)
    case Action(_, _, args) => 1 + ListSize(args)
    case Group(x) => 1 + Size(x)
    case _ => 1
  }

  function ListSize(es: seq<Expr>): nat
    decreases es, 0
  {
    if es == [] then 0 else 1 + Size(es[0]) + ListSize(es[1..])
  }

  /** The first operand of a binary chain. */
  function Leftmost(e: Expr): Expr {
    if e.Binary? then Leftmost(e.left) else e
  }

  /** The chain `e` with its first operand replaced by `x`. */
  function Graft(x: Expr, e: Expr): Expr {
    if e.Binary? then Binary(e.bop, Graft(x, e.left), e.right) else x
  }

  /** The printed chain after its first operand: `op operand` pairs. */
  function Suffix(e: Expr): seq<Lexeme> {
    if e.Binary? then Suffix(e.left) + [Sym(OpSymbol(e.bop))] + PExpr(e.right) else []
  }

  lemma OpSymbolRoundTrip(op: BinaryOp)
    ensures BinaryOpOf(Sym(OpSymbol(op))) == Some(op)
    ensures OpSymbol(op) != "(" && OpSymbol(op) != "."
  {
  }

  /** `,` and `)` are not operators. */
  lemma Separators()
    ensures BinaryOpOf(Sym(",")).None? && BinaryOpOf(Sym(")")).None?
  {
  }

  lemma {:induction false} WfLeftLeaning(rev: Revision, e: Expr)
    requires WfExpr(rev, e)
    ensures LeftLeaning(e)
    decreases e
  {
    match e
    case Unary(_, x) => WfLeftLeaning(rev, x);
    case Binary(_, l, r) => WfLeftLeaning(rev, l); WfLeftLeaning(rev, r);
    case Call(_, args) =>
      forall i | 0 <= i < |args| ensures LeftLeaning(args[i]) {
        WfLeftLeaning(rev, args[i]);
      }
    case Action(_, _, args) =>
      forall i | 0 <= i < |args| ensures LeftLeaning(args[i]) {
        WfLeftLeaning(rev, args[i]);
      }
    case Group(x) => WfLeftLeaning(rev, x);
    case _ =>
  }

  /** A chain prints as its first operand followed by its suffix. */
  lemma {:induction false} LeftmostSplit(rev: Revision, e: Expr)
    requires WfExpr(rev, e)
    ensures PExpr(e) == PExpr(Leftmost(e)) + Suffix(e)
    ensures !Leftmost(e).Binary? && WfExpr(rev, Leftmost(e)) && Size(Leftmost(e)) <= Size(e)
    ensures Graft(Leftmost(e), e) == e
  {
    if e.Binary? {
      LeftmostSplit(rev, e.left);
    }
  }

  /** The suffix of a chain, when there is one, starts with an operator. */
  lemma SuffixHead(e: Expr)
    requires e.Binary?
    ensures |Suffix(e)| > 0 && exists op :: Suffix(e)[0] == Sym(OpSymbol(op))
    decreases e
  {
    if e.left.Binary? {
      SuffixHead(e.left);
    } else {
      assert Suffix(e)[0] == Sym(OpSymbol(e.bop));
    }
  }

  /** The tokens of `a`, a separator and `b`, in front of `rest`. */
  lemma GlueSep(a: seq<Lexeme>, sep: Lexeme, b: seq<Lexeme>, rest: seq<Token>)
    ensures Glue(a + [sep] + b) + rest == Glue(a) + ([Token(sep, PrintedGlued(sep))] + (Glue(b) + rest))
  {
    GlueAppend(a + [sep], b);
    GlueAppend(a, [sep]);
    GlueCons(sep, []);
  }

  lemma GlueCat(a: seq<Lexeme>, b: seq<Lexeme>, rest: seq<Token>)
    ensures Glue(a + b) + rest == Glue(a) + (Glue(b) + rest)
  {
    GlueAppend(a, b);
  }

  /** One `op operand` step of the binary tail. */
  lemma TailStep(rev: Revision, y: Expr, op: BinaryOp, r: Expr, rest: seq<Token>)
    requires LeftLeaning(y) && LeftLeaning(r) && !r.Binary?
    requires ParseUnary(rev, Glue(PExpr(r)) + rest) == Some(Parsed(r, rest))
    ensures ParseBinaryTail(rev, y, [Token(Sym(OpSymbol(op)), PrintedGlued(Sym(OpSymbol(op))))] + (Glue(PExpr(r)) + rest))
         == ParseBinaryTail(rev, Binary(op, y, r), rest)
  {
    OpSymbolRoundTrip(op);
    var toks := [Token(Sym(OpSymbol(op)), PrintedGlued(Sym(OpSymbol(op))))] + (Glue(PExpr(r)) + rest);
    assert toks[1..] == Glue(PExpr(r)) + rest;
  }

  /** The tokens of a binary expression's suffix: its left operand's suffix, the operator,
      the right operand. */
  lemma SuffixTokens(e: Expr, rest: seq<Token>)
    requires e.Binary?
    ensures Glue(Suffix(e)) + rest
         == Glue(Suffix(e.left)) + ([Token(Sym(OpSymbol(e.bop)), PrintedGlued(Sym(OpSymbol(e.bop))))] + (Glue(PExpr(e.right)) + rest))
  {
    var o := Sym(OpSymbol(e.bop));
    assert Suffix(e) == Suffix(e.left) + [o] + PExpr(e.right);
    GlueCat(Suffix(e.left) + [o], PExpr(e.right), rest);
    GlueCat(Suffix(e.left), [o], Glue(PExpr(e.right)) + rest);
    GlueCons(o, []);
  }

  /** Parsing the suffix of `e` after an operand `x` builds `e` with `x` grafted in. */
  lemma {:induction false} SuffixTail(rev: Revision, x: Expr, e: Expr, rest: seq<Token>)
    requires LeftLeaning(x) && WfExpr(rev, e) && NameSafe(rev, rest)
    ensures LeftLeaning(Graft(x, e))
    ensures ParseBinaryTail(rev, x, Glue(Suffix(e)) + rest) == ParseBinaryTail(rev, Graft(x, e), rest)
    decreases Size(e), 2
  {
    if e.Binary? {
      var op, l, r := e.bop, e.left, e.right;
      var opTok := Token(Sym(OpSymbol(op)), PrintedGlued(Sym(OpSymbol(op))));
      var after := [opTok] + (Glue(PExpr(r)) + rest);
      SuffixTokens(e, rest);
      OpSymbolRoundTrip(op);
      SuffixTail(rev, x, l, after);
      UnaryRoundTrip(rev, r, rest);
      WfLeftLeaning(rev, r);
      var y := Graft(x, l);
      TailStep(rev, y, op, r, rest);
      assert Graft(x, e) == Binary(op, y, r);
      calc {
        ParseBinaryTail(rev, x, Glue(Suffix(e)) + rest);
        ParseBinaryTail(rev, x, Glue(Suffix(l)) + after);
        ParseBinaryTail(rev, y, after);
        ParseBinaryTail(rev, Binary(op, y, r), rest);
      }
    } else {
      assert Glue(Suffix(e)) + rest == rest;
    }
  }

  /** What follows the leftmost operand of a printed expression ends a name: an operator,
      or the tokens after the expression. */
  lemma SuffixNameSafe(rev: Revision, e: Expr, rest: seq<Token>)
    requires EndsExpr(rev, rest)
    ensures NameSafe(rev, Glue(Suffix(e)) + rest)
  {
    var after := Glue(Suffix(e)) + rest;
    if e.Binary? {
      SuffixHead(e);
      var op :| Suffix(e)[0] == Sym(OpSymbol(op));
      OpSymbolRoundTrip(op);
      GlueCat([Suffix(e)[0]], Suffix(e)[1..], rest);
      assert [Suffix(e)[0]] + Suffix(e)[1..] == Suffix(e);
      GlueCons(Suffix(e)[0], []);
      assert after[0].lex == Suffix(e)[0];
    } else {
      assert after == rest;
    }
  }

  /** A printed expression parses back to itself when the tokens after it end it. */
  lemma {:induction false} ExprRoundTrip(rev: Revision, e: Expr, rest: seq<Token>)
    requires WfExpr(rev, e) && EndsExpr(rev, rest)
    ensures ParseExpr(rev, Glue(PExpr(e)) + rest) == Some(Parsed(e, rest))
    decreases Size(e), 3
  {
    var x := Leftmost(e);
    LeftmostSplit(rev, e);
    var after := Glue(Suffix(e)) + rest;
    GlueCat(PExpr(x), Suffix(e), rest);
    SuffixNameSafe(rev, e, rest);
    UnaryRoundTrip(rev, x, after);
    WfLeftLeaning(rev, x);
    SuffixTail(rev, x, e, rest);
    WfLeftLeaning(rev, e);
  }

  /** What the first printed lexeme of an operand is. */
  lemma FirstLexeme(e: Expr)
    requires !e.Binary? && (e.Ref? ==> |e.ref.parts| >= 1)
    ensures |PExpr(e)| > 0 && |Glue(PExpr(e))| > 0
    ensures Glue(PExpr(e))[0] == Token(PExpr(e)[0], PrintedGlued(PExpr(e)[0]))
    ensures PExpr(e)[0].Num? <==> e.NumberLit? && !e.num.negative
    ensures PExpr(e)[0] == Sym("!") <==> e.Unary? && e.uop == Not
    ensures PExpr(e)[0] == Sym("-") <==> (e.Unary? && e.uop == Neg) || (e.NumberLit? && e.num.negative)
  {
    match e
    case Ref(n) =>
      if n.global {
        assert PExpr(e)[0] == Sym(".");
      } else {
        assert PExpr(e)[0] == Ident(n.parts[0]);
      }
    case NumberLit(n) =>
      if n.negative {
        assert PExpr(e)[0] == Sym("-");
      } else {
        assert PExpr(e)[0] == Num(n.digits);
      }
    case Unary(op, x) =>
      assert PExpr(e)[0] == Sym(if op == Not then "!" else "-");
    case Group(x) =>
      assert PExpr(e)[0] == Sym("(");
    case Call(f, args) =>
      assert PExpr(e)[0] == Ident(f);
    case Action(p, ev, args) =>
      assert PExpr(e)[0] == Ident(p);
    case BoolLit(b) =>
    case Splice(t) =>
  }

  /** `!` or `-` in front of a parsed operand; a `-` stays an operator unless digits follow it. */
  lemma UnaryStep(rev: Revision, op: UnaryOp, x: Expr, body: seq<Token>, rest: seq<Token>)
    requires |body| > 0 && (op == Neg ==> !body[0].lex.Num?)
    requires ParseUnary(rev, body) == Some(Parsed(x, rest))
    ensures ParseUnary(rev, [Token(Sym(if op == Not then "!" else "-"), op == Neg)] + body) == Some(Parsed(Unary(op, x), rest))
  {
    var toks := [Token(Sym(if op == Not then "!" else "-"), op == Neg)] + body;
    assert toks[1..] == body;
  }

  /** A `-` glued to digits is a negative literal. */
  lemma NegativeLiteralStep(rev: Revision, n: Number, rest: seq<Token>)
    requires n.negative
    ensures ParseUnary(rev, Glue(PExpr(NumberLit(n))) + rest) == Some(Parsed(NumberLit(n), rest))
  {
    NumberRoundTrip(n, rest);
    var toks := Glue(PExpr(NumberLit(n))) + rest;
    assert toks == [Token(Sym("-"), true), Token(Num(n.digits), true)] + rest by {
      assert PExpr(NumberLit(n)) == [Sym("-"), Num(n.digits)];
    }
  }

  /** An operand that is neither unary nor binary goes through `ParsePrimary`. */
  lemma PrimaryStep(rev: Revision, e: Expr, rest: seq<Token>)
    requires !e.Binary? && !e.Unary? && !(e.NumberLit? && e.num.negative) && (e.Ref? ==> |e.ref.parts| >= 1)
    ensures ParseUnary(rev, Glue(PExpr(e)) + rest) == ParsePrimary(rev, Glue(PExpr(e)) + rest)
  {
    FirstLexeme(e);
  }

  /** A printed operand parses back to itself. */
  /** The tokens of a unary expression: its operator, then its operand. */
  lemma UnaryTokens(e: Expr, rest: seq<Token>)
    requires e.Unary?
    ensures Glue(PExpr(e)) + rest
         == [Token(Sym(if e.uop == Not then "!" else "-"), e.uop == Neg)] + (Glue(PExpr(e.operand)) + rest)
  {
    GlueCons(Sym(if e.uop == Not then "!" else "-"), PExpr(e.operand));
  }

  lemma {:induction false} UnaryRoundTrip(rev: Revision, e: Expr, rest: seq<Token>)
    requires WfExpr(rev, e) && !e.Binary? && NameSafe(rev, rest)
    ensures ParseUnary(rev, Glue(PExpr(e)) + rest) == Some(Parsed(e, rest))
    decreases Size(e), 2
  {
    if e.Unary? {
      var op, x := e.uop, e.operand;
      UnaryTokens(e, rest);
      UnaryRoundTrip(rev, x, rest);
      FirstLexeme(x);
      UnaryStep(rev, op, x, Glue(PExpr(x)) + rest, rest);
    } else if e.NumberLit? && e.num.negative {
      NegativeLiteralStep(rev, e.num, rest);
    } else {
      PrimaryStep(rev, e, rest);
      PrimaryRoundTrip(rev, e, rest);
    }
  }

  /** A printed operand other than a unary one or a negative literal is a primary. */
  lemma {:induction false} PrimaryRoundTrip(rev: Revision, e: Expr, rest: seq<Token>)
    requires WfExpr(rev, e) && !e.Binary? && !e.Unary? && !(e.NumberLit? && e.num.negative) && NameSafe(rev, rest)
    ensures ParsePrimary(rev, Glue(PExpr(e)) + rest) == Some(Parsed(e, rest))
    decreases Size(e), 1
  {
    match e
    case Group(x) => GroupRoundTrip(rev, e, rest);
    case Call(_, _) => CallRoundTrip(rev, e, rest);
    case Action(_, _, _) => ActionRoundTrip(rev, e, rest);
    case Ref(n) => RefRoundTrip(rev, n, rest);
    case NumberLit(n) => LiteralRoundTrip(rev, e, rest);
    case BoolLit(_) => LiteralRoundTrip(rev, e, rest);
    case Splice(_) => LiteralRoundTrip(rev, e, rest);
  }

  /** The one-token expressions. */
  lemma LiteralRoundTrip(rev: Revision, e: Expr, rest: seq<Token>)
    requires WfExpr(rev, e) && (e.BoolLit? || (e.NumberLit? && !e.num.negative) || e.Splice?)
    ensures ParsePrimary(rev, Glue(PExpr(e)) + rest) == Some(Parsed(e, rest))
  {
    var toks := Glue(PExpr(e)) + rest;
    FirstLexeme(e);
    assert |PExpr(e)| == 1;
    assert toks == [Token(PExpr(e)[0], PrintedGlued(PExpr(e)[0]))] + rest;
    assert toks[1..] == rest;
  }

  lemma {:induction false} GroupRoundTrip(rev: Revision, e: Expr, rest: seq<Token>)
    requires e.Group? && WfExpr(rev, e)
    ensures ParsePrimary(rev, Glue(PExpr(e)) + rest) == Some(Parsed(e, rest))
    decreases Size(e), 0
  {
    var close := [Token(Sym(")"), false)] + rest;
    BracketTokens(PExpr(e.inner), rest);
    Separators();
    ExprRoundTrip(rev, e.inner, close);
    GroupStep(rev, e.inner, Glue(PExpr(e.inner)) + close, rest);
  }

  /** The tokens of lexemes printed between parentheses. */
  lemma BracketTokens(ls: seq<Lexeme>, rest: seq<Token>)
    ensures Glue([Sym("(")] + ls + [Sym(")")]) + rest
         == [Token(Sym("("), false)] + (Glue(ls) + ([Token(Sym(")"), false)] + rest))
  {
    var close := [Token(Sym(")"), false)] + rest;
    GlueCat([Sym("(")] + ls, [Sym(")")], rest);
    GlueCons(Sym(")"), []);
    assert Glue([Sym(")")]) + rest == close;
    GlueCat([Sym("(")], ls, close);
    GlueCons(Sym("("), []);
    assert Glue([Sym("(")]) == [Token(Sym("("), false)];
  }

  lemma GroupStep(rev: Revision, x: Expr, body: seq<Token>, rest: seq<Token>)
    requires rev == Current
    requires ParseExpr(rev, body) == Some(Parsed(x, [Token(Sym(")"), false)] + rest))
    ensures ParsePrimary(rev, [Token(Sym("("), false)] + body) == Some(Parsed(Group(x), rest))
  {
    var toks := [Token(Sym("("), false)] + body;
    assert toks[1..] == body;
    assert ([Token(Sym(")"), false)] + rest)[1..] == rest;
  }

  lemma {:induction false} CallRoundTrip(rev: Revision, e: Expr, rest: seq<Token>)
    requires e.Call? && WfExpr(rev, e)
    ensures ParsePrimary(rev, Glue(PExpr(e)) + rest) == Some(Parsed(e, rest))
    decreases Size(e), 0
  {
    var after := Glue(PArgs(e.args)) + rest;
    assert Glue(PExpr(e)) + rest == [Token(Ident(e.fn), false)] + after by {
      GlueCat([Ident(e.fn)], PArgs(e.args), rest);
      GlueCons(Ident(e.fn), []);
    }
    ArgsRoundTrip(rev, e.args, rest);
    ArgsStart(e.args, rest);
    CallStep(rev, e.fn, after, Parsed(e.args, rest));
  }

  /** The printed arguments start with `(`. */
  lemma ArgsStart(es: seq<Expr>, rest: seq<Token>)
    ensures |Glue(PArgs(es)) + rest| > 0 && (Glue(PArgs(es)) + rest)[0] == Token(Sym("("), false)
  {
    GlueCat([Sym("(")], PExprList(es) + [Sym(")")], rest);
    GlueCons(Sym("("), []);
  }

  lemma CallStep(rev: Revision, f: string, after: seq<Token>, args: Parsed<seq<Expr>>)
    requires rev == Current && !LiteralWord(f)
    requires At(after, Sym("(")) && ParseArgs(rev, after) == Some(args)
    ensures ParsePrimary(rev, [Token(Ident(f), false)] + after) == Some(Parsed(Call(f, args.node), args.rest))
  {
    var toks := [Token(Ident(f), false)] + after;
    assert toks[1..] == after;
    assert ParseLiteral(rev, toks).None?;
    assert ParseActionExpr(rev, toks).None?;
  }

  lemma {:induction false} ActionRoundTrip(rev: Revision, e: Expr, rest: seq<Token>)
    requires e.Action? && WfExpr(rev, e)
    ensures ParsePrimary(rev, Glue(PExpr(e)) + rest) == Some(Parsed(e, rest))
    decreases Size(e), 0
  {
    var after := Glue(PArgs(e.actionArgs)) + rest;
    var head := [Token(Ident(e.port), false), Token(Sym("."), true), Token(Ident(e.event), false)];
    assert Glue(PExpr(e)) + rest == head + after by {
      GlueCat([Ident(e.port)] + [Sym(".")] + [Ident(e.event)], PArgs(e.actionArgs), rest);
      GlueCons(Ident(e.port), [Sym(".")] + [Ident(e.event)]);
      GlueCons(Sym("."), [Ident(e.event)]);
      GlueCons(Ident(e.event), []);
    }
    ArgsRoundTrip(rev, e.actionArgs, rest);
    ActionStep(rev, e.port, e.event, after, Parsed(e.actionArgs, rest));
  }

  lemma ActionStep(rev: Revision, p: string, ev: string, after: seq<Token>, args: Parsed<seq<Expr>>)
    requires rev == Current && !LiteralWord(p)
    requires ParseArgs(rev, after) == Some(args)
    ensures ParsePrimary(rev, [Token(Ident(p), false), Token(Sym("."), true), Token(Ident(ev), false)] + after)
         == Some(Parsed(Action(p, ev, args.node), args.rest))
  {
    var toks := [Token(Ident(p), false), Token(Sym("."), true), Token(Ident(ev), false)] + after;
    assert toks[1..][1..][1..] == after;
    assert ParseLiteral(rev, toks).None?;
  }

  /** A printed name used as a value. */
  lemma RefRoundTrip(rev: Revision, n: Name, rest: seq<Token>)
    requires WfExpr(rev, Ref(n)) && NameSafe(rev, rest)
    ensures ParsePrimary(rev, Glue(PExpr(Ref(n))) + rest) == Some(Parsed(Ref(n), rest))
  {
    var toks := Glue(PName(n)) + rest;
    CompoundNameRoundTrip(rev, n, rest);
    FirstLexeme(Ref(n));
    assert ParseLiteral(rev, toks).None?;
    if rev == Current {
      RefNotAction(n, rest);
      RefNotCall(n, rest);
    }
  }

  /** The first four tokens of a printed name: what decides whether an action or a call
      could start there. */
  lemma NameTokens(n: Name, rest: seq<Token>)
    requires |n.parts| >= 1 && !n.global
    ensures var toks := Glue(PName(n)) + rest;
      && |toks| >= 1 && toks[0].lex == Ident(n.parts[0])
      && (|n.parts| == 1 ==> toks[1..] == rest)
      && (|n.parts| >= 2 ==> |toks| >= 3 && toks[1].lex == Sym(".") && toks[2].lex == Ident(n.parts[1]))
      && (|n.parts| == 2 ==> toks[3..] == rest)
      && (|n.parts| >= 3 ==> |toks| >= 4 && toks[3].lex == Sym("."))
  {
    assert PName(n) == PParts(n.parts);
    GlueParts(n.parts);
    if |n.parts| >= 2 {
      GlueParts(n.parts[1..]);
      if |n.parts| >= 3 {
        assert n.parts[1..][1..] == n.parts[2..];
      }
    }
  }

  lemma ArgsOpen(rev: Revision, toks: seq<Token>)
    ensures ParseArgs(rev, toks).Some? ==> At(toks, Sym("("))
  {
  }

  /** An action needs `name . name (` in front. */
  lemma ActionShape(rev: Revision, toks: seq<Token>)
    ensures ParseActionExpr(rev, toks).Some? ==>
      |toks| >= 4 && toks[0].lex.Ident? && toks[1].lex == Sym(".") && toks[2].lex.Ident? && toks[3].lex == Sym("(")
  {
    if ParseActionExpr(rev, toks).Some? {
      assert |toks| >= 3 && toks[0].lex.Ident? && toks[1].lex == Sym(".") && toks[2].lex.Ident?;
      assert toks[1..][1..][1..] == toks[3..];
      ArgsOpen(rev, toks[3..]);
    }
  }

  /** A call needs `name (` in front. */
  lemma CallShape(rev: Revision, toks: seq<Token>)
    ensures ParseCallExpr(rev, toks).Some? ==> |toks| >= 2 && toks[0].lex.Ident? && toks[1].lex == Sym("(")
  {
    if ParseCallExpr(rev, toks).Some? {
      ArgsOpen(rev, toks[1..]);
    }
  }

  lemma RefNotAction(n: Name, rest: seq<Token>)
    requires |n.parts| >= 1 && NameSafe(Current, rest)
    ensures ParseActionExpr(Current, Glue(PName(n)) + rest).None?
  {
    var toks := Glue(PName(n)) + rest;
    ActionShape(Current, toks);
    if n.global {
      assert PName(n)[0] == Sym(".");
    } else {
      NameTokens(n, rest);
      if |n.parts| == 2 {
        assert toks[3..] == rest;
      }
    }
  }

  lemma RefNotCall(n: Name, rest: seq<Token>)
    requires |n.parts| >= 1 && NameSafe(Current, rest)
    ensures ParseCallExpr(Current, Glue(PName(n)) + rest).None?
  {
    var toks := Glue(PName(n)) + rest;
    CallShape(Current, toks);
    if n.global {
      assert PName(n)[0] == Sym(".");
    } else {
      NameTokens(n, rest);
    }
  }

  /** No expression starts with `)`. */
  lemma NoExprAtClose(rev: Revision, rest: seq<Token>)
    ensures ParseExprList(rev, [Token(Sym(")"), false)] + rest).None?
  {
    var toks := [Token(Sym(")"), false)] + rest;
    assert ParseLiteral(rev, toks).None?;
    assert ParseActionExpr(rev, toks).None?;
    assert ParseCallExpr(rev, toks).None?;
    assert ParseNameParts(rev, toks).None?;
    assert ParseRef(rev, toks).None?;
    assert ParsePrimary(rev, toks).None?;
    assert ParseUnary(rev, toks).None?;
    assert ParseExpr(rev, toks).None?;
  }

  lemma ArgsStep(rev: Revision, body: seq<Token>, es: seq<Expr>, rest: seq<Token>)
    requires ParseExprList(rev, body) == Some(Parsed(es, [Token(Sym(")"), false)] + rest))
    ensures ParseArgs(rev, [Token(Sym("("), false)] + body) == Some(Parsed(es, rest))
  {
    var toks := [Token(Sym("("), false)] + body;
    assert toks[1..] == body;
    assert ([Token(Sym(")"), false)] + rest)[1..] == rest;
  }

  lemma ArgsEmpty(rev: Revision, rest: seq<Token>)
    ensures ParseArgs(rev, [Token(Sym("("), false)] + ([Token(Sym(")"), false)] + rest)) == Some(Parsed([], rest))
  {
    var close := [Token(Sym(")"), false)] + rest;
    var toks := [Token(Sym("("), false)] + close;
    NoExprAtClose(rev, rest);
    assert toks[1..] == close;
    assert close[1..] == rest;
  }

  /** Printed arguments parse back to themselves, whatever follows. */
  lemma {:induction false} ArgsRoundTrip(rev: Revision, es: seq<Expr>, rest: seq<Token>)
    requires forall i :: 0 <= i < |es| ==> WfExpr(rev, es[i])
    ensures ParseArgs(rev, Glue(PArgs(es)) + rest) == Some(Parsed(es, rest))
    decreases ListSize(es), 1
  {
    var close := [Token(Sym(")"), false)] + rest;
    BracketTokens(PExprList(es), rest);
    if es == [] {
      assert Glue(PExprList(es)) + close == close;
      ArgsEmpty(rev, rest);
    } else {
      Separators();
      ExprListRoundTrip(rev, es, close);
      ArgsStep(rev, Glue(PExprList(es)) + close, es, rest);
    }
  }

  lemma ExprListOne(rev: Revision, body: seq<Token>, e: Expr, rest: seq<Token>)
    requires ParseExpr(rev, body) == Some(Parsed(e, rest)) && !At(rest, Sym(","))
    ensures ParseExprList(rev, body) == Some(Parsed([e], rest))
  {
  }

  lemma ExprListMore(rev: Revision, body: seq<Token>, e: Expr, tail: seq<Token>, es: seq<Expr>, rest: seq<Token>)
    requires ParseExpr(rev, body) == Some(Parsed(e, [Token(Sym(","), false)] + tail))
    requires ParseExprList(rev, tail) == Some(Parsed(es, rest))
    ensures ParseExprList(rev, body) == Some(Parsed([e] + es, rest))
  {
    assert ([Token(Sym(","), false)] + tail)[1..] == tail;
  }

  /** The tokens of a printed list of two or more expressions. */
  lemma ListTokens(es: seq<Expr>, rest: seq<Token>)
    requires |es| >= 2
    ensures Glue(PExprList(es)) + rest
         == Glue(PExpr(es[0])) + ([Token(Sym(","), false)] + (Glue(PExprList(es[1..])) + rest))
  {
    assert PExprList(es) == PExpr(es[0]) + [Sym(",")] + PExprList(es[1..]);
    GlueSep(PExpr(es[0]), Sym(","), PExprList(es[1..]), rest);
  }

  /** A printed, comma-separated expression list parses back to itself. */
  lemma {:induction false} ExprListRoundTrip(rev: Revision, es: seq<Expr>, rest: seq<Token>)
    requires |es| >= 1 && forall i :: 0 <= i < |es| ==> WfExpr(rev, es[i])
    requires EndsExpr(rev, rest) && !At(rest, Sym(","))
    ensures ParseExprList(rev, Glue(PExprList(es)) + rest) == Some(Parsed(es, rest))
    decreases ListSize(es), 0
  {
    var toks := Glue(PExprList(es)) + rest;
    if |es| == 1 {
      assert PExprList(es) == PExpr(es[0]);
      ExprRoundTrip(rev, es[0], rest);
      ExprListOne(rev, toks, es[0], rest);
      assert [es[0]] == es;
    } else {
      var tail := Glue(PExprList(es[1..])) + rest;
      ListTokens(es, rest);
      Separators();
      ExprRoundTrip(rev, es[0], [Token(Sym(","), false)] + tail);
      ExprListRoundTrip(rev, es[1..], rest);
      ExprListMore(rev, toks, es[0], tail, es[1..], rest);
      HeadTail(es);
    }
  }

  function Var(x: string): Expr {
    Ref(Name(false, [x]))
  }

  lemma VarTokens(x: string)
    ensures PExpr(Var(x)) == [Ident(x)]
  {
    assert PName(Name(false, [x])) == [] + PParts([x]);
  }

  /** `a || b && c` groups as `(a || b) && c`: the grammar gives `||` and `&&` one level. */
  lemma OrAndShareOneLevel(rev: Revision, a: string, b: string, c: string)
    requires !LiteralWord(a) && !LiteralWord(b) && !LiteralWord(c)
    ensures ParseExpr(rev, Glue([Ident(a), Sym("||"), Ident(b), Sym("&&"), Ident(c)]))
         == Some(Parsed(Binary(And, Binary(Or, Var(a), Var(b)), Var(c)), []))
  {
    var e := Binary(And, Binary(Or, Var(a), Var(b)), Var(c));
    VarTokens(a); VarTokens(b); VarTokens(c);
    assert PExpr(e) == [Ident(a), Sym("||"), Ident(b), Sym("&&"), Ident(c)];
    ExprRoundTrip(rev, e, []);
    assert Glue(PExpr(e)) + [] == Glue(PExpr(e));
  }

  /** `a - b - c` is `(a - b) - c`. */
  lemma MinusLeansLeft(rev: Revision, a: string, b: string, c: string)
    requires !LiteralWord(a) && !LiteralWord(b) && !LiteralWord(c)
    ensures ParseExpr(rev, Glue([Ident(a), Sym("-"), Ident(b), Sym("-"), Ident(c)]))
         == Some(Parsed(Binary(Minus, Binary(Minus, Var(a), Var(b)), Var(c)), []))
  {
    var e := Binary(Minus, Binary(Minus, Var(a), Var(b)), Var(c));
    VarTokens(a); VarTokens(b); VarTokens(c);
    assert PExpr(e) == [Ident(a), Sym("-"), Ident(b), Sym("-"), Ident(c)];
    ExprRoundTrip(rev, e, []);
    assert Glue(PExpr(e)) + [] == Glue(PExpr(e));
  }

  /** `!a && b` is `(!a) && b`: a unary operator takes only the operand next to it. */
  lemma NotBindsTighter(rev: Revision, a: string, b: string)
    requires !LiteralWord(a) && !LiteralWord(b)
    ensures ParseExpr(rev, Glue([Sym("!"), Ident(a), Sym("&&"), Ident(b)]))
         == Some(Parsed(Binary(And, Unary(Not, Var(a)), Var(b)), []))
  {
    var e := Binary(And, Unary(Not, Var(a)), Var(b));
    VarTokens(a); VarTokens(b);
    assert PExpr(e) == [Sym("!"), Ident(a), Sym("&&"), Ident(b)];
    ExprRoundTrip(rev, e, []);
    assert Glue(PExpr(e)) + [] == Glue(PExpr(e));
  }

  /** A `-` glued to digits is one negative literal; with a space between, it is the unary
      operator applied to a non-negative literal. */
  lemma MinusBeforeDigits(rev: Revision, d: string, spaced: bool)
    ensures ParseUnary(rev, [Token(Sym("-"), false), Token(Num(d), !spaced)])
         == Some(Parsed(if spaced then Unary(Neg, NumberLit(Number(false, d))) else NumberLit(Number(true, d)), []))
  {
    var toks := [Token(Sym("-"), false), Token(Num(d), !spaced)];
    var digits := [Token(Num(d), !spaced)];
    assert toks[1..] == digits;
    assert digits[1..] == [];
    if spaced {
      assert ParseLiteral(rev, digits) == Some(Parsed(NumberLit(Number(false, d)), []));
      assert ParseUnary(rev, digits) == Some(Parsed(NumberLit(Number(false, d)), []));
    } else {
      assert ParseNumber(toks) == Some(Parsed(Number(true, d), []));
    }
  }
}
