/** The `expression` rule. All ten binary operators share one precedence level and
    associate to the left; the unary `!` and `-` bind tighter than any of them. */
module Expressions {
  import opened Tokens
  import opened Ast
  import opened Names

  /** The binary operator a lexeme denotes, if any. */
  function BinaryOpOf(l: Lexeme): (r: Option<BinaryOp>)
    ensures r.Some? ==> l == Sym(OpSymbol(r.value))
    ensures r.None? ==> forall op: BinaryOp :: l != Sym(OpSymbol(op))
  {
    if l == Sym("||") then Some(Or)
    else if l == Sym("&&") then Some(And)
    else if l == Sym("<") then Some(Lt)
    else if l == Sym("<=") then Some(Le)
    else if l == Sym("==") then Some(Eq)
    else if l == Sym("!=") then Some(Ne)
    else if l == Sym(">=") then Some(Ge)
    else if l == Sym(">") then Some(Gt)
    else if l == Sym("+") then Some(Plus)
    else if l == Sym("-") then Some(Minus)
    else None
  }

  predicate AtBinaryOp(toks: seq<Token>) {
    |toks| > 0 && BinaryOpOf(toks[0].lex).Some?
  }

  /** The shape every parsed expression has: the right operand of a binary operator is
      never itself a binary expression (chains lean left), and neither is the operand of
      a unary operator (unary binds tighter). Parentheses reset the shape. */
  predicate LeftLeaning(e: Expr) {
    match e
    case Binary(_, l, r) => LeftLeaning(l) && !r.Binary? && LeftLeaning(r)
    case Unary(_, x) => !x.Binary? && LeftLeaning(x)
    case Group(x) => LeftLeaning(x)
    case Call(_, args) => forall i :: 0 <= i < |args| ==> LeftLeaning(args[i])
    case Action(_, _, args) => forall i :: 0 <= i < |args| ==> LeftLeaning(args[i])
    case _ => true
  }

  /** The backup revision's expressions: names, literals, unary and binary operators only. */
  predicate InBackup(e: Expr) {
    match e
    case Unary(_, x) => InBackup(x)
    case Binary(_, l, r) => InBackup(l) && InBackup(r)
    case NumberLit(_) => true
    case BoolLit(_) => true
    case Ref(_) => true
    case _ => false
  }

  predicate AllInBackup(es: seq<Expr>) {
    forall i :: 0 <= i < |es| ==> InBackup(es[i])
  }

  /** `expression`: a unary operand followed by any number of `op operand` pairs, folded to the left. */
  function ParseExpr(rev: Revision, toks: seq<Token>): (r: Option<Parsed<Expr>>)
    ensures r.Some? ==> |r.value.rest| < |toks|
    ensures r.Some? ==> Lex(toks) == PExpr(r.value.node) + Lex(r.value.rest)
    ensures r.Some? ==> LeftLeaning(r.value.node)
    ensures r.Some? && rev == Backup ==> InBackup(r.value.node)
    decreases |toks|, 4
  {
    var u :- ParseUnary(rev, toks);
    Some(ParseBinaryTail(rev, u.node, u.rest))
  }

  /** The `op operand` pairs after `lhs`; stops before an operator not followed by an operand. */
  function ParseBinaryTail(rev: Revision, lhs: Expr, toks: seq<Token>): (r: Parsed<Expr>)
    requires LeftLeaning(lhs)
    ensures |r.rest| <= |toks|
    ensures PExpr(lhs) + Lex(toks) == PExpr(r.node) + Lex(r.rest)
    ensures LeftLeaning(r.node)
    ensures rev == Backup && InBackup(lhs) ==> InBackup(r.node)
    decreases |toks|, 0
  {
    if AtBinaryOp(toks) then
      var op := BinaryOpOf(toks[0].lex).value;
      match ParseUnary(rev, toks[1..])
      case None => Parsed(lhs, toks)
      case Some(rhs) =>
        var combined := Binary(op, lhs, rhs.node);
        var r := ParseBinaryTail(rev, combined, rhs.rest);
        Chain3(PExpr(lhs) + Lex(toks), Lex(toks), Lex(toks[1..]), PExpr(lhs), [Sym(OpSymbol(op))], PExpr(rhs.node), Lex(rhs.rest));
        r
    else Parsed(lhs, toks)
  }

  /** `unary_expression` (`!` or `-` and an operand), a negative number literal, or a primary. */
  function ParseUnary(rev: Revision, toks: seq<Token>): (r: Option<Parsed<Expr>>)
    ensures r.Some? ==> |r.value.rest| < |toks|
    ensures r.Some? ==> Lex(toks) == PExpr(r.value.node) + Lex(r.value.rest)
    ensures r.Some? ==> LeftLeaning(r.value.node) && !r.value.node.Binary?
    ensures r.Some? && rev == Backup ==> InBackup(r.value.node)
    decreases |toks|, 3
  {
    if At(toks, Sym("!")) then
      var x :- ParseUnary(rev, toks[1..]);
      Some(Parsed(Unary(Not, x.node), x.rest))
    else if At(toks, Sym("-")) then
      if |toks| > 1 && toks[1].lex.Num? && toks[1].glued then
        var n := ParseNumber(toks).value;
        Some(Parsed(NumberLit(n.node), n.rest))
      else
        var x :- ParseUnary(rev, toks[1..]);
        Some(Parsed(Unary(Neg, x.node), x.rest))
    else ParsePrimary(rev, toks)
  }

  /** The other expression forms: group, raw block, literal, action, call and compound name;
      the backup revision has only literals and compound names. */
  function ParsePrimary(rev: Revision, toks: seq<Token>): (r: Option<Parsed<Expr>>)
    ensures r.Some? ==> |r.value.rest| < |toks|
    ensures r.Some? ==> Lex(toks) == PExpr(r.value.node) + Lex(r.value.rest)
    ensures r.Some? ==> LeftLeaning(r.value.node) && !r.value.node.Binary? && !r.value.node.Unary?
    ensures r.Some? && rev == Backup ==> InBackup(r.value.node)
    decreases |toks|, 2
  {
    if rev == Current && At(toks, Sym("(")) then
      var inner :- ParseExpr(rev, toks[1..]);
      var close :- Expect(inner.rest, Sym(")"));
      Chain3(Lex(toks), Lex(toks[1..]), Lex(inner.rest), [Sym("(")], PExpr(inner.node), [Sym(")")], Lex(close));
      Some(Parsed(Group(inner.node), close))
    else
      var lit := ParseLiteral(rev, toks);
      if lit.Some? then lit
      else if rev == Backup then ParseRef(rev, toks)
      else
        var a := ParseActionExpr(rev, toks);
        if a.Some? then a
        else
          var c := ParseCallExpr(rev, toks);
          if c.Some? then c else ParseRef(rev, toks)
  }

  /** The one-token expressions: a raw block (current revision only), digits, `true`, `false`. */
  function ParseLiteral(rev: Revision, toks: seq<Token>): (r: Option<Parsed<Expr>>)
    ensures r.Some? <==> |toks| > 0 && ((rev == Current && toks[0].lex.Raw?) || toks[0].lex.Num?
                                        || toks[0].lex in {Ident("true"), Ident("false")})
    ensures r.Some? ==> r.value.rest == toks[1..] && Lex(toks) == PExpr(r.value.node) + Lex(r.value.rest)
    ensures r.Some? ==> r.value.node.Splice? || r.value.node.NumberLit? || r.value.node.BoolLit?
    ensures r.Some? && rev == Backup ==> !r.value.node.Splice?
  {
    if toks == [] then None
    else if rev == Current && toks[0].lex.Raw? then
      Some(Parsed(Splice(toks[0].lex.text), toks[1..]))
    else if toks[0].lex.Num? then
      Some(Parsed(NumberLit(Number(false, toks[0].lex.digits)), toks[1..]))
    else if At(toks, Ident("true")) then
      Some(Parsed(BoolLit(true), toks[1..]))
    else if At(toks, Ident("false")) then
      Some(Parsed(BoolLit(false), toks[1..]))
    else None
  }

  /** `action`: `port_name . name arguments`. */
  function ParseActionExpr(rev: Revision, toks: seq<Token>): (r: Option<Parsed<Expr>>)
    ensures r.Some? ==> |r.value.rest| < |toks|
    ensures r.Some? ==> Lex(toks) == PExpr(r.value.node) + Lex(r.value.rest)
    ensures r.Some? ==> r.value.node.Action? && LeftLeaning(r.value.node)
    decreases |toks|, 1
  {
    var port :- ExpectIdent(toks);
    var dot :- Expect(port.rest, Sym("."));
    var ev :- ExpectIdent(dot);
    var args :- ParseArgs(rev, ev.rest);
    Chain4(Lex(toks), Lex(port.rest), Lex(dot), Lex(ev.rest), [Ident(port.node)], [Sym(".")], [Ident(ev.node)],
           PArgs(args.node), Lex(args.rest));
    Some(Parsed(Action(port.node, ev.node, args.node), args.rest))
  }

  /** `call`: `name arguments`. */
  function ParseCallExpr(rev: Revision, toks: seq<Token>): (r: Option<Parsed<Expr>>)
    ensures r.Some? ==> |r.value.rest| < |toks|
    ensures r.Some? ==> Lex(toks) == PExpr(r.value.node) + Lex(r.value.rest)
    ensures r.Some? ==> r.value.node.Call? && LeftLeaning(r.value.node)
    decreases |toks|, 1
  {
    var f :- ExpectIdent(toks);
    var args :- ParseArgs(rev, f.rest);
    Some(Parsed(Call(f.node, args.node), args.rest))
  }

  /** A compound name used as a value. */
  function ParseRef(rev: Revision, toks: seq<Token>): (r: Option<Parsed<Expr>>)
    ensures r.Some? ==> |r.value.rest| < |toks|
    ensures r.Some? ==> Lex(toks) == PExpr(r.value.node) + Lex(r.value.rest)
    ensures r.Some? ==> r.value.node.Ref? && |r.value.node.ref.parts| >= 1
  {
    var n :- ParseCompoundName(rev, toks);
    Some(Parsed(Ref(n.node), n.rest))
  }

  /** `arguments`: `(`, an optional comma-separated expression list, `)`. */
  function ParseArgs(rev: Revision, toks: seq<Token>): (r: Option<Parsed<seq<Expr>>>)
    ensures r.Some? ==> |r.value.rest| < |toks|
    ensures r.Some? ==> Lex(toks) == PArgs(r.value.node) + Lex(r.value.rest)
    ensures r.Some? ==> forall i :: 0 <= i < |r.value.node| ==> LeftLeaning(r.value.node[i])
    ensures r.Some? && rev == Backup ==> AllInBackup(r.value.node)
    decreases |toks|, 0
  {
    var open :- Expect(toks, Sym("("));
    match ParseExprList(rev, open)
    case Some(es) =>
      var close :- Expect(es.rest, Sym(")"));
      Chain3(Lex(toks), Lex(open), Lex(es.rest), [Sym("(")], PExprList(es.node), [Sym(")")], Lex(close));
      Some(Parsed(es.node, close))
    case None =>
      var close :- Expect(open, Sym(")"));
      Chain3(Lex(toks), Lex(open), Lex(open), [Sym("(")], PExprList([]), [Sym(")")], Lex(close));
      Some(Parsed([], close))
  }

  /** `expression (',' expression)*`. */
  function ParseExprList(rev: Revision, toks: seq<Token>): (r: Option<Parsed<seq<Expr>>>)
    ensures r.Some? ==> |r.value.node| >= 1 && |r.value.rest| < |toks|
    ensures r.Some? ==> Lex(toks) == PExprList(r.value.node) + Lex(r.value.rest)
    ensures r.Some? ==> forall i :: 0 <= i < |r.value.node| ==> LeftLeaning(r.value.node[i])
    ensures r.Some? && rev == Backup ==> AllInBackup(r.value.node)
    decreases |toks|, 5
  {
    var e :- ParseExpr(rev, toks);
    assert PExprList([e.node]) == PExpr(e.node);
    var one := Parsed([e.node], e.rest);
    var sep := Expect(e.rest, Sym(","));
    if sep.None? then Some(one)
    else
      var tail := ParseExprList(rev, sep.value);
      if tail.None? then Some(one)
      else
        var more := tail.value;
        ExprListLex(Lex(toks), Lex(e.rest), Lex(sep.value), Lex(more.rest), e.node, more.node);
        Some(Parsed([e.node] + more.node, more.rest))
  }

  lemma ExprListLex(x: seq<Lexeme>, a: seq<Lexeme>, b: seq<Lexeme>, d: seq<Lexeme>, e: Expr, es: seq<Expr>)
    requires es != []
    requires x == PExpr(e) + a && a == [Sym(",")] + b && b == PExprList(es) + d
    ensures x == PExprList([e] + es) + d
  {
    ExprListCons(e, es);
    Chain3(x, a, b, PExpr(e), [Sym(",")], PExprList(es), d);
  }
}
