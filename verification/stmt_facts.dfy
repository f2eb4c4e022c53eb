/** Properties of the statement rules: every printed statement parses back to itself, an
    `else` after an `if` that ends a then-branch goes to the enclosing `if`, and the backup
    revision's narrower `compound`, `reply` and `defer`. */
module StmtFacts {
  import opened Tokens
  import opened Ast
  import opened Names
  import opened Expressions
  import opened Triggers
  import opened Statements
  import opened NameFacts
  import opened ExprFacts
  import opened TriggerFacts

  /** A statement that ends in an `if` without `else`: an `else` written right after it
      would be taken by that `if`, unless the statement is itself a then-branch. */
  predicate OpenIf(s: Stmt) {
    match s
    case If(_, _, e) => e.None? || OpenIf(e.value)
    case Defer(_, b) => OpenIf(b)
    case On(_, b) => OpenIf(b)
    case Blocking(b) => OpenIf(b)
    case Guard(_, b) => OpenIf(b)
    case _ => false
  }

  /** A guard condition the printer writes unambiguously: an expression that is not written
      starting with the word `otherwise`. */
  predicate WfGuardCond(rev: Revision, g: GuardCond) {
    g.Condition? ==> WfExpr(rev, g.cond) && !(|PExpr(g.cond)| > 0 && PExpr(g.cond)[0] == Ident("otherwise"))
  }

  /** The statements the printer writes unambiguously under `rev`. Names that lead a
      statement are no keywords, expressions are well formed, branches and deferred
      statements are imperative, a then-branch takes no `else`, a current reply carries a
      value, and the declarative forms, arguments of `defer`, actions, calls, interface
      actions and the port before `reply` belong to the current revision (the printer
      glues the port's `.`, which the backup revision reads as part of a name), `defer ;`
      and one-statement compounds to the backup one. */
  predicate WfStmt(rev: Revision, s: Stmt) {
    match s
    case On(ts, b) =>
      rev == Current && |ts| >= 1 && (forall i :: 0 <= i < |ts| ==> WfTrigger(ts[i])) && WfStmt(rev, b)
    case Blocking(b) => rev == Current && WfStmt(rev, b)
    case Guard(g, b) => rev == Current && WfGuardCond(rev, g) && WfStmt(rev, b)
    case Compound(ss) => (rev == Backup ==> |ss| == 1) && forall i :: 0 <= i < |ss| ==> WfStmt(rev, ss[i])
    case Variable(t, _, init) =>
      WfTypeName(t) && (t.Named? && !t.name.global ==> t.name.parts[0] !in Keywords)
      && (init.Some? ==> WfExpr(rev, init.value))
    case Assign(x, e) => x !in Keywords && WfExpr(rev, e)
    case If(c, t, e) =>
      WfExpr(rev, c) && IsImperative(t) && NoTrailingElse(t) && WfStmt(rev, t)
      && (e.Some? ==> IsImperative(e.value) && WfStmt(rev, e.value))
    case Illegal => true
    case Return(e) => e.Some? ==> WfExpr(rev, e.value)
    case Skip => true
    case Reply(p, v) =>
      (p.Some? ==> rev == Current && p.value !in Keywords) && (rev == Current ==> v.Some?)
      && (v.Some? ==> WfExpr(rev, v.value))
    case Defer(a, b) =>
      rev == Current && IsImperative(b) && WfStmt(rev, b)
      && (a.Some? ==> forall i :: 0 <= i < |a.value| ==> WfExpr(rev, a.value[i]))
    case BareDefer => rev == Backup
    case ActionStmt(p, ev, args) =>
      rev == Current && p !in Keywords && ev != "reply" && forall i :: 0 <= i < |args| ==> WfExpr(rev, args[i])
    case CallStmt(f, args) => rev == Current && f !in Keywords && forall i :: 0 <= i < |args| ==> WfExpr(rev, args[i])
    case InterfaceAction(x) => rev == Current && x !in Keywords
  }

  /** The imperative statements not led by a keyword or punctuation of their own. */
  predicate IsSimple(s: Stmt) {
    s.Variable? || s.Assign? || s.Reply? || s.ActionStmt? || s.CallStmt? || s.InterfaceAction?
  }

  /** The first lexemes of the keyword-led imperative statements. */
  predicate KeyedStart(l: Lexeme) {
    l in {Ident("if"), Ident("illegal"), Ident("return"), Ident("defer"), Sym(";"), Sym("{")}
  }

  /** The first lexemes of the declarative statements. */
  predicate DeclarativeStart(l: Lexeme) {
    l in {Ident("on"), Ident("blocking"), Sym("["), Sym("{")}
  }

  /** Tokens that may follow a statement: no `else` when the statement ends in an open `if`. */
  predicate EndsStmt(s: Stmt, rest: seq<Token>) {
    OpenIf(s) ==> !At(rest, Ident("else"))
  }

  /** What may follow a statement parsed in `tail` mode (anything, as long as no `if` at its
      end has an `else`) or not (no `else` after an open `if`). */
  predicate Fits(tail: bool, s: Stmt, rest: seq<Token>) {
    if tail then NoTrailingElse(s) else EndsStmt(s, rest)
  }

  function StmtSize(s: Stmt): nat
    decreases s, 1
  {
    match s
    case On(_, b) => 1 + StmtSize(b)
    case Blocking(b) => 1 + StmtSize(b)
    case Guard(_, b) => 1 + StmtSize(b)
    case Defer(_, b) => 1 + StmtSize(b)
    case If(_, t, e) => 1 + StmtSize(t) + (if e.Some? then StmtSize(e.value) else 0)
    case Compound(ss) => 1 + StmtsSize(ss)
    case _ => 1
  }

  function StmtsSize(ss: seq<Stmt>): nat
    decreases ss, 0
  {
    if ss == [] then 0 else 1 + StmtSize(ss[0]) + StmtsSize(ss[1..])
  }

  function Close(rest: seq<Token>): seq<Token> {
    [Token(Sym("}"), false)] + rest
  }

  function Semi(rest: seq<Token>): seq<Token> {
    [Token(Sym(";"), false)] + rest
  }

  /** The first lexeme of a type name. */
  lemma TypeFirst(t: TypeName)
    requires WfTypeName(t)
    ensures |PTypeName(t)| > 0
    ensures PTypeName(t)[0] == match t
                               case BoolType => Ident("bool")
                               case VoidType => Ident("void")
                               case Named(n) => if n.global then Sym(".") else Ident(n.parts[0])
  {
    if t.Named? {
      var ps := t.name.parts;
      assert PParts(ps)[0] == Ident(ps[0]);
    }
  }

  /** The first printed lexeme of a statement says which kind of statement it is. */
  lemma FirstLexeme(rev: Revision, s: Stmt)
    requires WfStmt(rev, s)
    ensures |PStmt(s)| > 0
    ensures PStmt(s)[0] != Ident("else") && PStmt(s)[0] != Sym("}") && PStmt(s)[0] != Sym("(")
    ensures PStmt(s)[0] == Sym(";") <==> s.Skip?
    ensures KeyedStart(PStmt(s)[0]) <==> IsImperative(s) && !IsSimple(s)
    ensures DeclarativeStart(PStmt(s)[0]) <==> !IsImperative(s) || s.Compound?
  {
    if IsSimple(s) {
      SimpleFirstLexeme(rev, s);
    } else {
      KeyedFirstLexeme(rev, s);
    }
  }

  lemma SimpleFirstLexeme(rev: Revision, s: Stmt)
    requires WfStmt(rev, s) && IsSimple(s)
    ensures |PStmt(s)| > 0
    ensures PStmt(s)[0] != Ident("else") && PStmt(s)[0] != Sym("}") && PStmt(s)[0] != Sym("(")
    ensures PStmt(s)[0] == Sym(";") <==> s.Skip?
    ensures KeyedStart(PStmt(s)[0]) <==> IsImperative(s) && !IsSimple(s)
    ensures DeclarativeStart(PStmt(s)[0]) <==> !IsImperative(s) || s.Compound?
  {
    match s
    case Variable(t, x, init) =>
      TypeFirst(t);
      assert PStmt(s) == PTypeName(t) + ([Ident(x)] + PInit(init) + [Sym(";")]);
    case Assign(x, _) => assert PStmt(s)[0] == Ident(x);
    case Reply(p, _) =>
      assert PStmt(s)[0] == if p.Some? then Ident(p.value) else Ident("reply");
    case ActionStmt(p, _, _) => assert PStmt(s)[0] == Ident(p);
    case CallStmt(f, _) => assert PStmt(s)[0] == Ident(f);
    case InterfaceAction(_) =>
  }

  lemma KeyedFirstLexeme(rev: Revision, s: Stmt)
    requires WfStmt(rev, s) && !IsSimple(s)
    ensures |PStmt(s)| > 0
    ensures PStmt(s)[0] != Ident("else") && PStmt(s)[0] != Sym("}") && PStmt(s)[0] != Sym("(")
    ensures PStmt(s)[0] == Sym(";") <==> s.Skip?
    ensures KeyedStart(PStmt(s)[0]) <==> IsImperative(s) && !IsSimple(s)
    ensures DeclarativeStart(PStmt(s)[0]) <==> !IsImperative(s) || s.Compound?
  {
    match s
    case On(_, _) => assert PStmt(s)[0] == Ident("on");
    case Blocking(_) => assert PStmt(s)[0] == Ident("blocking");
    case Guard(_, _) => assert PStmt(s)[0] == Sym("[");
    case Compound(_) => assert PStmt(s)[0] == Sym("{");
    case If(_, _, _) => assert PStmt(s)[0] == Ident("if");
    case Illegal =>
    case Return(_) => assert PStmt(s)[0] == Ident("return");
    case Skip =>
    case Defer(_, _) => assert PStmt(s)[0] == Ident("defer");
    case BareDefer =>
  }


  /** The first token of a printed statement carries its first lexeme. */
  lemma FirstToken(rev: Revision, s: Stmt, rest: seq<Token>)
    requires WfStmt(rev, s)
    ensures |PStmt(s)| > 0 && |Glue(PStmt(s)) + rest| > 0
    ensures (Glue(PStmt(s)) + rest)[0].lex == PStmt(s)[0]
    ensures PStmt(s)[0] != Ident("else") && PStmt(s)[0] != Sym("}") && PStmt(s)[0] != Sym("(")
    ensures PStmt(s)[0] == Sym(";") <==> s.Skip?
    ensures KeyedStart(PStmt(s)[0]) <==> IsImperative(s) && !IsSimple(s)
    ensures DeclarativeStart(PStmt(s)[0]) <==> !IsImperative(s) || s.Compound?
  {
    FirstLexeme(rev, s);
    GlueCat([PStmt(s)[0]], PStmt(s)[1..], rest);
    assert [PStmt(s)[0]] + PStmt(s)[1..] == PStmt(s);
    GlueCons(PStmt(s)[0], []);
  }

  /** No expression starts with a punctuation mark other than `(`, `!`, `-` and `.`. */
  lemma NoExprAtSym(rev: Revision, p: string, rest: seq<Token>)
    requires p != "(" && p != "!" && p != "-" && p != "."
    ensures ParseExpr(rev, [Token(Sym(p), false)] + rest).None?
  {
    var toks := [Token(Sym(p), false)] + rest;
    assert ParseLiteral(rev, toks).None?;
    assert ParseActionExpr(rev, toks).None?;
    assert ParseCallExpr(rev, toks).None?;
    assert ParseNameParts(rev, toks).None?;
    assert ParseRef(rev, toks).None?;
    assert ParsePrimary(rev, toks).None?;
    assert ParseUnary(rev, toks).None?;
  }

  /** No statement starts with `}`: a statement list stops there. */
  lemma NoStmtAtClose(rev: Revision, rest: seq<Token>)
    ensures ParseStatement(rev, Close(rest)).None?
  {
    var toks := Close(rest);
    assert ParseDeclarative(rev, toks).None?;
    assert ParseKeyed(rev, false, toks).None?;
    assert ParseCompoundName(rev, toks).None?;
    assert ParseTypeName(rev, toks).None?;
    assert ParseVariable(rev, toks).None?;
    assert ParseAssign(rev, toks).None?;
    assert ParsePortPrefix(rev, toks) == Parsed(None, toks);
    assert ParseReply(rev, toks).None?;
    assert ParseActionExpr(rev, toks).None?;
    assert ParseCallExpr(rev, toks).None?;
    assert ParseActionOrCall(rev, toks).None?;
    assert ParseCurrentAction(rev, toks).None?;
    assert ParseSimple(rev, toks).None?;
  }

  /** The tokens of lexemes followed by a `;`. */
  lemma SemiTokens(ls: seq<Lexeme>, rest: seq<Token>)
    ensures Glue(ls + [Sym(";")]) + rest == Glue(ls) + Semi(rest)
  {
    GlueCat(ls, [Sym(";")], rest);
    GlueCons(Sym(";"), []);
  }

  /** The tokens of `o a c b`, for unglued `o` and `c`. */
  lemma Bracketed(o: Lexeme, a: seq<Lexeme>, c: Lexeme, b: seq<Lexeme>, rest: seq<Token>)
    requires !PrintedGlued(o) && !PrintedGlued(c)
    ensures Glue([o] + (a + ([c] + b))) + rest
         == [Token(o, false)] + (Glue(a) + ([Token(c, false)] + (Glue(b) + rest)))
  {
    var y := [c] + b;
    GlueCons(o, a + y);
    GlueCat(a, y, rest);
    GlueCons(c, b);
    assert Glue([o] + (a + y)) + rest == [Token(o, false)] + (Glue(a + y) + rest);
    assert Glue(y) + rest == [Token(c, false)] + (Glue(b) + rest);
  }

  /** An expression followed by `;`, `)` or `]` ends there. */
  lemma EndsAtSym(rev: Revision, p: string, rest: seq<Token>)
    requires p == ";" || p == ")" || p == "]"
    ensures EndsExpr(rev, [Token(Sym(p), false)] + rest)
  {
    Separators();
  }

  /** The tokens of a one- and a two-part local name. */
  lemma OneName(x: string)
    ensures Glue(PName(Name(false, [x]))) == [Token(Ident(x), false)]
  {
    assert PName(Name(false, [x])) == [Ident(x)];
    GlueCons(Ident(x), []);
  }

  lemma PairName(x: string, y: string)
    ensures Glue(PName(Name(false, [x, y]))) == [Token(Ident(x), false), Token(Sym("."), true), Token(Ident(y), false)]
  {
    assert [x, y][1..] == [y];
    assert PParts([y]) == [Ident(y)];
    assert PParts([x, y]) == [Ident(x)] + [Sym(".")] + PParts([y]);
    assert PName(Name(false, [x, y])) == [Ident(x)] + [Sym(".")] + [Ident(y)];
    GlueCons(Ident(x), [Sym("."), Ident(y)]);
    GlueCons(Sym("."), [Ident(y)]);
    GlueCons(Ident(y), []);
  }

  /** A local name that neither continues nor is followed by an identifier is no variable
      declaration's type: the declaration misses its variable name. */
  lemma NotVariable(rev: Revision, n: Name, after: seq<Token>)
    requires |n.parts| >= 1 && !n.global && n.parts[0] != "bool" && n.parts[0] != "void"
    requires !ContinuesName(rev, after) && !(|after| > 0 && after[0].lex.Ident?)
    ensures ParseVariable(rev, Glue(PName(n)) + after).None?
  {
    var toks := Glue(PName(n)) + after;
    CompoundNameRoundTrip(rev, n, after);
    NameHead(n, after);
    assert ParseTypeName(rev, toks) == Some(Parsed(Named(n), after));
  }

  /** A statement with none of the keyword-led or declarative first tokens is read by the
      non-keyword alternatives, from both entry points. */
  lemma SimpleDispatch(rev: Revision, tail: bool, toks: seq<Token>)
    requires |toks| > 0 && !KeyedStart(toks[0].lex) && !DeclarativeStart(toks[0].lex)
    ensures ParseImperative(rev, tail, toks) == ParseSimple(rev, toks)
    ensures ParseStatement(rev, toks) == ParseSimple(rev, toks)
  {
    assert ParseKeyed(rev, tail, toks).None?;
    assert ParseKeyed(rev, false, toks).None?;
    assert ParseDeclarative(rev, toks).None?;
  }

  // ----- variables -----

  lemma VariableTokens(t: TypeName, x: string, init: Option<Expr>, rest: seq<Token>)
    ensures Glue(PStmt(Variable(t, x, init))) + rest
         == Glue(PTypeName(t)) + ([Token(Ident(x), false)] + (Glue(PInit(init)) + Semi(rest)))
  {
    var after := Glue(PInit(init)) + Semi(rest);
    assert PStmt(Variable(t, x, init)) == PTypeName(t) + [Ident(x)] + PInit(init) + [Sym(";")];
    SemiTokens(PTypeName(t) + [Ident(x)] + PInit(init), rest);
    GlueCat(PTypeName(t) + [Ident(x)], PInit(init), Semi(rest));
    GlueCat(PTypeName(t), [Ident(x)], after);
    GlueCons(Ident(x), []);
    assert Glue([Ident(x)]) + after == [Token(Ident(x), false)] + after;
  }

  /** A printed initialiser, then `;`. */
  lemma InitRoundTrip(rev: Revision, init: Option<Expr>, rest: seq<Token>)
    requires init.Some? ==> WfExpr(rev, init.value)
    ensures ParseInitializer(rev, Glue(PInit(init)) + Semi(rest)) == Some(Parsed(init, Semi(rest)))
  {
    if init.Some? {
      var toks := [Token(Sym("="), false)] + (Glue(PExpr(init.value)) + Semi(rest));
      GlueCat([Sym("=")], PExpr(init.value), Semi(rest));
      GlueCons(Sym("="), []);
      assert Glue(PInit(init)) + Semi(rest) == toks;
      assert toks[1..] == Glue(PExpr(init.value)) + Semi(rest);
      EndsAtSym(rev, ";", rest);
      ExprRoundTrip(rev, init.value, Semi(rest));
    } else {
      assert Glue(PInit(init)) + Semi(rest) == Semi(rest);
    }
  }

  /** A printed variable declaration is read back by the first non-keyword alternative. */
  lemma VariableRoundTrip(rev: Revision, t: TypeName, x: string, init: Option<Expr>, rest: seq<Token>)
    requires WfStmt(rev, Variable(t, x, init))
    ensures ParseVariable(rev, Glue(PStmt(Variable(t, x, init))) + rest) == Some(Parsed(Variable(t, x, init), rest))
    ensures ParseSimple(rev, Glue(PStmt(Variable(t, x, init))) + rest) == Some(Parsed(Variable(t, x, init), rest))
  {
    var body := Glue(PInit(init)) + Semi(rest);
    var after := [Token(Ident(x), false)] + body;
    VariableTokens(t, x, init, rest);
    TypeNameRoundTrip(rev, t, after);
    InitRoundTrip(rev, init, rest);
    VariableStep(rev, Glue(PTypeName(t)) + after, t, x, init, body, rest);
  }

  /** One unfolding of `ParseVariable` over the parts it reads. */
  lemma VariableStep(rev: Revision, toks: seq<Token>, t: TypeName, x: string, init: Option<Expr>, body: seq<Token>, rest: seq<Token>)
    requires ParseTypeName(rev, toks) == Some(Parsed(t, [Token(Ident(x), false)] + body))
    requires ParseInitializer(rev, body) == Some(Parsed(init, Semi(rest)))
    ensures ParseVariable(rev, toks) == Some(Parsed(Variable(t, x, init), rest))
    ensures ParseSimple(rev, toks) == Some(Parsed(Variable(t, x, init), rest))
  {
    assert ExpectIdent([Token(Ident(x), false)] + body) == Some(Parsed(x, body));
    assert Semi(rest)[1..] == rest;
  }

  // ----- assignments -----

  lemma AssignTokens(x: string, e: Expr, rest: seq<Token>)
    ensures Glue(PStmt(Assign(x, e))) + rest
         == [Token(Ident(x), false), Token(Sym("="), false)] + (Glue(PExpr(e)) + Semi(rest))
  {
    SemiTokens([Ident(x)] + [Sym("=")] + PExpr(e), rest);
    GlueCat([Ident(x)] + [Sym("=")], PExpr(e), Semi(rest));
    GlueCons(Ident(x), [Sym("=")]);
    GlueCons(Sym("="), []);
  }

  /** The keywords a statement may start with are no assignable names. */
  lemma NotKeyword(x: string)
    requires x !in Keywords
    ensures x != "if" && x != "illegal" && x != "return" && x != "defer" && x != "else"
    ensures x != "on" && x != "blocking" && x != "reply" && x != "bool" && x != "void"
  {
  }

  /** `x =` does not start a variable declaration. */
  lemma AssignNotVariable(rev: Revision, x: string, after: seq<Token>)
    requires x != "bool" && x != "void"
    ensures ParseVariable(rev, [Token(Ident(x), false), Token(Sym("="), false)] + after).None?
  {
    var toks := [Token(Ident(x), false), Token(Sym("="), false)] + after;
    assert toks[1..] == [Token(Sym("="), false)] + after;
    assert !ContinuesName(rev, toks[1..]);
    assert ParseNameParts(rev, toks) == Some(Parsed([x], toks[1..]));
    assert ParseTypeName(rev, toks) == Some(Parsed(Named(Name(false, [x])), toks[1..]));
  }

  lemma AssignStep(rev: Revision, x: string, e: Expr, body: seq<Token>, rest: seq<Token>)
    requires x !in Keywords
    requires ParseExpr(rev, body) == Some(Parsed(e, Semi(rest)))
    ensures ParseSimple(rev, [Token(Ident(x), false), Token(Sym("="), false)] + body)
         == Some(Parsed(Assign(x, e), rest))
  {
    var toks := [Token(Ident(x), false), Token(Sym("="), false)] + body;
    assert toks[1..] == [Token(Sym("="), false)] + body;
    assert toks[1..][1..] == body;
    assert Semi(rest)[1..] == rest;
    NotKeyword(x);
    AssignNotVariable(rev, x, body);
    assert ParseAssign(rev, toks) == Some(Parsed(Assign(x, e), rest));
  }

  /** A printed assignment is no variable declaration and reads back as itself. */
  lemma AssignRoundTrip(rev: Revision, x: string, e: Expr, rest: seq<Token>)
    requires WfStmt(rev, Assign(x, e))
    ensures ParseSimple(rev, Glue(PStmt(Assign(x, e))) + rest) == Some(Parsed(Assign(x, e), rest))
  {
    AssignTokens(x, e, rest);
    EndsAtSym(rev, ";", rest);
    ExprRoundTrip(rev, e, Semi(rest));
    AssignStep(rev, x, e, Glue(PExpr(e)) + Semi(rest), rest);
  }

  // ----- replies -----

  /** The tokens of two printed lexemes. */
  lemma GlueTwo(l1: Lexeme, l2: Lexeme)
    ensures Glue([l1, l2]) == [Token(l1, PrintedGlued(l1)), Token(l2, PrintedGlued(l2))]
  {
    GlueCons(l1, [l2]);
    GlueCons(l2, []);
  }

  lemma ReplyStmtTokens(p: Option<string>, v: Option<Expr>, rest: seq<Token>)
    ensures Glue(PStmt(Reply(p, v))) + rest
         == Glue(PPortPrefix(p)) + ([Token(Ident("reply"), false)] + ([Token(Sym("("), false)]
            + (Glue(POptExpr(v)) + ([Token(Sym(")"), false)] + Semi(rest)))))
  {
    ReplyGlue(PPortPrefix(p), POptExpr(v), rest);
  }

  lemma ReplyGlue(a: seq<Lexeme>, w: seq<Lexeme>, rest: seq<Token>)
    ensures Glue(a + [Ident("reply")] + [Sym("(")] + w + [Sym(")")] + [Sym(";")]) + rest
         == Glue(a) + ([Token(Ident("reply"), false)] + ([Token(Sym("("), false)]
            + (Glue(w) + ([Token(Sym(")"), false)] + Semi(rest)))))
  {
    var h := a + [Ident("reply")] + [Sym("(")];
    var x := Glue(w) + ([Token(Sym(")"), false)] + Semi(rest));
    SemiTokens(h + w + [Sym(")")], rest);
    GlueThen(h, w, Sym(")"), Semi(rest));
    assert Glue(h + w + [Sym(")")] + [Sym(";")]) + rest == Glue(h) + x;
    GlueThen(a, [Ident("reply")], Sym("("), x);
    GlueCons(Ident("reply"), []);
    assert Glue([Ident("reply")]) == [Token(Ident("reply"), false)];
  }

  lemma PrefixTokens(p: string)
    ensures Glue(PPortPrefix(Some(p))) == [Token(Ident(p), false), Token(Sym("."), true)]
  {
    GlueCons(Ident(p), [Sym(".")]);
    GlueCons(Sym("."), []);
  }

  /** `port . reply ( value ) ;` once the value is read. */
  lemma ReplyStmtStep(rev: Revision, p: Option<string>, v: Option<Expr>, vb: seq<Token>, rest: seq<Token>)
    requires p.Some? ==> rev == Current
    requires ParseReplyValue(rev, vb) == Some(Parsed(v, [Token(Sym(")"), false)] + Semi(rest)))
    ensures ParseReply(rev, Glue(PPortPrefix(p)) + ([Token(Ident("reply"), false)] + ([Token(Sym("("), false)] + vb)))
         == Some(Parsed(Reply(p, v), rest))
  {
    var open := [Token(Sym("("), false)] + vb;
    var kw := [Token(Ident("reply"), false)] + open;
    var toks := Glue(PPortPrefix(p)) + kw;
    if p.Some? {
      PrefixTokens(p.value);
      assert toks[2..] == kw;
    } else {
      assert toks == kw;
    }
    assert ParsePortPrefix(rev, toks) == Parsed(p, kw);
    assert Expect(kw, Ident("reply")) == Some(open);
    assert Expect(open, Sym("(")) == Some(vb);
    assert Expect([Token(Sym(")"), false)] + Semi(rest), Sym(")")) == Some(Semi(rest));
    assert Expect(Semi(rest), Sym(";")) == Some(rest);
  }

  /** A printed reply value, then `)`. */
  lemma ReplyValueRoundTrip(rev: Revision, v: Option<Expr>, rest: seq<Token>)
    requires (rev == Current ==> v.Some?) && (v.Some? ==> WfExpr(rev, v.value))
    ensures ParseReplyValue(rev, Glue(POptExpr(v)) + ([Token(Sym(")"), false)] + Semi(rest)))
         == Some(Parsed(v, [Token(Sym(")"), false)] + Semi(rest)))
  {
    var close := [Token(Sym(")"), false)] + Semi(rest);
    if v.Some? {
      EndsAtSym(rev, ")", Semi(rest));
      ExprRoundTrip(rev, v.value, close);
    } else {
      assert Glue(POptExpr(v)) + close == close;
      NoExprAtSym(rev, ")", Semi(rest));
    }
  }

  /** `port . reply (` and `reply (` start neither a variable declaration nor an assignment. */
  lemma ReplyNotEarlier(rev: Revision, p: Option<string>, open: seq<Token>)
    requires p.Some? ==> p.value !in Keywords
    requires At(open, Sym("("))
    ensures ParseVariable(rev, Glue(PPortPrefix(p)) + ([Token(Ident("reply"), false)] + open)).None?
    ensures ParseAssign(rev, Glue(PPortPrefix(p)) + ([Token(Ident("reply"), false)] + open)).None?
  {
    if p.Some? {
      PrefixTokens(p.value);
      PortReplyNotEarlier(rev, p.value, open);
    } else {
      var toks := [Token(Ident("reply"), false)] + open;
      assert Glue(PPortPrefix(p)) + toks == toks;
      OneName("reply");
      NotVariable(rev, Name(false, ["reply"]), open);
      assert toks[1..] == open;
    }
  }

  lemma PortReplyNotEarlier(rev: Revision, p: string, open: seq<Token>)
    requires p !in Keywords && At(open, Sym("("))
    ensures ParseVariable(rev, [Token(Ident(p), false), Token(Sym("."), true)] + ([Token(Ident("reply"), false)] + open)).None?
    ensures ParseAssign(rev, [Token(Ident(p), false), Token(Sym("."), true)] + ([Token(Ident("reply"), false)] + open)).None?
  {
    var toks := [Token(Ident(p), false), Token(Sym("."), true)] + ([Token(Ident("reply"), false)] + open);
    PairName(p, "reply");
    NotKeyword(p);
    assert Glue(PName(Name(false, [p, "reply"]))) + open == toks;
    NotVariable(rev, Name(false, [p, "reply"]), open);
    assert toks[1..][0].lex == Sym(".");
  }

  /** A printed reply is neither a variable declaration nor an assignment, and reads back
      as itself. */
  lemma ReplyRoundTrip(rev: Revision, p: Option<string>, v: Option<Expr>, rest: seq<Token>)
    requires WfStmt(rev, Reply(p, v))
    ensures ParseSimple(rev, Glue(PStmt(Reply(p, v))) + rest) == Some(Parsed(Reply(p, v), rest))
  {
    var vb := Glue(POptExpr(v)) + ([Token(Sym(")"), false)] + Semi(rest));
    var open := [Token(Sym("("), false)] + vb;
    ReplyStmtTokens(p, v, rest);
    ReplyValueRoundTrip(rev, v, rest);
    ReplyStmtStep(rev, p, v, vb, rest);
    ReplyNotEarlier(rev, p, open);
  }

  // ----- actions, calls and interface actions -----

  lemma ActionStmtTokens(p: string, ev: string, args: seq<Expr>, rest: seq<Token>)
    ensures Glue(PStmt(ActionStmt(p, ev, args))) + rest
         == [Token(Ident(p), false), Token(Sym("."), true), Token(Ident(ev), false)] + (Glue(PArgs(args)) + Semi(rest))
  {
    SemiTokens([Ident(p)] + [Sym(".")] + [Ident(ev)] + PArgs(args), rest);
    GlueCat([Ident(p)] + [Sym(".")] + [Ident(ev)], PArgs(args), Semi(rest));
    ActionHead(p, ev);
  }

  lemma ActionHead(p: string, ev: string)
    ensures Glue([Ident(p)] + [Sym(".")] + [Ident(ev)]) == [Token(Ident(p), false), Token(Sym("."), true), Token(Ident(ev), false)]
  {
    assert [Ident(p)] + [Sym(".")] + [Ident(ev)] == [Ident(p)] + [Sym("."), Ident(ev)];
    GlueCons(Ident(p), [Sym("."), Ident(ev)]);
    GlueTwo(Sym("."), Ident(ev));
  }

  /** Where no variable, assignment or reply starts, the action, call or interface action
      is what is left. */
  lemma FallThrough(toks: seq<Token>)
    requires ParseVariable(Current, toks).None? && ParseAssign(Current, toks).None?
    requires ParseReply(Current, toks).None?
    ensures ParseSimple(Current, toks) == ParseActionOrCall(Current, toks)
  {
  }

  lemma ActionStep(toks: seq<Token>, p: string, ev: string, args: seq<Expr>, rest: seq<Token>)
    requires ParseActionExpr(Current, toks) == Some(Parsed(Action(p, ev, args), Semi(rest)))
    ensures ParseActionOrCall(Current, toks) == Some(Parsed(ActionStmt(p, ev, args), rest))
  {
    assert Semi(rest)[1..] == rest;
  }

  lemma CallStep(toks: seq<Token>, f: string, args: seq<Expr>, rest: seq<Token>)
    requires ParseActionExpr(Current, toks).None?
    requires ParseCallExpr(Current, toks) == Some(Parsed(Call(f, args), Semi(rest)))
    ensures ParseActionOrCall(Current, toks) == Some(Parsed(CallStmt(f, args), rest))
  {
    assert Semi(rest)[1..] == rest;
  }

  /** A printed action statement `port . event ( args ) ;`: its `port . event` reads as a
      type name with no variable after it, and no `reply` follows the port. */
  lemma ActionStmtRoundTrip(p: string, ev: string, args: seq<Expr>, rest: seq<Token>)
    requires WfStmt(Current, ActionStmt(p, ev, args))
    ensures ParseSimple(Current, Glue(PStmt(ActionStmt(p, ev, args))) + rest) == Some(Parsed(ActionStmt(p, ev, args), rest))
  {
    var after := Glue(PArgs(args)) + Semi(rest);
    var toks := [Token(Ident(p), false), Token(Sym("."), true), Token(Ident(ev), false)] + after;
    ActionStmtTokens(p, ev, args, rest);
    ArgsStart(args, Semi(rest));
    PairName(p, ev);
    NotKeyword(p);
    NotVariable(Current, Name(false, [p, ev]), after);
    ArgsRoundTrip(Current, args, Semi(rest));
    DottedHead(toks, p, ev, after, args, rest);
    FallThrough(toks);
    ActionStep(toks, p, ev, args, rest);
  }

  /** `port . event (` starts no reply (the event is not `reply`) and no assignment, and
      reads as an action. */
  lemma DottedHead(toks: seq<Token>, p: string, ev: string, after: seq<Token>, args: seq<Expr>, rest: seq<Token>)
    requires toks == [Token(Ident(p), false), Token(Sym("."), true), Token(Ident(ev), false)] + after
    requires ev != "reply"
    requires ParseArgs(Current, after) == Some(Parsed(args, Semi(rest)))
    ensures ParseReply(Current, toks).None? && ParseAssign(Current, toks).None?
    ensures ParseActionExpr(Current, toks) == Some(Parsed(Action(p, ev, args), Semi(rest)))
  {
    assert toks[1..][1..][1..] == after;
    assert toks[2..] == [Token(Ident(ev), false)] + after;
    assert ParsePortPrefix(Current, toks) == Parsed(Some(p), toks[2..]);
  }


  lemma CallStmtTokens(f: string, args: seq<Expr>, rest: seq<Token>)
    ensures Glue(PStmt(CallStmt(f, args))) + rest == [Token(Ident(f), false)] + (Glue(PArgs(args)) + Semi(rest))
  {
    SemiTokens([Ident(f)] + PArgs(args), rest);
    GlueCat([Ident(f)], PArgs(args), Semi(rest));
    GlueCons(Ident(f), []);
  }

  /** A printed call statement `f ( args ) ;` is no action, reply or assignment. */
  lemma CallStmtRoundTrip(f: string, args: seq<Expr>, rest: seq<Token>)
    requires WfStmt(Current, CallStmt(f, args))
    ensures ParseSimple(Current, Glue(PStmt(CallStmt(f, args))) + rest) == Some(Parsed(CallStmt(f, args), rest))
  {
    var after := Glue(PArgs(args)) + Semi(rest);
    var toks := [Token(Ident(f), false)] + after;
    CallStmtTokens(f, args, rest);
    ArgsStart(args, Semi(rest));
    OneName(f);
    NotKeyword(f);
    NotVariable(Current, Name(false, [f]), after);
    ArgsRoundTrip(Current, args, Semi(rest));
    WordHead(toks, f, after);
    assert ParseCallExpr(Current, toks) == Some(Parsed(Call(f, args), Semi(rest)));
    FallThrough(toks);
    CallStep(toks, f, args, rest);
  }

  /** A name followed by `(` or `;` starts no reply, assignment or action. */
  lemma WordHead(toks: seq<Token>, f: string, after: seq<Token>)
    requires toks == [Token(Ident(f), false)] + after
    requires f != "reply"
    requires At(after, Sym("(")) || At(after, Sym(";"))
    ensures ParseReply(Current, toks).None? && ParseAssign(Current, toks).None?
    ensures ParseActionExpr(Current, toks).None?
  {
    assert toks[1..] == after;
    assert ParsePortPrefix(Current, toks) == Parsed(None, toks);
  }

  /** A printed interface action `name ;` falls through every other alternative. */
  lemma InterfaceActionRoundTrip(x: string, rest: seq<Token>)
    requires WfStmt(Current, InterfaceAction(x))
    ensures ParseSimple(Current, Glue(PStmt(InterfaceAction(x))) + rest) == Some(Parsed(InterfaceAction(x), rest))
  {
    var toks := [Token(Ident(x), false)] + Semi(rest);
    GlueCons(Ident(x), [Sym(";")]);
    GlueCons(Sym(";"), []);
    assert Glue(PStmt(InterfaceAction(x))) + rest == toks;
    InterfaceActionStep(toks, x, rest);
  }

  /** A bare word then `;`, read by the non-keyword alternatives. */
  lemma InterfaceActionStep(toks: seq<Token>, x: string, rest: seq<Token>)
    requires WfStmt(Current, InterfaceAction(x))
    requires toks == [Token(Ident(x), false)] + Semi(rest)
    ensures ParseSimple(Current, toks) == Some(Parsed(InterfaceAction(x), rest))
  {
    OneName(x);
    NotKeyword(x);
    NotVariable(Current, Name(false, [x]), Semi(rest));
    ArgsOpen(Current, Semi(rest));
    assert toks[1..] == Semi(rest);
    assert Semi(rest)[1..] == rest;
    WordHead(toks, x, Semi(rest));
    assert ParseCallExpr(Current, toks).None?;
    FallThrough(toks);
  }

  /** Every printed non-keyword statement reads back through the non-keyword alternatives. */
  lemma SimpleRoundTrip(rev: Revision, s: Stmt, rest: seq<Token>)
    requires WfStmt(rev, s) && IsSimple(s)
    ensures ParseSimple(rev, Glue(PStmt(s)) + rest) == Some(Parsed(s, rest))
  {
    match s
    case Variable(t, x, init) => VariableRoundTrip(rev, t, x, init, rest);
    case Assign(x, e) => AssignRoundTrip(rev, x, e, rest);
    case Reply(p, v) => ReplyRoundTrip(rev, p, v, rest);
    case ActionStmt(p, ev, args) => ActionStmtRoundTrip(p, ev, args, rest);
    case CallStmt(f, args) => CallStmtRoundTrip(f, args, rest);
    case InterfaceAction(x) => InterfaceActionRoundTrip(x, rest);
  }

  // ----- keyword-led statements -----

  lemma ReturnTokens(e: Option<Expr>, rest: seq<Token>)
    ensures Glue(PStmt(Return(e))) + rest == [Token(Ident("return"), false)] + (Glue(POptExpr(e)) + Semi(rest))
  {
    SemiTokens([Ident("return")] + POptExpr(e), rest);
    GlueCat([Ident("return")], POptExpr(e), Semi(rest));
    GlueCons(Ident("return"), []);
  }

  lemma ReturnStep(rev: Revision, tail: bool, e: Option<Expr>, body: seq<Token>, rest: seq<Token>)
    requires ParseOptExpr(rev, body) == Parsed(e, Semi(rest))
    ensures ParseImperative(rev, tail, [Token(Ident("return"), false)] + body) == Some(Parsed(Return(e), rest))
  {
    var toks := [Token(Ident("return"), false)] + body;
    assert toks[1..] == body;
    assert Semi(rest)[1..] == rest;
    assert ParseReturn(rev, toks) == Some(Parsed(Return(e), rest));
  }

  lemma ReturnRoundTrip(rev: Revision, tail: bool, e: Option<Expr>, rest: seq<Token>)
    requires WfStmt(rev, Return(e))
    ensures ParseImperative(rev, tail, Glue(PStmt(Return(e))) + rest) == Some(Parsed(Return(e), rest))
  {
    ReturnTokens(e, rest);
    var body := Glue(POptExpr(e)) + Semi(rest);
    if e.Some? {
      EndsAtSym(rev, ";", rest);
      ExprRoundTrip(rev, e.value, Semi(rest));
    } else {
      assert body == Semi(rest);
      NoExprAtSym(rev, ";", rest);
    }
    ReturnStep(rev, tail, e, body, rest);
  }

  lemma IllegalRoundTrip(rev: Revision, tail: bool, rest: seq<Token>)
    ensures ParseImperative(rev, tail, Glue(PStmt(Illegal)) + rest) == Some(Parsed(Illegal, rest))
  {
    var toks := [Token(Ident("illegal"), false), Token(Sym(";"), false)] + rest;
    GlueCons(Ident("illegal"), [Sym(";")]);
    GlueCons(Sym(";"), []);
    assert Glue(PStmt(Illegal)) + rest == toks;
    assert toks[1..][1..] == rest;
  }

  lemma SkipRoundTrip(rev: Revision, tail: bool, rest: seq<Token>)
    ensures ParseImperative(rev, tail, Glue(PStmt(Skip)) + rest) == Some(Parsed(Skip, rest))
  {
    GlueCons(Sym(";"), []);
    assert Glue(PStmt(Skip)) + rest == Semi(rest);
    assert Semi(rest)[1..] == rest;
  }

  /** A `defer` is read by the keyword-led alternatives, as a `defer`. */
  lemma DeferDispatch(rev: Revision, tail: bool, toks: seq<Token>)
    requires At(toks, Ident("defer"))
    ensures ParseKeyed(rev, tail, toks) == ParseDefer(rev, tail, toks)
  {
  }

  /** The backup revision's `defer ;`. */
  lemma BareDeferRoundTrip(tail: bool, rest: seq<Token>)
    ensures ParseImperative(Backup, tail, Glue(PStmt(BareDefer)) + rest) == Some(Parsed(BareDefer, rest))
  {
    var toks := [Token(Ident("defer"), false), Token(Sym(";"), false)] + rest;
    GlueCons(Ident("defer"), [Sym(";")]);
    GlueCons(Sym(";"), []);
    assert Glue(PStmt(BareDefer)) + rest == toks;
    assert toks[2..] == rest;
    assert ParseBareDefer(toks) == Some(Parsed(BareDefer, rest));
    DeferDispatch(Backup, tail, toks);
  }

  lemma IfTokens(c: Expr, t: Stmt, e: Option<Stmt>, rest: seq<Token>)
    ensures Glue(PStmt(If(c, t, e))) + rest
         == [Token(Ident("if"), false), Token(Sym("("), false)]
            + (Glue(PExpr(c)) + ([Token(Sym(")"), false)] + (Glue(PStmt(t)) + (Glue(PElse(e)) + rest))))
  {
    var tail := Glue(PStmt(t)) + (Glue(PElse(e)) + rest);
    var head := [Ident("if")] + [Sym("(")] + PExpr(c) + [Sym(")")];
    assert PStmt(If(c, t, e)) == head + PStmt(t) + PElse(e);
    GlueCat(head + PStmt(t), PElse(e), rest);
    GlueCat(head, PStmt(t), Glue(PElse(e)) + rest);
    HeadTokens(c, tail);
  }

  lemma HeadTokens(c: Expr, tail: seq<Token>)
    ensures Glue([Ident("if")] + [Sym("(")] + PExpr(c) + [Sym(")")]) + tail
         == [Token(Ident("if"), false), Token(Sym("("), false)] + (Glue(PExpr(c)) + ([Token(Sym(")"), false)] + tail))
  {
    var a := [Ident("if")] + [Sym("(")];
    GlueCat(a + PExpr(c), [Sym(")")], tail);
    GlueCat(a, PExpr(c), Glue([Sym(")")]) + tail);
    GlueCons(Ident("if"), [Sym("(")]);
    GlueCons(Sym("("), []);
    GlueCons(Sym(")"), []);
  }

  /** `if ( c ) t`, the then-branch read in tail mode, followed by what the `if` makes of
      the rest: nothing in tail mode, an optional `else` otherwise. */
  lemma IfStep(rev: Revision, tail: bool, c: Expr, t: Stmt, body: seq<Token>, after: seq<Token>, els: Parsed<Option<Stmt>>)
    requires ParseExpr(rev, body) == Some(Parsed(c, [Token(Sym(")"), false)] + after))
    requires ParseImperative(rev, true, after).Some? && ParseImperative(rev, true, after).value.node == t
    requires els == if tail then Parsed(None, ParseImperative(rev, true, after).value.rest)
                   else ParseElse(rev, ParseImperative(rev, true, after).value.rest)
    ensures ParseImperative(rev, tail, [Token(Ident("if"), false), Token(Sym("("), false)] + body)
         == Some(Parsed(If(c, t, els.node), els.rest))
  {
    var toks := [Token(Ident("if"), false), Token(Sym("("), false)] + body;
    IfParsed(rev, tail, c, t, body, after, els);
    IfDispatch(rev, tail, toks);
  }

  /** The `if` alternative itself, on the same tokens as IfStep. */
  lemma IfParsed(rev: Revision, tail: bool, c: Expr, t: Stmt, body: seq<Token>, after: seq<Token>, els: Parsed<Option<Stmt>>)
    requires ParseExpr(rev, body) == Some(Parsed(c, [Token(Sym(")"), false)] + after))
    requires ParseImperative(rev, true, after).Some? && ParseImperative(rev, true, after).value.node == t
    requires els == if tail then Parsed(None, ParseImperative(rev, true, after).value.rest)
                   else ParseElse(rev, ParseImperative(rev, true, after).value.rest)
    ensures ParseIf(rev, tail, [Token(Ident("if"), false), Token(Sym("("), false)] + body)
         == Some(Parsed(If(c, t, els.node), els.rest))
  {
    var toks := [Token(Ident("if"), false), Token(Sym("("), false)] + body;
    assert toks[1..] == [Token(Sym("("), false)] + body;
    assert Expect(toks, Ident("if")) == Some(toks[1..]);
    assert toks[1..][1..] == body;
    assert Expect(toks[1..], Sym("(")) == Some(body);
    assert ([Token(Sym(")"), false)] + after)[1..] == after;
    assert Expect([Token(Sym(")"), false)] + after, Sym(")")) == Some(after);
  }

  /** Tokens led by `if` are read by the `if` alternative, when it succeeds. */
  lemma IfDispatch(rev: Revision, tail: bool, toks: seq<Token>)
    requires At(toks, Ident("if")) && ParseIf(rev, tail, toks).Some?
    ensures ParseImperative(rev, tail, toks) == ParseIf(rev, tail, toks)
  {
    assert ParseKeyed(rev, tail, toks) == ParseIf(rev, tail, toks);
  }

  lemma ElseNone(rev: Revision, rest: seq<Token>)
    requires !At(rest, Ident("else"))
    ensures ParseElse(rev, Glue(PElse(None)) + rest) == Parsed(None, rest)
  {
    assert Glue(PElse(None)) + rest == rest;
  }

  lemma ElseSome(rev: Revision, e: Stmt, rest: seq<Token>)
    requires ParseImperative(rev, false, Glue(PStmt(e)) + rest) == Some(Parsed(e, rest))
    ensures ParseElse(rev, Glue(PElse(Some(e))) + rest) == Parsed(Some(e), rest)
  {
    GlueCat([Ident("else")], PStmt(e), rest);
    GlueCons(Ident("else"), []);
    var toks := [Token(Ident("else"), false)] + (Glue(PStmt(e)) + rest);
    assert Glue(PElse(Some(e))) + rest == toks;
    assert toks[1..] == Glue(PStmt(e)) + rest;
  }

  /** A printed `if` reads back: its then-branch, read in tail mode, stops before an `else`
      of the `if` itself, and in tail mode the `if` leaves whatever follows alone. */
  lemma {:induction false} IfRoundTrip(rev: Revision, tail: bool, s: Stmt, rest: seq<Token>)
    requires s.If? && WfStmt(rev, s) && Fits(tail, s, rest)
    ensures ParseImperative(rev, tail, Glue(PStmt(s)) + rest) == Some(Parsed(s, rest))
    decreases StmtSize(s), 0
  {
    var c, t, e := s.test, s.thenBranch, s.elseBranch;
    var after := Glue(PStmt(t)) + (Glue(PElse(e)) + rest);
    IfTokens(c, t, e, rest);
    EndsAtSym(rev, ")", after);
    ExprRoundTrip(rev, c, [Token(Sym(")"), false)] + after);
    ImperativeRoundTrip(rev, true, t, Glue(PElse(e)) + rest);
    if e.Some? {
      ImperativeRoundTrip(rev, false, e.value, rest);
      ElseSome(rev, e.value, rest);
    } else {
      assert Glue(PElse(e)) + rest == rest;
      if !tail {
        ElseNone(rev, rest);
      }
    }
    IfStep(rev, tail, c, t, Glue(PExpr(c)) + ([Token(Sym(")"), false)] + after), after, Parsed(e, rest));
  }

  lemma DeferTokens(a: Option<seq<Expr>>, b: Stmt, rest: seq<Token>)
    ensures Glue(PStmt(Defer(a, b))) + rest
         == [Token(Ident("defer"), false)] + (Glue(POptArgs(a)) + (Glue(PStmt(b)) + rest))
  {
    assert PStmt(Defer(a, b)) == [Ident("defer")] + POptArgs(a) + PStmt(b);
    KeywordLed(Ident("defer"), POptArgs(a), PStmt(b), rest);
  }

  /** A keyword, then two printed pieces. */
  lemma KeywordLed(k: Lexeme, x: seq<Lexeme>, y: seq<Lexeme>, rest: seq<Token>)
    requires k.Ident?
    ensures Glue([k] + x + y) + rest == [Token(k, false)] + (Glue(x) + (Glue(y) + rest))
  {
    GlueCat([k] + x, y, rest);
    GlueCat([k], x, Glue(y) + rest);
    GlueCons(k, []);
  }

  lemma DeferStep(tail: bool, a: Option<seq<Expr>>, b: Stmt, args: seq<Token>, body: seq<Token>, rest: seq<Token>)
    requires ParseOptArgs(Current, args) == Parsed(a, body)
    requires ParseImperative(Current, tail, body) == Some(Parsed(b, rest))
    ensures ParseImperative(Current, tail, [Token(Ident("defer"), false)] + args) == Some(Parsed(Defer(a, b), rest))
  {
    var toks := [Token(Ident("defer"), false)] + args;
    assert toks[1..] == args;
    assert Expect(toks, Ident("defer")) == Some(args);
    assert ParseDefer(Current, tail, toks) == Some(Parsed(Defer(a, b), rest));
    DeferDispatch(Current, tail, toks);
  }

  /** A printed `defer`, with or without arguments: the deferred statement never starts
      with `(`, so arguments are read exactly when they were printed. */
  lemma {:induction false} DeferRoundTrip(tail: bool, s: Stmt, rest: seq<Token>)
    requires s.Defer? && WfStmt(Current, s) && Fits(tail, s, rest)
    ensures ParseImperative(Current, tail, Glue(PStmt(s)) + rest) == Some(Parsed(s, rest))
    decreases StmtSize(s), 0
  {
    var a, b := s.deferArgs, s.deferred;
    var body := Glue(PStmt(b)) + rest;
    DeferTokens(a, b, rest);
    if a.Some? {
      ArgsRoundTrip(Current, a.value, body);
    } else {
      assert Glue(POptArgs(a)) + body == body;
      FirstToken(Current, b, rest);
      ArgsOpen(Current, body);
    }
    assert ParseOptArgs(Current, Glue(POptArgs(a)) + body) == Parsed(a, body);
    ImperativeRoundTrip(Current, tail, b, rest);
    DeferStep(tail, a, b, Glue(POptArgs(a)) + body, body, rest);
  }

  // ----- compounds and lists -----

  lemma CompoundTokens(ss: seq<Stmt>, rest: seq<Token>)
    ensures Glue(PStmt(Compound(ss))) + rest == [Token(Sym("{"), false)] + (Glue(PStmts(ss)) + Close(rest))
  {
    GlueCat([Sym("{")] + PStmts(ss), [Sym("}")], rest);
    GlueCat([Sym("{")], PStmts(ss), Glue([Sym("}")]) + rest);
    GlueCons(Sym("{"), []);
    GlueCons(Sym("}"), []);
  }

  lemma CompoundStep(rev: Revision, ss: seq<Stmt>, body: seq<Token>, rest: seq<Token>)
    requires ParseCompoundBody(rev, body) == Some(Parsed(ss, Close(rest)))
    ensures ParseCompound(rev, [Token(Sym("{"), false)] + body) == Some(Parsed(Compound(ss), rest))
  {
    var toks := [Token(Sym("{"), false)] + body;
    assert toks[1..] == body;
    assert Close(rest)[1..] == rest;
  }

  /** Both statement entry points read a `{` as a compound. */
  lemma CompoundDispatch(rev: Revision, tail: bool, toks: seq<Token>)
    requires At(toks, Sym("{")) && ParseCompound(rev, toks).Some?
    ensures ParseImperative(rev, tail, toks) == ParseCompound(rev, toks)
    ensures ParseStatement(rev, toks) == ParseCompound(rev, toks)
  {
    assert ParseKeyed(rev, tail, toks) == ParseCompound(rev, toks);
    assert ParseDeclarative(rev, toks) == ParseCompound(rev, toks);
  }

  lemma {:induction false} CompoundRoundTrip(rev: Revision, tail: bool, s: Stmt, rest: seq<Token>)
    requires s.Compound? && WfStmt(rev, s)
    ensures ParseImperative(rev, tail, Glue(PStmt(s)) + rest) == Some(Parsed(s, rest))
    ensures ParseStatement(rev, Glue(PStmt(s)) + rest) == Some(Parsed(s, rest))
    ensures ParseCompound(rev, Glue(PStmt(s)) + rest) == Some(Parsed(s, rest))
    decreases StmtSize(s), 0
  {
    var ss := s.stmts;
    var body := Glue(PStmts(ss)) + Close(rest);
    CompoundTokens(ss, rest);
    if rev == Current {
      ListRoundTrip(rev, ss, rest);
      assert ParseCompoundBody(rev, body) == Some(Parsed(ss, Close(rest)));
    } else {
      assert PStmts(ss) == PStmt(ss[0]) by {
        assert ss[1..] == [];
        assert PStmt(ss[0]) + [] == PStmt(ss[0]);
      }
      assert StmtsSize(ss) == 1 + StmtSize(ss[0]) + StmtsSize(ss[1..]);
      FirstClose(rev, ss[0], rest);
      StmtRoundTrip(rev, ss[0], Close(rest));
      assert [ss[0]] == ss;
      assert ParseCompoundBody(rev, body) == Some(Parsed(ss, Close(rest)));
    }
    CompoundStep(rev, ss, body, rest);
    CompoundDispatch(rev, tail, [Token(Sym("{"), false)] + body);
  }

  lemma FirstClose(rev: Revision, s: Stmt, rest: seq<Token>)
    ensures EndsStmt(s, Close(rest))
  {
  }

  /** A printed statement list closed by `}` starts with no `else`. */
  lemma NoElseAhead(rev: Revision, ss: seq<Stmt>, rest: seq<Token>)
    requires forall i :: 0 <= i < |ss| ==> WfStmt(rev, ss[i])
    ensures !At(Glue(PStmts(ss)) + Close(rest), Ident("else"))
  {
    if ss == [] {
      assert Glue(PStmts(ss)) + Close(rest) == Close(rest);
    } else {
      StmtsCons(ss[0], ss[1..]);
      HeadTail(ss);
      GlueCat(PStmt(ss[0]), PStmts(ss[1..]), Close(rest));
      FirstToken(rev, ss[0], Glue(PStmts(ss[1..])) + Close(rest));
    }
  }

  lemma ListStep(rev: Revision, toks: seq<Token>, s: Stmt, tail: seq<Token>, ss: seq<Stmt>, rest: seq<Token>)
    requires ParseStatement(rev, toks) == Some(Parsed(s, tail)) && ParseStatementList(rev, tail) == Parsed(ss, rest)
    ensures ParseStatementList(rev, toks) == Parsed([s] + ss, rest)
  {
  }

  /** A printed statement list, closed by `}`, parses back to itself and stops at the `}`. */
  lemma {:induction false} ListRoundTrip(rev: Revision, ss: seq<Stmt>, rest: seq<Token>)
    requires forall i :: 0 <= i < |ss| ==> WfStmt(rev, ss[i])
    ensures ParseStatementList(rev, Glue(PStmts(ss)) + Close(rest)) == Parsed(ss, Close(rest))
    decreases StmtsSize(ss), 2
  {
    if ss == [] {
      assert Glue(PStmts(ss)) + Close(rest) == Close(rest);
      NoStmtAtClose(rev, rest);
    } else {
      var tail := Glue(PStmts(ss[1..])) + Close(rest);
      HeadTail(ss);
      StmtsCons(ss[0], ss[1..]);
      GlueCat(PStmt(ss[0]), PStmts(ss[1..]), Close(rest));
      assert forall i :: 0 <= i < |ss[1..]| ==> WfStmt(rev, ss[1..][i]);
      NoElseAhead(rev, ss[1..], rest);
      StmtRoundTrip(rev, ss[0], tail);
      ListRoundTrip(rev, ss[1..], rest);
      ListStep(rev, Glue(PStmts(ss)) + Close(rest), ss[0], tail, ss[1..], Close(rest));
    }
  }

  // ----- declarative statements -----

  lemma OnTokens(ts: seq<Trigger>, b: Stmt, rest: seq<Token>)
    ensures Glue(PStmt(On(ts, b))) + rest
         == [Token(Ident("on"), false)] + (Glue(PTriggers(ts)) + ([Token(Sym(":"), false)] + (Glue(PStmt(b)) + rest)))
  {
    OnLexemes(ts, b);
    OnGlue(PTriggers(ts), PStmt(b), rest);
  }

  /** A statement starting with `on` is read as an `on` clause. */
  lemma OnDispatch(toks: seq<Token>)
    requires At(toks, Ident("on")) && ParseOn(Current, toks).Some?
    ensures ParseStatement(Current, toks) == ParseOn(Current, toks)
  {
    assert ParseDeclarative(Current, toks) == ParseOn(Current, toks);
  }

  /** A printed `on` clause parses back to itself. */
  lemma {:induction false} OnRoundTrip(ts: seq<Trigger>, b: Stmt, rest: seq<Token>)
    requires WfStmt(Current, On(ts, b)) && EndsStmt(On(ts, b), rest)
    ensures ParseStatement(Current, Glue(PStmt(On(ts, b))) + rest) == Some(Parsed(On(ts, b), rest))
    decreases StmtSize(On(ts, b)), 0
  {
    var colon := [Token(Sym(":"), false)] + (Glue(PStmt(b)) + rest);
    var toks := [Token(Ident("on"), false)] + (Glue(PTriggers(ts)) + colon);
    OnTokens(ts, b, rest);
    TriggersRoundTrip(ts, colon);
    StmtRoundTrip(Current, b, rest);
    OnStep(Glue(PTriggers(ts)) + colon);
    assert colon[1..] == Glue(PStmt(b)) + rest;
    assert ParseOn(Current, toks) == Some(Parsed(On(ts, b), rest));
    OnDispatch(toks);
  }

  /** A printed `blocking` statement parses back to itself. */
  lemma {:induction false} BlockingRoundTrip(b: Stmt, rest: seq<Token>)
    requires WfStmt(Current, Blocking(b)) && EndsStmt(Blocking(b), rest)
    ensures ParseStatement(Current, Glue(PStmt(Blocking(b))) + rest) == Some(Parsed(Blocking(b), rest))
    decreases StmtSize(Blocking(b)), 0
  {
    var body := Glue(PStmt(b)) + rest;
    var toks := [Token(Ident("blocking"), false)] + body;
    BlockingTokens(b, rest);
    StmtRoundTrip(Current, b, rest);
    BlockingStep(toks, body, b, rest);
  }

  lemma BlockingTokens(b: Stmt, rest: seq<Token>)
    ensures Glue(PStmt(Blocking(b))) + rest == [Token(Ident("blocking"), false)] + (Glue(PStmt(b)) + rest)
  {
    assert PStmt(Blocking(b)) == [Ident("blocking")] + PStmt(b);
    GlueCat([Ident("blocking")], PStmt(b), rest);
    GlueCons(Ident("blocking"), []);
  }

  /** `blocking` then a statement, read through the declarative alternatives. */
  lemma BlockingStep(toks: seq<Token>, body: seq<Token>, b: Stmt, rest: seq<Token>)
    requires toks == [Token(Ident("blocking"), false)] + body
    requires ParseStatement(Current, body) == Some(Parsed(b, rest))
    ensures ParseStatement(Current, toks) == Some(Parsed(Blocking(b), rest))
  {
    assert toks[1..] == body;
    assert ParseBlocking(Current, toks) == Some(Parsed(Blocking(b), rest));
    assert ParseDeclarative(Current, toks) == ParseBlocking(Current, toks);
  }

  /** A printed guard condition followed by `]`. */
  lemma GuardCondRoundTrip(g: GuardCond, body: seq<Token>)
    requires WfGuardCond(Current, g)
    ensures ParseGuardCond(Current, Glue(PGuardCond(g)) + ([Token(Sym("]"), false)] + body))
         == Some(Parsed(g, [Token(Sym("]"), false)] + body))
  {
    var close := [Token(Sym("]"), false)] + body;
    match g
    case Otherwise =>
      GlueCons(Ident("otherwise"), []);
      assert (Glue(PGuardCond(g)) + close)[1..] == close;
    case Condition(c) =>
      var toks := Glue(PExpr(c)) + close;
      if |PExpr(c)| > 0 {
        GlueCat([PExpr(c)[0]], PExpr(c)[1..], close);
        assert [PExpr(c)[0]] + PExpr(c)[1..] == PExpr(c);
        GlueCons(PExpr(c)[0], []);
      }
      assert !At(toks, Ident("otherwise"));
      EndsAtSym(Current, "]", body);
      ExprRoundTrip(Current, c, close);
  }

  lemma GuardStep(g: GuardCond, b: Stmt, cond: seq<Token>, body: seq<Token>, rest: seq<Token>)
    requires ParseGuardCond(Current, cond) == Some(Parsed(g, [Token(Sym("]"), false)] + body))
    requires ParseStatement(Current, body) == Some(Parsed(b, rest))
    ensures ParseStatement(Current, [Token(Sym("["), false)] + cond) == Some(Parsed(Guard(g, b), rest))
  {
    var toks := [Token(Sym("["), false)] + cond;
    assert toks[1..] == cond;
    assert ([Token(Sym("]"), false)] + body)[1..] == body;
    assert ParseGuard(Current, toks) == Some(Parsed(Guard(g, b), rest));
  }

  /** A printed guard `[ condition ] statement` parses back to itself. */
  lemma {:induction false} GuardRoundTrip(g: GuardCond, b: Stmt, rest: seq<Token>)
    requires WfStmt(Current, Guard(g, b)) && EndsStmt(Guard(g, b), rest)
    ensures ParseStatement(Current, Glue(PStmt(Guard(g, b))) + rest) == Some(Parsed(Guard(g, b), rest))
    decreases StmtSize(Guard(g, b)), 0
  {
    var body := Glue(PStmt(b)) + rest;
    assert PStmt(Guard(g, b)) == [Sym("[")] + (PGuardCond(g) + ([Sym("]")] + PStmt(b)));
    Bracketed(Sym("["), PGuardCond(g), Sym("]"), PStmt(b), rest);
    GuardCondRoundTrip(g, body);
    StmtRoundTrip(Current, b, rest);
    GuardStep(g, b, Glue(PGuardCond(g)) + ([Token(Sym("]"), false)] + body), body, rest);
  }

  // ----- the two entry points -----

  /** A printed imperative statement parses back to itself, in tail mode whatever follows
      it, otherwise when what follows does not hand an open `if` an `else`. */
  lemma {:induction false} ImperativeRoundTrip(rev: Revision, tail: bool, s: Stmt, rest: seq<Token>)
    requires WfStmt(rev, s) && IsImperative(s) && Fits(tail, s, rest)
    ensures ParseImperative(rev, tail, Glue(PStmt(s)) + rest) == Some(Parsed(s, rest))
    decreases StmtSize(s), 1
  {
    if IsSimple(s) {
      SimpleRoundTrip(rev, s, rest);
      FirstToken(rev, s, rest);
      SimpleDispatch(rev, tail, Glue(PStmt(s)) + rest);
    } else {
      match s
      case If(_, _, _) => IfRoundTrip(rev, tail, s, rest);
      case Illegal => IllegalRoundTrip(rev, tail, rest);
      case Return(e) => ReturnRoundTrip(rev, tail, e, rest);
      case Skip => SkipRoundTrip(rev, tail, rest);
      case Compound(_) => CompoundRoundTrip(rev, tail, s, rest);
      case Defer(_, _) => DeferRoundTrip(tail, s, rest);
      case BareDefer => BareDeferRoundTrip(tail, rest);
    }
  }

  /** A printed statement parses back to itself as a `statement`. */
  lemma {:induction false} StmtRoundTrip(rev: Revision, s: Stmt, rest: seq<Token>)
    requires WfStmt(rev, s) && EndsStmt(s, rest)
    ensures ParseStatement(rev, Glue(PStmt(s)) + rest) == Some(Parsed(s, rest))
    decreases StmtSize(s), 3
  {
    match s
    case On(ts, b) => OnRoundTrip(ts, b, rest);
    case Blocking(b) => BlockingRoundTrip(b, rest);
    case Guard(g, b) => GuardRoundTrip(g, b, rest);
    case Compound(_) => CompoundRoundTrip(rev, false, s, rest);
    case _ => PlainRoundTrip(rev, s, rest);
  }

  /** A printed declarative statement is read back by the declarative alternatives alone,
      as a behaviour reads its declarative items. */
  lemma DeclarativeRoundTrip(s: Stmt, rest: seq<Token>)
    requires WfStmt(Current, s) && (!IsImperative(s) || s.Compound?)
    requires EndsStmt(s, rest)
    ensures ParseDeclarative(Current, Glue(PStmt(s)) + rest) == Some(Parsed(s, rest))
  {
    var toks := Glue(PStmt(s)) + rest;
    FirstToken(Current, s, rest);
    if s.Compound? {
      CompoundRoundTrip(Current, false, s, rest);
      assert ParseDeclarative(Current, toks) == ParseCompound(Current, toks);
    } else {
      StmtRoundTrip(Current, s, rest);
    }
  }

  /** An imperative statement other than a compound is no declarative one. */
  lemma {:induction false} PlainRoundTrip(rev: Revision, s: Stmt, rest: seq<Token>)
    requires WfStmt(rev, s) && EndsStmt(s, rest) && IsImperative(s) && !s.Compound?
    ensures ParseStatement(rev, Glue(PStmt(s)) + rest) == Some(Parsed(s, rest))
    decreases StmtSize(s), 2
  {
    ImperativeRoundTrip(rev, false, s, rest);
    FirstToken(rev, s, rest);
    ImperativeDispatch(rev, Glue(PStmt(s)) + rest);
  }

  /** Tokens that start no declarative statement are read as an imperative one. */
  lemma ImperativeDispatch(rev: Revision, toks: seq<Token>)
    requires toks != [] && !DeclarativeStart(toks[0].lex)
    ensures ParseStatement(rev, toks) == ParseImperative(rev, false, toks)
  {
    assert ParseDeclarative(rev, toks).None?;
  }

  function Digits(d: string): Expr {
    NumberLit(Number(false, d))
  }

  lemma AssignLexemes(a: string, d: string)
    ensures PStmt(Assign(a, Digits(d))) == [Ident(a), Sym("="), Num(d), Sym(";")]
  {
    assert PNumber(Number(false, d)) == [] + [Num(d)];
  }

  lemma IfLexemes(x: string, t: Stmt, e: Option<Stmt>)
    ensures PStmt(If(Var(x), t, e)) == [Ident("if"), Sym("("), Ident(x), Sym(")")] + PStmt(t) + PElse(e)
  {
    VarTokens(x);
  }

  /** `if (x) a = d1; else if (y) a = d2; else a = d3;` is an `if` whose else branch is the
      second `if`, which carries the last `else`. */
  lemma ElseIfChain(rev: Revision, x: string, y: string, a: string, d1: string, d2: string, d3: string, rest: seq<Token>)
    requires !LiteralWord(x) && !LiteralWord(y) && a !in Keywords
    ensures ParseStatement(rev, Glue([Ident("if"), Sym("("), Ident(x), Sym(")"), Ident(a), Sym("="), Num(d1), Sym(";"),
                                      Ident("else"), Ident("if"), Sym("("), Ident(y), Sym(")"), Ident(a), Sym("="), Num(d2), Sym(";"),
                                      Ident("else"), Ident(a), Sym("="), Num(d3), Sym(";")]) + rest)
         == Some(Parsed(If(Var(x), Assign(a, Digits(d1)), Some(If(Var(y), Assign(a, Digits(d2)), Some(Assign(a, Digits(d3)))))), rest))
  {
    var a3 := Assign(a, Digits(d3));
    var inner := If(Var(y), Assign(a, Digits(d2)), Some(a3));
    var s := If(Var(x), Assign(a, Digits(d1)), Some(inner));
    AssignLexemes(a, d1);
    AssignLexemes(a, d2);
    AssignLexemes(a, d3);
    ElseIfChainLexemes(x, y, a, d1, d2, d3);
    assert !OpenIf(inner);
    StmtRoundTrip(rev, s, rest);
  }

  lemma ElseIfChainLexemes(x: string, y: string, a: string, d1: string, d2: string, d3: string)
    ensures PStmt(If(Var(x), Assign(a, Digits(d1)), Some(If(Var(y), Assign(a, Digits(d2)), Some(Assign(a, Digits(d3)))))))
         == [Ident("if"), Sym("("), Ident(x), Sym(")"), Ident(a), Sym("="), Num(d1), Sym(";"),
             Ident("else"), Ident("if"), Sym("("), Ident(y), Sym(")"), Ident(a), Sym("="), Num(d2), Sym(";"),
             Ident("else"), Ident(a), Sym("="), Num(d3), Sym(";")]
  {
    var a3 := Assign(a, Digits(d3));
    var inner := If(Var(y), Assign(a, Digits(d2)), Some(a3));
    AssignLexemes(a, d1);
    AssignLexemes(a, d2);
    AssignLexemes(a, d3);
    IfLexemes(y, Assign(a, Digits(d2)), Some(a3));
    IfLexemes(x, Assign(a, Digits(d1)), Some(inner));
  }

  /** `if (x) if (y) a = d1; else a = d2;`: the inner `if` ends the outer one's then-branch,
      so it is closed before the `else`, and the `else` goes to the outer `if`. */
  lemma DanglingElse(rev: Revision, x: string, y: string, a: string, d1: string, d2: string, rest: seq<Token>)
    requires !LiteralWord(x) && !LiteralWord(y) && a !in Keywords
    ensures ParseStatement(rev, Glue([Ident("if"), Sym("("), Ident(x), Sym(")"),
                                      Ident("if"), Sym("("), Ident(y), Sym(")"), Ident(a), Sym("="), Num(d1), Sym(";"),
                                      Ident("else"), Ident(a), Sym("="), Num(d2), Sym(";")]) + rest)
         == Some(Parsed(If(Var(x), If(Var(y), Assign(a, Digits(d1)), None), Some(Assign(a, Digits(d2)))), rest))
  {
    var inner := If(Var(y), Assign(a, Digits(d1)), None);
    var s := If(Var(x), inner, Some(Assign(a, Digits(d2))));
    AssignLexemes(a, d1);
    AssignLexemes(a, d2);
    IfLexemes(y, Assign(a, Digits(d1)), None);
    IfLexemes(x, inner, Some(Assign(a, Digits(d2))));
    assert PStmt(s) == [Ident("if"), Sym("("), Ident(x), Sym(")"),
                        Ident("if"), Sym("("), Ident(y), Sym(")"), Ident(a), Sym("="), Num(d1), Sym(";"),
                        Ident("else"), Ident(a), Sym("="), Num(d2), Sym(";")];
    assert !OpenIf(s);
    StmtRoundTrip(rev, s, rest);
  }

  /** `if (x) if (y) a = d1; else a = d2; else a = d3;`: the first `else` already went to
      the outer `if`, so the second has no `if` left to take it and is not read as part of
      the statement. */
  lemma SecondElseLeftOver(rev: Revision, x: string, y: string, a: string, d1: string, d2: string, d3: string, rest: seq<Token>)
    requires !LiteralWord(x) && !LiteralWord(y) && a !in Keywords
    ensures ParseStatement(rev, Glue([Ident("if"), Sym("("), Ident(x), Sym(")"),
                                      Ident("if"), Sym("("), Ident(y), Sym(")"), Ident(a), Sym("="), Num(d1), Sym(";"),
                                      Ident("else"), Ident(a), Sym("="), Num(d2), Sym(";"),
                                      Ident("else"), Ident(a), Sym("="), Num(d3), Sym(";")]) + rest)
         == Some(Parsed(If(Var(x), If(Var(y), Assign(a, Digits(d1)), None), Some(Assign(a, Digits(d2)))),
                        Glue([Ident("else"), Ident(a), Sym("="), Num(d3), Sym(";")]) + rest))
  {
    var first := [Ident("if"), Sym("("), Ident(x), Sym(")"),
                  Ident("if"), Sym("("), Ident(y), Sym(")"), Ident(a), Sym("="), Num(d1), Sym(";"),
                  Ident("else"), Ident(a), Sym("="), Num(d2), Sym(";")];
    var second := [Ident("else"), Ident(a), Sym("="), Num(d3), Sym(";")];
    assert first + second == [Ident("if"), Sym("("), Ident(x), Sym(")"),
                              Ident("if"), Sym("("), Ident(y), Sym(")"), Ident(a), Sym("="), Num(d1), Sym(";"),
                              Ident("else"), Ident(a), Sym("="), Num(d2), Sym(";"),
                              Ident("else"), Ident(a), Sym("="), Num(d3), Sym(";")];
    GlueCat(first, second, rest);
    DanglingElse(rev, x, y, a, d1, d2, Glue(second) + rest);
  }

  /** A compound of two statements: a statement list in the current revision, but no
      backup-revision compound, which holds exactly one statement. */
  lemma BackupCompoundHoldsOne(s1: Stmt, s2: Stmt, rest: seq<Token>)
    requires WfStmt(Backup, s1) && WfStmt(Backup, s2)
    requires WfStmt(Current, s1) && WfStmt(Current, s2)
    ensures ParseCompound(Backup, Glue(PStmt(Compound([s1, s2]))) + rest).None?
    ensures ParseStatement(Current, Glue(PStmt(Compound([s1, s2]))) + rest) == Some(Parsed(Compound([s1, s2]), rest))
  {
    var c := Compound([s1, s2]);
    assert WfStmt(Current, c);
    StmtRoundTrip(Current, c, rest);
    BackupCompoundRejected(s1, s2, rest);
  }

  lemma BackupCompoundRejected(s1: Stmt, s2: Stmt, rest: seq<Token>)
    requires WfStmt(Backup, s1) && WfStmt(Backup, s2)
    ensures ParseCompound(Backup, Glue(PStmt(Compound([s1, s2]))) + rest).None?
  {
    var ss := [s1, s2];
    var after := Glue(PStmt(s2)) + Close(rest);
    CompoundTokens(ss, rest);
    assert ss[1..] == [s2];
    StmtsCons(s1, [s2]);
    StmtsCons(s2, []);
    assert PStmts(ss) == PStmt(s1) + PStmt(s2) by {
      assert PStmt(s2) + PStmts([]) == PStmt(s2);
    }
    GlueCat(PStmt(s1), PStmt(s2), Close(rest));
    FirstToken(Backup, s2, Close(rest));
    StmtRoundTrip(Backup, s1, after);
    BackupBodyStops(s1, Glue(PStmt(s1)) + after, after);
    var toks := [Token(Sym("{"), false)] + (Glue(PStmt(s1)) + after);
    assert toks[1..] == Glue(PStmt(s1)) + after;
  }

  lemma BackupBodyStops(s1: Stmt, body: seq<Token>, after: seq<Token>)
    requires ParseStatement(Backup, body) == Some(Parsed(s1, after))
    requires !At(after, Sym("}"))
    ensures ParseCompound(Backup, [Token(Sym("{"), false)] + body).None?
  {
    var toks := [Token(Sym("{"), false)] + body;
    assert toks[1..] == body;
    assert ParseCompoundBody(Backup, body) == Some(Parsed([s1], after));
  }

  lemma ReplyTokens(rest: seq<Token>)
    ensures Glue([Ident("reply"), Sym("("), Sym(")"), Sym(";")]) + rest
         == [Token(Ident("reply"), false), Token(Sym("("), false)] + ([Token(Sym(")"), false)] + Semi(rest))
  {
    GlueCons(Ident("reply"), [Sym("("), Sym(")"), Sym(";")]);
    GlueCons(Sym("("), [Sym(")"), Sym(";")]);
    GlueCons(Sym(")"), [Sym(";")]);
    GlueCons(Sym(";"), []);
  }

  lemma ReplyStep(rev: Revision, rest: seq<Token>)
    ensures ParseReply(rev, [Token(Ident("reply"), false), Token(Sym("("), false)] + ([Token(Sym(")"), false)] + Semi(rest)))
         == if rev == Backup then Some(Parsed(Reply(None, None), rest)) else None
  {
    var close := [Token(Sym(")"), false)] + Semi(rest);
    var toks := [Token(Ident("reply"), false), Token(Sym("("), false)] + close;
    assert toks[1..][1..] == close;
    assert close[1..] == Semi(rest);
    assert Semi(rest)[1..] == rest;
    NoExprAtSym(rev, ")", Semi(rest));
    assert ParseOptExpr(rev, close) == Parsed(None, close);
    assert ParsePortPrefix(rev, toks) == Parsed(None, toks);
  }

  /** `reply ( ) ;`: the backup revision's reply value is optional, the current one's is not. */
  lemma ReplyValueOptionalInBackup(rest: seq<Token>)
    ensures ParseReply(Backup, Glue([Ident("reply"), Sym("("), Sym(")"), Sym(";")]) + rest)
         == Some(Parsed(Reply(None, None), rest))
    ensures ParseReply(Current, Glue([Ident("reply"), Sym("("), Sym(")"), Sym(";")]) + rest).None?
  {
    ReplyTokens(rest);
    ReplyStep(Backup, rest);
    ReplyStep(Current, rest);
  }

  /** `port.reply();` as the printer writes it, the `.` glued to the port: in the backup
      revision the glued `.` continues a compound name `port.reply`, so the text is no
      statement at all, while with a space before the `.` it is a reply to that port. */
  lemma PortReplyGluedInBackup(p: string, rest: seq<Token>)
    requires p !in Keywords
    ensures ParseStatement(Backup, Glue(PStmt(Reply(Some(p), None))) + rest).None?
    ensures ParseStatement(Backup, [Token(Ident(p), false), Token(Sym("."), false)] + Glue([Ident("reply"), Sym("("), Sym(")"), Sym(";")]) + rest)
         == Some(Parsed(Reply(Some(p), None), rest))
  {
    var open := [Token(Sym("("), false)] + ([Token(Sym(")"), false)] + Semi(rest));
    var glued := [Token(Ident(p), false), Token(Sym("."), true)] + ([Token(Ident("reply"), false)] + open);
    GluedPortTokens(p, rest);
    GluedPortReply(p, open, glued);
    var head := [Token(Ident(p), false), Token(Sym("."), false)];
    var body := [Token(Ident("reply"), false), Token(Sym("("), false)] + ([Token(Sym(")"), false)] + Semi(rest));
    ReplyTokens(rest);
    assert Glue([Ident("reply"), Sym("("), Sym(")"), Sym(";")]) + rest == body;
    assert head + Glue([Ident("reply"), Sym("("), Sym(")"), Sym(";")]) + rest == head + body;
    SpacedPortReply(p, rest);
  }

  lemma GluedPortTokens(p: string, rest: seq<Token>)
    ensures Glue(PStmt(Reply(Some(p), None))) + rest
         == [Token(Ident(p), false), Token(Sym("."), true)]
            + ([Token(Ident("reply"), false)] + ([Token(Sym("("), false)] + ([Token(Sym(")"), false)] + Semi(rest))))
  {
    ReplyStmtTokens(Some(p), None, rest);
    PrefixTokens(p);
    assert Glue(POptExpr(None)) == [];
  }

  /** The glued form: no variable, no assignment, no reply, in the backup revision. */
  lemma GluedPortReply(p: string, open: seq<Token>, toks: seq<Token>)
    requires p !in Keywords && At(open, Sym("("))
    requires toks == [Token(Ident(p), false), Token(Sym("."), true)] + ([Token(Ident("reply"), false)] + open)
    ensures ParseStatement(Backup, toks).None?
  {
    PortReplyNotEarlier(Backup, p, open);
    assert ParsePortPrefix(Backup, toks) == Parsed(None, toks);
    assert ParseReply(Backup, toks).None?;
    SimpleDispatch(Backup, false, toks);
  }

  /** The spaced form: a reply to the port, in the backup revision. */
  lemma SpacedPortReply(p: string, rest: seq<Token>)
    requires p !in Keywords
    ensures ParseStatement(Backup, [Token(Ident(p), false), Token(Sym("."), false)]
              + ([Token(Ident("reply"), false), Token(Sym("("), false)] + ([Token(Sym(")"), false)] + Semi(rest))))
         == Some(Parsed(Reply(Some(p), None), rest))
  {
    var body := [Token(Ident("reply"), false), Token(Sym("("), false)] + ([Token(Sym(")"), false)] + Semi(rest));
    var after := [Token(Sym("."), false)] + body;
    var toks := [Token(Ident(p), false)] + after;
    assert [Token(Ident(p), false), Token(Sym("."), false)] + body == toks;
    SpacedPortSimple(p, body, after, toks, rest);
    SimpleDispatch(Backup, false, toks);
  }

  lemma SpacedPortSimple(p: string, body: seq<Token>, after: seq<Token>, toks: seq<Token>, rest: seq<Token>)
    requires p !in Keywords
    requires body == [Token(Ident("reply"), false), Token(Sym("("), false)] + ([Token(Sym(")"), false)] + Semi(rest))
    requires after == [Token(Sym("."), false)] + body && toks == [Token(Ident(p), false)] + after
    ensures ParseSimple(Backup, toks) == Some(Parsed(Reply(Some(p), None), rest))
  {
    SpacedNotEarlier(p, after, toks);
    ReplyStep(Backup, rest);
    ReplyAfterPrefix(toks, body, p, rest);
    ReplyFallsThrough(Backup, toks);
  }

  /** Tokens that are no variable declaration and no assignment are read as a reply, if
      they are one. */
  lemma ReplyFallsThrough(rev: Revision, toks: seq<Token>)
    requires ParseVariable(rev, toks).None? && ParseAssign(rev, toks).None? && ParseReply(rev, toks).Some?
    ensures ParseSimple(rev, toks) == ParseReply(rev, toks)
  {
  }

  /** A word then a spaced `.` is neither a variable declaration nor an assignment. */
  lemma SpacedNotEarlier(p: string, after: seq<Token>, toks: seq<Token>)
    requires p !in Keywords && At(after, Sym(".")) && !after[0].glued
    requires toks == [Token(Ident(p), false)] + after
    ensures ParseVariable(Backup, toks).None? && ParseAssign(Backup, toks).None?
  {
    OneName(p);
    NotVariable(Backup, Name(false, [p]), after);
    assert toks[1..] == after;
  }

  /** After a spaced port prefix, `reply ( ) ;` reads as in ReplyStep. */
  lemma ReplyAfterPrefix(toks: seq<Token>, body: seq<Token>, p: string, rest: seq<Token>)
    requires toks == [Token(Ident(p), false), Token(Sym("."), false)] + body && At(body, Ident("reply"))
    requires ParseReply(Backup, body) == Some(Parsed(Reply(None, None), rest))
    ensures ParseReply(Backup, toks) == Some(Parsed(Reply(Some(p), None), rest))
  {
    assert toks[2..] == body;
    assert ParsePortPrefix(Backup, toks) == Parsed(Some(p), body);
    assert ParsePortPrefix(Backup, body) == Parsed(None, body);
  }

  /** `defer` before a statement: the current revision defers it, the backup revision only
      has `defer ;` and rejects anything else after the keyword. */
  lemma DeferOnlyBareInBackup(s: Stmt, rest: seq<Token>)
    requires WfStmt(Current, s) && WfStmt(Backup, s) && EndsStmt(s, rest) && !s.Skip?
    ensures ParseDefer(Current, false, Glue([Ident("defer")] + PStmt(s)) + rest) == Some(Parsed(Defer(None, s), rest))
    ensures ParseDefer(Backup, false, Glue([Ident("defer")] + PStmt(s)) + rest).None?
  {
    var body := Glue(PStmt(s)) + rest;
    var toks := [Token(Ident("defer"), false)] + body;
    GlueCat([Ident("defer")], PStmt(s), rest);
    GlueCons(Ident("defer"), []);
    assert Glue([Ident("defer")] + PStmt(s)) + rest == toks;
    assert toks[1..] == body;
    FirstToken(Current, s, rest);
    assert ParseArgs(Current, body).None?;
    ImperativeRoundTrip(Current, false, s, rest);
  }
}
