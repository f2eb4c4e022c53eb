/** Behaviour statements: the declarative `on`, `blocking`, guard and compound forms, and
    the imperative ones. Keyword-led alternatives are tried first; the others are tried in
    the order variable, assignment, reply, action, call, interface action. */
module Statements {
  import opened Tokens
  import opened Ast
  import opened Names
  import opened Expressions
  import opened Triggers

  /** The statements the grammar admits where only an `imperative_statement` may stand. */
  predicate IsImperative(s: Stmt) {
    !(s.On? || s.Blocking? || s.Guard?)
  }

  /** No `if` at the end of `s` has an `else`. This is the form of an `if`'s then-branch:
      an `else` after it goes to the enclosing `if`. */
  predicate NoTrailingElse(s: Stmt) {
    match s
    case If(_, t, e) => e.None? && NoTrailingElse(t)
    case Defer(_, b) => NoTrailingElse(b)
    case _ => true
  }

  /** Shape of a statement of the current revision: trigger lists are non-empty, `if`
      branches and deferred statements are imperative, a then-branch takes no `else`, a
      reply carries a value, and `defer` is never bare. */
  predicate CurrentStmt(s: Stmt) {
    match s
    case On(ts, b) => |ts| >= 1 && CurrentStmt(b)
    case Blocking(b) => CurrentStmt(b)
    case Guard(_, b) => CurrentStmt(b)
    case Compound(ss) => forall i :: 0 <= i < |ss| ==> CurrentStmt(ss[i])
    case If(_, t, e) =>
      IsImperative(t) && NoTrailingElse(t) && CurrentStmt(t)
      && (e.Some? ==> IsImperative(e.value) && CurrentStmt(e.value))
    case Reply(_, e) => e.Some?
    case Defer(_, b) => IsImperative(b) && CurrentStmt(b)
    case BareDefer => false
    case _ => true
  }

  /** Shape of a statement of the backup revision: imperative only, a compound holds exactly
      one statement, `defer` is bare, no actions or calls, and expressions are backup ones. */
  predicate BackupStmt(s: Stmt) {
    match s
    case Compound(ss) => |ss| == 1 && BackupStmt(ss[0])
    case Variable(_, _, init) => init.Some? ==> InBackup(init.value)
    case Assign(_, e) => InBackup(e)
    case If(c, t, e) => InBackup(c) && NoTrailingElse(t) && BackupStmt(t) && (e.Some? ==> BackupStmt(e.value))
    case Illegal => true
    case Return(e) => e.Some? ==> InBackup(e.value)
    case Skip => true
    case Reply(_, e) => e.Some? ==> InBackup(e.value)
    case BareDefer => true
    case _ => false
  }

  /** The shape a statement parsed under `rev` has. */
  predicate RevisionStmt(rev: Revision, s: Stmt) {
    match rev
    case Current => CurrentStmt(s)
    case Backup => BackupStmt(s)
  }

  /** `statement*`, as many as there are. */
  function ParseStatementList(rev: Revision, toks: seq<Token>): (r: Parsed<seq<Stmt>>)
    ensures |r.rest| <= |toks|
    ensures Lex(toks) == PStmts(r.node) + Lex(r.rest)
    ensures forall i :: 0 <= i < |r.node| ==> RevisionStmt(rev, r.node[i])
    decreases |toks|, 6
  {
    match ParseStatement(rev, toks)
    case None => Parsed([], toks)
    case Some(s) =>
      var more := ParseStatementList(rev, s.rest);
      StmtsLex(Lex(toks), Lex(s.rest), Lex(more.rest), s.node, more.node);
      AllRevision(rev, s.node, more.node);
      Parsed([s.node] + more.node, more.rest)
  }

  /** `statement`: a declarative statement (current revision only) or an imperative one. */
  function ParseStatement(rev: Revision, toks: seq<Token>): (r: Option<Parsed<Stmt>>)
    ensures r.Some? ==> |r.value.rest| < |toks|
    ensures r.Some? ==> Lex(toks) == PStmt(r.value.node) + Lex(r.value.rest)
    ensures r.Some? ==> RevisionStmt(rev, r.value.node)
    ensures r.Some? && rev == Backup ==> IsImperative(r.value.node)
    decreases |toks|, 5
  {
    if rev == Backup then ParseImperative(rev, false, toks)
    else
      match ParseDeclarative(rev, toks)
      case Some(d) => Some(d)
      case None => ParseImperative(rev, false, toks)
  }

  /** `declarative_statement`: `on`, `blocking`, a guard or a compound. */
  function ParseDeclarative(rev: Revision, toks: seq<Token>): (r: Option<Parsed<Stmt>>)
    ensures r.Some? ==> |r.value.rest| < |toks|
    ensures r.Some? ==> Lex(toks) == PStmt(r.value.node) + Lex(r.value.rest)
    ensures r.Some? ==> RevisionStmt(rev, r.value.node)
    decreases |toks|, 4
  {
    if At(toks, Ident("on")) then ParseOn(rev, toks)
    else if At(toks, Ident("blocking")) then ParseBlocking(rev, toks)
    else if At(toks, Sym("[")) then ParseGuard(rev, toks)
    else if At(toks, Sym("{")) then ParseCompound(rev, toks)
    else None
  }

  /** `imperative_statement`: the keyword-led forms first, then the others. `tail` says
      the statement ends the then-branch of an `if`, where no `if` takes an `else`. */
  function ParseImperative(rev: Revision, tail: bool, toks: seq<Token>): (r: Option<Parsed<Stmt>>)
    ensures r.Some? ==> |r.value.rest| < |toks|
    ensures r.Some? ==> Lex(toks) == PStmt(r.value.node) + Lex(r.value.rest)
    ensures r.Some? ==> RevisionStmt(rev, r.value.node) && IsImperative(r.value.node)
    ensures r.Some? && tail ==> NoTrailingElse(r.value.node)
    decreases |toks|, 4
  {
    var keyed := ParseKeyed(rev, tail, toks);
    if keyed.Some? then keyed else ParseSimple(rev, toks)
  }

  /** The imperative statements led by a keyword or punctuation of their own. */
  function ParseKeyed(rev: Revision, tail: bool, toks: seq<Token>): (r: Option<Parsed<Stmt>>)
    ensures r.Some? ==> |r.value.rest| < |toks|
    ensures r.Some? ==> Lex(toks) == PStmt(r.value.node) + Lex(r.value.rest)
    ensures r.Some? ==> RevisionStmt(rev, r.value.node) && IsImperative(r.value.node)
    ensures r.Some? && tail ==> NoTrailingElse(r.value.node)
    decreases |toks|, 3
  {
    if At(toks, Ident("if")) then ParseIf(rev, tail, toks)
    else if At(toks, Ident("illegal")) then ParseIllegal(toks)
    else if At(toks, Ident("return")) then ParseReturn(rev, toks)
    else if At(toks, Sym(";")) then Some(Parsed(Skip, toks[1..]))
    else if At(toks, Sym("{")) then ParseCompound(rev, toks)
    else if At(toks, Ident("defer")) then ParseDefer(rev, tail, toks)
    else None
  }

  /** `on triggers : statement`. */
  function ParseOn(rev: Revision, toks: seq<Token>): (r: Option<Parsed<Stmt>>)
    ensures r.Some? ==> |r.value.rest| < |toks| && r.value.node.On?
    ensures r.Some? ==> Lex(toks) == PStmt(r.value.node) + Lex(r.value.rest)
    ensures r.Some? ==> RevisionStmt(rev, r.value.node)
    decreases |toks|, 1
  {
    if rev == Backup then None
    else
      var kw :- Expect(toks, Ident("on"));
      var ts :- ParseTriggers(kw);
      var colon :- Expect(ts.rest, Sym(":"));
      var b :- ParseStatement(rev, colon);
      OnLex(Lex(toks), Lex(kw), Lex(ts.rest), Lex(colon), Lex(b.rest), ts.node, b.node);
      Some(Parsed(On(ts.node, b.node), b.rest))
  }

  /** `blocking statement`. */
  function ParseBlocking(rev: Revision, toks: seq<Token>): (r: Option<Parsed<Stmt>>)
    ensures r.Some? ==> |r.value.rest| < |toks| && r.value.node.Blocking?
    ensures r.Some? ==> Lex(toks) == PStmt(r.value.node) + Lex(r.value.rest)
    ensures r.Some? ==> RevisionStmt(rev, r.value.node)
    decreases |toks|, 1
  {
    if rev == Backup then None
    else
      var kw :- Expect(toks, Ident("blocking"));
      var b :- ParseStatement(rev, kw);
      BlockingLex(Lex(toks), Lex(kw), Lex(b.rest), b.node);
      Some(Parsed(Blocking(b.node), b.rest))
  }

  /** The condition of a guard: `otherwise` or an expression. */
  function ParseGuardCond(rev: Revision, toks: seq<Token>): (r: Option<Parsed<GuardCond>>)
    ensures r.Some? ==> |r.value.rest| < |toks|
    ensures r.Some? ==> Lex(toks) == PGuardCond(r.value.node) + Lex(r.value.rest)
  {
    if At(toks, Ident("otherwise")) then Some(Parsed(Otherwise, toks[1..]))
    else
      var e :- ParseExpr(rev, toks);
      Some(Parsed(Condition(e.node), e.rest))
  }

  /** `guard`: `[ otherwise-or-expression ] statement`. */
  function ParseGuard(rev: Revision, toks: seq<Token>): (r: Option<Parsed<Stmt>>)
    ensures r.Some? ==> |r.value.rest| < |toks| && r.value.node.Guard?
    ensures r.Some? ==> Lex(toks) == PStmt(r.value.node) + Lex(r.value.rest)
    ensures r.Some? ==> RevisionStmt(rev, r.value.node)
    decreases |toks|, 1
  {
    if rev == Backup then None
    else
      var open :- Expect(toks, Sym("["));
      var g :- ParseGuardCond(rev, open);
      var close :- Expect(g.rest, Sym("]"));
      var b :- ParseStatement(rev, close);
      GuardLex(Lex(toks), Lex(open), Lex(g.rest), Lex(close), Lex(b.rest), g.node, b.node);
      Some(Parsed(Guard(g.node, b.node), b.rest))
  }

  /** `compound`: `{ statement* }` now; `{ statement }` in the backup revision. */
  function ParseCompound(rev: Revision, toks: seq<Token>): (r: Option<Parsed<Stmt>>)
    ensures r.Some? ==> |r.value.rest| < |toks| && r.value.node.Compound?
    ensures r.Some? ==> Lex(toks) == PStmt(r.value.node) + Lex(r.value.rest)
    ensures r.Some? ==> RevisionStmt(rev, r.value.node)
    decreases |toks|, 1
  {
    var open :- Expect(toks, Sym("{"));
    var body :- ParseCompoundBody(rev, open);
    var close :- Expect(body.rest, Sym("}"));
    CompoundLex(Lex(toks), Lex(open), Lex(body.rest), Lex(close), body.node);
    Some(Parsed(Compound(body.node), close))
  }

  /** The statements between the braces of a compound. */
  function ParseCompoundBody(rev: Revision, toks: seq<Token>): (r: Option<Parsed<seq<Stmt>>>)
    ensures r.Some? ==> |r.value.rest| <= |toks|
    ensures r.Some? ==> Lex(toks) == PStmts(r.value.node) + Lex(r.value.rest)
    ensures r.Some? ==> RevisionStmt(rev, Compound(r.value.node))
    decreases |toks|, 7
  {
    if rev == Current then
      var body := ParseStatementList(rev, toks);
      Some(body)
    else
      var s :- ParseStatement(rev, toks);
      assert PStmts([s.node]) == PStmt(s.node) + PStmts([]);
      Some(Parsed([s.node], s.rest))
  }

  /** `if ( expression ) imperative_statement (else imperative_statement)?`, a left
      associative rule: where an `else` could continue an `if` that is itself the end of a
      then-branch, the inner `if` is closed first and the `else` goes to the outer one. So
      the then-branch is parsed in `tail` mode, and an `if` in `tail` mode takes no `else`. */
  function ParseIf(rev: Revision, tail: bool, toks: seq<Token>): (r: Option<Parsed<Stmt>>)
    ensures r.Some? ==> |r.value.rest| < |toks| && r.value.node.If?
    ensures r.Some? ==> Lex(toks) == PStmt(r.value.node) + Lex(r.value.rest)
    ensures r.Some? ==> RevisionStmt(rev, r.value.node)
    ensures r.Some? && tail ==> NoTrailingElse(r.value.node)
    decreases |toks|, 2
  {
    var kw :- Expect(toks, Ident("if"));
    var open :- Expect(kw, Sym("("));
    var c :- ParseExpr(rev, open);
    var close :- Expect(c.rest, Sym(")"));
    var t :- ParseImperative(rev, true, close);
    var e := if tail then Parsed(None, t.rest) else ParseElse(rev, t.rest);
    IfLex(Lex(toks), Lex(kw), Lex(open), Lex(c.rest), Lex(close), Lex(t.rest), Lex(e.rest), c.node, t.node, e.node);
    Some(Parsed(If(c.node, t.node, e.node), e.rest))
  }

  /** The optional `else imperative_statement` of an `if`. */
  function ParseElse(rev: Revision, toks: seq<Token>): (r: Parsed<Option<Stmt>>)
    ensures |r.rest| <= |toks|
    ensures Lex(toks) == PElse(r.node) + Lex(r.rest)
    ensures r.node.Some? ==> RevisionStmt(rev, r.node.value) && IsImperative(r.node.value)
    decreases |toks|, 1
  {
    var els := Expect(toks, Ident("else"));
    if els.None? then Parsed(None, toks)
    else
      match ParseImperative(rev, false, els.value)
      case None => Parsed(None, toks)
      case Some(e) => Parsed(Some(e.node), e.rest)
  }

  /** `illegal ;`. */
  function ParseIllegal(toks: seq<Token>): (r: Option<Parsed<Stmt>>)
    ensures r.Some? ==> |r.value.rest| < |toks| && r.value.node == Illegal
    ensures r.Some? ==> Lex(toks) == PStmt(r.value.node) + Lex(r.value.rest)
  {
    var kw :- Expect(toks, Ident("illegal"));
    var semi :- Expect(kw, Sym(";"));
    Some(Parsed(Illegal, semi))
  }

  /** An optional expression. */
  function ParseOptExpr(rev: Revision, toks: seq<Token>): (r: Parsed<Option<Expr>>)
    ensures |r.rest| <= |toks|
    ensures Lex(toks) == POptExpr(r.node) + Lex(r.rest)
    ensures r.node.Some? && rev == Backup ==> InBackup(r.node.value)
  {
    match ParseExpr(rev, toks)
    case Some(e) => Parsed(Some(e.node), e.rest)
    case None => Parsed(None, toks)
  }

  /** `return expression? ;`. */
  function ParseReturn(rev: Revision, toks: seq<Token>): (r: Option<Parsed<Stmt>>)
    ensures r.Some? ==> |r.value.rest| < |toks| && r.value.node.Return?
    ensures r.Some? ==> Lex(toks) == PStmt(r.value.node) + Lex(r.value.rest)
    ensures r.Some? ==> RevisionStmt(rev, r.value.node)
  {
    var kw :- Expect(toks, Ident("return"));
    var e := ParseOptExpr(rev, kw);
    var semi :- Expect(e.rest, Sym(";"));
    ReturnLex(Lex(toks), Lex(kw), Lex(e.rest), Lex(semi), e.node);
    Some(Parsed(Return(e.node), semi))
  }

  /** The optional arguments right after `defer`. */
  function ParseOptArgs(rev: Revision, toks: seq<Token>): (r: Parsed<Option<seq<Expr>>>)
    ensures |r.rest| <= |toks|
    ensures Lex(toks) == POptArgs(r.node) + Lex(r.rest)
  {
    match ParseArgs(rev, toks)
    case Some(a) => Parsed(Some(a.node), a.rest)
    case None => Parsed(None, toks)
  }

  /** `defer arguments? imperative_statement` now; only `defer ;` in the backup revision. */
  function ParseDefer(rev: Revision, tail: bool, toks: seq<Token>): (r: Option<Parsed<Stmt>>)
    ensures r.Some? ==> |r.value.rest| < |toks|
    ensures r.Some? ==> Lex(toks) == PStmt(r.value.node) + Lex(r.value.rest)
    ensures r.Some? ==> RevisionStmt(rev, r.value.node) && IsImperative(r.value.node)
    ensures r.Some? && tail ==> NoTrailingElse(r.value.node)
    decreases |toks|, 2
  {
    if rev == Backup then ParseBareDefer(toks)
    else
      var kw :- Expect(toks, Ident("defer"));
      var args := ParseOptArgs(rev, kw);
      var b :- ParseImperative(rev, tail, args.rest);
      DeferLex(Lex(toks), Lex(kw), Lex(args.rest), Lex(b.rest), args.node, b.node);
      Some(Parsed(Defer(args.node, b.node), b.rest))
  }

  /** The backup revision's `defer ;`. */
  function ParseBareDefer(toks: seq<Token>): (r: Option<Parsed<Stmt>>)
    ensures r.Some? <==> |toks| >= 2 && toks[0].lex == Ident("defer") && toks[1].lex == Sym(";")
    ensures r.Some? ==> r.value.node == BareDefer && r.value.rest == toks[2..]
    ensures r.Some? ==> Lex(toks) == PStmt(r.value.node) + Lex(r.value.rest)
  {
    var kw :- Expect(toks, Ident("defer"));
    var semi :- Expect(kw, Sym(";"));
    Chain2(Lex(toks), Lex(kw), [Ident("defer")], [Sym(";")], Lex(semi));
    Some(Parsed(BareDefer, semi))
  }

  /** The imperative statements not led by a keyword of their own. */
  function ParseSimple(rev: Revision, toks: seq<Token>): (r: Option<Parsed<Stmt>>)
    ensures r.Some? ==> |r.value.rest| < |toks|
    ensures r.Some? ==> Lex(toks) == PStmt(r.value.node) + Lex(r.value.rest)
    ensures r.Some? ==> RevisionStmt(rev, r.value.node) && IsImperative(r.value.node)
    ensures r.Some? ==> !r.value.node.If? && !r.value.node.Defer?
  {
    match ParseVariable(rev, toks)
    case Some(v) => Some(v)
    case None =>
      match ParseAssign(rev, toks)
      case Some(a) => Some(a)
      case None =>
        match ParseReply(rev, toks)
        case Some(p) => Some(p)
        case None => ParseCurrentAction(rev, toks)
  }

  /** An action, a call or an interface action: statements of the current revision only. */
  function ParseCurrentAction(rev: Revision, toks: seq<Token>): (r: Option<Parsed<Stmt>>)
    ensures r.Some? ==> rev == Current && |r.value.rest| < |toks|
    ensures r.Some? ==> Lex(toks) == PStmt(r.value.node) + Lex(r.value.rest)
    ensures r.Some? ==> r.value.node.ActionStmt? || r.value.node.CallStmt? || r.value.node.InterfaceAction?
  {
    if rev == Current then ParseActionOrCall(rev, toks) else None
  }

  /** The initialiser of a variable: `= expression`, or nothing. */
  function ParseInitializer(rev: Revision, toks: seq<Token>): (r: Option<Parsed<Option<Expr>>>)
    ensures r.Some? ==> |r.value.rest| <= |toks|
    ensures r.Some? ==> Lex(toks) == PInit(r.value.node) + Lex(r.value.rest)
    ensures r.Some? && r.value.node.Some? && rev == Backup ==> InBackup(r.value.node.value)
  {
    if At(toks, Sym("=")) then
      var e :- ParseExpr(rev, toks[1..]);
      Some(Parsed(Some(e.node), e.rest))
    else Some(Parsed(None, toks))
  }

  /** `variable`: `type_name var_name (= expression)? ;`. */
  function ParseVariable(rev: Revision, toks: seq<Token>): (r: Option<Parsed<Stmt>>)
    ensures r.Some? ==> |r.value.rest| < |toks| && r.value.node.Variable?
    ensures r.Some? ==> Lex(toks) == PStmt(r.value.node) + Lex(r.value.rest)
    ensures r.Some? ==> RevisionStmt(rev, r.value.node)
  {
    var t :- ParseTypeName(rev, toks);
    var x :- ExpectIdent(t.rest);
    var init :- ParseInitializer(rev, x.rest);
    var semi :- Expect(init.rest, Sym(";"));
    VariableLex(Lex(toks), Lex(t.rest), Lex(x.rest), Lex(init.rest), Lex(semi), t.node, x.node, init.node);
    Some(Parsed(Variable(t.node, x.node, init.node), semi))
  }

  /** `assign`: `var = expression ;`. */
  function ParseAssign(rev: Revision, toks: seq<Token>): (r: Option<Parsed<Stmt>>)
    ensures r.Some? ==> |r.value.rest| < |toks| && r.value.node.Assign?
    ensures r.Some? ==> Lex(toks) == PStmt(r.value.node) + Lex(r.value.rest)
    ensures r.Some? ==> RevisionStmt(rev, r.value.node)
  {
    var x :- ExpectIdent(toks);
    var eq :- Expect(x.rest, Sym("="));
    var e :- ParseExpr(rev, eq);
    var semi :- Expect(e.rest, Sym(";"));
    AssignLex(Lex(toks), Lex(x.rest), Lex(eq), Lex(e.rest), Lex(semi), x.node, e.node);
    Some(Parsed(Assign(x.node, e.node), semi))
  }

  /** The optional `port .` in front of `reply`. In the backup revision a `.` glued to the
      word before it continues a compound name (an immediate token, which the lexer prefers),
      so only a spaced `.` can end the port there. */
  function ParsePortPrefix(rev: Revision, toks: seq<Token>): (r: Parsed<Option<string>>)
    ensures |r.rest| <= |toks|
    ensures Lex(toks) == PPortPrefix(r.node) + Lex(r.rest)
    ensures r.node.Some? <==> |toks| >= 2 && toks[0].lex.Ident? && toks[1].lex == Sym(".")
                              && (rev == Backup ==> !toks[1].glued)
  {
    if |toks| >= 2 && toks[0].lex.Ident? && toks[1].lex == Sym(".") && (rev == Backup ==> !toks[1].glued) then
      assert Lex(toks) == [toks[0].lex, toks[1].lex] + Lex(toks[2..]) by {
        assert toks[1..][1..] == toks[2..];
      }
      Parsed(Some(toks[0].lex.name), toks[2..])
    else Parsed(None, toks)
  }

  /** The value of a reply: mandatory now, optional in the backup revision. */
  function ParseReplyValue(rev: Revision, toks: seq<Token>): (r: Option<Parsed<Option<Expr>>>)
    ensures r.Some? ==> |r.value.rest| <= |toks|
    ensures r.Some? ==> Lex(toks) == POptExpr(r.value.node) + Lex(r.value.rest)
    ensures r.Some? && rev == Current ==> r.value.node.Some?
    ensures r.Some? && rev == Backup && r.value.node.Some? ==> InBackup(r.value.node.value)
  {
    var v := ParseOptExpr(rev, toks);
    if rev == Current && v.node.None? then None else Some(v)
  }

  /** `reply`: `(port .)? reply ( expression ) ;`. */
  function ParseReply(rev: Revision, toks: seq<Token>): (r: Option<Parsed<Stmt>>)
    ensures r.Some? ==> |r.value.rest| < |toks| && r.value.node.Reply?
    ensures r.Some? ==> Lex(toks) == PStmt(r.value.node) + Lex(r.value.rest)
    ensures r.Some? ==> RevisionStmt(rev, r.value.node)
    ensures r.Some? && rev == Backup && r.value.node.replyPort.Some? ==> |toks| >= 2 && !toks[1].glued
  {
    var p := ParsePortPrefix(rev, toks);
    var kw :- Expect(p.rest, Ident("reply"));
    var open :- Expect(kw, Sym("("));
    var v :- ParseReplyValue(rev, open);
    var close :- Expect(v.rest, Sym(")"));
    var semi :- Expect(close, Sym(";"));
    ReplyLex(Lex(toks), Lex(p.rest), Lex(kw), Lex(open), Lex(v.rest), Lex(close), Lex(semi), p.node, v.node);
    Some(Parsed(Reply(p.node, v.node), semi))
  }

  /** `action_or_call` (an action or a call, then `;`), or an interface action `name ;`. */
  function ParseActionOrCall(rev: Revision, toks: seq<Token>): (r: Option<Parsed<Stmt>>)
    ensures r.Some? ==> |r.value.rest| < |toks|
    ensures r.Some? ==> Lex(toks) == PStmt(r.value.node) + Lex(r.value.rest)
    ensures r.Some? ==> r.value.node.ActionStmt? || r.value.node.CallStmt? || r.value.node.InterfaceAction?
  {
    match ParseActionExpr(rev, toks)
    case Some(a) =>
      var semi :- Expect(a.rest, Sym(";"));
      ActionLex(Lex(toks), Lex(a.rest), Lex(semi), a.node);
      Some(Parsed(ActionStmt(a.node.port, a.node.event, a.node.actionArgs), semi))
    case None =>
      match ParseCallExpr(rev, toks)
      case Some(c) =>
        var semi :- Expect(c.rest, Sym(";"));
        CallLex(Lex(toks), Lex(c.rest), Lex(semi), c.node);
        Some(Parsed(CallStmt(c.node.fn, c.node.args), semi))
      case None =>
        var x :- ExpectIdent(toks);
        var semi :- Expect(x.rest, Sym(";"));
        Some(Parsed(InterfaceAction(x.node), semi))
  }

  // Each lemma below assembles the printed form of one statement from the consumption
  // steps its parse function takes, so that the parse functions need not do it inline.

  lemma StmtsLex(x: seq<Lexeme>, a: seq<Lexeme>, d: seq<Lexeme>, s: Stmt, ss: seq<Stmt>)
    requires x == PStmt(s) + a && a == PStmts(ss) + d
    ensures x == PStmts([s] + ss) + d
  {
    StmtsCons(s, ss);
    Chain2(x, a, PStmt(s), PStmts(ss), d);
  }

  lemma AllRevision(rev: Revision, s: Stmt, ss: seq<Stmt>)
    requires RevisionStmt(rev, s) && forall i :: 0 <= i < |ss| ==> RevisionStmt(rev, ss[i])
    ensures forall i :: 0 <= i < |[s] + ss| ==> RevisionStmt(rev, ([s] + ss)[i])
  {
  }

  lemma OnLex(x: seq<Lexeme>, a: seq<Lexeme>, b: seq<Lexeme>, c: seq<Lexeme>, d: seq<Lexeme>, ts: seq<Trigger>, s: Stmt)
    requires x == [Ident("on")] + a && a == PTriggers(ts) + b && b == [Sym(":")] + c && c == PStmt(s) + d
    ensures x == PStmt(On(ts, s)) + d
  {
    Chain4(x, a, b, c, [Ident("on")], PTriggers(ts), [Sym(":")], PStmt(s), d);
  }

  lemma BlockingLex(x: seq<Lexeme>, a: seq<Lexeme>, d: seq<Lexeme>, s: Stmt)
    requires x == [Ident("blocking")] + a && a == PStmt(s) + d
    ensures x == PStmt(Blocking(s)) + d
  {
    Chain2(x, a, [Ident("blocking")], PStmt(s), d);
  }

  lemma GuardLex(x: seq<Lexeme>, a: seq<Lexeme>, b: seq<Lexeme>, c: seq<Lexeme>, d: seq<Lexeme>, g: GuardCond, s: Stmt)
    requires x == [Sym("[")] + a && a == PGuardCond(g) + b && b == [Sym("]")] + c && c == PStmt(s) + d
    ensures x == PStmt(Guard(g, s)) + d
  {
    Chain4(x, a, b, c, [Sym("[")], PGuardCond(g), [Sym("]")], PStmt(s), d);
  }

  lemma CompoundLex(x: seq<Lexeme>, a: seq<Lexeme>, b: seq<Lexeme>, d: seq<Lexeme>, ss: seq<Stmt>)
    requires x == [Sym("{")] + a && a == PStmts(ss) + b && b == [Sym("}")] + d
    ensures x == PStmt(Compound(ss)) + d
  {
    Chain3(x, a, b, [Sym("{")], PStmts(ss), [Sym("}")], d);
  }

  lemma IfLex(x: seq<Lexeme>, a: seq<Lexeme>, b: seq<Lexeme>, c: seq<Lexeme>, e: seq<Lexeme>, f: seq<Lexeme>, d: seq<Lexeme>,
              cond: Expr, t: Stmt, els: Option<Stmt>)
    requires x == [Ident("if")] + a && a == [Sym("(")] + b && b == PExpr(cond) + c && c == [Sym(")")] + e
    requires e == PStmt(t) + f && f == PElse(els) + d
    ensures x == PStmt(If(cond, t, els)) + d
  {
    Chain6(x, a, b, c, e, f, [Ident("if")], [Sym("(")], PExpr(cond), [Sym(")")], PStmt(t), PElse(els), d);
  }

  lemma ReturnLex(x: seq<Lexeme>, a: seq<Lexeme>, b: seq<Lexeme>, d: seq<Lexeme>, e: Option<Expr>)
    requires x == [Ident("return")] + a && a == POptExpr(e) + b && b == [Sym(";")] + d
    ensures x == PStmt(Return(e)) + d
  {
    Chain3(x, a, b, [Ident("return")], POptExpr(e), [Sym(";")], d);
  }

  lemma DeferLex(x: seq<Lexeme>, a: seq<Lexeme>, b: seq<Lexeme>, d: seq<Lexeme>, args: Option<seq<Expr>>, s: Stmt)
    requires x == [Ident("defer")] + a && a == POptArgs(args) + b && b == PStmt(s) + d
    ensures x == PStmt(Defer(args, s)) + d
  {
    Chain3(x, a, b, [Ident("defer")], POptArgs(args), PStmt(s), d);
  }

  lemma VariableLex(x: seq<Lexeme>, a: seq<Lexeme>, b: seq<Lexeme>, c: seq<Lexeme>, d: seq<Lexeme>,
                    t: TypeName, v: string, init: Option<Expr>)
    requires x == PTypeName(t) + a && a == [Ident(v)] + b && b == PInit(init) + c && c == [Sym(";")] + d
    ensures x == PStmt(Variable(t, v, init)) + d
  {
    Chain4(x, a, b, c, PTypeName(t), [Ident(v)], PInit(init), [Sym(";")], d);
  }

  lemma AssignLex(x: seq<Lexeme>, a: seq<Lexeme>, b: seq<Lexeme>, c: seq<Lexeme>, d: seq<Lexeme>, v: string, e: Expr)
    requires x == [Ident(v)] + a && a == [Sym("=")] + b && b == PExpr(e) + c && c == [Sym(";")] + d
    ensures x == PStmt(Assign(v, e)) + d
  {
    Chain4(x, a, b, c, [Ident(v)], [Sym("=")], PExpr(e), [Sym(";")], d);
  }

  lemma ReplyLex(x: seq<Lexeme>, a: seq<Lexeme>, b: seq<Lexeme>, c: seq<Lexeme>, e: seq<Lexeme>, f: seq<Lexeme>, d: seq<Lexeme>,
                 p: Option<string>, v: Option<Expr>)
    requires x == PPortPrefix(p) + a && a == [Ident("reply")] + b && b == [Sym("(")] + c
    requires c == POptExpr(v) + e && e == [Sym(")")] + f && f == [Sym(";")] + d
    ensures x == PStmt(Reply(p, v)) + d
  {
    Chain6(x, a, b, c, e, f, PPortPrefix(p), [Ident("reply")], [Sym("(")], POptExpr(v), [Sym(")")], [Sym(";")], d);
  }

  lemma ActionLex(x: seq<Lexeme>, a: seq<Lexeme>, d: seq<Lexeme>, e: Expr)
    requires e.Action?
    requires x == PExpr(e) + a && a == [Sym(";")] + d
    ensures x == PStmt(ActionStmt(e.port, e.event, e.actionArgs)) + d
  {
    Chain2(x, a, PExpr(e), [Sym(";")], d);
  }

  lemma CallLex(x: seq<Lexeme>, a: seq<Lexeme>, d: seq<Lexeme>, e: Expr)
    requires e.Call?
    requires x == PExpr(e) + a && a == [Sym(";")] + d
    ensures x == PStmt(CallStmt(e.fn, e.args)) + d
  {
    Chain2(x, a, PExpr(e), [Sym(";")], d);
  }
}
