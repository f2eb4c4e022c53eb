/** Properties of interfaces and behaviours: printed events, interface items, interfaces,
    functions, behaviour items and behaviours parse back to themselves. */
module BehaviorFacts {
  import opened Tokens
  import opened Ast
  import opened Names
  import opened Statements
  import opened Declarations
  import opened NameFacts
  import opened ExprFacts
  import opened StmtFacts
  import opened DeclFacts

  // ----- events and interface items -----

  /** The events the printer writes unambiguously: a well-formed type and formals. */
  predicate WfEvent(e: Event) {
    WfTypeName(e.typ) && forall i :: 0 <= i < |e.formals| ==> WfFormal(e.formals[i])
  }

  lemma EventTokens(e: Event, rest: seq<Token>)
    ensures Glue(PEvent(e)) + rest
         == [Token(Ident(if e.dir == InEvent then "in" else "out"), false)]
            + (Glue(PTypeName(e.typ)) + ([Token(Ident(e.name), false)] + (Glue(PFormals(e.formals)) + Semi(rest))))
  {
    var w := Ident(if e.dir == InEvent then "in" else "out");
    var t := PTypeName(e.typ);
    var f := PFormals(e.formals);
    assert PEvent(e) == [w] + t + [Ident(e.name)] + f + [Sym(";")];
    SemiTokens([w] + t + [Ident(e.name)] + f, rest);
    GlueCat([w] + t + [Ident(e.name)], f, Semi(rest));
    GlueThen([w], t, Ident(e.name), Glue(f) + Semi(rest));
    GlueCons(w, []);
  }

  /** A printed event parses back to itself whatever follows. */
  lemma EventRoundTrip(rev: Revision, e: Event, rest: seq<Token>)
    requires WfEvent(e)
    ensures ParseEvent(rev, Glue(PEvent(e)) + rest) == Some(Parsed(e, rest))
  {
    var w := if e.dir == InEvent then "in" else "out";
    var fs := Glue(PFormals(e.formals)) + Semi(rest);
    var after := [Token(Ident(e.name), false)] + fs;
    var toks := [Token(Ident(w), false)] + (Glue(PTypeName(e.typ)) + after);
    EventTokens(e, rest);
    TypeNameRoundTrip(rev, e.typ, after);
    FormalsRoundTrip(rev, e.formals, Semi(rest));
    assert toks[1..] == Glue(PTypeName(e.typ)) + after;
    EventStep(rev, toks, e, fs, rest);
  }

  /** One unfolding of `ParseEvent` over the parts it reads. */
  lemma EventStep(rev: Revision, toks: seq<Token>, e: Event, fs: seq<Token>, rest: seq<Token>)
    requires |toks| > 0 && toks[0].lex == Ident(if e.dir == InEvent then "in" else "out")
    requires ParseTypeName(rev, toks[1..]) == Some(Parsed(e.typ, [Token(Ident(e.name), false)] + fs))
    requires ParseFormals(rev, fs) == Some(Parsed(e.formals, Semi(rest)))
    ensures ParseEvent(rev, toks) == Some(Parsed(e, rest))
  {
    assert ExpectIdent([Token(Ident(e.name), false)] + fs) == Some(Parsed(e.name, fs));
    assert Semi(rest)[1..] == rest;
  }

  /** The interface items the printer writes unambiguously. */
  predicate WfInterfaceItem(x: InterfaceItem) {
    match x
    case TypeItem(t) => WfTypeDecl(t)
    case EventItem(e) => WfEvent(e)
  }

  /** A printed type definition or event parses back to itself as an interface item. */
  lemma InterfaceItemRoundTrip(rev: Revision, x: InterfaceItem, rest: seq<Token>)
    requires WfInterfaceItem(x)
    ensures ParseInterfaceItem(rev, Glue(PInterfaceItem(x)) + rest) == Some(Parsed(x, rest))
  {
    if x.TypeItem? {
      TypeDeclRoundTrip(x.decl, rest);
    } else {
      EventItemRoundTrip(rev, x.event, rest);
    }
  }

  /** An event is no type definition: it starts with `in` or `out`. */
  lemma EventItemRoundTrip(rev: Revision, e: Event, rest: seq<Token>)
    requires WfEvent(e)
    ensures ParseInterfaceItem(rev, Glue(PEvent(e)) + rest) == Some(Parsed(EventItem(e), rest))
  {
    EventTokens(e, rest);
    EventRoundTrip(rev, e, rest);
    EventItemStep(rev, Glue(PEvent(e)) + rest, e, rest);
  }

  lemma EventItemStep(rev: Revision, toks: seq<Token>, e: Event, rest: seq<Token>)
    requires |toks| > 0 && (toks[0].lex == Ident("in") || toks[0].lex == Ident("out"))
    requires ParseEvent(rev, toks) == Some(Parsed(e, rest))
    ensures ParseInterfaceItem(rev, toks) == Some(Parsed(EventItem(e), rest))
  {
    TypeDeclKeyword(toks);
  }

  /** A type definition starts with its keyword. */
  lemma TypeDeclKeyword(toks: seq<Token>)
    ensures ParseTypeDecl(toks).Some? ==>
      At(toks, Ident("enum")) || At(toks, Ident("subint")) || At(toks, Ident("extern"))
  {
  }

  /** What starts neither a type definition nor an event ends the interface items. */
  lemma NoInterfaceItemAt(rev: Revision, toks: seq<Token>)
    requires |toks| > 0
    requires toks[0].lex != Ident("enum") && toks[0].lex != Ident("subint") && toks[0].lex != Ident("extern")
    requires toks[0].lex != Ident("in") && toks[0].lex != Ident("out")
    ensures ParseInterfaceItem(rev, toks).None?
  {
  }

  lemma InterfaceItemsTokens(xs: seq<InterfaceItem>, rest: seq<Token>)
    requires xs != []
    ensures Glue(PInterfaceItems(xs)) + rest == Glue(PInterfaceItem(xs[0])) + (Glue(PInterfaceItems(xs[1..])) + rest)
  {
    assert PInterfaceItems(xs) == PInterfaceItem(xs[0]) + PInterfaceItems(xs[1..]);
    GlueCat(PInterfaceItem(xs[0]), PInterfaceItems(xs[1..]), rest);
  }

  lemma InterfaceItemsStep(rev: Revision, toks: seq<Token>, x: InterfaceItem, tail: seq<Token>,
                           xs: seq<InterfaceItem>, rest: seq<Token>)
    requires ParseInterfaceItem(rev, toks) == Some(Parsed(x, tail)) && ParseInterfaceItems(rev, tail) == Parsed(xs, rest)
    ensures ParseInterfaceItems(rev, toks) == Parsed([x] + xs, rest)
  {
  }

  /** Printed interface items parse back to every one of them, up to whatever follows that
      is no item. */
  lemma {:induction false} InterfaceItemsRoundTrip(rev: Revision, xs: seq<InterfaceItem>, rest: seq<Token>)
    requires (forall i :: 0 <= i < |xs| ==> WfInterfaceItem(xs[i])) && ParseInterfaceItem(rev, rest).None?
    ensures ParseInterfaceItems(rev, Glue(PInterfaceItems(xs)) + rest) == Parsed(xs, rest)
    decreases |xs|
  {
    if xs == [] {
      assert Glue(PInterfaceItems(xs)) + rest == rest;
    } else {
      InterfaceItemsRoundTrip(rev, xs[1..], rest);
      InterfaceItemsCons(rev, xs, rest);
    }
  }

  /** The first printed interface item, then the others. */
  lemma InterfaceItemsCons(rev: Revision, xs: seq<InterfaceItem>, rest: seq<Token>)
    requires xs != [] && WfInterfaceItem(xs[0])
    requires ParseInterfaceItems(rev, Glue(PInterfaceItems(xs[1..])) + rest) == Parsed(xs[1..], rest)
    ensures ParseInterfaceItems(rev, Glue(PInterfaceItems(xs)) + rest) == Parsed(xs, rest)
  {
    InterfaceItemFirst(rev, xs, rest);
    InterfaceItemsStep(rev, Glue(PInterfaceItems(xs)) + rest, xs[0], Glue(PInterfaceItems(xs[1..])) + rest, xs[1..], rest);
    assert [xs[0]] + xs[1..] == xs;
  }

  lemma InterfaceItemFirst(rev: Revision, xs: seq<InterfaceItem>, rest: seq<Token>)
    requires xs != [] && WfInterfaceItem(xs[0])
    ensures ParseInterfaceItem(rev, Glue(PInterfaceItems(xs)) + rest)
         == Some(Parsed(xs[0], Glue(PInterfaceItems(xs[1..])) + rest))
  {
    InterfaceItemsTokens(xs, rest);
    InterfaceItemRoundTrip(rev, xs[0], Glue(PInterfaceItems(xs[1..])) + rest);
  }

  // ----- functions -----

  /** A function's return type: well formed, and a local name does not start with a
      keyword. */
  predicate WfReturnType(t: TypeName) {
    WfTypeName(t) && (t.Named? && !t.name.global ==> t.name.parts[0] !in Keywords)
  }

  lemma FunctionHeadTokens(tn: seq<Lexeme>, n: string, f: seq<Lexeme>, rest: seq<Token>)
    ensures Glue(tn + [Ident(n)] + f + [Sym("{")]) + rest
         == Glue(tn) + ([Token(Ident(n), false)] + (Glue(f) + ([Token(Sym("{"), false)] + rest)))
  {
    var x := [Token(Sym("{"), false)] + rest;
    CloseBrace(tn + [Ident(n)] + f, rest);
    GlueCat(tn + [Ident(n)], f, x);
    GlueCat(tn, [Ident(n)], Glue(f) + x);
    GlueCons(Ident(n), []);
  }

  lemma CloseBrace(ls: seq<Lexeme>, rest: seq<Token>)
    ensures Glue(ls + [Sym("{")]) + rest == Glue(ls) + ([Token(Sym("{"), false)] + rest)
  {
    GlueCat(ls, [Sym("{")], rest);
    GlueCons(Sym("{"), []);
  }



  lemma FunctionTokens(t: TypeName, n: string, fs: seq<Formal>, body: seq<Stmt>, rest: seq<Token>)
    ensures Glue(PBehaviorItem(Function(t, n, fs, body))) + rest
         == Glue(PTypeName(t)) + ([Token(Ident(n), false)] + (Glue(PFormals(fs))
            + ([Token(Sym("{"), false)] + (Glue(PStmts(body)) + Close(rest)))))
  {
    var head := PTypeName(t) + [Ident(n)] + PFormals(fs) + [Sym("{")];
    var s := PStmts(body);
    assert PBehaviorItem(Function(t, n, fs, body)) == head + s + [Sym("}")];
    CloseTokens(head + s, rest);
    GlueCat(head, s, Close(rest));
    FunctionHeadTokens(PTypeName(t), n, PFormals(fs), Glue(s) + Close(rest));
  }

  /** A printed function parses back to itself whatever follows. */
  lemma FunctionRoundTrip(rev: Revision, t: TypeName, n: string, fs: seq<Formal>, body: seq<Stmt>, rest: seq<Token>)
    requires WfReturnType(t) && forall i :: 0 <= i < |fs| ==> WfFormal(fs[i])
    requires forall i :: 0 <= i < |body| ==> WfStmt(rev, body[i])
    ensures ParseFunction(rev, Glue(PBehaviorItem(Function(t, n, fs, body))) + rest) == Some(Parsed(Function(t, n, fs, body), rest))
  {
    var stmts := Glue(PStmts(body)) + Close(rest);
    var open := [Token(Sym("{"), false)] + stmts;
    var formals := Glue(PFormals(fs)) + open;
    var after := [Token(Ident(n), false)] + formals;
    FunctionTokens(t, n, fs, body, rest);
    TypeNameRoundTrip(rev, t, after);
    assert ExpectIdent(after) == Some(Parsed(n, formals));
    FormalsRoundTrip(rev, fs, open);
    assert Expect(open, Sym("{")) == Some(stmts);
    ListRoundTrip(rev, body, rest);
    assert Expect(Close(rest), Sym("}")) == Some(rest);
  }

  // ----- behaviour items -----

  /** The behaviour items the printer writes unambiguously under `rev`: a function with a
      keyword-free return type and well-formed parts, a variable, in the current revision a
      declarative statement or a compound, and in the current revision a type definition. */
  predicate WfBehaviorItem(rev: Revision, b: BehaviorItem) {
    match b
    case Function(t, _, fs, body) =>
      && WfReturnType(t)
      && (forall i :: 0 <= i < |fs| ==> WfFormal(fs[i]))
      && (forall i :: 0 <= i < |body| ==> WfStmt(rev, body[i]))
    case Member(s) => WfStmt(rev, s) && (s.Variable? || (rev == Current && (!IsImperative(s) || s.Compound?)))
    case LocalType(t) => rev == Current && WfTypeDecl(t)
  }

  /** A word, another word and then neither `(`, `=` nor `;`: no function and no variable. */
  lemma NotFunctionOrVariable(rev: Revision, toks: seq<Token>)
    requires |toks| >= 3 && toks[0].lex.Ident? && toks[1].lex.Ident?
    requires toks[2].lex != Sym("(") && toks[2].lex != Sym("=") && toks[2].lex != Sym(";")
    ensures ParseFunction(rev, toks).None? && ParseVariable(rev, toks).None?
  {
    assert !ContinuesName(rev, toks[1..]);
    assert toks == [toks[0]] + toks[1..];
    NamePartsOne(rev, toks[0], toks[1..]);
    assert ParseTypeName(rev, toks).value.rest == toks[1..];
    assert toks[1..][1..] == toks[2..];
    assert ParseFormals(rev, toks[2..]).None?;
    assert ParseInitializer(rev, toks[2..]) == Some(Parsed(None, toks[2..]));
  }

  /** A punctuation mark other than `.` starts no type, so no function and no variable. */
  lemma NotTypeAtSym(rev: Revision, toks: seq<Token>)
    requires |toks| > 0 && toks[0].lex.Sym? && toks[0].lex != Sym(".")
    ensures ParseFunction(rev, toks).None? && ParseVariable(rev, toks).None?
  {
    assert ParseTypeName(rev, toks).None?;
  }

  /** A printed variable is no function: `=` or `;` follows its name. */
  lemma VariableNotFunction(rev: Revision, t: TypeName, x: string, init: Option<Expr>, rest: seq<Token>)
    requires WfStmt(rev, Variable(t, x, init))
    ensures ParseFunction(rev, Glue(PStmt(Variable(t, x, init))) + rest).None?
  {
    var body := Glue(PInit(init)) + Semi(rest);
    var after := [Token(Ident(x), false)] + body;
    VariableTokens(t, x, init, rest);
    TypeNameRoundTrip(rev, t, after);
    InitHead(init, rest);
    NoFunctionStep(rev, Glue(PTypeName(t)) + after, t, x, body);
  }

  /** A type and a name followed by no formals start no function. */
  lemma NoFunctionStep(rev: Revision, toks: seq<Token>, t: TypeName, x: string, body: seq<Token>)
    requires ParseTypeName(rev, toks) == Some(Parsed(t, [Token(Ident(x), false)] + body))
    requires |body| > 0 && (body[0].lex == Sym("=") || body[0].lex == Sym(";"))
    ensures ParseFunction(rev, toks).None?
  {
    assert ExpectIdent([Token(Ident(x), false)] + body) == Some(Parsed(x, body));
    assert ParseFormals(rev, body).None?;
  }

  /** A printed initializer starts with `=`; without one the `;` comes next. */
  lemma InitHead(init: Option<Expr>, rest: seq<Token>)
    ensures |Glue(PInit(init)) + Semi(rest)| > 0
    ensures (Glue(PInit(init)) + Semi(rest))[0].lex == (if init.Some? then Sym("=") else Sym(";"))
  {
    if init.Some? {
      GlueCat([Sym("=")], PExpr(init.value), Semi(rest));
      GlueCons(Sym("="), []);
    } else {
      assert Glue(PInit(init)) + Semi(rest) == Semi(rest);
    }
  }

  /** The first token of a printed behaviour item is never `else`, nor `on` or `blocking`
      unless the item is that declarative statement. */
  lemma BehaviorItemFirst(rev: Revision, b: BehaviorItem, rest: seq<Token>)
    requires WfBehaviorItem(rev, b)
    ensures |Glue(PBehaviorItem(b)) + rest| > 0
    ensures (Glue(PBehaviorItem(b)) + rest)[0].lex != Ident("else")
    ensures (Glue(PBehaviorItem(b)) + rest)[0].lex == Ident("on") ==> b.Member? && b.stmt.On?
    ensures (Glue(PBehaviorItem(b)) + rest)[0].lex == Ident("blocking") ==> b.Member? && b.stmt.Blocking?
  {
    match b
    case Function(t, n, fs, body) =>
      FunctionTokens(t, n, fs, body, rest);
      TypeNameHead(t, [Token(Ident(n), false)] + (Glue(PFormals(fs)) + ([Token(Sym("{"), false)] + (Glue(PStmts(body)) + Close(rest)))));
    case Member(s) =>
      FirstToken(rev, s, rest);
      if s.Variable? {
        TypeFirst(s.varType);
      }
    case LocalType(t) =>
      TypeDeclHead(t, rest);
  }

  /** A printed behaviour item parses back to itself; a statement item needs what follows
      to leave its last `if` without an `else`. */
  lemma BehaviorItemRoundTrip(rev: Revision, b: BehaviorItem, rest: seq<Token>)
    requires WfBehaviorItem(rev, b) && (b.Member? ==> EndsStmt(b.stmt, rest))
    ensures ParseBehaviorItem(rev, Glue(PBehaviorItem(b)) + rest) == Some(Parsed(b, rest))
  {
    match b
    case Function(t, n, fs, body) =>
      FunctionItemRoundTrip(rev, t, n, fs, body, rest);
    case Member(s) =>
      if s.Variable? {
        VariableMember(rev, s.varType, s.varName, s.init, rest);
      } else {
        DeclarativeMember(s, rest);
      }
    case LocalType(t) =>
      LocalTypeMember(t, rest);
  }

  /** A printed function is read as a behaviour item: its return type does not start with
      `on` or `blocking`. */
  lemma FunctionItemRoundTrip(rev: Revision, t: TypeName, n: string, fs: seq<Formal>, body: seq<Stmt>, rest: seq<Token>)
    requires WfBehaviorItem(rev, Function(t, n, fs, body))
    ensures ParseBehaviorItem(rev, Glue(PBehaviorItem(Function(t, n, fs, body))) + rest)
         == Some(Parsed(Function(t, n, fs, body), rest))
  {
    BehaviorItemFirst(rev, Function(t, n, fs, body), rest);
    FunctionRoundTrip(rev, t, n, fs, body, rest);
  }

  /** A printed variable is read as a behaviour item: no function, and not `on` or
      `blocking`. */
  lemma VariableMember(rev: Revision, t: TypeName, x: string, init: Option<Expr>, rest: seq<Token>)
    requires WfStmt(rev, Variable(t, x, init))
    ensures ParseBehaviorItem(rev, Glue(PStmt(Variable(t, x, init))) + rest) == Some(Parsed(Member(Variable(t, x, init)), rest))
  {
    BehaviorItemFirst(rev, Member(Variable(t, x, init)), rest);
    VariableNotFunction(rev, t, x, init, rest);
    VariableRoundTrip(rev, t, x, init, rest);
  }

  /** A printed type definition is read as a behaviour item of the current revision: it is
      neither a function, a variable nor a declarative statement. */
  lemma LocalTypeMember(t: TypeDecl, rest: seq<Token>)
    requires WfTypeDecl(t)
    ensures ParseBehaviorItem(Current, Glue(PTypeDecl(t)) + rest) == Some(Parsed(LocalType(t), rest))
  {
    var toks := Glue(PTypeDecl(t)) + rest;
    TypeDeclHead(t, rest);
    NotFunctionOrVariable(Current, toks);
    TypeDeclRoundTrip(t, rest);
    LocalTypeStep(toks, Parsed(t, rest));
  }

  /** Where no function, variable or declarative statement starts, the current revision
      reads a type definition. */
  lemma LocalTypeStep(toks: seq<Token>, t: Parsed<TypeDecl>)
    requires |toks| > 0 && toks[0].lex != Ident("on") && toks[0].lex != Ident("blocking")
    requires toks[0].lex != Sym("[") && toks[0].lex != Sym("{")
    requires ParseFunction(Current, toks).None? && ParseVariable(Current, toks).None?
    requires ParseTypeDecl(toks) == Some(t)
    ensures ParseBehaviorItem(Current, toks) == Some(Parsed(LocalType(t.node), t.rest))
  {
    assert ParseDeclarative(Current, toks).None?;
  }

  /** A printed declarative statement or compound is read as a behaviour item of the
      current revision. */
  lemma DeclarativeMember(s: Stmt, rest: seq<Token>)
    requires WfStmt(Current, s) && (!IsImperative(s) || s.Compound?) && EndsStmt(s, rest)
    ensures ParseBehaviorItem(Current, Glue(PStmt(s)) + rest) == Some(Parsed(Member(s), rest))
  {
    var toks := Glue(PStmt(s)) + rest;
    FirstToken(Current, s, rest);
    DeclarativeRoundTrip(s, rest);
    if s.Guard? || s.Compound? {
      NotTypeAtSym(Current, toks);
    }
  }

  /** Nothing at `}` is a behaviour item. */
  lemma NoBehaviorItemAtClose(rev: Revision, rest: seq<Token>)
    ensures ParseBehaviorItem(rev, Close(rest)).None?
  {
    NoBehaviorItemAtSym(rev, Close(rest));
  }

  lemma NoBehaviorItemAtSym(rev: Revision, toks: seq<Token>)
    requires |toks| > 0 && toks[0].lex == Sym("}")
    ensures ParseBehaviorItem(rev, toks).None?
  {
    NotTypeAtSym(rev, toks);
    TypeDeclKeyword(toks);
    assert ParseDeclarative(rev, toks).None?;
  }

  lemma BehaviorItemsTokens(bs: seq<BehaviorItem>, rest: seq<Token>)
    requires bs != []
    ensures Glue(PBehaviorItems(bs)) + rest == Glue(PBehaviorItem(bs[0])) + (Glue(PBehaviorItems(bs[1..])) + rest)
  {
    assert PBehaviorItems(bs) == PBehaviorItem(bs[0]) + PBehaviorItems(bs[1..]);
    GlueCat(PBehaviorItem(bs[0]), PBehaviorItems(bs[1..]), rest);
  }

  lemma BehaviorItemsStep(rev: Revision, toks: seq<Token>, b: BehaviorItem, tail: seq<Token>,
                          bs: seq<BehaviorItem>, rest: seq<Token>)
    requires ParseBehaviorItem(rev, toks) == Some(Parsed(b, tail)) && ParseBehaviorItems(rev, tail) == Parsed(bs, rest)
    ensures ParseBehaviorItems(rev, toks) == Parsed([b] + bs, rest)
  {
  }

  /** Printed behaviour items and the closing `}` never start with `else`. */
  lemma NoElseAfterItem(rev: Revision, bs: seq<BehaviorItem>, rest: seq<Token>)
    requires forall i :: 0 <= i < |bs| ==> WfBehaviorItem(rev, bs[i])
    ensures !At(Glue(PBehaviorItems(bs)) + Close(rest), Ident("else"))
  {
    if bs != [] {
      BehaviorItemsTokens(bs, Close(rest));
      BehaviorItemFirst(rev, bs[0], Glue(PBehaviorItems(bs[1..])) + Close(rest));
    } else {
      assert Glue(PBehaviorItems(bs)) + Close(rest) == Close(rest);
    }
  }

  /** Printed behaviour items parse back to every one of them before the closing `}`. */
  lemma {:induction false} BehaviorItemsRoundTrip(rev: Revision, bs: seq<BehaviorItem>, rest: seq<Token>)
    requires forall i :: 0 <= i < |bs| ==> WfBehaviorItem(rev, bs[i])
    ensures ParseBehaviorItems(rev, Glue(PBehaviorItems(bs)) + Close(rest)) == Parsed(bs, Close(rest))
    decreases |bs|
  {
    if bs == [] {
      NoBehaviorItemAtClose(rev, rest);
      assert Glue(PBehaviorItems(bs)) + Close(rest) == Close(rest);
    } else {
      NoElseAfterItem(rev, bs[1..], rest);
      BehaviorItemsRoundTrip(rev, bs[1..], rest);
      BehaviorItemsCons(rev, bs, rest);
    }
  }

  /** The first printed behaviour item, then the others. */
  lemma BehaviorItemsCons(rev: Revision, bs: seq<BehaviorItem>, rest: seq<Token>)
    requires bs != [] && WfBehaviorItem(rev, bs[0])
    requires !At(Glue(PBehaviorItems(bs[1..])) + Close(rest), Ident("else"))
    requires ParseBehaviorItems(rev, Glue(PBehaviorItems(bs[1..])) + Close(rest)) == Parsed(bs[1..], Close(rest))
    ensures ParseBehaviorItems(rev, Glue(PBehaviorItems(bs)) + Close(rest)) == Parsed(bs, Close(rest))
  {
    BehaviorItemsHead(rev, bs, rest);
    BehaviorItemsStep(rev, Glue(PBehaviorItems(bs)) + Close(rest), bs[0], Glue(PBehaviorItems(bs[1..])) + Close(rest),
                      bs[1..], Close(rest));
    assert [bs[0]] + bs[1..] == bs;
  }

  lemma BehaviorItemsHead(rev: Revision, bs: seq<BehaviorItem>, rest: seq<Token>)
    requires bs != [] && WfBehaviorItem(rev, bs[0])
    requires !At(Glue(PBehaviorItems(bs[1..])) + Close(rest), Ident("else"))
    ensures ParseBehaviorItem(rev, Glue(PBehaviorItems(bs)) + Close(rest))
         == Some(Parsed(bs[0], Glue(PBehaviorItems(bs[1..])) + Close(rest)))
  {
    BehaviorItemsTokens(bs, Close(rest));
    BehaviorItemRoundTrip(rev, bs[0], Glue(PBehaviorItems(bs[1..])) + Close(rest));
  }

  // ----- behaviours -----

  /** The behaviours the printer writes unambiguously under `rev`. */
  predicate WfBehavior(rev: Revision, b: Behavior) {
    forall i :: 0 <= i < |b.items| ==> WfBehaviorItem(rev, b.items[i])
  }

  lemma BehaviorTokens(b: Behavior, rest: seq<Token>)
    ensures Glue(PBehavior(b)) + rest
         == [Token(Ident(if b.british then "behaviour" else "behavior"), false)]
            + (Glue(POptIdent(b.name)) + ([Token(Sym("{"), false)] + (Glue(PBehaviorItems(b.items)) + Close(rest))))
  {
    var kw := Ident(if b.british then "behaviour" else "behavior");
    var o := POptIdent(b.name);
    var items := PBehaviorItems(b.items);
    assert PBehavior(b) == [kw] + o + [Sym("{")] + items + [Sym("}")];
    BlockTokens(kw, o, items, rest);
  }

  /** A printed optional name is read back before the `{` that follows it. */
  lemma OptIdentRoundTrip(x: Option<string>, open: seq<Token>)
    requires At(open, Sym("{"))
    ensures ParseOptIdent(Glue(POptIdent(x)) + open) == Parsed(x, open)
  {
    if x.Some? {
      GlueCons(Ident(x.value), []);
      assert ([Token(Ident(x.value), false)] + open)[1..] == open;
    } else {
      assert Glue(POptIdent(x)) + open == open;
    }
  }

  /** A printed behaviour, with either spelling and with or without a name, parses back to
      itself whatever follows. */
  lemma BehaviorRoundTrip(rev: Revision, b: Behavior, rest: seq<Token>)
    requires WfBehavior(rev, b)
    ensures ParseBehavior(rev, Glue(PBehavior(b)) + rest) == Some(Parsed(b, rest))
  {
    var kw := if b.british then "behaviour" else "behavior";
    var items := Glue(PBehaviorItems(b.items)) + Close(rest);
    var open := [Token(Sym("{"), false)] + items;
    var named := Glue(POptIdent(b.name)) + open;
    var toks := [Token(Ident(kw), false)] + named;
    BehaviorTokens(b, rest);
    assert toks[1..] == named;
    OptIdentRoundTrip(b.name, open);
    BehaviorItemsRoundTrip(rev, b.items, rest);
    BehaviorStep(rev, toks, b, items, rest);
  }

  /** One unfolding of `ParseBehavior` over the parts it reads. */
  lemma BehaviorStep(rev: Revision, toks: seq<Token>, b: Behavior, items: seq<Token>, rest: seq<Token>)
    requires |toks| > 0 && toks[0].lex == Ident(if b.british then "behaviour" else "behavior")
    requires ParseOptIdent(toks[1..]) == Parsed(b.name, [Token(Sym("{"), false)] + items)
    requires ParseBehaviorItems(rev, items) == Parsed(b.items, Close(rest))
    ensures ParseBehavior(rev, toks) == Some(Parsed(b, rest))
  {
    assert Expect([Token(Sym("{"), false)] + items, Sym("{")) == Some(items);
    assert Expect(Close(rest), Sym("}")) == Some(rest);
  }

  // ----- interfaces -----

  /** The interfaces the printer writes unambiguously under `rev`. */
  predicate WfInterface(rev: Revision, i: Interface) {
    && (forall k :: 0 <= k < |i.items| ==> WfInterfaceItem(i.items[k]))
    && (i.behavior.Some? ==> WfBehavior(rev, i.behavior.value))
  }

  lemma InterfaceLexemes(i: Interface)
    ensures PInterface(i)
         == [Ident("interface"), Ident(i.name), Sym("{")] + (PInterfaceItems(i.items) + (POptBehavior(i.behavior) + [Sym("}")]))
  {
    var h := [Ident("interface"), Ident(i.name), Sym("{")];
    var a := PInterfaceItems(i.items);
    var b := POptBehavior(i.behavior);
    assert [Ident("interface")] + [Ident(i.name)] + [Sym("{")] == h;
    assert PInterface(i) == h + a + b + [Sym("}")];
    Chain3(h + (a + (b + [Sym("}")])), a + (b + [Sym("}")]), b + [Sym("}")], h, a, b, [Sym("}")]);
  }

  lemma InterfaceTokens(i: Interface, rest: seq<Token>)
    ensures Glue(PInterface(i)) + rest
         == [Token(Ident("interface"), false), Token(Ident(i.name), false), Token(Sym("{"), false)]
            + (Glue(PInterfaceItems(i.items)) + (Glue(POptBehavior(i.behavior)) + Close(rest)))
  {
    var head := [Ident("interface"), Ident(i.name), Sym("{")];
    InterfaceLexemes(i);
    GlueCat(head, PInterfaceItems(i.items) + (POptBehavior(i.behavior) + [Sym("}")]), rest);
    GlueCat(PInterfaceItems(i.items), POptBehavior(i.behavior) + [Sym("}")], rest);
    CloseTokens(POptBehavior(i.behavior), rest);
    SpacedTokens3(Ident("interface"), Ident(i.name), Sym("{"));
  }

  /** The printed optional behaviour of an interface is read back before its `}`, and
      starts no interface item. */
  lemma OptBehaviorRoundTrip(rev: Revision, b: Option<Behavior>, rest: seq<Token>)
    requires b.Some? ==> WfBehavior(rev, b.value)
    ensures ParseOptBehavior(rev, Glue(POptBehavior(b)) + Close(rest)) == Parsed(b, Close(rest))
    ensures ParseInterfaceItem(rev, Glue(POptBehavior(b)) + Close(rest)).None?
  {
    var toks := Glue(POptBehavior(b)) + Close(rest);
    if b.Some? {
      BehaviorTokens(b.value, Close(rest));
      BehaviorRoundTrip(rev, b.value, Close(rest));
    } else {
      assert toks == Close(rest);
    }
    NoInterfaceItemAt(rev, toks);
  }

  /** One unfolding of `ParseInterface` after `interface n {`. */
  lemma InterfaceStep(rev: Revision, n: string, body: seq<Token>)
    ensures ParseInterface(rev, [Token(Ident("interface"), false), Token(Ident(n), false), Token(Sym("{"), false)] + body)
         == var items := ParseInterfaceItems(rev, body);
            var b := ParseOptBehavior(rev, items.rest);
            if At(b.rest, Sym("}")) then Some(Parsed(Interface(n, items.node, b.node), b.rest[1..])) else None
  {
    var toks := [Token(Ident("interface"), false), Token(Ident(n), false), Token(Sym("{"), false)] + body;
    assert Expect(toks, Ident("interface")) == Some(toks[1..]);
    assert ExpectIdent(toks[1..]) == Some(Parsed(n, toks[1..][1..]));
    assert toks[1..][1..][1..] == body;
    assert Expect(toks[1..][1..], Sym("{")) == Some(body);
  }

  /** A printed interface, with or without a behaviour, parses back to itself whatever
      follows. */
  lemma InterfaceRoundTrip(rev: Revision, i: Interface, rest: seq<Token>)
    requires WfInterface(rev, i)
    ensures ParseInterface(rev, Glue(PInterface(i)) + rest) == Some(Parsed(i, rest))
  {
    var beh := Glue(POptBehavior(i.behavior)) + Close(rest);
    InterfaceTokens(i, rest);
    OptBehaviorRoundTrip(rev, i.behavior, rest);
    InterfaceItemsRoundTrip(rev, i.items, beh);
    InterfaceStep(rev, i.name, Glue(PInterfaceItems(i.items)) + beh);
    assert Close(rest)[1..] == rest;
  }
}
