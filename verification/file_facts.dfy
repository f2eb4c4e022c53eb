/** Properties of whole source files: printed components, imports, raw blocks, namespaces and
    root items parse back to themselves, and so does a printed file. */
module FileFacts {
  import opened Tokens
  import opened Ast
  import opened Names
  import opened Declarations
  import opened Lexer
  import opened Parser
  import opened LexerFacts
  import opened NameFacts
  import opened ExprFacts
  import opened StmtFacts
  import opened DeclFacts
  import opened BehaviorFacts

  // ----- component bodies -----

  /** The component bodies the printer writes unambiguously under `rev`. */
  predicate WfBody(rev: Revision, b: Body) {
    match b
    case BehaviorBody(beh) => WfBehavior(rev, beh)
    case SystemBody(xs) => forall i :: 0 <= i < |xs| ==> WfSystemItem(xs[i])
  }

  /** A printed behaviour starts no port. */
  lemma NoPortAtBehavior(rev: Revision, b: Behavior, rest: seq<Token>)
    ensures ParsePort(rev, Glue(PBehavior(b)) + rest).None?
  {
    BehaviorTokens(b, rest);
  }

  /** A printed body, behaviour or system, starts no port. */
  lemma NoPortAtBody(rev: Revision, b: Body, rest: seq<Token>)
    ensures ParsePort(rev, Glue(PBody(b)) + rest).None?
  {
    if b.SystemBody? {
      NoPortAtSystem(rev, b.system, rest);
    } else {
      NoPortAtBehavior(rev, b.behavior, rest);
    }
  }

  /** A printed behaviour is read as a component body: it does not start with `system`. */
  lemma BehaviorBodyRoundTrip(rev: Revision, b: Behavior, rest: seq<Token>)
    requires WfBehavior(rev, b)
    ensures ParseBody(rev, Glue(PBody(BehaviorBody(b))) + rest) == Some(Parsed(BehaviorBody(b), rest))
  {
    BehaviorTokens(b, rest);
    BehaviorRoundTrip(rev, b, rest);
  }

  /** A printed component body parses back to itself whatever follows. */
  lemma BodyRoundTrip(rev: Revision, b: Body, rest: seq<Token>)
    requires WfBody(rev, b)
    ensures ParseBody(rev, Glue(PBody(b)) + rest) == Some(Parsed(b, rest))
  {
    if b.SystemBody? {
      SystemBodyRoundTrip(rev, b.system, rest);
    } else {
      BehaviorBodyRoundTrip(rev, b.behavior, rest);
    }
  }

  // ----- components -----

  /** The components the printer writes unambiguously under `rev`: well-formed ports and a
      well-formed body. */
  predicate WfComponent(rev: Revision, c: Component) {
    (forall i :: 0 <= i < |c.ports| ==> WfPort(c.ports[i])) && WfBody(rev, c.body)
  }

  /** A printed component, with a behaviour or a system, parses back to itself whatever
      follows. */
  lemma ComponentRoundTrip(rev: Revision, c: Component, rest: seq<Token>)
    requires WfComponent(rev, c)
    ensures ParseComponent(rev, Glue(PComponent(c)) + rest) == Some(Parsed(c, rest))
  {
    var close := [Token(Sym("}"), false)] + rest;
    var body := Glue(PBody(c.body)) + close;
    ComponentTokens(c, rest);
    NoPortAtBody(rev, c.body, close);
    PortsRoundTrip(rev, c.ports, body);
    BodyRoundTrip(rev, c.body, close);
    ComponentStep(rev, c.name, Glue(PPorts(c.ports)) + body);
    assert close[1..] == rest;
  }

  /** Components are root and namespace items of the current revision: a printed component
      parses back there. */
  lemma ComponentDeclRoundTrip(nested: bool, c: Component, rest: seq<Token>)
    requires WfComponent(Current, c)
    ensures ParseDecl(Current, nested, Glue(PDecl(ComponentDef(c))) + rest) == Some(Parsed(ComponentDef(c), rest))
  {
    var toks := Glue(PDecl(ComponentDef(c))) + rest;
    ComponentHead(c, rest);
    assert PDecl(ComponentDef(c)) == PComponent(c);
    ComponentRoundTrip(Current, c, rest);
    CurrentDeclAtComponent(nested, toks, c, rest);
  }

  // ----- imports, raw blocks, type definitions and interfaces as items -----

  lemma ImportTokens(f: string, rest: seq<Token>)
    ensures Glue(PDecl(Import(f))) + rest
         == [Token(Ident("import"), false), Token(FileName(f), false), Token(Sym(";"), false)] + rest
  {
    assert PDecl(Import(f)) == [Ident("import"), FileName(f), Sym(";")];
    SpacedTokens3(Ident("import"), FileName(f), Sym(";"));
  }

  /** A printed import is a root item that parses back to itself. */
  lemma ImportRoundTrip(rev: Revision, f: string, rest: seq<Token>)
    ensures ParseDecl(rev, false, Glue(PDecl(Import(f))) + rest) == Some(Parsed(Import(f), rest))
  {
    var toks := [Token(Ident("import"), false), Token(FileName(f), false), Token(Sym(";"), false)] + rest;
    ImportTokens(f, rest);
    assert toks[1..][0].lex == FileName(f);
    assert toks[1..][1..] == [Token(Sym(";"), false)] + rest;
    assert ParseImport(toks) == Some(Parsed(Import(f), rest));
  }

  /** A printed raw block is a root item that parses back to itself. */
  lemma RawBlockRoundTrip(rev: Revision, t: string, rest: seq<Token>)
    ensures ParseDecl(rev, false, Glue(PDecl(RawBlock(t))) + rest) == Some(Parsed(RawBlock(t), rest))
  {
    GlueCons(Raw(t), []);
    assert ([Token(Raw(t), false)] + rest)[1..] == rest;
  }

  /** A printed type definition is a root or namespace item that parses back to itself. */
  lemma TypeDefRoundTrip(rev: Revision, nested: bool, t: TypeDecl, rest: seq<Token>)
    requires WfTypeDecl(t)
    ensures ParseDecl(rev, nested, Glue(PDecl(TypeDef(t))) + rest) == Some(Parsed(TypeDef(t), rest))
  {
    var toks := Glue(PTypeDecl(t)) + rest;
    TypeDeclHead(t, rest);
    TypeDeclRoundTrip(t, rest);
    TypeDefStep(rev, nested, toks, Parsed(t, rest));
  }

  /** At `enum`, `subint` or `extern` an item is a type definition. */
  lemma TypeDefStep(rev: Revision, nested: bool, toks: seq<Token>, t: Parsed<TypeDecl>)
    requires |toks| > 0 && toks[0].lex.Ident? && toks[0].lex.name in {"enum", "subint", "extern"}
    requires ParseTypeDecl(toks) == Some(t)
    ensures ParseDecl(rev, nested, toks) == Some(Parsed(TypeDef(t.node), t.rest))
  {
    assert !At(toks, Ident("import")) && !toks[0].lex.Raw?;
    assert !At(toks, Ident("namespace")) && !At(toks, Ident("interface")) && !At(toks, Ident("component"));
  }

  /** A printed interface is a root or namespace item that parses back to itself. */
  lemma InterfaceDefRoundTrip(rev: Revision, nested: bool, i: Interface, rest: seq<Token>)
    requires WfInterface(rev, i)
    ensures ParseDecl(rev, nested, Glue(PDecl(InterfaceDef(i))) + rest) == Some(Parsed(InterfaceDef(i), rest))
  {
    var toks := Glue(PInterface(i)) + rest;
    assert PDecl(InterfaceDef(i)) == PInterface(i);
    InterfaceHead(i, rest);
    InterfaceRoundTrip(rev, i, rest);
    InterfaceDefStep(rev, nested, toks, Parsed(i, rest));
  }

  lemma InterfaceHead(i: Interface, rest: seq<Token>)
    ensures At(Glue(PInterface(i)) + rest, Ident("interface"))
  {
    InterfaceTokens(i, rest);
  }

  /** At `interface` an item is an interface. */
  lemma InterfaceDefStep(rev: Revision, nested: bool, toks: seq<Token>, i: Parsed<Interface>)
    requires At(toks, Ident("interface")) && ParseInterface(rev, toks) == Some(i)
    ensures ParseDecl(rev, nested, toks) == Some(Parsed(InterfaceDef(i.node), i.rest))
  {
  }

  // ----- namespaces and items -----

  /** The items the printer writes unambiguously under `rev`, at the root (`nested` false) or
      inside a namespace: imports and raw blocks only at the root, components only in the
      current revision, and every part well formed. */
  predicate WfDecl(rev: Revision, nested: bool, d: Decl)
    decreases d
  {
    match d
    case Import(_) => !nested
    case RawBlock(_) => !nested
    case TypeDef(t) => WfTypeDecl(t)
    case Namespace(n, ds) => |n.parts| >= 1 && forall i :: 0 <= i < |ds| ==> WfDecl(rev, true, ds[i])
    case InterfaceDef(i) => WfInterface(rev, i)
    case ComponentDef(c) => rev == Current && WfComponent(rev, c)
  }

  /** The number of items in `d`, counting nested ones. */
  function DeclSize(d: Decl): (r: nat)
    ensures r >= 1
    decreases d
  {
    if d.Namespace? then 1 + DeclsSize(d.decls) else 1
  }

  /** The number of items in `ds`, counting nested ones. */
  function DeclsSize(ds: seq<Decl>): (r: nat)
    ensures r >= |ds|
    decreases ds
  {
    if ds == [] then 0 else DeclSize(ds[0]) + DeclsSize(ds[1..])
  }

  lemma NamespaceTokens(n: Name, ds: seq<Decl>, rest: seq<Token>)
    ensures Glue(PDecl(Namespace(n, ds))) + rest
         == [Token(Ident("namespace"), false)] + (Glue(PName(n)) + ([Token(Sym("{"), false)] + (Glue(PDecls(ds)) + Close(rest))))
  {
    var kw := Ident("namespace");
    var nm := PName(n);
    var items := PDecls(ds);
    assert PDecl(Namespace(n, ds)) == [kw] + nm + [Sym("{")] + items + [Sym("}")];
    BlockTokens(kw, nm, items, rest);
  }

  /** One unfolding of `ParseNamespace` after `namespace`. */
  lemma NamespaceStep(rev: Revision, named: seq<Token>, n: Name, open: seq<Token>)
    requires ParseCompoundName(rev, named) == Some(Parsed(n, open))
    ensures ParseNamespace(rev, [Token(Ident("namespace"), false)] + named)
         == var body :- Expect(open, Sym("{"));
            var ds := ParseDecls(rev, true, body);
            if At(ds.rest, Sym("}")) then Some(Parsed(Namespace(n, ds.node), ds.rest[1..])) else None
  {
    assert ([Token(Ident("namespace"), false)] + named)[1..] == named;
  }

  /** Nothing at `}` is an item. */
  lemma NoDeclAtClose(rev: Revision, nested: bool, rest: seq<Token>)
    ensures ParseDecl(rev, nested, Close(rest)).None?
  {
  }

  /** At `namespace` an item is a namespace. */
  lemma NamespaceDeclStep(rev: Revision, nested: bool, toks: seq<Token>)
    requires At(toks, Ident("namespace"))
    ensures ParseDecl(rev, nested, toks) == ParseNamespace(rev, toks)
  {
  }

  /** A printed namespace, with any printable items inside, is a root or namespace item that
      parses back to itself. */
  lemma {:induction false} NamespaceRoundTrip(rev: Revision, nested: bool, n: Name, ds: seq<Decl>, rest: seq<Token>)
    requires |n.parts| >= 1 && forall i :: 0 <= i < |ds| ==> WfDecl(rev, true, ds[i])
    ensures ParseDecl(rev, nested, Glue(PDecl(Namespace(n, ds))) + rest) == Some(Parsed(Namespace(n, ds), rest))
    decreases DeclsSize(ds) + 1, 1
  {
    var items := Glue(PDecls(ds)) + Close(rest);
    var open := [Token(Sym("{"), false)] + items;
    var named := Glue(PName(n)) + open;
    NamespaceTokens(n, ds, rest);
    NamespaceDeclStep(rev, nested, [Token(Ident("namespace"), false)] + named);
    CompoundNameRoundTrip(rev, n, open);
    assert Expect(open, Sym("{")) == Some(items);
    NoDeclAtClose(rev, true, rest);
    DeclsRoundTrip(rev, true, ds, Close(rest));
    NamespaceStep(rev, named, n, open);
    assert Close(rest)[1..] == rest;
  }

  /** A printable item parses back to itself, at the root or inside a namespace. */
  lemma {:induction false} DeclRoundTrip(rev: Revision, nested: bool, d: Decl, rest: seq<Token>)
    requires WfDecl(rev, nested, d)
    ensures ParseDecl(rev, nested, Glue(PDecl(d)) + rest) == Some(Parsed(d, rest))
    decreases DeclSize(d), 2
  {
    match d
    case Import(f) => ImportRoundTrip(rev, f, rest);
    case RawBlock(t) => RawBlockRoundTrip(rev, t, rest);
    case TypeDef(t) => TypeDefRoundTrip(rev, nested, t, rest);
    case Namespace(n, ds) => NamespaceRoundTrip(rev, nested, n, ds, rest);
    case InterfaceDef(i) => InterfaceDefRoundTrip(rev, nested, i, rest);
    case ComponentDef(c) => ComponentDeclRoundTrip(nested, c, rest);
  }

  lemma DeclsTokens(ds: seq<Decl>, rest: seq<Token>)
    requires ds != []
    ensures Glue(PDecls(ds)) + rest == Glue(PDecl(ds[0])) + (Glue(PDecls(ds[1..])) + rest)
  {
    assert PDecls(ds) == PDecl(ds[0]) + PDecls(ds[1..]);
    GlueCat(PDecl(ds[0]), PDecls(ds[1..]), rest);
  }

  /** Assembles the parse of printed items from that of the first and that of the others. */
  lemma DeclsCons(rev: Revision, nested: bool, ds: seq<Decl>, rest: seq<Token>)
    requires ds != []
    requires ParseDecl(rev, nested, Glue(PDecl(ds[0])) + (Glue(PDecls(ds[1..])) + rest))
          == Some(Parsed(ds[0], Glue(PDecls(ds[1..])) + rest))
    requires ParseDecls(rev, nested, Glue(PDecls(ds[1..])) + rest) == Parsed(ds[1..], rest)
    ensures ParseDecls(rev, nested, Glue(PDecls(ds)) + rest) == Parsed(ds, rest)
  {
    var tail := Glue(PDecls(ds[1..])) + rest;
    DeclSplit(ds);
    DeclsTokens(ds, rest);
    DeclsStep(rev, nested, Glue(PDecls(ds)) + rest, ds[0], tail, ds[1..], rest);
  }

  lemma DeclSplit(ds: seq<Decl>)
    requires ds != []
    ensures [ds[0]] + ds[1..] == ds
  {
  }

  lemma DeclsEnd(rev: Revision, nested: bool, rest: seq<Token>)
    requires ParseDecl(rev, nested, rest).None?
    ensures ParseDecls(rev, nested, rest) == Parsed([], rest)
  {
  }

  lemma DeclsStep(rev: Revision, nested: bool, toks: seq<Token>, d: Decl, tail: seq<Token>, ds: seq<Decl>, rest: seq<Token>)
    requires ParseDecl(rev, nested, toks) == Some(Parsed(d, tail)) && ParseDecls(rev, nested, tail) == Parsed(ds, rest)
    ensures ParseDecls(rev, nested, toks) == Parsed([d] + ds, rest)
  {
  }

  /** Printed items parse back to every one of them, up to whatever follows that is no
      item. */
  lemma {:induction false} DeclsRoundTrip(rev: Revision, nested: bool, ds: seq<Decl>, rest: seq<Token>)
    requires (forall i :: 0 <= i < |ds| ==> WfDecl(rev, nested, ds[i])) && ParseDecl(rev, nested, rest).None?
    ensures ParseDecls(rev, nested, Glue(PDecls(ds)) + rest) == Parsed(ds, rest)
    decreases DeclsSize(ds), 3
  {
    if ds == [] {
      assert Glue(PDecls(ds)) + rest == rest;
      DeclsEnd(rev, nested, rest);
    } else {
      DeclRoundTrip(rev, nested, ds[0], Glue(PDecls(ds[1..])) + rest);
      DeclsRoundTrip(rev, nested, ds[1..], rest);
      DeclsCons(rev, nested, ds, rest);
    }
  }

  // ----- source files -----

  /** A printed file of printable root items is a source file of exactly those items. */
  lemma SourceRoundTrip(rev: Revision, ds: seq<Decl>)
    requires forall i :: 0 <= i < |ds| ==> WfDecl(rev, false, ds[i])
    ensures ParseSourceTokens(rev, Glue(PDecls(ds))) == Ok(ds)
  {
    DeclsRoundTrip(rev, false, ds, []);
    assert Glue(PDecls(ds)) + [] == Glue(PDecls(ds));
  }

  /** A printed item starts with a word or a raw block, not glued to what comes before. */
  lemma DeclHead(d: Decl, rest: seq<Token>)
    ensures |Glue(PDecl(d)) + rest| > 0
    ensures !(Glue(PDecl(d)) + rest)[0].glued && !(Glue(PDecl(d)) + rest)[0].lex.FileName?
  {
    match d
    case Import(f) => ImportTokens(f, rest);
    case RawBlock(t) => GlueCons(Raw(t), []);
    case TypeDef(t) => TypeDeclHead(t, rest);
    case Namespace(n, ds) => NamespaceTokens(n, ds, rest);
    case InterfaceDef(i) => InterfaceTokens(i, rest);
    case ComponentDef(c) => ComponentTokens(c, rest);
  }

  /** Print, lex and parse: a file of printable root items, written out as text with the
      printer's spacing, parses back to exactly those items whenever the lexer reads its
      tokens back. */
  lemma TextRoundTrip(rev: Revision, ds: seq<Decl>)
    requires forall i :: 0 <= i < |ds| ==> WfDecl(rev, false, ds[i])
    requires Printable(rev, Glue(PDecls(ds)))
    ensures Parse(rev, PrintTokens(Glue(PDecls(ds)))) == Ok(ds)
  {
    var ts := Glue(PDecls(ds));
    if ds != [] {
      DeclsTokens(ds, []);
      DeclHead(ds[0], Glue(PDecls(ds[1..])) + []);
      assert ts == ts + [];
    }
    TokenizePrinted(rev, ts);
    SourceRoundTrip(rev, ds);
  }
}
