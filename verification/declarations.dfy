/** Declarations: type definitions, events, behaviours, interfaces, ports, systems,
    components, namespaces and the root items of a file. */
module Declarations {
  import opened Tokens
  import opened Ast
  import opened Names
  import opened Expressions
  import opened Statements

  // ----- shapes -----

  /** What a behaviour item may be under `rev`: a function whose body statements have the
      revision's shape, a variable, and in the current revision also a declarative statement
      or a local type definition. */
  predicate BehaviorItemShape(rev: Revision, b: BehaviorItem) {
    match b
    case Function(_, _, _, body) => forall i :: 0 <= i < |body| ==> RevisionStmt(rev, body[i])
    case Member(s) =>
      RevisionStmt(rev, s) && (s.Variable? || (rev == Current && (s.On? || s.Blocking? || s.Guard? || s.Compound?)))
    case LocalType(_) => rev == Current
  }

  predicate BehaviorShape(rev: Revision, b: Behavior) {
    forall i :: 0 <= i < |b.items| ==> BehaviorItemShape(rev, b.items[i])
  }

  /** What a declaration may be under `rev`, at the root (`nested` false) or inside a
      namespace: imports and raw blocks only at the root, components only in the current
      revision, behaviours of the revision's shape. */
  predicate DeclShape(rev: Revision, nested: bool, d: Decl)
    decreases d
  {
    match d
    case Import(_) => !nested
    case RawBlock(_) => !nested
    case TypeDef(_) => true
    case Namespace(_, ds) => forall i :: 0 <= i < |ds| ==> DeclShape(rev, true, ds[i])
    case InterfaceDef(i) => i.behavior.Some? ==> BehaviorShape(rev, i.behavior.value)
    case ComponentDef(c) => rev == Current && (c.body.BehaviorBody? ==> BehaviorShape(rev, c.body.behavior))
  }

  // ----- type definitions -----

  /** The names of an enum: `name (, name)*`, stopping before a `,` not followed by a name. */
  function ParseIdentList(toks: seq<Token>): (r: Option<Parsed<seq<string>>>)
    ensures r.Some? <==> |toks| > 0 && toks[0].lex.Ident?
    ensures r.Some? ==> |r.value.node| >= 1 && |r.value.rest| < |toks|
    ensures r.Some? ==> Lex(toks) == PIdentList(r.value.node) + Lex(r.value.rest)
    ensures r.Some? ==> !(|r.value.rest| >= 2 && r.value.rest[0].lex == Sym(",") && r.value.rest[1].lex.Ident?)
  {
    var x :- ExpectIdent(toks);
    if |x.rest| >= 2 && x.rest[0].lex == Sym(",") && x.rest[1].lex.Ident? then
      var more := ParseIdentList(x.rest[1..]).value;
      IdentListLex(Lex(toks), Lex(x.rest), Lex(x.rest[1..]), Lex(more.rest), x.node, more.node);
      Some(Parsed([x.node] + more.node, more.rest))
    else
      Some(Parsed([x.node], x.rest))
  }

  /** The optional trailing comma of an enum's names. */
  function ParseTrailingComma(toks: seq<Token>): (r: Parsed<bool>)
    ensures |r.rest| <= |toks|
    ensures Lex(toks) == PTrailingComma(r.node) + Lex(r.rest)
    ensures r.node <==> At(toks, Sym(","))
  {
    if At(toks, Sym(",")) then Parsed(true, toks[1..]) else Parsed(false, toks)
  }

  /** `enum name { name (, name)* ,? } ;`. */
  function ParseEnum(toks: seq<Token>): (r: Option<Parsed<TypeDecl>>)
    ensures r.Some? ==> |r.value.rest| < |toks| && r.value.node.Enum? && |r.value.node.fields| >= 1
    ensures r.Some? ==> Lex(toks) == PTypeDecl(r.value.node) + Lex(r.value.rest)
  {
    var kw :- Expect(toks, Ident("enum"));
    var n :- ExpectIdent(kw);
    var open :- Expect(n.rest, Sym("{"));
    var fs :- ParseIdentList(open);
    var t := ParseTrailingComma(fs.rest);
    var close :- Expect(t.rest, Sym("}"));
    var semi :- Expect(close, Sym(";"));
    EnumLex(Lex(toks), Lex(kw), Lex(n.rest), Lex(open), Lex(fs.rest), Lex(t.rest), Lex(close), Lex(semi), n.node, fs.node, t.node);
    Some(Parsed(Enum(n.node, fs.node, t.node), semi))
  }

  /** `subint name { number .. number } ;`. */
  function ParseSubint(toks: seq<Token>): (r: Option<Parsed<TypeDecl>>)
    ensures r.Some? ==> |r.value.rest| < |toks| && r.value.node.Subint?
    ensures r.Some? ==> Lex(toks) == PTypeDecl(r.value.node) + Lex(r.value.rest)
  {
    var kw :- Expect(toks, Ident("subint"));
    var n :- ExpectIdent(kw);
    var open :- Expect(n.rest, Sym("{"));
    var lo :- ParseNumber(open);
    var dots :- Expect(lo.rest, Sym(".."));
    var hi :- ParseNumber(dots);
    var close :- Expect(hi.rest, Sym("}"));
    var semi :- Expect(close, Sym(";"));
    SubintLex(Lex(toks), Lex(kw), Lex(n.rest), Lex(open), Lex(lo.rest), Lex(dots), Lex(hi.rest), Lex(close), Lex(semi),
              n.node, lo.node, hi.node);
    Some(Parsed(Subint(n.node, lo.node, hi.node), semi))
  }

  /** `extern name $ ... $ ;`. */
  function ParseExtern(toks: seq<Token>): (r: Option<Parsed<TypeDecl>>)
    ensures r.Some? ==> |r.value.rest| < |toks| && r.value.node.Extern?
    ensures r.Some? ==> Lex(toks) == PTypeDecl(r.value.node) + Lex(r.value.rest)
  {
    var kw :- Expect(toks, Ident("extern"));
    var n :- ExpectIdent(kw);
    if |n.rest| > 0 && n.rest[0].lex.Raw? then
      var v := n.rest[0].lex.text;
      var semi :- Expect(n.rest[1..], Sym(";"));
      ExternLex(Lex(toks), Lex(kw), Lex(n.rest), Lex(n.rest[1..]), Lex(semi), n.node, v);
      Some(Parsed(Extern(n.node, v), semi))
    else None
  }

  /** A type definition, chosen by its keyword. */
  function ParseTypeDecl(toks: seq<Token>): (r: Option<Parsed<TypeDecl>>)
    ensures r.Some? ==> |r.value.rest| < |toks|
    ensures r.Some? ==> Lex(toks) == PTypeDecl(r.value.node) + Lex(r.value.rest)
    ensures r.Some? && r.value.node.Enum? ==> |r.value.node.fields| >= 1
  {
    if At(toks, Ident("enum")) then ParseEnum(toks)
    else if At(toks, Ident("subint")) then ParseSubint(toks)
    else if At(toks, Ident("extern")) then ParseExtern(toks)
    else None
  }

  // ----- interfaces -----

  /** `event`: `in`/`out`, a type, a name, formals and `;`. */
  function ParseEvent(rev: Revision, toks: seq<Token>): (r: Option<Parsed<Event>>)
    ensures r.Some? ==> |r.value.rest| < |toks|
    ensures r.Some? ==> Lex(toks) == PEvent(r.value.node) + Lex(r.value.rest)
  {
    var dir :- if At(toks, Ident("in")) then Some(InEvent) else if At(toks, Ident("out")) then Some(OutEvent) else None;
    var t :- ParseTypeName(rev, toks[1..]);
    var n :- ExpectIdent(t.rest);
    var fs :- ParseFormals(rev, n.rest);
    var semi :- Expect(fs.rest, Sym(";"));
    EventLex(Lex(toks), Lex(toks[1..]), Lex(t.rest), Lex(n.rest), Lex(fs.rest), Lex(semi), dir, t.node, n.node, fs.node);
    Some(Parsed(Event(dir, t.node, n.node, fs.node), semi))
  }

  /** `interface_statement`: a type definition or an event. */
  function ParseInterfaceItem(rev: Revision, toks: seq<Token>): (r: Option<Parsed<InterfaceItem>>)
    ensures r.Some? ==> |r.value.rest| < |toks|
    ensures r.Some? ==> Lex(toks) == PInterfaceItem(r.value.node) + Lex(r.value.rest)
  {
    match ParseTypeDecl(toks)
    case Some(t) => Some(Parsed(TypeItem(t.node), t.rest))
    case None =>
      var e :- ParseEvent(rev, toks);
      Some(Parsed(EventItem(e.node), e.rest))
  }

  /** `interface_statement*`. */
  function ParseInterfaceItems(rev: Revision, toks: seq<Token>): (r: Parsed<seq<InterfaceItem>>)
    ensures |r.rest| <= |toks|
    ensures Lex(toks) == PInterfaceItems(r.node) + Lex(r.rest)
    decreases |toks|
  {
    match ParseInterfaceItem(rev, toks)
    case None => Parsed([], toks)
    case Some(x) =>
      var more := ParseInterfaceItems(rev, x.rest);
      InterfaceItemsLex(Lex(toks), Lex(x.rest), Lex(more.rest), x.node, more.node);
      Parsed([x.node] + more.node, more.rest)
  }

  /** The optional behaviour at the end of an interface. */
  function ParseOptBehavior(rev: Revision, toks: seq<Token>): (r: Parsed<Option<Behavior>>)
    ensures |r.rest| <= |toks|
    ensures r.node.Some? ==> Lex(toks) == PBehavior(r.node.value) + Lex(r.rest)
    ensures r.node.Some? ==> BehaviorShape(rev, r.node.value)
    ensures r.node.None? ==> r.rest == toks
  {
    var b := ParseBehavior(rev, toks);
    if b.Some? then Parsed(Some(b.value.node), b.value.rest) else Parsed(None, toks)
  }

  /** `interface name { interface_statement* behavior? }`. */
  function ParseInterface(rev: Revision, toks: seq<Token>): (r: Option<Parsed<Interface>>)
    ensures r.Some? ==> |r.value.rest| < |toks|
    ensures r.Some? ==> Lex(toks) == PInterface(r.value.node) + Lex(r.value.rest)
    ensures r.Some? && r.value.node.behavior.Some? ==> BehaviorShape(rev, r.value.node.behavior.value)
  {
    var kw :- Expect(toks, Ident("interface"));
    var n :- ExpectIdent(kw);
    var open :- Expect(n.rest, Sym("{"));
    var items := ParseInterfaceItems(rev, open);
    var b := ParseOptBehavior(rev, items.rest);
    var close :- Expect(b.rest, Sym("}"));
    InterfaceLex(Lex(toks), Lex(kw), Lex(n.rest), Lex(open), Lex(items.rest), Lex(b.rest), Lex(close), n.node, items.node, b.node);
    Some(Parsed(Interface(n.node, items.node, b.node), close))
  }

  // ----- behaviours -----

  /** `function`: a type, a name, formals and a braced statement list. */
  function ParseFunction(rev: Revision, toks: seq<Token>): (r: Option<Parsed<BehaviorItem>>)
    ensures r.Some? ==> |r.value.rest| < |toks| && r.value.node.Function?
    ensures r.Some? ==> Lex(toks) == PBehaviorItem(r.value.node) + Lex(r.value.rest)
    ensures r.Some? ==> BehaviorItemShape(rev, r.value.node)
  {
    var t :- ParseTypeName(rev, toks);
    var n :- ExpectIdent(t.rest);
    var fs :- ParseFormals(rev, n.rest);
    var open :- Expect(fs.rest, Sym("{"));
    var body := ParseStatementList(rev, open);
    var close :- Expect(body.rest, Sym("}"));
    FunctionLex(Lex(toks), Lex(t.rest), Lex(n.rest), Lex(fs.rest), Lex(open), Lex(body.rest), Lex(close),
                t.node, n.node, fs.node, body.node);
    Some(Parsed(Function(t.node, n.node, fs.node, body.node), close))
  }

  /** `behavior_statement`: tried as a function, a variable, then (current revision only) a
      declarative statement and a type definition. The keywords `on` and `blocking` are
      valid here in the current revision, so a word spelled so is that keyword and never
      the type of a function or variable. */
  function ParseBehaviorItem(rev: Revision, toks: seq<Token>): (r: Option<Parsed<BehaviorItem>>)
    ensures r.Some? ==> |r.value.rest| < |toks|
    ensures r.Some? ==> Lex(toks) == PBehaviorItem(r.value.node) + Lex(r.value.rest)
    ensures r.Some? ==> BehaviorItemShape(rev, r.value.node)
  {
    if rev == Current && (At(toks, Ident("on")) || At(toks, Ident("blocking"))) then
      var d :- ParseDeclarative(rev, toks);
      Some(Parsed(Member(d.node), d.rest))
    else
    match ParseFunction(rev, toks)
    case Some(f) => Some(f)
    case None =>
      match ParseVariable(rev, toks)
      case Some(v) => Some(Parsed(Member(v.node), v.rest))
      case None =>
        if rev == Backup then None
        else
          match ParseDeclarative(rev, toks)
          case Some(d) => Some(Parsed(Member(d.node), d.rest))
          case None =>
            var t :- ParseTypeDecl(toks);
            Some(Parsed(LocalType(t.node), t.rest))
  }

  /** `behavior_statement*`. */
  function ParseBehaviorItems(rev: Revision, toks: seq<Token>): (r: Parsed<seq<BehaviorItem>>)
    ensures |r.rest| <= |toks|
    ensures Lex(toks) == PBehaviorItems(r.node) + Lex(r.rest)
    ensures forall i :: 0 <= i < |r.node| ==> BehaviorItemShape(rev, r.node[i])
    decreases |toks|
  {
    match ParseBehaviorItem(rev, toks)
    case None =>
      assert PBehaviorItems([]) == [];
      Parsed([], toks)
    case Some(b) =>
      var more := ParseBehaviorItems(rev, b.rest);
      BehaviorItemsLex(Lex(toks), Lex(b.rest), Lex(more.rest), b.node, more.node);
      AllBehaviorItems(rev, b.node, more.node);
      Parsed([b.node] + more.node, more.rest)
  }

  /** `behavior`: `behavior` or `behaviour`, an optional name, and braced items. */
  function ParseBehavior(rev: Revision, toks: seq<Token>): (r: Option<Parsed<Behavior>>)
    ensures r.Some? ==> |r.value.rest| < |toks|
    ensures r.Some? ==> Lex(toks) == PBehavior(r.value.node) + Lex(r.value.rest)
    ensures r.Some? ==> BehaviorShape(rev, r.value.node)
  {
    var british :- if At(toks, Ident("behavior")) then Some(false) else if At(toks, Ident("behaviour")) then Some(true) else None;
    var kw := toks[1..];
    var n := ParseOptIdent(kw);
    var open :- Expect(n.rest, Sym("{"));
    var items := ParseBehaviorItems(rev, open);
    var close :- Expect(items.rest, Sym("}"));
    BehaviorLex(Lex(toks), Lex(kw), Lex(n.rest), Lex(open), Lex(items.rest), Lex(close), british, n.node, items.node);
    Some(Parsed(Behavior(british, n.node, items.node), close))
  }

  /** An optional identifier. */
  function ParseOptIdent(toks: seq<Token>): (r: Parsed<Option<string>>)
    ensures |r.rest| <= |toks|
    ensures Lex(toks) == POptIdent(r.node) + Lex(r.rest)
    ensures r.node.Some? <==> |toks| > 0 && toks[0].lex.Ident?
  {
    match ExpectIdent(toks)
    case Some(x) => Parsed(Some(x.node), x.rest)
    case None => Parsed(None, toks)
  }

  // ----- components -----

  /** `port_direction`: `provides` or `requires`. */
  function ParsePortDir(toks: seq<Token>): (r: Option<Parsed<PortDir>>)
    ensures r.Some? ==> |r.value.rest| < |toks|
    ensures r.Some? ==> Lex(toks) == [Ident(if r.value.node == Provides then "provides" else "requires")] + Lex(r.value.rest)
  {
    if At(toks, Ident("provides")) then Some(Parsed(Provides, toks[1..]))
    else if At(toks, Ident("requires")) then Some(Parsed(Requires, toks[1..]))
    else None
  }

  /** `port_qualifiers`: `blocking`, `external` or `injected`. */
  function ParseQualifier(toks: seq<Token>): (r: Option<Parsed<Qualifier>>)
    ensures r.Some? ==> |r.value.rest| < |toks|
    ensures r.Some? ==> Lex(toks) == PQualifier(Some(r.value.node)) + Lex(r.value.rest)
  {
    if At(toks, Ident("blocking")) then Some(Parsed(BlockingPort, toks[1..]))
    else if At(toks, Ident("external")) then Some(Parsed(ExternalPort, toks[1..]))
    else if At(toks, Ident("injected")) then Some(Parsed(InjectedPort, toks[1..]))
    else None
  }

  /** The optional formals of a port. */
  function ParseOptFormals(rev: Revision, toks: seq<Token>): (r: Parsed<Option<seq<Formal>>>)
    ensures |r.rest| <= |toks|
    ensures Lex(toks) == POptFormals(r.node) + Lex(r.rest)
  {
    match ParseFormals(rev, toks)
    case Some(fs) => Parsed(Some(fs.node), fs.rest)
    case None => Parsed(None, toks)
  }

  /** A port after its direction and qualifier: a compound name, optional formals, a name and `;`. */
  function ParsePortTail(rev: Revision, dir: PortDir, q: Option<Qualifier>, toks: seq<Token>): (r: Option<Parsed<Port>>)
    ensures r.Some? ==> |r.value.rest| < |toks| && r.value.node.dir == dir && r.value.node.qualifier == q
    ensures r.Some? ==> Lex(toks) == PName(r.value.node.typ) + POptFormals(r.value.node.formals)
                                     + [Ident(r.value.node.name)] + [Sym(";")] + Lex(r.value.rest)
  {
    var t :- ParseCompoundName(rev, toks);
    var fs := ParseOptFormals(rev, t.rest);
    var n :- ExpectIdent(fs.rest);
    var semi :- Expect(n.rest, Sym(";"));
    PortTailLex(Lex(toks), Lex(t.rest), Lex(fs.rest), Lex(n.rest), Lex(semi), t.node, fs.node, n.node);
    Some(Parsed(Port(dir, q, t.node, fs.node, n.node), semi))
  }

  /** `port`: `provides`/`requires`, at most one qualifier, a compound name, optional formals,
      a name and `;`. A qualifier word is read as the qualifier when the rest then parses,
      and as the start of the port's type otherwise. */
  function ParsePort(rev: Revision, toks: seq<Token>): (r: Option<Parsed<Port>>)
    ensures r.Some? ==> |r.value.rest| < |toks|
    ensures r.Some? ==> Lex(toks) == PPort(r.value.node) + Lex(r.value.rest)
  {
    var dir :- ParsePortDir(toks);
    var q := ParseQualifier(dir.rest);
    var withQ := if q.Some? then ParsePortTail(rev, dir.node, Some(q.value.node), q.value.rest) else None;
    if withQ.Some? then
      var p := withQ.value;
      PortLex(Lex(toks), Lex(dir.rest), Lex(q.value.rest), Lex(p.rest), p.node);
      Some(p)
    else
      var p :- ParsePortTail(rev, dir.node, None, dir.rest);
      PortLex(Lex(toks), Lex(dir.rest), Lex(dir.rest), Lex(p.rest), p.node);
      Some(p)
  }

  /** `port*`. */
  function ParsePorts(rev: Revision, toks: seq<Token>): (r: Parsed<seq<Port>>)
    ensures |r.rest| <= |toks|
    ensures Lex(toks) == PPorts(r.node) + Lex(r.rest)
    decreases |toks|
  {
    match ParsePort(rev, toks)
    case None => Parsed([], toks)
    case Some(p) =>
      var more := ParsePorts(rev, p.rest);
      PortsLex(Lex(toks), Lex(p.rest), Lex(more.rest), p.node, more.node);
      Parsed([p.node] + more.node, more.rest)
  }

  /** `instance_or_binding`: `compound_name name ;`, else `end_point <=> end_point ;`. */
  function ParseSystemItem(rev: Revision, toks: seq<Token>): (r: Option<Parsed<SystemItem>>)
    ensures r.Some? ==> |r.value.rest| < |toks|
    ensures r.Some? ==> Lex(toks) == PSystemItem(r.value.node) + Lex(r.value.rest)
  {
    match ParseInstance(rev, toks)
    case Some(i) => Some(i)
    case None => ParseBinding(rev, toks)
  }

  function ParseInstance(rev: Revision, toks: seq<Token>): (r: Option<Parsed<SystemItem>>)
    ensures r.Some? ==> |r.value.rest| < |toks| && r.value.node.Instance?
    ensures r.Some? ==> Lex(toks) == PSystemItem(r.value.node) + Lex(r.value.rest)
  {
    var t :- ParseCompoundName(rev, toks);
    var n :- ExpectIdent(t.rest);
    var semi :- Expect(n.rest, Sym(";"));
    InstanceLex(Lex(toks), Lex(t.rest), Lex(n.rest), Lex(semi), t.node, n.node);
    Some(Parsed(Instance(t.node, n.node), semi))
  }

  function ParseBinding(rev: Revision, toks: seq<Token>): (r: Option<Parsed<SystemItem>>)
    ensures r.Some? ==> |r.value.rest| < |toks| && r.value.node.Binding?
    ensures r.Some? ==> Lex(toks) == PSystemItem(r.value.node) + Lex(r.value.rest)
  {
    var left :- ParseEndPoint(rev, toks);
    var arrow :- Expect(left.rest, Sym("<=>"));
    var right :- ParseEndPoint(rev, arrow);
    var semi :- Expect(right.rest, Sym(";"));
    BindingLex(Lex(toks), Lex(left.rest), Lex(arrow), Lex(right.rest), Lex(semi), left.node, right.node);
    Some(Parsed(Binding(left.node, right.node), semi))
  }

  /** `instance_or_binding*`. */
  function ParseSystemItems(rev: Revision, toks: seq<Token>): (r: Parsed<seq<SystemItem>>)
    ensures |r.rest| <= |toks|
    ensures Lex(toks) == PSystemItems(r.node) + Lex(r.rest)
    decreases |toks|
  {
    match ParseSystemItem(rev, toks)
    case None => Parsed([], toks)
    case Some(x) =>
      var more := ParseSystemItems(rev, x.rest);
      SystemItemsLex(Lex(toks), Lex(x.rest), Lex(more.rest), x.node, more.node);
      Parsed([x.node] + more.node, more.rest)
  }

  /** `body`: a behaviour or `system { instance_or_binding* }`. */
  function ParseBody(rev: Revision, toks: seq<Token>): (r: Option<Parsed<Body>>)
    ensures r.Some? ==> |r.value.rest| < |toks|
    ensures r.Some? ==> Lex(toks) == PBody(r.value.node) + Lex(r.value.rest)
    ensures r.Some? && r.value.node.BehaviorBody? ==> BehaviorShape(rev, r.value.node.behavior)
  {
    if At(toks, Ident("system")) then
      var open :- Expect(toks[1..], Sym("{"));
      var items := ParseSystemItems(rev, open);
      var close :- Expect(items.rest, Sym("}"));
      SystemLex(Lex(toks), Lex(toks[1..]), Lex(open), Lex(items.rest), Lex(close), items.node);
      Some(Parsed(SystemBody(items.node), close))
    else
      var b :- ParseBehavior(rev, toks);
      Some(Parsed(BehaviorBody(b.node), b.rest))
  }

  /** `component name { port* body }`: the body is required. */
  function ParseComponent(rev: Revision, toks: seq<Token>): (r: Option<Parsed<Component>>)
    ensures r.Some? ==> |r.value.rest| < |toks|
    ensures r.Some? ==> Lex(toks) == PComponent(r.value.node) + Lex(r.value.rest)
    ensures r.Some? && r.value.node.body.BehaviorBody? ==> BehaviorShape(rev, r.value.node.body.behavior)
  {
    var kw :- Expect(toks, Ident("component"));
    var n :- ExpectIdent(kw);
    var open :- Expect(n.rest, Sym("{"));
    var ports := ParsePorts(rev, open);
    var body :- ParseBody(rev, ports.rest);
    var close :- Expect(body.rest, Sym("}"));
    ComponentLex(Lex(toks), Lex(kw), Lex(n.rest), Lex(open), Lex(ports.rest), Lex(body.rest), Lex(close),
                 n.node, ports.node, body.node);
    Some(Parsed(Component(n.node, ports.node, body.node), close))
  }

  // ----- files and namespaces -----

  /** `import file_name ;`. */
  function ParseImport(toks: seq<Token>): (r: Option<Parsed<Decl>>)
    ensures r.Some? ==> |r.value.rest| < |toks| && r.value.node.Import?
    ensures r.Some? ==> Lex(toks) == PDecl(r.value.node) + Lex(r.value.rest)
  {
    var kw :- Expect(toks, Ident("import"));
    if |kw| > 0 && kw[0].lex.FileName? then
      var f := kw[0].lex.path;
      var semi :- Expect(kw[1..], Sym(";"));
      ImportLex(Lex(toks), Lex(kw), Lex(kw[1..]), Lex(semi), f);
      Some(Parsed(Import(f), semi))
    else None
  }

  /** A root item (`nested` false) or a namespace item, chosen by its first token. */
  function ParseDecl(rev: Revision, nested: bool, toks: seq<Token>): (r: Option<Parsed<Decl>>)
    ensures r.Some? ==> |r.value.rest| < |toks|
    ensures r.Some? ==> Lex(toks) == PDecl(r.value.node) + Lex(r.value.rest)
    ensures r.Some? ==> DeclShape(rev, nested, r.value.node)
    decreases |toks|, 1
  {
    if !nested && At(toks, Ident("import")) then ParseImport(toks)
    else if !nested && |toks| > 0 && toks[0].lex.Raw? then Some(Parsed(RawBlock(toks[0].lex.text), toks[1..]))
    else if At(toks, Ident("namespace")) then ParseNamespace(rev, toks)
    else if At(toks, Ident("interface")) then
      var i :- ParseInterface(rev, toks);
      Some(Parsed(InterfaceDef(i.node), i.rest))
    else if rev == Current && At(toks, Ident("component")) then
      var c :- ParseComponent(rev, toks);
      Some(Parsed(ComponentDef(c.node), c.rest))
    else
      var t :- ParseTypeDecl(toks);
      Some(Parsed(TypeDef(t.node), t.rest))
  }

  /** Root items (`nested` false) or namespace items, as many as there are. */
  function ParseDecls(rev: Revision, nested: bool, toks: seq<Token>): (r: Parsed<seq<Decl>>)
    ensures |r.rest| <= |toks|
    ensures Lex(toks) == PDecls(r.node) + Lex(r.rest)
    ensures forall i :: 0 <= i < |r.node| ==> DeclShape(rev, nested, r.node[i])
    ensures ParseDecl(rev, nested, r.rest).None?
    decreases |toks|, 2
  {
    match ParseDecl(rev, nested, toks)
    case None => Parsed([], toks)
    case Some(d) =>
      var more := ParseDecls(rev, nested, d.rest);
      DeclsLex(Lex(toks), Lex(d.rest), Lex(more.rest), d.node, more.node);
      AllDecls(rev, nested, d.node, more.node);
      Parsed([d.node] + more.node, more.rest)
  }

  /** `namespace compound_name { item* }`. */
  function ParseNamespace(rev: Revision, toks: seq<Token>): (r: Option<Parsed<Decl>>)
    ensures r.Some? ==> |r.value.rest| < |toks| && r.value.node.Namespace?
    ensures r.Some? ==> Lex(toks) == PDecl(r.value.node) + Lex(r.value.rest)
    ensures r.Some? ==> DeclShape(rev, true, r.value.node) && DeclShape(rev, false, r.value.node)
    decreases |toks|, 0
  {
    var kw :- Expect(toks, Ident("namespace"));
    var n :- ParseCompoundName(rev, kw);
    var open :- Expect(n.rest, Sym("{"));
    var ds := ParseDecls(rev, true, open);
    var close :- Expect(ds.rest, Sym("}"));
    NamespaceLex(Lex(toks), Lex(kw), Lex(n.rest), Lex(open), Lex(ds.rest), Lex(close), n.node, ds.node);
    Some(Parsed(Namespace(n.node, ds.node), close))
  }

  // Each lemma below assembles the printed form of one construct from the consumption
  // steps its parse function takes.

  lemma IdentListLex(x: seq<Lexeme>, a: seq<Lexeme>, b: seq<Lexeme>, d: seq<Lexeme>, v: string, vs: seq<string>)
    requires vs != []
    requires x == [Ident(v)] + a && a == [Sym(",")] + b && b == PIdentList(vs) + d
    ensures x == PIdentList([v] + vs) + d
  {
    IdentListCons(v, vs);
    Chain3(x, a, b, [Ident(v)], [Sym(",")], PIdentList(vs), d);
  }

  lemma EnumLex(x: seq<Lexeme>, a: seq<Lexeme>, b: seq<Lexeme>, c: seq<Lexeme>, e: seq<Lexeme>, f: seq<Lexeme>,
                g: seq<Lexeme>, d: seq<Lexeme>, n: string, fs: seq<string>, t: bool)
    requires x == [Ident("enum")] + a && a == [Ident(n)] + b && b == [Sym("{")] + c && c == PIdentList(fs) + e
    requires e == PTrailingComma(t) + f && f == [Sym("}")] + g && g == [Sym(";")] + d
    ensures x == PTypeDecl(Enum(n, fs, t)) + d
  {
    Chain7(x, a, b, c, e, f, g, [Ident("enum")], [Ident(n)], [Sym("{")], PIdentList(fs), PTrailingComma(t),
           [Sym("}")], [Sym(";")], d);
  }

  lemma SubintLex(x: seq<Lexeme>, a: seq<Lexeme>, b: seq<Lexeme>, c: seq<Lexeme>, e: seq<Lexeme>, f: seq<Lexeme>,
                  g: seq<Lexeme>, h: seq<Lexeme>, d: seq<Lexeme>, n: string, lo: Number, hi: Number)
    requires x == [Ident("subint")] + a && a == [Ident(n)] + b && b == [Sym("{")] + c && c == PNumber(lo) + e
    requires e == [Sym("..")] + f && f == PNumber(hi) + g && g == [Sym("}")] + h && h == [Sym(";")] + d
    ensures x == PTypeDecl(Subint(n, lo, hi)) + d
  {
    Chain8(x, a, b, c, e, f, g, h, [Ident("subint")], [Ident(n)], [Sym("{")], PNumber(lo), [Sym("..")],
           PNumber(hi), [Sym("}")], [Sym(";")], d);
  }

  lemma ExternLex(x: seq<Lexeme>, a: seq<Lexeme>, b: seq<Lexeme>, c: seq<Lexeme>, d: seq<Lexeme>, n: string, v: string)
    requires x == [Ident("extern")] + a && a == [Ident(n)] + b && b == [Raw(v)] + c && c == [Sym(";")] + d
    ensures x == PTypeDecl(Extern(n, v)) + d
  {
    Chain4(x, a, b, c, [Ident("extern")], [Ident(n)], [Raw(v)], [Sym(";")], d);
  }

  lemma EventLex(x: seq<Lexeme>, a: seq<Lexeme>, b: seq<Lexeme>, c: seq<Lexeme>, e: seq<Lexeme>, d: seq<Lexeme>,
                 dir: EventDir, t: TypeName, n: string, fs: seq<Formal>)
    requires x == [Ident(if dir == InEvent then "in" else "out")] + a && a == PTypeName(t) + b
    requires b == [Ident(n)] + c && c == PFormals(fs) + e && e == [Sym(";")] + d
    ensures x == PEvent(Event(dir, t, n, fs)) + d
  {
    Chain5(x, a, b, c, e, [Ident(if dir == InEvent then "in" else "out")], PTypeName(t), [Ident(n)], PFormals(fs),
           [Sym(";")], d);
  }

  lemma InterfaceItemsLex(x: seq<Lexeme>, a: seq<Lexeme>, d: seq<Lexeme>, i: InterfaceItem, items: seq<InterfaceItem>)
    requires x == PInterfaceItem(i) + a && a == PInterfaceItems(items) + d
    ensures x == PInterfaceItems([i] + items) + d
  {
    InterfaceItemsCons(i, items);
    Chain2(x, a, PInterfaceItem(i), PInterfaceItems(items), d);
  }

  lemma InterfaceLex(x: seq<Lexeme>, a: seq<Lexeme>, b: seq<Lexeme>, c: seq<Lexeme>, e: seq<Lexeme>, f: seq<Lexeme>,
                     d: seq<Lexeme>, n: string, items: seq<InterfaceItem>, beh: Option<Behavior>)
    requires x == [Ident("interface")] + a && a == [Ident(n)] + b && b == [Sym("{")] + c && c == PInterfaceItems(items) + e
    requires beh.Some? ==> e == PBehavior(beh.value) + f
    requires beh.None? ==> e == f
    requires f == [Sym("}")] + d
    ensures x == PInterface(Interface(n, items, beh)) + d
  {
    assert e == POptBehavior(beh) + f;
    Chain6(x, a, b, c, e, f, [Ident("interface")], [Ident(n)], [Sym("{")], PInterfaceItems(items), POptBehavior(beh),
           [Sym("}")], d);
  }

  lemma FunctionLex(x: seq<Lexeme>, a: seq<Lexeme>, b: seq<Lexeme>, c: seq<Lexeme>, e: seq<Lexeme>, f: seq<Lexeme>,
                    d: seq<Lexeme>, t: TypeName, n: string, fs: seq<Formal>, body: seq<Stmt>)
    requires x == PTypeName(t) + a && a == [Ident(n)] + b && b == PFormals(fs) + c
    requires c == [Sym("{")] + e && e == PStmts(body) + f && f == [Sym("}")] + d
    ensures x == PBehaviorItem(Function(t, n, fs, body)) + d
  {
    Chain6(x, a, b, c, e, f, PTypeName(t), [Ident(n)], PFormals(fs), [Sym("{")], PStmts(body), [Sym("}")], d);
  }

  lemma BehaviorItemsLex(x: seq<Lexeme>, a: seq<Lexeme>, d: seq<Lexeme>, b: BehaviorItem, bs: seq<BehaviorItem>)
    requires x == PBehaviorItem(b) + a && a == PBehaviorItems(bs) + d
    ensures x == PBehaviorItems([b] + bs) + d
  {
    BehaviorItemsCons(b, bs);
    Chain2(x, a, PBehaviorItem(b), PBehaviorItems(bs), d);
  }

  lemma AllBehaviorItems(rev: Revision, b: BehaviorItem, bs: seq<BehaviorItem>)
    requires BehaviorItemShape(rev, b) && forall i :: 0 <= i < |bs| ==> BehaviorItemShape(rev, bs[i])
    ensures forall i :: 0 <= i < |[b] + bs| ==> BehaviorItemShape(rev, ([b] + bs)[i])
  {
  }

  lemma BehaviorLex(x: seq<Lexeme>, a: seq<Lexeme>, b: seq<Lexeme>, c: seq<Lexeme>, e: seq<Lexeme>, d: seq<Lexeme>,
                    british: bool, n: Option<string>, items: seq<BehaviorItem>)
    requires x == [Ident(if british then "behaviour" else "behavior")] + a && a == POptIdent(n) + b
    requires b == [Sym("{")] + c && c == PBehaviorItems(items) + e && e == [Sym("}")] + d
    ensures x == PBehavior(Behavior(british, n, items)) + d
  {
    Chain5(x, a, b, c, e, [Ident(if british then "behaviour" else "behavior")], POptIdent(n), [Sym("{")],
           PBehaviorItems(items), [Sym("}")], d);
  }

  lemma PortTailLex(x: seq<Lexeme>, a: seq<Lexeme>, b: seq<Lexeme>, c: seq<Lexeme>, d: seq<Lexeme>,
                    t: Name, fs: Option<seq<Formal>>, n: string)
    requires x == PName(t) + a && a == POptFormals(fs) + b && b == [Ident(n)] + c && c == [Sym(";")] + d
    ensures x == PName(t) + POptFormals(fs) + [Ident(n)] + [Sym(";")] + d
  {
    Chain4(x, a, b, c, PName(t), POptFormals(fs), [Ident(n)], [Sym(";")], d);
  }

  lemma PortLex(x: seq<Lexeme>, a: seq<Lexeme>, b: seq<Lexeme>, d: seq<Lexeme>, p: Port)
    requires x == [Ident(if p.dir == Provides then "provides" else "requires")] + a && a == PQualifier(p.qualifier) + b
    requires b == PName(p.typ) + POptFormals(p.formals) + [Ident(p.name)] + [Sym(";")] + d
    ensures x == PPort(p) + d
  {
    PortChain(x, a, b, d, [Ident(if p.dir == Provides then "provides" else "requires")], PQualifier(p.qualifier),
              PName(p.typ), POptFormals(p.formals), [Ident(p.name)], [Sym(";")]);
  }

  lemma PortChain(x: seq<Lexeme>, a: seq<Lexeme>, b: seq<Lexeme>, d: seq<Lexeme>,
                  k: seq<Lexeme>, q: seq<Lexeme>, t: seq<Lexeme>, f: seq<Lexeme>, n: seq<Lexeme>, e: seq<Lexeme>)
    requires x == k + a && a == q + b && b == t + f + n + e + d
    ensures x == k + q + t + f + n + e + d
  {
  }

  lemma PortsLex(x: seq<Lexeme>, a: seq<Lexeme>, d: seq<Lexeme>, p: Port, ps: seq<Port>)
    requires x == PPort(p) + a && a == PPorts(ps) + d
    ensures x == PPorts([p] + ps) + d
  {
    PortsCons(p, ps);
    Chain2(x, a, PPort(p), PPorts(ps), d);
  }

  lemma InstanceLex(x: seq<Lexeme>, a: seq<Lexeme>, b: seq<Lexeme>, d: seq<Lexeme>, t: Name, n: string)
    requires x == PName(t) + a && a == [Ident(n)] + b && b == [Sym(";")] + d
    ensures x == PSystemItem(Instance(t, n)) + d
  {
    Chain3(x, a, b, PName(t), [Ident(n)], [Sym(";")], d);
  }

  lemma BindingLex(x: seq<Lexeme>, a: seq<Lexeme>, b: seq<Lexeme>, c: seq<Lexeme>, d: seq<Lexeme>, l: EndPoint, r: EndPoint)
    requires x == PEndPoint(l) + a && a == [Sym("<=>")] + b && b == PEndPoint(r) + c && c == [Sym(";")] + d
    ensures x == PSystemItem(Binding(l, r)) + d
  {
    Chain4(x, a, b, c, PEndPoint(l), [Sym("<=>")], PEndPoint(r), [Sym(";")], d);
  }

  lemma SystemItemsLex(x: seq<Lexeme>, a: seq<Lexeme>, d: seq<Lexeme>, i: SystemItem, items: seq<SystemItem>)
    requires x == PSystemItem(i) + a && a == PSystemItems(items) + d
    ensures x == PSystemItems([i] + items) + d
  {
    SystemItemsCons(i, items);
    Chain2(x, a, PSystemItem(i), PSystemItems(items), d);
  }

  lemma SystemLex(x: seq<Lexeme>, a: seq<Lexeme>, b: seq<Lexeme>, c: seq<Lexeme>, d: seq<Lexeme>, items: seq<SystemItem>)
    requires x == [Ident("system")] + a && a == [Sym("{")] + b && b == PSystemItems(items) + c && c == [Sym("}")] + d
    ensures x == PBody(SystemBody(items)) + d
  {
    Chain4(x, a, b, c, [Ident("system")], [Sym("{")], PSystemItems(items), [Sym("}")], d);
  }

  lemma ComponentLex(x: seq<Lexeme>, a: seq<Lexeme>, b: seq<Lexeme>, c: seq<Lexeme>, e: seq<Lexeme>, f: seq<Lexeme>,
                     d: seq<Lexeme>, n: string, ps: seq<Port>, body: Body)
    requires x == [Ident("component")] + a && a == [Ident(n)] + b && b == [Sym("{")] + c
    requires c == PPorts(ps) + e && e == PBody(body) + f && f == [Sym("}")] + d
    ensures x == PComponent(Component(n, ps, body)) + d
  {
    Chain6(x, a, b, c, e, f, [Ident("component")], [Ident(n)], [Sym("{")], PPorts(ps), PBody(body), [Sym("}")], d);
  }

  lemma ImportLex(x: seq<Lexeme>, a: seq<Lexeme>, b: seq<Lexeme>, d: seq<Lexeme>, f: string)
    requires x == [Ident("import")] + a && a == [FileName(f)] + b && b == [Sym(";")] + d
    ensures x == PDecl(Import(f)) + d
  {
    Chain3(x, a, b, [Ident("import")], [FileName(f)], [Sym(";")], d);
  }

  lemma DeclsLex(x: seq<Lexeme>, a: seq<Lexeme>, d: seq<Lexeme>, v: Decl, vs: seq<Decl>)
    requires x == PDecl(v) + a && a == PDecls(vs) + d
    ensures x == PDecls([v] + vs) + d
  {
    DeclsCons(v, vs);
    Chain2(x, a, PDecl(v), PDecls(vs), d);
  }

  lemma AllDecls(rev: Revision, nested: bool, v: Decl, vs: seq<Decl>)
    requires DeclShape(rev, nested, v) && forall i :: 0 <= i < |vs| ==> DeclShape(rev, nested, vs[i])
    ensures forall i :: 0 <= i < |[v] + vs| ==> DeclShape(rev, nested, ([v] + vs)[i])
  {
  }

  lemma NamespaceLex(x: seq<Lexeme>, a: seq<Lexeme>, b: seq<Lexeme>, c: seq<Lexeme>, e: seq<Lexeme>, d: seq<Lexeme>,
                     n: Name, ds: seq<Decl>)
    requires x == [Ident("namespace")] + a && a == PName(n) + b && b == [Sym("{")] + c
    requires c == PDecls(ds) + e && e == [Sym("}")] + d
    ensures x == PDecl(Namespace(n, ds)) + d
  {
    Chain5(x, a, b, c, e, [Ident("namespace")], PName(n), [Sym("{")], PDecls(ds), [Sym("}")], d);
  }
}
