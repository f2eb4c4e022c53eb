/** The syntax tree the grammar tables describe, and its printer: the lexemes each node
    is written with. The printer is the partner of every parse function: a successful
    parse consumes exactly the printed form of the node it returns. */
module Ast {
  import opened Tokens

  /** `compound_name`: an optional global `.` and a `.`-separated path of identifiers. */
  datatype Name = Name(global: bool, parts: seq<string>)

  datatype TypeName = BoolType | VoidType | Named(name: Name)

  /** A `number` lexeme `-?[0-9]+`. */
  datatype Number = Number(negative: bool, digits: string)

  datatype UnaryOp = Not | Neg

  /** The ten binary operators; the grammar gives them all one precedence. */
  datatype BinaryOp = Or | And | Lt | Le | Eq | Ne | Ge | Gt | Plus | Minus

  datatype Expr =
    | Unary(uop: UnaryOp, operand: Expr)
    | Binary(bop: BinaryOp, left: Expr, right: Expr)
    | NumberLit(num: Number)
    | BoolLit(truth: bool)
    | Ref(ref: Name)
    | Call(fn: string, args: seq<Expr>)
    | Action(port: string, event: string, actionArgs: seq<Expr>)
    | Group(inner: Expr)
    | Splice(text: string)

  datatype ParamDir = InParam | OutParam | InOutParam

  datatype Formal = Formal(dir: Option<ParamDir>, typ: TypeName, name: string)

  /** `trigger_formal`: a variable, optionally `<-` another one. */
  datatype TriggerFormal = TriggerFormal(local: string, target: Option<string>)

  datatype Trigger =
    | PortEvent(triggerPort: string, triggerEvent: string, formals: seq<TriggerFormal>)
    | OptionalTrigger
    | InevitableTrigger
    | EventTrigger(eventName: string)

  datatype GuardCond = Otherwise | Condition(cond: Expr)

  datatype Stmt =
    // declarative statements
    | On(triggers: seq<Trigger>, onBody: Stmt)
    | Blocking(blocked: Stmt)
    | Guard(guard: GuardCond, guarded: Stmt)
    | Compound(stmts: seq<Stmt>)
    // imperative statements
    | Variable(varType: TypeName, varName: string, init: Option<Expr>)
    | Assign(target: string, value: Expr)
    | If(test: Expr, thenBranch: Stmt, elseBranch: Option<Stmt>)
    | Illegal
    | Return(result: Option<Expr>)
    | Skip
    | Reply(replyPort: Option<string>, replyValue: Option<Expr>)
    | Defer(deferArgs: Option<seq<Expr>>, deferred: Stmt)
    | BareDefer
    | ActionStmt(actPort: string, actEvent: string, actArgs: seq<Expr>)
    | CallStmt(callee: string, callArgs: seq<Expr>)
    | InterfaceAction(actionName: string)

  datatype TypeDecl =
    | Enum(enumName: string, fields: seq<string>, trailingComma: bool)
    | Subint(subintName: string, from: Number, to: Number)
    | Extern(externName: string, payload: string)

  datatype EventDir = InEvent | OutEvent

  datatype Event = Event(dir: EventDir, typ: TypeName, name: string, formals: seq<Formal>)

  datatype BehaviorItem =
    | Function(returnType: TypeName, fnName: string, params: seq<Formal>, body: seq<Stmt>)
    | Member(stmt: Stmt)
    | LocalType(localType: TypeDecl)

  /** `british` records the `behaviour` spelling. */
  datatype Behavior = Behavior(british: bool, name: Option<string>, items: seq<BehaviorItem>)

  datatype InterfaceItem = TypeItem(decl: TypeDecl) | EventItem(event: Event)

  datatype Interface = Interface(name: string, items: seq<InterfaceItem>, behavior: Option<Behavior>)

  datatype PortDir = Provides | Requires

  datatype Qualifier = BlockingPort | ExternalPort | InjectedPort

  datatype Port = Port(dir: PortDir, qualifier: Option<Qualifier>, typ: Name, formals: Option<seq<Formal>>, name: string)

  /** `end_point`: a bare `*`, or a compound name optionally followed by `.*`. */
  datatype EndPoint = Wildcard | Path(path: Name, wildcard: bool)

  datatype SystemItem = Instance(typ: Name, name: string) | Binding(left: EndPoint, right: EndPoint)

  datatype Body = BehaviorBody(behavior: Behavior) | SystemBody(system: seq<SystemItem>)

  datatype Component = Component(name: string, ports: seq<Port>, body: Body)

  datatype Decl =
    | Import(file: string)
    | RawBlock(text: string)
    | TypeDef(typeDecl: TypeDecl)
    | Namespace(nsName: Name, decls: seq<Decl>)
    | InterfaceDef(iface: Interface)
    | ComponentDef(component: Component)

  // ---------------------------------------------------------------- printer

  function PParts(parts: seq<string>): seq<Lexeme> {
    if parts == [] then []
    else if |parts| == 1 then [Ident(parts[0])]
    else [Ident(parts[0])] + [Sym(".")] + PParts(parts[1..])
  }

  lemma PartsCons(x: string, xs: seq<string>)
    requires xs != []
    ensures PParts([x] + xs) == [Ident(x)] + [Sym(".")] + PParts(xs)
  {
    assert ([x] + xs)[1..] == xs;
  }

  function PName(n: Name): seq<Lexeme> {
    (if n.global then [Sym(".")] else []) + PParts(n.parts)
  }

  function PTypeName(t: TypeName): seq<Lexeme> {
    match t
    case BoolType => [Ident("bool")]
    case VoidType => [Ident("void")]
    case Named(n) => PName(n)
  }

  function PNumber(n: Number): seq<Lexeme> {
    (if n.negative then [Sym("-")] else []) + [Num(n.digits)]
  }

  function OpSymbol(op: BinaryOp): string {
    match op
    case Or => "||"
    case And => "&&"
    case Lt => "<"
    case Le => "<="
    case Eq => "=="
    case Ne => "!="
    case Ge => ">="
    case Gt => ">"
    case Plus => "+"
    case Minus => "-"
  }

  function PExpr(e: Expr): seq<Lexeme> {
    match e
    case Unary(op, x) => [Sym(if op == Not then "!" else "-")] + PExpr(x)
    case Binary(op, l, r) => PExpr(l) + [Sym(OpSymbol(op))] + PExpr(r)
    case NumberLit(n) => PNumber(n)
    case BoolLit(b) => [Ident(if b then "true" else "false")]
    case Ref(n) => PName(n)
    case Call(f, args) => [Ident(f)] + PArgs(args)
    case Action(p, ev, args) => [Ident(p)] + [Sym(".")] + [Ident(ev)] + PArgs(args)
    case Group(x) => [Sym("(")] + PExpr(x) + [Sym(")")]
    case Splice(t) => [Raw(t)]
  }

  /** `arguments`: a parenthesised, comma-separated list. */
  function PArgs(args: seq<Expr>): seq<Lexeme>
    decreases args, 1
  {
    [Sym("(")] + PExprList(args) + [Sym(")")]
  }

  function PExprList(es: seq<Expr>): seq<Lexeme>
    decreases es, 0
  {
    if es == [] then []
    else if |es| == 1 then PExpr(es[0])
    else PExpr(es[0]) + [Sym(",")] + PExprList(es[1..])
  }

  lemma ExprListCons(e: Expr, es: seq<Expr>)
    requires es != []
    ensures PExprList([e] + es) == PExpr(e) + [Sym(",")] + PExprList(es)
  {
    assert ([e] + es)[1..] == es;
  }

  function PParamDir(d: Option<ParamDir>): seq<Lexeme> {
    match d
    case None => []
    case Some(InParam) => [Ident("in")]
    case Some(OutParam) => [Ident("out")]
    case Some(InOutParam) => [Ident("inout")]
  }

  function PFormal(f: Formal): seq<Lexeme> {
    PParamDir(f.dir) + PTypeName(f.typ) + [Ident(f.name)]
  }

  function PFormalList(fs: seq<Formal>): seq<Lexeme> {
    if fs == [] then []
    else if |fs| == 1 then PFormal(fs[0])
    else PFormal(fs[0]) + [Sym(",")] + PFormalList(fs[1..])
  }

  lemma FormalListCons(f: Formal, fs: seq<Formal>)
    requires fs != []
    ensures PFormalList([f] + fs) == PFormal(f) + [Sym(",")] + PFormalList(fs)
  {
    assert ([f] + fs)[1..] == fs;
  }

  function PFormals(fs: seq<Formal>): seq<Lexeme> {
    [Sym("(")] + PFormalList(fs) + [Sym(")")]
  }

  function PTriggerFormal(f: TriggerFormal): seq<Lexeme> {
    [Ident(f.local)] + (if f.target.Some? then [Sym("<"), Sym("-"), Ident(f.target.value)] else [])
  }

  function PTriggerFormalList(fs: seq<TriggerFormal>): seq<Lexeme> {
    if fs == [] then []
    else if |fs| == 1 then PTriggerFormal(fs[0])
    else PTriggerFormal(fs[0]) + [Sym(",")] + PTriggerFormalList(fs[1..])
  }

  function PTriggerFormals(fs: seq<TriggerFormal>): seq<Lexeme> {
    [Sym("(")] + PTriggerFormalList(fs) + [Sym(")")]
  }

  function PTrigger(t: Trigger): seq<Lexeme> {
    match t
    case PortEvent(p, ev, fs) => [Ident(p)] + [Sym(".")] + [Ident(ev)] + PTriggerFormals(fs)
    case OptionalTrigger => [Ident("optional")]
    case InevitableTrigger => [Ident("inevitable")]
    case EventTrigger(ev) => [Ident(ev)]
  }

  function PTriggers(ts: seq<Trigger>): seq<Lexeme> {
    if ts == [] then []
    else if |ts| == 1 then PTrigger(ts[0])
    else PTrigger(ts[0]) + [Sym(",")] + PTriggers(ts[1..])
  }

  function PGuardCond(g: GuardCond): seq<Lexeme> {
    match g
    case Otherwise => [Ident("otherwise")]
    case Condition(c) => PExpr(c)
  }

  function POptExpr(e: Option<Expr>): seq<Lexeme> {
    if e.Some? then PExpr(e.value) else []
  }

  /** The initialiser of a variable. */
  function PInit(init: Option<Expr>): seq<Lexeme> {
    if init.Some? then [Sym("=")] + PExpr(init.value) else []
  }

  /** The port in front of `reply`. */
  function PPortPrefix(p: Option<string>): seq<Lexeme> {
    if p.Some? then [Ident(p.value), Sym(".")] else []
  }

  /** The arguments of `defer`. */
  function POptArgs(args: Option<seq<Expr>>): seq<Lexeme> {
    if args.Some? then PArgs(args.value) else []
  }

  function PStmt(s: Stmt): seq<Lexeme> {
    match s
    case On(ts, b) => [Ident("on")] + PTriggers(ts) + [Sym(":")] + PStmt(b)
    case Blocking(b) => [Ident("blocking")] + PStmt(b)
    case Guard(g, b) => [Sym("[")] + PGuardCond(g) + [Sym("]")] + PStmt(b)
    case Compound(ss) => [Sym("{")] + PStmts(ss) + [Sym("}")]
    case Variable(t, x, init) =>
      PTypeName(t) + [Ident(x)] + PInit(init) + [Sym(";")]
    case Assign(x, e) => [Ident(x)] + [Sym("=")] + PExpr(e) + [Sym(";")]
    case If(c, t, e) =>
      [Ident("if")] + [Sym("(")] + PExpr(c) + [Sym(")")] + PStmt(t)
      + PElse(e)
    case Illegal => [Ident("illegal"), Sym(";")]
    case Return(e) => [Ident("return")] + POptExpr(e) + [Sym(";")]
    case Skip => [Sym(";")]
    case Reply(p, e) =>
      PPortPrefix(p) + [Ident("reply")] + [Sym("(")] + POptExpr(e) + [Sym(")")] + [Sym(";")]
    case Defer(args, b) => [Ident("defer")] + POptArgs(args) + PStmt(b)
    case BareDefer => [Ident("defer"), Sym(";")]
    case ActionStmt(p, ev, args) => [Ident(p)] + [Sym(".")] + [Ident(ev)] + PArgs(args) + [Sym(";")]
    case CallStmt(f, args) => [Ident(f)] + PArgs(args) + [Sym(";")]
    case InterfaceAction(a) => [Ident(a), Sym(";")]
  }

  /** The else branch of an `if`. */
  function PElse(e: Option<Stmt>): seq<Lexeme> {
    if e.Some? then [Ident("else")] + PStmt(e.value) else []
  }

  function PStmts(ss: seq<Stmt>): seq<Lexeme> {
    if ss == [] then [] else PStmt(ss[0]) + PStmts(ss[1..])
  }

  lemma StmtsCons(s: Stmt, ss: seq<Stmt>)
    ensures PStmts([s] + ss) == PStmt(s) + PStmts(ss)
  {
    assert ([s] + ss)[1..] == ss;
  }

  lemma TriggersCons(t: Trigger, ts: seq<Trigger>)
    requires ts != []
    ensures PTriggers([t] + ts) == PTrigger(t) + [Sym(",")] + PTriggers(ts)
  {
    assert ([t] + ts)[1..] == ts;
  }

  lemma TriggerFormalsCons(f: TriggerFormal, fs: seq<TriggerFormal>)
    requires fs != []
    ensures PTriggerFormalList([f] + fs) == PTriggerFormal(f) + [Sym(",")] + PTriggerFormalList(fs)
  {
    assert ([f] + fs)[1..] == fs;
  }

  function PIdentList(xs: seq<string>): seq<Lexeme> {
    if xs == [] then []
    else if |xs| == 1 then [Ident(xs[0])]
    else [Ident(xs[0])] + [Sym(",")] + PIdentList(xs[1..])
  }

  function PTrailingComma(trailing: bool): seq<Lexeme> {
    if trailing then [Sym(",")] else []
  }

  function PTypeDecl(t: TypeDecl): seq<Lexeme> {
    match t
    case Enum(n, fs, trailing) =>
      [Ident("enum")] + [Ident(n)] + [Sym("{")] + PIdentList(fs) + PTrailingComma(trailing) + [Sym("}")] + [Sym(";")]
    case Subint(n, lo, hi) =>
      [Ident("subint")] + [Ident(n)] + [Sym("{")] + PNumber(lo) + [Sym("..")] + PNumber(hi) + [Sym("}")] + [Sym(";")]
    case Extern(n, v) => [Ident("extern")] + [Ident(n)] + [Raw(v)] + [Sym(";")]
  }

  function PEvent(e: Event): seq<Lexeme> {
    [Ident(if e.dir == InEvent then "in" else "out")] + PTypeName(e.typ) + [Ident(e.name)] + PFormals(e.formals) + [Sym(";")]
  }

  function PBehaviorItem(b: BehaviorItem): seq<Lexeme> {
    match b
    case Function(t, f, ps, body) => PTypeName(t) + [Ident(f)] + PFormals(ps) + [Sym("{")] + PStmts(body) + [Sym("}")]
    case Member(s) => PStmt(s)
    case LocalType(t) => PTypeDecl(t)
  }

  function POptIdent(x: Option<string>): seq<Lexeme> {
    if x.Some? then [Ident(x.value)] else []
  }

  function PBehaviorItems(bs: seq<BehaviorItem>): seq<Lexeme> {
    if bs == [] then [] else PBehaviorItem(bs[0]) + PBehaviorItems(bs[1..])
  }

  function PBehavior(b: Behavior): seq<Lexeme> {
    [Ident(if b.british then "behaviour" else "behavior")] + POptIdent(b.name)
    + [Sym("{")] + PBehaviorItems(b.items) + [Sym("}")]
  }

  function PInterfaceItem(x: InterfaceItem): seq<Lexeme> {
    match x
    case TypeItem(t) => PTypeDecl(t)
    case EventItem(e) => PEvent(e)
  }

  function POptBehavior(b: Option<Behavior>): seq<Lexeme> {
    if b.Some? then PBehavior(b.value) else []
  }

  function PInterfaceItems(xs: seq<InterfaceItem>): seq<Lexeme> {
    if xs == [] then []
    else PInterfaceItem(xs[0]) + PInterfaceItems(xs[1..])
  }

  function PInterface(i: Interface): seq<Lexeme> {
    [Ident("interface")] + [Ident(i.name)] + [Sym("{")] + PInterfaceItems(i.items)
    + POptBehavior(i.behavior) + [Sym("}")]
  }

  function PQualifier(q: Option<Qualifier>): seq<Lexeme> {
    match q
    case None => []
    case Some(BlockingPort) => [Ident("blocking")]
    case Some(ExternalPort) => [Ident("external")]
    case Some(InjectedPort) => [Ident("injected")]
  }

  function POptFormals(fs: Option<seq<Formal>>): seq<Lexeme> {
    if fs.Some? then PFormals(fs.value) else []
  }

  function PPort(p: Port): seq<Lexeme> {
    [Ident(if p.dir == Provides then "provides" else "requires")] + PQualifier(p.qualifier) + PName(p.typ)
    + POptFormals(p.formals) + [Ident(p.name)] + [Sym(";")]
  }

  function PPorts(ps: seq<Port>): seq<Lexeme> {
    if ps == [] then [] else PPort(ps[0]) + PPorts(ps[1..])
  }

  function PEndPoint(e: EndPoint): seq<Lexeme> {
    match e
    case Wildcard => [Sym("*")]
    case Path(n, w) => PName(n) + (if w then [Sym("."), Sym("*")] else [])
  }

  function PSystemItem(x: SystemItem): seq<Lexeme> {
    match x
    case Instance(t, n) => PName(t) + [Ident(n)] + [Sym(";")]
    case Binding(l, r) => PEndPoint(l) + [Sym("<=>")] + PEndPoint(r) + [Sym(";")]
  }

  function PSystemItems(xs: seq<SystemItem>): seq<Lexeme> {
    if xs == [] then [] else PSystemItem(xs[0]) + PSystemItems(xs[1..])
  }

  function PBody(b: Body): seq<Lexeme> {
    match b
    case BehaviorBody(beh) => PBehavior(beh)
    case SystemBody(xs) => [Ident("system")] + [Sym("{")] + PSystemItems(xs) + [Sym("}")]
  }

  function PComponent(c: Component): seq<Lexeme> {
    [Ident("component")] + [Ident(c.name)] + [Sym("{")] + PPorts(c.ports) + PBody(c.body) + [Sym("}")]
  }

  function PDecl(d: Decl): seq<Lexeme> {
    match d
    case Import(f) => [Ident("import")] + [FileName(f)] + [Sym(";")]
    case RawBlock(t) => [Raw(t)]
    case TypeDef(t) => PTypeDecl(t)
    case Namespace(n, ds) => [Ident("namespace")] + PName(n) + [Sym("{")] + PDecls(ds) + [Sym("}")]
    case InterfaceDef(i) => PInterface(i)
    case ComponentDef(c) => PComponent(c)
  }

  function PDecls(ds: seq<Decl>): seq<Lexeme> {
    if ds == [] then [] else PDecl(ds[0]) + PDecls(ds[1..])
  }

  lemma IdentListCons(x: string, xs: seq<string>)
    requires xs != []
    ensures PIdentList([x] + xs) == [Ident(x)] + [Sym(",")] + PIdentList(xs)
  {
    assert ([x] + xs)[1..] == xs;
  }

  lemma BehaviorItemsCons(b: BehaviorItem, bs: seq<BehaviorItem>)
    ensures PBehaviorItems([b] + bs) == PBehaviorItem(b) + PBehaviorItems(bs)
  {
    assert ([b] + bs)[1..] == bs;
  }

  lemma InterfaceItemsCons(x: InterfaceItem, xs: seq<InterfaceItem>)
    ensures PInterfaceItems([x] + xs) == PInterfaceItem(x) + PInterfaceItems(xs)
  {
    assert ([x] + xs)[1..] == xs;
  }

  lemma PortsCons(p: Port, ps: seq<Port>)
    ensures PPorts([p] + ps) == PPort(p) + PPorts(ps)
  {
    assert ([p] + ps)[1..] == ps;
  }

  lemma SystemItemsCons(x: SystemItem, xs: seq<SystemItem>)
    ensures PSystemItems([x] + xs) == PSystemItem(x) + PSystemItems(xs)
  {
    assert ([x] + xs)[1..] == xs;
  }

  lemma DeclsCons(d: Decl, ds: seq<Decl>)
    ensures PDecls([d] + ds) == PDecl(d) + PDecls(ds)
  {
    assert ([d] + ds)[1..] == ds;
  }
}
