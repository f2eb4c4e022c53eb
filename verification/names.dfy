/** Names and the small shared rules: `compound_name`, `type_name`, `number`, `formals`
    and the system `end_point`. */
module Names {
  import opened Tokens
  import opened Ast

  /** The input continues a compound name: a `.` and an identifier. In the backup
      revision the `.` must follow the previous identifier immediately. */
  predicate ContinuesName(rev: Revision, toks: seq<Token>) {
    && |toks| >= 2
    && toks[0].lex == Sym(".")
    && toks[1].lex.Ident?
    && (rev == Current || toks[0].glued)
  }

  /** The number of tokens a parse consumed. */
  function Consumed<T>(toks: seq<Token>, p: Parsed<T>): nat
    requires |p.rest| <= |toks|
  {
    |toks| - |p.rest|
  }

  /** `identifier ('.' identifier)*`, taking as many parts as there are. */
  function ParseNameParts(rev: Revision, toks: seq<Token>): (r: Option<Parsed<seq<string>>>)
    ensures r.Some? <==> |toks| > 0 && toks[0].lex.Ident?
    ensures r.Some? ==> |r.value.node| >= 1 && |r.value.rest| < |toks|
    ensures r.Some? ==> Lex(toks) == PParts(r.value.node) + Lex(r.value.rest)
    decreases |toks|
  {
    var id :- ExpectIdent(toks);
    if ContinuesName(rev, id.rest) then
      var more := ParseNameParts(rev, id.rest[1..]).value;
      PartsLex(Lex(toks), Lex(id.rest), Lex(id.rest[1..]), Lex(more.rest), id.node, more.node);
      Some(Parsed([id.node] + more.node, more.rest))
    else
      Some(Parsed([id.node], id.rest))
  }

  /** `compound_name`: an optional global `.` and the parts. */
  function ParseCompoundName(rev: Revision, toks: seq<Token>): (r: Option<Parsed<Name>>)
    ensures r.Some? ==> |r.value.node.parts| >= 1 && |r.value.rest| < |toks|
    ensures r.Some? ==> Lex(toks) == PName(r.value.node) + Lex(r.value.rest)
  {
    if At(toks, Sym(".")) then
      var ps :- ParseNameParts(rev, toks[1..]);
      Some(Parsed(Name(true, ps.node), ps.rest))
    else
      var ps :- ParseNameParts(rev, toks);
      Some(Parsed(Name(false, ps.node), ps.rest))
  }

  /** `type_name`: `bool`, `void` or a compound name. */
  function ParseTypeName(rev: Revision, toks: seq<Token>): (r: Option<Parsed<TypeName>>)
    ensures r.Some? ==> |r.value.rest| < |toks|
    ensures r.Some? ==> Lex(toks) == PTypeName(r.value.node) + Lex(r.value.rest)
  {
    if At(toks, Ident("bool")) then Some(Parsed(BoolType, toks[1..]))
    else if At(toks, Ident("void")) then Some(Parsed(VoidType, toks[1..]))
    else
      var n :- ParseCompoundName(rev, toks);
      Some(Parsed(Named(n.node), n.rest))
  }

  /** `number`: digits, or a `-` immediately followed by digits. */
  function ParseNumber(toks: seq<Token>): (r: Option<Parsed<Number>>)
    ensures r.Some? ==> |r.value.rest| < |toks|
    ensures r.Some? ==> Lex(toks) == PNumber(r.value.node) + Lex(r.value.rest)
    ensures r.Some? && r.value.node.negative ==> toks[1].glued
  {
    if |toks| > 0 && toks[0].lex.Num? then
      Some(Parsed(Number(false, toks[0].lex.digits), toks[1..]))
    else if At(toks, Sym("-")) && |toks| > 1 && toks[1].lex.Num? && toks[1].glued then
      Some(Parsed(Number(true, toks[1].lex.digits), toks[1..][1..]))
    else None
  }

  function ParamDirOf(toks: seq<Token>): Option<ParamDir> {
    if At(toks, Ident("in")) then Some(InParam)
    else if At(toks, Ident("out")) then Some(OutParam)
    else if At(toks, Ident("inout")) then Some(InOutParam)
    else None
  }

  /** A formal after its direction: `type_name var_name`. */
  function ParseFormalTail(rev: Revision, dir: Option<ParamDir>, toks: seq<Token>): (r: Option<Parsed<Formal>>)
    ensures r.Some? ==> |r.value.rest| < |toks| && r.value.node.dir == dir
    ensures r.Some? ==> PParamDir(dir) + Lex(toks) == PFormal(r.value.node) + Lex(r.value.rest)
  {
    var t :- ParseTypeName(rev, toks);
    var x :- ExpectIdent(t.rest);
    Some(Parsed(Formal(dir, t.node, x.node), x.rest))
  }

  /** `formal`: an optional `in`/`out`/`inout`, a type and a name. A leading direction word
      is read as the direction when the rest then parses, and as the type otherwise. */
  function ParseFormal(rev: Revision, toks: seq<Token>): (r: Option<Parsed<Formal>>)
    ensures r.Some? ==> |r.value.rest| < |toks|
    ensures r.Some? ==> Lex(toks) == PFormal(r.value.node) + Lex(r.value.rest)
  {
    var d := ParamDirOf(toks);
    if d.Some? then
      match ParseFormalTail(rev, d, toks[1..])
      case Some(f) => Some(f)
      case None => ParseFormalTail(rev, None, toks)
    else ParseFormalTail(rev, None, toks)
  }

  /** `formal (',' formal)*`. */
  function ParseFormalList(rev: Revision, toks: seq<Token>): (r: Option<Parsed<seq<Formal>>>)
    ensures r.Some? ==> |r.value.node| >= 1 && |r.value.rest| < |toks|
    ensures r.Some? ==> Lex(toks) == PFormalList(r.value.node) + Lex(r.value.rest)
    decreases |toks|
  {
    var f :- ParseFormal(rev, toks);
    assert PFormalList([f.node]) == PFormal(f.node);
    var one := Parsed([f.node], f.rest);
    var sep := Expect(f.rest, Sym(","));
    assert Lex(toks) == PFormalList(one.node) + Lex(one.rest);
    if sep.None? then Some(one)
    else
      var tail := ParseFormalList(rev, sep.value);
      if tail.None? then Some(one)
      else
        var more := tail.value;
        FormalListLex(Lex(toks), Lex(f.rest), Lex(sep.value), Lex(more.rest), f.node, more.node);
        Some(Parsed([f.node] + more.node, more.rest))
  }

  /** `formals`: `(` and an optional formal list, then `)`. */
  function ParseFormals(rev: Revision, toks: seq<Token>): (r: Option<Parsed<seq<Formal>>>)
    ensures r.Some? ==> |r.value.rest| < |toks|
    ensures r.Some? ==> Lex(toks) == PFormals(r.value.node) + Lex(r.value.rest)
  {
    var open :- Expect(toks, Sym("("));
    match ParseFormalList(rev, open)
    case Some(fs) =>
      var close :- Expect(fs.rest, Sym(")"));
      Chain3(Lex(toks), Lex(open), Lex(fs.rest), [Sym("(")], PFormalList(fs.node), [Sym(")")], Lex(close));
      Some(Parsed(fs.node, close))
    case None =>
      var close :- Expect(open, Sym(")"));
      Chain3(Lex(toks), Lex(open), Lex(open), [Sym("(")], PFormalList([]), [Sym(")")], Lex(close));
      Some(Parsed([], close))
  }

  /** `end_point`: `*`, or a compound name with an optional `.*` after it. */
  function ParseEndPoint(rev: Revision, toks: seq<Token>): (r: Option<Parsed<EndPoint>>)
    ensures r.Some? ==> |r.value.rest| < |toks|
    ensures r.Some? ==> Lex(toks) == PEndPoint(r.value.node) + Lex(r.value.rest)
  {
    if At(toks, Sym("*")) then Some(Parsed(Wildcard, toks[1..]))
    else
      var n :- ParseCompoundName(rev, toks);
      var dot := Expect(n.rest, Sym("."));
      var star := if dot.Some? then Expect(dot.value, Sym("*")) else None;
      if star.Some? then
        Chain3(Lex(toks), Lex(n.rest), Lex(dot.value), PName(n.node), [Sym(".")], [Sym("*")], Lex(star.value));
        assert PEndPoint(Path(n.node, true)) == PName(n.node) + [Sym(".")] + [Sym("*")];
        Some(Parsed(Path(n.node, true), star.value))
      else
        assert PEndPoint(Path(n.node, false)) == PName(n.node) + [];
        Some(Parsed(Path(n.node, false), n.rest))
  }

  lemma PartsLex(x: seq<Lexeme>, a: seq<Lexeme>, b: seq<Lexeme>, d: seq<Lexeme>, p: string, ps: seq<string>)
    requires ps != []
    requires x == [Ident(p)] + a && a == [Sym(".")] + b && b == PParts(ps) + d
    ensures x == PParts([p] + ps) + d
  {
    PartsCons(p, ps);
    Chain3(x, a, b, [Ident(p)], [Sym(".")], PParts(ps), d);
  }

  lemma FormalListLex(x: seq<Lexeme>, a: seq<Lexeme>, b: seq<Lexeme>, d: seq<Lexeme>, f: Formal, fs: seq<Formal>)
    requires fs != []
    requires x == PFormal(f) + a && a == [Sym(",")] + b && b == PFormalList(fs) + d
    ensures x == PFormalList([f] + fs) + d
  {
    FormalListCons(f, fs);
    Chain3(x, a, b, PFormal(f), [Sym(",")], PFormalList(fs), d);
  }
}
