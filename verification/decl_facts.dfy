/** Properties of the declaration rules: printed enums, ports and bindings parse back to
    themselves, the lists they hold reject empty and doubled separators, a component needs
    a body, and the backup revision has no components. */
module DeclFacts {
  import opened Tokens
  import opened Ast
  import opened Names
  import opened Declarations
  import opened NameFacts
  import opened ExprFacts

  // ----- enums -----

  /** A `,` followed by a name: the input continues an identifier list. */
  predicate ContinuesList(toks: seq<Token>) {
    |toks| >= 2 && toks[0].lex == Sym(",") && toks[1].lex.Ident?
  }

  lemma ListTokens(x: string, xs: seq<string>, rest: seq<Token>)
    requires xs != []
    ensures Glue(PIdentList([x] + xs)) + rest
         == [Token(Ident(x), false), Token(Sym(","), false)] + (Glue(PIdentList(xs)) + rest)
  {
    assert ([x] + xs)[1..] == xs;
    assert PIdentList([x] + xs) == [Ident(x)] + ([Sym(",")] + PIdentList(xs));
    GlueCons(Ident(x), [Sym(",")] + PIdentList(xs));
    GlueCons(Sym(","), PIdentList(xs));
  }

  lemma ListStep(x: string, tail: seq<Token>)
    requires ParseIdentList(tail).Some?
    ensures ParseIdentList([Token(Ident(x), false), Token(Sym(","), false)] + tail)
         == var m := ParseIdentList(tail).value; Some(Parsed([x] + m.node, m.rest))
  {
    var toks := [Token(Ident(x), false), Token(Sym(","), false)] + tail;
    assert toks[1..][1..] == tail;
  }

  /** A printed identifier list parses back to the same names, whatever follows that does
      not continue the list. */
  lemma {:induction false} IdentListRoundTrip(xs: seq<string>, rest: seq<Token>)
    requires |xs| >= 1 && !ContinuesList(rest)
    ensures ParseIdentList(Glue(PIdentList(xs)) + rest) == Some(Parsed(xs, rest))
    decreases |xs|
  {
    if |xs| == 1 {
      assert PIdentList(xs) == [Ident(xs[0])];
      GlueCons(Ident(xs[0]), []);
      var toks := [Token(Ident(xs[0]), false)] + rest;
      assert Glue(PIdentList(xs)) + rest == toks;
      assert toks[1..] == rest;
      assert [xs[0]] == xs;
    } else {
      assert xs == [xs[0]] + xs[1..];
      ListTokens(xs[0], xs[1..], rest);
      IdentListRoundTrip(xs[1..], rest);
      ListStep(xs[0], Glue(PIdentList(xs[1..])) + rest);
    }
  }

  lemma EnumLexemes(n: string, fs: seq<string>, t: bool)
    ensures PTypeDecl(Enum(n, fs, t))
         == [Ident("enum"), Ident(n), Sym("{")] + (PIdentList(fs) + (PTrailingComma(t) + [Sym("}"), Sym(";")]))
  {
  }

  lemma EnumTokens(n: string, fs: seq<string>, t: bool, rest: seq<Token>)
    ensures Glue(PTypeDecl(Enum(n, fs, t))) + rest
         == [Token(Ident("enum"), false), Token(Ident(n), false), Token(Sym("{"), false)]
            + (Glue(PIdentList(fs)) + (Glue(PTrailingComma(t)) + ([Token(Sym("}"), false), Token(Sym(";"), false)] + rest)))
  {
    var head := [Ident("enum"), Ident(n), Sym("{")];
    var close := [Sym("}"), Sym(";")];
    var l := PIdentList(fs);
    var c := PTrailingComma(t);
    EnumLexemes(n, fs, t);
    GlueCat(head, l + (c + close), rest);
    GlueCat(l, c + close, rest);
    GlueCat(c, close, rest);
    SpacedTokens3(Ident("enum"), Ident(n), Sym("{"));
    SpacedTokens2(Sym("}"), Sym(";"));
  }

  lemma SpacedTokens2(a: Lexeme, b: Lexeme)
    requires !PrintedGlued(a) && !PrintedGlued(b)
    ensures Glue([a, b]) == [Token(a, false), Token(b, false)]
  {
    GlueCons(a, [b]);
    GlueCons(b, []);
  }

  lemma SpacedTokens3(a: Lexeme, b: Lexeme, c: Lexeme)
    requires !PrintedGlued(a) && !PrintedGlued(b) && !PrintedGlued(c)
    ensures Glue([a, b, c]) == [Token(a, false), Token(b, false), Token(c, false)]
  {
    GlueCons(a, [b, c]);
    SpacedTokens2(b, c);
  }

  /** `ParseTypeDecl` hands an input starting with `enum` to `ParseEnum`. */
  lemma TypeDeclAtEnum(toks: seq<Token>)
    requires At(toks, Ident("enum"))
    ensures ParseTypeDecl(toks) == ParseEnum(toks)
  {
  }

  lemma EnumStep(n: string, body: seq<Token>)
    requires ParseIdentList(body).Some?
    ensures ParseEnum([Token(Ident("enum"), false), Token(Ident(n), false), Token(Sym("{"), false)] + body)
         == var fs := ParseIdentList(body).value;
            var t := ParseTrailingComma(fs.rest);
            if At(t.rest, Sym("}")) && At(t.rest[1..], Sym(";"))
            then Some(Parsed(Enum(n, fs.node, t.node), t.rest[2..]))
            else None
  {
    var toks := [Token(Ident("enum"), false), Token(Ident(n), false), Token(Sym("{"), false)] + body;
    assert Expect(toks, Ident("enum")) == Some(toks[1..]);
    assert ExpectIdent(toks[1..]) == Some(Parsed(n, toks[1..][1..]));
    assert toks[1..][1..][1..] == body;
    assert Expect(toks[1..][1..], Sym("{")) == Some(body);
  }

  /** A printed enum parses back to itself, with or without its trailing comma. */
  lemma EnumRoundTrip(n: string, fs: seq<string>, t: bool, rest: seq<Token>)
    requires |fs| >= 1
    ensures ParseTypeDecl(Glue(PTypeDecl(Enum(n, fs, t))) + rest) == Some(Parsed(Enum(n, fs, t), rest))
  {
    var close := [Token(Sym("}"), false), Token(Sym(";"), false)] + rest;
    var after := Glue(PTrailingComma(t)) + close;
    assert PTrailingComma(t) == (if t then [Sym(",")] else []);
    GlueCons(Sym(","), []);
    IdentListRoundTrip(fs, after);
    EnumTokens(n, fs, t, rest);
    EnumStep(n, Glue(PIdentList(fs)) + after);
    assert ParseTrailingComma(after).rest == close;
    assert close[1..][1..] == rest;
    TypeDeclAtEnum(Glue(PTypeDecl(Enum(n, fs, t))) + rest);
  }

  /** An enum names at least one value: `enum n { } ;` is no type definition. */
  lemma EnumNeedsField(n: string, rest: seq<Token>)
    ensures ParseTypeDecl([Token(Ident("enum"), false), Token(Ident(n), false), Token(Sym("{"), false),
                           Token(Sym("}"), false), Token(Sym(";"), false)] + rest).None?
  {
    var body := [Token(Sym("}"), false), Token(Sym(";"), false)] + rest;
    var toks := [Token(Ident("enum"), false), Token(Ident(n), false), Token(Sym("{"), false)] + body;
    assert toks[1..][1..][1..] == body;
    assert ParseIdentList(body).None?;
    TypeDeclAtEnum(toks);
  }

  /** At most one comma may trail the names: `enum n { x , , } ;` is no type definition. */
  lemma EnumOneTrailingComma(n: string, x: string, rest: seq<Token>)
    ensures ParseTypeDecl([Token(Ident("enum"), false), Token(Ident(n), false), Token(Sym("{"), false),
                           Token(Ident(x), false), Token(Sym(","), false), Token(Sym(","), false),
                           Token(Sym("}"), false), Token(Sym(";"), false)] + rest).None?
  {
    var after := [Token(Sym(","), false), Token(Sym(","), false), Token(Sym("}"), false), Token(Sym(";"), false)] + rest;
    var body := [Token(Ident(x), false)] + after;
    assert body[1..] == after;
    assert ParseIdentList(body) == Some(Parsed([x], after));
    assert ParseTrailingComma(after).rest == after[1..];
    assert !At(after[1..], Sym("}"));
    EnumStep(n, body);
    var toks := [Token(Ident("enum"), false), Token(Ident(n), false), Token(Sym("{"), false)] + body;
    assert toks == [Token(Ident("enum"), false), Token(Ident(n), false), Token(Sym("{"), false),
                    Token(Ident(x), false), Token(Sym(","), false), Token(Sym(","), false),
                    Token(Sym("}"), false), Token(Sym(";"), false)] + rest;
    TypeDeclAtEnum(toks);
  }

  // ----- subints, externs and type definitions -----

  lemma SubintLexemes(n: string, lo: Number, hi: Number)
    ensures PTypeDecl(Subint(n, lo, hi))
         == [Ident("subint"), Ident(n), Sym("{")] + (PNumber(lo) + ([Sym("..")] + (PNumber(hi) + [Sym("}"), Sym(";")])))
  {
  }

  lemma SubintTokens(n: string, lo: Number, hi: Number, rest: seq<Token>)
    ensures Glue(PTypeDecl(Subint(n, lo, hi))) + rest
         == [Token(Ident("subint"), false), Token(Ident(n), false), Token(Sym("{"), false)]
            + (Glue(PNumber(lo)) + ([Token(Sym(".."), false)] + (Glue(PNumber(hi))
            + ([Token(Sym("}"), false), Token(Sym(";"), false)] + rest))))
  {
    var head := [Ident("subint"), Ident(n), Sym("{")];
    var close := [Sym("}"), Sym(";")];
    SubintLexemes(n, lo, hi);
    GlueCat(head, PNumber(lo) + ([Sym("..")] + (PNumber(hi) + close)), rest);
    SpacedTokens3(Ident("subint"), Ident(n), Sym("{"));
    RangeTokens(lo, hi, rest);
  }

  /** The printed range `from .. to } ;` of a subint. */
  lemma RangeTokens(lo: Number, hi: Number, rest: seq<Token>)
    ensures Glue(PNumber(lo) + ([Sym("..")] + (PNumber(hi) + [Sym("}"), Sym(";")]))) + rest
         == Glue(PNumber(lo)) + ([Token(Sym(".."), false)] + (Glue(PNumber(hi))
            + ([Token(Sym("}"), false), Token(Sym(";"), false)] + rest)))
  {
    var close := [Sym("}"), Sym(";")];
    var a := PNumber(lo);
    var b := PNumber(hi);
    GlueCat(a, [Sym("..")] + (b + close), rest);
    GlueCat([Sym("..")], b + close, rest);
    GlueCat(b, close, rest);
    GlueCons(Sym(".."), []);
    SpacedTokens2(Sym("}"), Sym(";"));
  }

  /** One unfolding of `ParseSubint` over the bounds it reads. */
  lemma SubintStep(n: string, lo: Number, hi: Number, body: seq<Token>, upper: seq<Token>, rest: seq<Token>)
    requires ParseNumber(body) == Some(Parsed(lo, [Token(Sym(".."), false)] + upper))
    requires ParseNumber(upper) == Some(Parsed(hi, [Token(Sym("}"), false), Token(Sym(";"), false)] + rest))
    ensures ParseSubint([Token(Ident("subint"), false), Token(Ident(n), false), Token(Sym("{"), false)] + body)
         == Some(Parsed(Subint(n, lo, hi), rest))
  {
    var toks := [Token(Ident("subint"), false), Token(Ident(n), false), Token(Sym("{"), false)] + body;
    var close := [Token(Sym("}"), false), Token(Sym(";"), false)] + rest;
    assert Expect(toks, Ident("subint")) == Some(toks[1..]);
    assert ExpectIdent(toks[1..]) == Some(Parsed(n, toks[1..][1..]));
    assert toks[1..][1..][1..] == body;
    assert Expect(toks[1..][1..], Sym("{")) == Some(body);
    assert Expect([Token(Sym(".."), false)] + upper, Sym("..")) == Some(upper);
    assert Expect(close, Sym("}")) == Some(close[1..]);
    assert close[1..][1..] == rest;
  }

  /** A printed subint parses back to itself, negative bounds included. */
  lemma SubintRoundTrip(n: string, lo: Number, hi: Number, rest: seq<Token>)
    ensures ParseTypeDecl(Glue(PTypeDecl(Subint(n, lo, hi))) + rest) == Some(Parsed(Subint(n, lo, hi), rest))
  {
    var close := [Token(Sym("}"), false), Token(Sym(";"), false)] + rest;
    var upper := Glue(PNumber(hi)) + close;
    var body := Glue(PNumber(lo)) + ([Token(Sym(".."), false)] + upper);
    SubintTokens(n, lo, hi, rest);
    NumberRoundTrip(lo, [Token(Sym(".."), false)] + upper);
    NumberRoundTrip(hi, close);
    SubintStep(n, lo, hi, body, upper, rest);
  }

  lemma ExternTokens(n: string, v: string, rest: seq<Token>)
    ensures Glue(PTypeDecl(Extern(n, v))) + rest
         == [Token(Ident("extern"), false), Token(Ident(n), false), Token(Raw(v), false), Token(Sym(";"), false)] + rest
  {
    assert PTypeDecl(Extern(n, v)) == [Ident("extern")] + [Ident(n), Raw(v), Sym(";")];
    GlueCons(Ident("extern"), [Ident(n), Raw(v), Sym(";")]);
    GlueCons(Ident(n), [Raw(v), Sym(";")]);
    GlueCons(Raw(v), [Sym(";")]);
    GlueCons(Sym(";"), []);
  }

  /** A printed extern type, `$`-delimited payload and all, parses back to itself. */
  lemma ExternRoundTrip(n: string, v: string, rest: seq<Token>)
    ensures ParseTypeDecl(Glue(PTypeDecl(Extern(n, v))) + rest) == Some(Parsed(Extern(n, v), rest))
  {
    var toks := [Token(Ident("extern"), false), Token(Ident(n), false), Token(Raw(v), false), Token(Sym(";"), false)] + rest;
    ExternTokens(n, v, rest);
    assert toks[1..][1..][1..] == [Token(Sym(";"), false)] + rest;
    assert toks[1..][1..][1..][1..] == rest;
    assert ParseExtern(toks) == Some(Parsed(Extern(n, v), rest));
  }

  /** The type definitions the printer writes unambiguously: an enum names a value. */
  predicate WfTypeDecl(t: TypeDecl) {
    t.Enum? ==> |t.fields| >= 1
  }

  /** A printed type definition parses back to itself whatever follows. */
  lemma TypeDeclRoundTrip(t: TypeDecl, rest: seq<Token>)
    requires WfTypeDecl(t)
    ensures ParseTypeDecl(Glue(PTypeDecl(t)) + rest) == Some(Parsed(t, rest))
  {
    match t
    case Enum(n, fs, c) => EnumRoundTrip(n, fs, c, rest);
    case Subint(n, lo, hi) => SubintRoundTrip(n, lo, hi, rest);
    case Extern(n, v) => ExternRoundTrip(n, v, rest);
  }

  /** The keyword a type definition starts with. */
  function TypeKeyword(t: TypeDecl): string {
    match t
    case Enum(_, _, _) => "enum"
    case Subint(_, _, _) => "subint"
    case Extern(_, _) => "extern"
  }

  /** A printed type definition starts with its keyword and then its name. */
  lemma TypeDeclHead(t: TypeDecl, rest: seq<Token>)
    ensures |Glue(PTypeDecl(t)) + rest| >= 3
    ensures (Glue(PTypeDecl(t)) + rest)[0] == Token(Ident(TypeKeyword(t)), false)
    ensures (Glue(PTypeDecl(t)) + rest)[1].lex.Ident?
    ensures (Glue(PTypeDecl(t)) + rest)[2].lex == (if t.Extern? then Raw(t.payload) else Sym("{"))
  {
    match t
    case Enum(n, fs, c) => EnumTokens(n, fs, c, rest);
    case Subint(n, lo, hi) => SubintTokens(n, lo, hi, rest);
    case Extern(n, v) => ExternTokens(n, v, rest);
  }

  // ----- systems -----

  /** The end points the printer writes unambiguously: a wildcard, or a path of at least
      one part. */
  predicate WfEndPoint(e: EndPoint) {
    e.Path? ==> |e.path.parts| >= 1
  }

  lemma WildPathTokens(n: Name, rest: seq<Token>)
    ensures Glue(PEndPoint(Path(n, true))) + rest
         == Glue(PName(n)) + ([Token(Sym("."), true), Token(Sym("*"), false)] + rest)
  {
    GlueCat(PName(n), [Sym("."), Sym("*")], rest);
    GlueCons(Sym("."), [Sym("*")]);
    GlueCons(Sym("*"), []);
  }

  lemma PathStep(rev: Revision, toks: seq<Token>)
    requires ParseCompoundName(rev, toks).Some? && !At(toks, Sym("*"))
    ensures ParseEndPoint(rev, toks)
         == var n := ParseCompoundName(rev, toks).value;
            if At(n.rest, Sym(".")) && At(n.rest[1..], Sym("*"))
            then Some(Parsed(Path(n.node, true), n.rest[2..]))
            else Some(Parsed(Path(n.node, false), n.rest))
  {
  }

  /** A printed end point parses back to itself when no `.` follows it. */
  lemma EndPointRoundTrip(rev: Revision, e: EndPoint, rest: seq<Token>)
    requires WfEndPoint(e) && !At(rest, Sym("."))
    ensures ParseEndPoint(rev, Glue(PEndPoint(e)) + rest) == Some(Parsed(e, rest))
  {
    match e
    case Wildcard =>
      GlueCons(Sym("*"), []);
      assert ([Token(Sym("*"), false)] + rest)[1..] == rest;
    case Path(n, w) =>
      if w {
        var after := [Token(Sym("."), true), Token(Sym("*"), false)] + rest;
        WildPathTokens(n, rest);
        CompoundNameRoundTrip(rev, n, after);
        NameHead(n, after);
        PathStep(rev, Glue(PName(n)) + after);
        assert after[1..][1..] == rest;
      } else {
        assert PEndPoint(e) == PName(n);
        CompoundNameRoundTrip(rev, n, rest);
        NameHead(n, rest);
        PathStep(rev, Glue(PName(n)) + rest);
      }
  }

  lemma BindingTokens(l: EndPoint, r: EndPoint, rest: seq<Token>)
    ensures Glue(PSystemItem(Binding(l, r))) + rest
         == Glue(PEndPoint(l)) + ([Token(Sym("<=>"), false)] + (Glue(PEndPoint(r)) + ([Token(Sym(";"), false)] + rest)))
  {
    var a := PEndPoint(l);
    var b := PEndPoint(r);
    BindingLexemes(l, r);
    GlueCat(a, [Sym("<=>")] + (b + [Sym(";")]), rest);
    ArrowTokens(b, rest);
  }

  lemma BindingLexemes(l: EndPoint, r: EndPoint)
    ensures PSystemItem(Binding(l, r)) == PEndPoint(l) + ([Sym("<=>")] + (PEndPoint(r) + [Sym(";")]))
  {
  }

  lemma ArrowTokens(b: seq<Lexeme>, rest: seq<Token>)
    ensures Glue([Sym("<=>")] + (b + [Sym(";")])) + rest
         == [Token(Sym("<=>"), false)] + (Glue(b) + ([Token(Sym(";"), false)] + rest))
  {
    GlueCat([Sym("<=>")], b + [Sym(";")], rest);
    GlueCat(b, [Sym(";")], rest);
    GlueCons(Sym("<=>"), []);
    GlueCons(Sym(";"), []);
  }

  /** An end point is never followed by an instance's name: what follows a path is `.`,
      `<=>` or `;` in a binding. */
  lemma NoInstanceAtEndPoint(rev: Revision, e: EndPoint, after: seq<Token>)
    requires WfEndPoint(e) && |after| > 0 && !after[0].lex.Ident? && !At(after, Sym("."))
    ensures ParseInstance(rev, Glue(PEndPoint(e)) + after).None?
  {
    var toks := Glue(PEndPoint(e)) + after;
    match e
    case Wildcard =>
      GlueCons(Sym("*"), []);
    case Path(n, w) =>
      if w {
        var tail := [Token(Sym("."), true), Token(Sym("*"), false)] + after;
        WildPathTokens(n, after);
        CompoundNameRoundTrip(rev, n, tail);
      } else {
        assert PEndPoint(e) == PName(n);
        CompoundNameRoundTrip(rev, n, after);
      }
  }

  /** A printed binding parses back to itself as a system item. */
  lemma BindingRoundTrip(rev: Revision, l: EndPoint, r: EndPoint, rest: seq<Token>)
    requires WfEndPoint(l) && WfEndPoint(r)
    ensures ParseSystemItem(rev, Glue(PSystemItem(Binding(l, r))) + rest) == Some(Parsed(Binding(l, r), rest))
  {
    var semi := [Token(Sym(";"), false)] + rest;
    var after := [Token(Sym("<=>"), false)] + (Glue(PEndPoint(r)) + semi);
    BindingTokens(l, r, rest);
    EndPointRoundTrip(rev, l, after);
    EndPointRoundTrip(rev, r, semi);
    NoInstanceAtEndPoint(rev, l, after);
    BindingStep(rev, Glue(PEndPoint(l)) + after, l, r, Glue(PEndPoint(r)) + semi, rest);
  }

  /** One unfolding of `ParseBinding`: an end point, `<=>`, an end point, `;`. */
  lemma BindingStep(rev: Revision, toks: seq<Token>, l: EndPoint, r: EndPoint, right: seq<Token>, rest: seq<Token>)
    requires ParseInstance(rev, toks).None?
    requires ParseEndPoint(rev, toks) == Some(Parsed(l, [Token(Sym("<=>"), false)] + right))
    requires ParseEndPoint(rev, right) == Some(Parsed(r, [Token(Sym(";"), false)] + rest))
    ensures ParseSystemItem(rev, toks) == Some(Parsed(Binding(l, r), rest))
  {
    assert ([Token(Sym("<=>"), false)] + right)[1..] == right;
    assert ([Token(Sym(";"), false)] + rest)[1..] == rest;
  }

  lemma InstanceTokens(t: Name, n: string, rest: seq<Token>)
    ensures Glue(PSystemItem(Instance(t, n))) + rest
         == Glue(PName(t)) + ([Token(Ident(n), false), Token(Sym(";"), false)] + rest)
  {
    assert PSystemItem(Instance(t, n)) == PName(t) + [Ident(n), Sym(";")];
    GlueCat(PName(t), [Ident(n), Sym(";")], rest);
    SpacedTokens2(Ident(n), Sym(";"));
  }

  /** A printed instance parses back to itself as a system item. */
  lemma InstanceRoundTrip(rev: Revision, t: Name, n: string, rest: seq<Token>)
    requires |t.parts| >= 1
    ensures ParseSystemItem(rev, Glue(PSystemItem(Instance(t, n))) + rest) == Some(Parsed(Instance(t, n), rest))
  {
    var after := [Token(Ident(n), false), Token(Sym(";"), false)] + rest;
    InstanceTokens(t, n, rest);
    CompoundNameRoundTrip(rev, t, after);
    assert after[1..][1..] == rest;
  }

  /** A wildcard ends an end point's path: `n . * . b` is no end point of a binding, so the
      item fails as a whole. */
  lemma WildcardEndsPath(rev: Revision, n: Name, b: string, rest: seq<Token>)
    requires |n.parts| >= 1
    ensures ParseSystemItem(rev, Glue(PEndPoint(Path(n, true))) + ([Token(Sym("."), true), Token(Ident(b), false)] + rest)).None?
  {
    var after := [Token(Sym("."), true), Token(Ident(b), false)] + rest;
    var tail := [Token(Sym("."), true), Token(Sym("*"), false)] + after;
    WildPathTokens(n, after);
    CompoundNameRoundTrip(rev, n, tail);
    NameHead(n, tail);
    WildcardThenDot(rev, Glue(PName(n)) + tail, n, after);
  }

  /** A name, `. *`, then a `.`: neither an instance nor a binding. */
  lemma WildcardThenDot(rev: Revision, toks: seq<Token>, n: Name, after: seq<Token>)
    requires ParseCompoundName(rev, toks) == Some(Parsed(n, [Token(Sym("."), true), Token(Sym("*"), false)] + after))
    requires !At(toks, Sym("*")) && At(after, Sym("."))
    ensures ParseSystemItem(rev, toks).None?
  {
    var tail := [Token(Sym("."), true), Token(Sym("*"), false)] + after;
    PathStep(rev, toks);
    assert tail[1..][1..] == after;
    assert ParseEndPoint(rev, toks) == Some(Parsed(Path(n, true), after));
    assert ParseInstance(rev, toks).None?;
  }

  // ----- ports -----

  /** Whether `x` is one of the port qualifier words. */
  predicate QualifierWord(x: string) {
    x == "blocking" || x == "external" || x == "injected"
  }

  /** The ports the printer writes unambiguously: the type has a part, the formals are well
      formed, and an unqualified port's type does not start with a qualifier word. */
  predicate WfPort(p: Port) {
    && |p.typ.parts| >= 1
    && (p.formals.Some? ==> forall i :: 0 <= i < |p.formals.value| ==> WfFormal(p.formals.value[i]))
    && (p.qualifier.None? ==> p.typ.global || !QualifierWord(p.typ.parts[0]))
  }

  lemma PortLexemes(p: Port)
    ensures PPort(p) == [Ident(if p.dir == Provides then "provides" else "requires")]
                        + (PQualifier(p.qualifier) + (PName(p.typ) + (POptFormals(p.formals) + [Ident(p.name), Sym(";")])))
  {
  }

  lemma PortTokens(p: Port, rest: seq<Token>)
    ensures Glue(PPort(p)) + rest
         == [Token(Ident(if p.dir == Provides then "provides" else "requires"), false)]
            + (Glue(PQualifier(p.qualifier)) + (Glue(PName(p.typ)) + PortEnd(p.formals, p.name, rest)))
  {
    var d := Ident(if p.dir == Provides then "provides" else "requires");
    var body := PQualifier(p.qualifier) + (PName(p.typ) + (POptFormals(p.formals) + [Ident(p.name), Sym(";")]));
    PortLexemes(p);
    GlueHead(d, body, rest);
    PortBodyTokens(p.qualifier, p.typ, p.formals, p.name, rest);
  }

  lemma GlueHead(d: Lexeme, body: seq<Lexeme>, rest: seq<Token>)
    requires !PrintedGlued(d)
    ensures Glue([d] + body) + rest == [Token(d, false)] + (Glue(body) + rest)
  {
    GlueCons(d, body);
  }

  lemma PortBodyTokens(q: Option<Qualifier>, t: Name, fs: Option<seq<Formal>>, n: string, rest: seq<Token>)
    ensures Glue(PQualifier(q) + (PName(t) + (POptFormals(fs) + [Ident(n), Sym(";")]))) + rest
         == Glue(PQualifier(q)) + (Glue(PName(t)) + PortEnd(fs, n, rest))
  {
    GlueCat(PQualifier(q), PName(t) + (POptFormals(fs) + [Ident(n), Sym(";")]), rest);
    GlueCat(PName(t), POptFormals(fs) + [Ident(n), Sym(";")], rest);
    GlueCat(POptFormals(fs), [Ident(n), Sym(";")], rest);
    SpacedTokens2(Ident(n), Sym(";"));
  }

  /** The printed end of a port after its type: optional formals, the name and `;`. */
  function PortEnd(fs: Option<seq<Formal>>, n: string, rest: seq<Token>): seq<Token> {
    Glue(POptFormals(fs)) + ([Token(Ident(n), false), Token(Sym(";"), false)] + rest)
  }

  /** The printed end of a port parses as optional formals, a name and `;`. */
  lemma PortEndRoundTrip(rev: Revision, fs: Option<seq<Formal>>, n: string, rest: seq<Token>)
    requires fs.Some? ==> forall i :: 0 <= i < |fs.value| ==> WfFormal(fs.value[i])
    ensures ParseOptFormals(rev, PortEnd(fs, n, rest)) == Parsed(fs, [Token(Ident(n), false), Token(Sym(";"), false)] + rest)
  {
    var tail := [Token(Ident(n), false), Token(Sym(";"), false)] + rest;
    if fs.Some? {
      FormalsRoundTrip(rev, fs.value, tail);
    } else {
      assert PortEnd(fs, n, rest) == tail;
    }
  }

  lemma PortTailStep(rev: Revision, dir: PortDir, q: Option<Qualifier>, toks: seq<Token>,
                      t: Name, e: seq<Token>, fs: Option<seq<Formal>>, n: string, rest: seq<Token>)
    requires ParseCompoundName(rev, toks) == Some(Parsed(t, e))
    requires ParseOptFormals(rev, e) == Parsed(fs, [Token(Ident(n), false), Token(Sym(";"), false)] + rest)
    ensures ParsePortTail(rev, dir, q, toks) == Some(Parsed(Port(dir, q, t, fs, n), rest))
  {
    var tail := [Token(Ident(n), false), Token(Sym(";"), false)] + rest;
    assert tail[1..][1..] == rest;
  }

  /** A port's printed type and end parse back as its tail. */
  lemma PortTailRoundTrip(rev: Revision, p: Port, rest: seq<Token>)
    requires WfPort(p)
    ensures ParsePortTail(rev, p.dir, p.qualifier, Glue(PName(p.typ)) + PortEnd(p.formals, p.name, rest)) == Some(Parsed(p, rest))
  {
    var e := PortEnd(p.formals, p.name, rest);
    PortEndRoundTrip(rev, p.formals, p.name, rest);
    PortEndHead(p.formals, p.name, rest);
    CompoundNameRoundTrip(rev, p.typ, e);
    PortTailStep(rev, p.dir, p.qualifier, Glue(PName(p.typ)) + e, p.typ, e, p.formals, p.name, rest);
  }

  /** The printed end of a port starts with `(` or the port's name. */
  lemma PortEndHead(fs: Option<seq<Formal>>, n: string, rest: seq<Token>)
    ensures |PortEnd(fs, n, rest)| > 0
    ensures PortEnd(fs, n, rest)[0].lex == (if fs.Some? then Sym("(") else Ident(n))
  {
    var tail := [Token(Ident(n), false), Token(Sym(";"), false)] + rest;
    if fs.Some? {
      FormalsTokens(fs.value, tail);
    } else {
      assert PortEnd(fs, n, rest) == tail;
    }
  }

  /** Past its direction, an unqualified port's tokens do not start with a qualifier. */
  lemma NoQualifierAtType(p: Port, rest: seq<Token>)
    requires WfPort(p) && p.qualifier.None?
    ensures ParseQualifier(Glue(PName(p.typ)) + rest).None?
  {
    NameHead(p.typ, rest);
  }

  lemma QualifierStep(q: Qualifier, toks: seq<Token>)
    ensures ParseQualifier(Glue(PQualifier(Some(q))) + toks) == Some(Parsed(q, toks))
  {
    GlueCons(PQualifier(Some(q))[0], []);
    assert Glue(PQualifier(Some(q))) + toks == [Token(PQualifier(Some(q))[0], false)] + toks;
    assert ([Token(PQualifier(Some(q))[0], false)] + toks)[1..] == toks;
  }

  lemma DirStep(d: string, toks: seq<Token>)
    requires d == "provides" || d == "requires"
    ensures ParsePortDir([Token(Ident(d), false)] + toks)
         == Some(Parsed(if d == "provides" then Provides else Requires, toks))
  {
    assert ([Token(Ident(d), false)] + toks)[1..] == toks;
  }

  /** One unfolding of `ParsePort` after its direction word: the qualified reading when it
      parses, the unqualified one otherwise. */
  lemma PortStep(rev: Revision, d: string, toks: seq<Token>)
    requires d == "provides" || d == "requires"
    ensures ParsePort(rev, [Token(Ident(d), false)] + toks)
         == var dir := if d == "provides" then Provides else Requires;
            var q := ParseQualifier(toks);
            var withQ := if q.Some? then ParsePortTail(rev, dir, Some(q.value.node), q.value.rest) else None;
            if withQ.Some? then withQ else ParsePortTail(rev, dir, None, toks)
  {
    DirStep(d, toks);
  }

  /** A printed port parses back to itself whatever follows. */
  lemma PortRoundTrip(rev: Revision, p: Port, rest: seq<Token>)
    requires WfPort(p)
    ensures ParsePort(rev, Glue(PPort(p)) + rest) == Some(Parsed(p, rest))
  {
    var d := if p.dir == Provides then "provides" else "requires";
    var body := Glue(PName(p.typ)) + PortEnd(p.formals, p.name, rest);
    PortTokens(p, rest);
    PortStep(rev, d, Glue(PQualifier(p.qualifier)) + body);
    PortTailRoundTrip(rev, p, rest);
    if p.qualifier.Some? {
      QualifierStep(p.qualifier.value, body);
    } else {
      assert Glue(PQualifier(p.qualifier)) + body == body;
      NoQualifierAtType(p, PortEnd(p.formals, p.name, rest));
    }
  }

  /** A port has at most one qualifier: `provides q1 q2 t n ;` is no port, for an unqualified
      local type `t`. */
  lemma TwoQualifiersRejected(rev: Revision, q1: Qualifier, q2: Qualifier, t: Name, n: string, rest: seq<Token>)
    requires |t.parts| >= 1 && !t.global
    ensures ParsePort(rev, [Token(Ident("provides"), false)] + (Glue(PQualifier(Some(q1))) + (Glue(PQualifier(Some(q2)))
                            + (Glue(PName(t)) + ([Token(Ident(n), false), Token(Sym(";"), false)] + rest))))).None?
  {
    var after := [Token(Ident(n), false), Token(Sym(";"), false)] + rest;
    var typ := Glue(PName(t)) + after;
    var second := Glue(PQualifier(Some(q2))) + typ;
    var first := Glue(PQualifier(Some(q1))) + second;
    QualifierToken(q2, typ);
    QualifierToken(q1, second);
    PortStep(rev, "provides", first);
    QualifierStep(q1, second);
    NameSecond(t, after);
    NoTailAtWords(rev, Provides, Some(q1), second);
    NoTailAtWords(rev, Provides, None, first);
  }

  /** A printed qualifier is one identifier token. */
  lemma QualifierToken(q: Qualifier, toks: seq<Token>)
    ensures |Glue(PQualifier(Some(q))) + toks| == |toks| + 1
    ensures (Glue(PQualifier(Some(q))) + toks)[0].lex.Ident?
    ensures (Glue(PQualifier(Some(q))) + toks)[1..] == toks
  {
    var w := PQualifier(Some(q))[0];
    GlueCons(w, []);
    assert Glue(PQualifier(Some(q))) + toks == [Token(w, false)] + toks;
  }

  /** A local name followed by an identifier: its first token is its first part, and its
      second is no `;`. */
  lemma NameSecond(t: Name, after: seq<Token>)
    requires |t.parts| >= 1 && !t.global && |after| >= 1 && after[0].lex.Ident?
    ensures |Glue(PName(t)) + after| >= 2
    ensures (Glue(PName(t)) + after)[0].lex == Ident(t.parts[0])
    ensures (Glue(PName(t)) + after)[1].lex != Sym(";")
  {
    assert PName(t) == PParts(t.parts);
    GlueParts(t.parts);
  }

  /** Two identifiers and then no `;`: no port tail, since the second identifier would be
      the port's name. */
  lemma NoTailAtWords(rev: Revision, dir: PortDir, q: Option<Qualifier>, toks: seq<Token>)
    requires |toks| >= 3 && toks[0].lex.Ident? && toks[1].lex.Ident? && toks[2].lex != Sym(";")
    ensures ParsePortTail(rev, dir, q, toks).None?
  {
    assert !ContinuesName(rev, toks[1..]);
    assert ParseCompoundName(rev, toks) == Some(Parsed(Name(false, [toks[0].lex.name]), toks[1..]));
    assert ParseFormals(rev, toks[1..]).None?;
    assert toks[1..][1..] == toks[2..];
  }

  lemma PortsTokens(ps: seq<Port>, rest: seq<Token>)
    requires ps != []
    ensures Glue(PPorts(ps)) + rest == Glue(PPort(ps[0])) + (Glue(PPorts(ps[1..])) + rest)
  {
    assert PPorts(ps) == PPort(ps[0]) + PPorts(ps[1..]);
    GlueCat(PPort(ps[0]), PPorts(ps[1..]), rest);
  }

  lemma PortsStep(rev: Revision, toks: seq<Token>, p: Port, tail: seq<Token>, ps: seq<Port>, rest: seq<Token>)
    requires ParsePort(rev, toks) == Some(Parsed(p, tail)) && ParsePorts(rev, tail) == Parsed(ps, rest)
    ensures ParsePorts(rev, toks) == Parsed([p] + ps, rest)
  {
  }

  /** Printed ports parse back to themselves, up to whatever follows that is no port. */
  lemma {:induction false} PortsRoundTrip(rev: Revision, ps: seq<Port>, rest: seq<Token>)
    requires (forall i :: 0 <= i < |ps| ==> WfPort(ps[i])) && ParsePort(rev, rest).None?
    ensures ParsePorts(rev, Glue(PPorts(ps)) + rest) == Parsed(ps, rest)
    decreases |ps|
  {
    if ps == [] {
      assert Glue(PPorts(ps)) + rest == rest;
    } else {
      var tail := Glue(PPorts(ps[1..])) + rest;
      PortsTokens(ps, rest);
      PortRoundTrip(rev, ps[0], tail);
      PortsRoundTrip(rev, ps[1..], rest);
      PortsStep(rev, Glue(PPorts(ps)) + rest, ps[0], tail, ps[1..], rest);
      assert [ps[0]] + ps[1..] == ps;
    }
  }

  // ----- system bodies and components -----

  /** The system items the printer writes unambiguously. */
  predicate WfSystemItem(x: SystemItem) {
    match x
    case Instance(t, _) => |t.parts| >= 1
    case Binding(l, r) => WfEndPoint(l) && WfEndPoint(r)
  }

  /** A printed system item parses back to itself whatever follows. */
  lemma SystemItemRoundTrip(rev: Revision, x: SystemItem, rest: seq<Token>)
    requires WfSystemItem(x)
    ensures ParseSystemItem(rev, Glue(PSystemItem(x)) + rest) == Some(Parsed(x, rest))
  {
    match x
    case Instance(t, n) => InstanceRoundTrip(rev, t, n, rest);
    case Binding(l, r) => BindingRoundTrip(rev, l, r, rest);
  }

  lemma ItemsTokens(xs: seq<SystemItem>, rest: seq<Token>)
    requires xs != []
    ensures Glue(PSystemItems(xs)) + rest == Glue(PSystemItem(xs[0])) + (Glue(PSystemItems(xs[1..])) + rest)
  {
    assert PSystemItems(xs) == PSystemItem(xs[0]) + PSystemItems(xs[1..]);
    GlueCat(PSystemItem(xs[0]), PSystemItems(xs[1..]), rest);
  }

  lemma ItemsStep(rev: Revision, toks: seq<Token>, x: SystemItem, tail: seq<Token>, xs: seq<SystemItem>, rest: seq<Token>)
    requires ParseSystemItem(rev, toks) == Some(Parsed(x, tail)) && ParseSystemItems(rev, tail) == Parsed(xs, rest)
    ensures ParseSystemItems(rev, toks) == Parsed([x] + xs, rest)
  {
  }

  /** Printed system items parse back to themselves, up to whatever follows that is no
      system item. */
  lemma {:induction false} SystemItemsRoundTrip(rev: Revision, xs: seq<SystemItem>, rest: seq<Token>)
    requires (forall i :: 0 <= i < |xs| ==> WfSystemItem(xs[i])) && ParseSystemItem(rev, rest).None?
    ensures ParseSystemItems(rev, Glue(PSystemItems(xs)) + rest) == Parsed(xs, rest)
    decreases |xs|
  {
    if xs == [] {
      assert Glue(PSystemItems(xs)) + rest == rest;
    } else {
      var tail := Glue(PSystemItems(xs[1..])) + rest;
      ItemsTokens(xs, rest);
      SystemItemRoundTrip(rev, xs[0], tail);
      SystemItemsRoundTrip(rev, xs[1..], rest);
      ItemsStep(rev, Glue(PSystemItems(xs)) + rest, xs[0], tail, xs[1..], rest);
      assert [xs[0]] + xs[1..] == xs;
    }
  }

  /** A `}` starts neither an instance nor a binding. */
  lemma NoItemAtClose(rev: Revision, rest: seq<Token>)
    ensures ParseSystemItem(rev, [Token(Sym("}"), false)] + rest).None?
  {
  }

  lemma SystemLexemes(xs: seq<SystemItem>)
    ensures PBody(SystemBody(xs)) == [Ident("system"), Sym("{")] + (PSystemItems(xs) + [Sym("}")])
  {
    var b := PSystemItems(xs);
    var head := [Ident("system")] + [Sym("{")];
    assert head == [Ident("system"), Sym("{")];
    Regroup4([Ident("system")], [Sym("{")], b, [Sym("}")]);
    assert PBody(SystemBody(xs)) == head + (b + [Sym("}")]);
  }

  lemma Regroup4(a: seq<Lexeme>, b: seq<Lexeme>, c: seq<Lexeme>, d: seq<Lexeme>)
    ensures a + b + c + d == (a + b) + (c + d)
  {
  }

  lemma SystemTokens(xs: seq<SystemItem>, rest: seq<Token>)
    ensures Glue(PBody(SystemBody(xs))) + rest
         == [Token(Ident("system"), false), Token(Sym("{"), false)] + (Glue(PSystemItems(xs)) + ([Token(Sym("}"), false)] + rest))
  {
    SystemLexemes(xs);
    GlueCat([Ident("system"), Sym("{")], PSystemItems(xs) + [Sym("}")], rest);
    CloseTokens(PSystemItems(xs), rest);
    SpacedTokens2(Ident("system"), Sym("{"));
  }

  /** The tokens of a keyword-led block: the keyword, a name, `{`, the items, `}`. */
  lemma BlockTokens(kw: Lexeme, nm: seq<Lexeme>, items: seq<Lexeme>, rest: seq<Token>)
    requires kw.Ident?
    ensures Glue([kw] + nm + [Sym("{")] + items + [Sym("}")]) + rest
         == [Token(kw, false)] + (Glue(nm) + ([Token(Sym("{"), false)] + (Glue(items) + ([Token(Sym("}"), false)] + rest))))
  {
    var head := [kw] + nm + [Sym("{")];
    var body := Glue(items) + ([Token(Sym("}"), false)] + rest);
    CloseTokens(head + items, rest);
    GlueCat(head, items, ([Token(Sym("}"), false)] + rest));
    GlueThen([kw], nm, Sym("{"), body);
    GlueCons(kw, []);
    assert Glue([kw]) == [Token(kw, false)];
  }

  lemma CloseTokens(ls: seq<Lexeme>, rest: seq<Token>)
    ensures Glue(ls + [Sym("}")]) + rest == Glue(ls) + ([Token(Sym("}"), false)] + rest)
  {
    GlueCat(ls, [Sym("}")], rest);
    GlueCons(Sym("}"), []);
  }

  /** One unfolding of `ParseBody` at `system {`. */
  lemma SystemStep(rev: Revision, items: seq<Token>)
    ensures ParseBody(rev, [Token(Ident("system"), false), Token(Sym("{"), false)] + items)
         == var xs := ParseSystemItems(rev, items);
            if At(xs.rest, Sym("}")) then Some(Parsed(SystemBody(xs.node), xs.rest[1..])) else None
  {
    var toks := [Token(Ident("system"), false), Token(Sym("{"), false)] + items;
    assert toks[1..][1..] == items;
  }

  /** A printed system body parses back to itself whatever follows. */
  lemma SystemBodyRoundTrip(rev: Revision, xs: seq<SystemItem>, rest: seq<Token>)
    requires forall i :: 0 <= i < |xs| ==> WfSystemItem(xs[i])
    ensures ParseBody(rev, Glue(PBody(SystemBody(xs))) + rest) == Some(Parsed(SystemBody(xs), rest))
  {
    var close := [Token(Sym("}"), false)] + rest;
    var items := Glue(PSystemItems(xs)) + close;
    SystemTokens(xs, rest);
    NoItemAtClose(rev, rest);
    SystemItemsRoundTrip(rev, xs, close);
    SystemStep(rev, items);
    assert close[1..] == rest;
  }

  lemma ComponentLexemes(c: Component)
    ensures PComponent(c) == [Ident("component"), Ident(c.name), Sym("{")] + (PPorts(c.ports) + (PBody(c.body) + [Sym("}")]))
  {
    Regroup([Ident("component")], [Ident(c.name)], [Sym("{")], PPorts(c.ports), PBody(c.body), [Sym("}")]);
  }

  lemma Regroup(a: seq<Lexeme>, b: seq<Lexeme>, c: seq<Lexeme>, d: seq<Lexeme>, e: seq<Lexeme>, f: seq<Lexeme>)
    ensures a + b + c + d + e + f == (a + b + c) + (d + (e + f))
  {
  }

  lemma ComponentTokens(c: Component, rest: seq<Token>)
    ensures Glue(PComponent(c)) + rest
         == [Token(Ident("component"), false), Token(Ident(c.name), false), Token(Sym("{"), false)]
            + (Glue(PPorts(c.ports)) + (Glue(PBody(c.body)) + ([Token(Sym("}"), false)] + rest)))
  {
    var head := [Ident("component"), Ident(c.name), Sym("{")];
    ComponentLexemes(c);
    GlueCat(head, PPorts(c.ports) + (PBody(c.body) + [Sym("}")]), rest);
    GlueCat(PPorts(c.ports), PBody(c.body) + [Sym("}")], rest);
    CloseTokens(PBody(c.body), rest);
    SpacedTokens3(Ident("component"), Ident(c.name), Sym("{"));
  }

  /** One unfolding of `ParseComponent` after `component n {`. */
  lemma ComponentStep(rev: Revision, n: string, body: seq<Token>)
    ensures ParseComponent(rev, [Token(Ident("component"), false), Token(Ident(n), false), Token(Sym("{"), false)] + body)
         == var ps := ParsePorts(rev, body);
            match ParseBody(rev, ps.rest)
            case None => None
            case Some(b) => if At(b.rest, Sym("}")) then Some(Parsed(Component(n, ps.node, b.node), b.rest[1..])) else None
  {
    var toks := [Token(Ident("component"), false), Token(Ident(n), false), Token(Sym("{"), false)] + body;
    assert Expect(toks, Ident("component")) == Some(toks[1..]);
    assert ExpectIdent(toks[1..]) == Some(Parsed(n, toks[1..][1..]));
    assert toks[1..][1..][1..] == body;
    assert Expect(toks[1..][1..], Sym("{")) == Some(body);
  }

  /** No port starts with `system` or `}`. */
  lemma NoPortAt(rev: Revision, w: Lexeme, rest: seq<Token>)
    requires w == Ident("system") || w == Sym("}")
    ensures ParsePort(rev, [Token(w, false)] + rest).None?
  {
  }

  /** A printed system body starts no port. */
  lemma NoPortAtSystem(rev: Revision, xs: seq<SystemItem>, rest: seq<Token>)
    ensures ParsePort(rev, Glue(PBody(SystemBody(xs))) + rest).None?
  {
    SystemTokens(xs, rest);
    NoPortAt(rev, Ident("system"), [Token(Sym("{"), false)] + (Glue(PSystemItems(xs)) + ([Token(Sym("}"), false)] + rest)));
  }

  /** Nothing at `}` is a component body. */
  lemma NoBodyAtClose(rev: Revision, rest: seq<Token>)
    ensures ParseBody(rev, [Token(Sym("}"), false)] + rest).None?
  {
  }

  /** A component's body is required: `component n { ports }` is no component. */
  lemma ComponentNeedsBody(rev: Revision, n: string, ps: seq<Port>, rest: seq<Token>)
    requires forall i :: 0 <= i < |ps| ==> WfPort(ps[i])
    ensures ParseComponent(rev, [Token(Ident("component"), false), Token(Ident(n), false), Token(Sym("{"), false)]
                                + (Glue(PPorts(ps)) + ([Token(Sym("}"), false)] + rest))).None?
  {
    NoPortAt(rev, Sym("}"), rest);
    PortsRoundTrip(rev, ps, [Token(Sym("}"), false)] + rest);
    NoBodyAtClose(rev, rest);
    ComponentStep(rev, n, Glue(PPorts(ps)) + ([Token(Sym("}"), false)] + rest));
  }

  /** A printed component starts with `component`. */
  lemma ComponentHead(c: Component, rest: seq<Token>)
    ensures At(Glue(PDecl(ComponentDef(c))) + rest, Ident("component"))
  {
    ComponentTokens(c, rest);
  }

  /** In the current revision `ParseDecl` reads a component as an item. */
  lemma CurrentDeclAtComponent(nested: bool, toks: seq<Token>, c: Component, rest: seq<Token>)
    requires At(toks, Ident("component")) && ParseComponent(Current, toks) == Some(Parsed(c, rest))
    ensures ParseDecl(Current, nested, toks) == Some(Parsed(ComponentDef(c), rest))
  {
    assert !At(toks, Ident("import")) && !toks[0].lex.Raw?;
    assert !At(toks, Ident("namespace")) && !At(toks, Ident("interface"));
  }

  /** In the backup revision nothing starting with `component` is an item. */
  lemma BackupDeclAtComponent(nested: bool, toks: seq<Token>)
    requires At(toks, Ident("component"))
    ensures ParseDecl(Backup, nested, toks).None?
  {
  }

  /** The backup revision has no components: the same printed component is no item there. */
  lemma BackupHasNoComponents(nested: bool, c: Component, rest: seq<Token>)
    ensures ParseDecl(Backup, nested, Glue(PDecl(ComponentDef(c))) + rest).None?
  {
    ComponentHead(c, rest);
    BackupDeclAtComponent(nested, Glue(PDecl(ComponentDef(c))) + rest);
  }
}
