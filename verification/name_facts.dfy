/** Properties of the name rules: printed names parse back to themselves, a parse takes
    every `.`-separated part there is, and the backup revision's dots are glued. */
module NameFacts {
  import opened Tokens
  import opened Ast
  import opened Names

  lemma GlueCons(l: Lexeme, ls: seq<Lexeme>)
    ensures Glue([l] + ls) == [Token(l, PrintedGlued(l))] + Glue(ls)
  {
    assert ([l] + ls)[1..] == ls;
  }

  /** The tokens of a printed part list: the first identifier, unglued, then `.` (glued)
      and the printed rest. */
  lemma GlueParts(ps: seq<string>)
    requires |ps| >= 1
    ensures |Glue(PParts(ps))| >= 1 && Glue(PParts(ps))[0] == Token(Ident(ps[0]), false)
    ensures |ps| == 1 ==> Glue(PParts(ps)) == [Token(Ident(ps[0]), false)]
    ensures |ps| >= 2 ==> Glue(PParts(ps)) == [Token(Ident(ps[0]), false), Token(Sym("."), true)] + Glue(PParts(ps[1..]))
  {
    if |ps| == 1 {
      assert PParts(ps) == [Ident(ps[0])];
      GlueCons(Ident(ps[0]), []);
    } else {
      assert PParts(ps) == [Ident(ps[0])] + ([Sym(".")] + PParts(ps[1..]));
      GlueCons(Ident(ps[0]), [Sym(".")] + PParts(ps[1..]));
      GlueCons(Sym("."), PParts(ps[1..]));
    }
  }

  /** One identifier not followed by a continuation is a whole part list. */
  lemma NamePartsOne(rev: Revision, t: Token, rest: seq<Token>)
    requires t.lex.Ident? && !ContinuesName(rev, rest)
    ensures ParseNameParts(rev, [t] + rest) == Some(Parsed([t.lex.name], rest))
  {
    assert ([t] + rest)[1..] == rest;
  }

  /** An identifier followed by a continuation heads the part list parsed after the `.`. */
  lemma NamePartsMore(rev: Revision, t: Token, after: seq<Token>)
    requires t.lex.Ident? && ContinuesName(rev, after)
    ensures ParseNameParts(rev, [t] + after) ==
            var m := ParseNameParts(rev, after[1..]).value; Some(Parsed([t.lex.name] + m.node, m.rest))
  {
    assert ([t] + after)[1..] == after;
  }

  /** A printed part list parses back to the same parts, whatever follows that does not
      continue the name. */
  lemma {:induction false} NamePartsRoundTrip(rev: Revision, ps: seq<string>, rest: seq<Token>)
    requires |ps| >= 1
    requires !ContinuesName(rev, rest)
    ensures ParseNameParts(rev, Glue(PParts(ps)) + rest) == Some(Parsed(ps, rest))
    decreases |ps|, 1
  {
    GlueParts(ps);
    var t := Token(Ident(ps[0]), false);
    if |ps| == 1 {
      assert Glue(PParts(ps)) + rest == [t] + rest;
      NamePartsOne(rev, t, rest);
      assert [ps[0]] == ps;
    } else {
      NamePartsRoundTripStep(rev, ps, rest);
    }
  }

  lemma {:induction false} NamePartsRoundTripStep(rev: Revision, ps: seq<string>, rest: seq<Token>)
    requires |ps| >= 2
    requires !ContinuesName(rev, rest)
    ensures ParseNameParts(rev, Glue(PParts(ps)) + rest) == Some(Parsed(ps, rest))
    decreases |ps|, 0
  {
    GlueParts(ps);
    var t := Token(Ident(ps[0]), false);
    var tail := ps[1..];
    var after := [Token(Sym("."), true)] + (Glue(PParts(tail)) + rest);
    assert Glue(PParts(ps)) + rest == [t] + after;
    GlueParts(tail);
    assert after[1..] == Glue(PParts(tail)) + rest;
    NamePartsMore(rev, t, after);
    NamePartsRoundTrip(rev, tail, rest);
    HeadTail(ps);
  }

  /** A printed compound name parses back to itself. */
  lemma CompoundNameRoundTrip(rev: Revision, n: Name, rest: seq<Token>)
    requires |n.parts| >= 1
    requires !ContinuesName(rev, rest)
    ensures ParseCompoundName(rev, Glue(PName(n)) + rest) == Some(Parsed(n, rest))
  {
    NamePartsRoundTrip(rev, n.parts, rest);
    GlueParts(n.parts);
    if n.global {
      GlobalNameTokens(n, rest);
      CompoundGlobal(rev, Token(Sym("."), true), Glue(PParts(n.parts)) + rest);
    } else {
      assert PName(n) == [] + PParts(n.parts) == PParts(n.parts);
      CompoundLocal(rev, Glue(PParts(n.parts)) + rest);
    }
  }

  lemma GlobalNameTokens(n: Name, rest: seq<Token>)
    requires n.global
    ensures Glue(PName(n)) + rest == [Token(Sym("."), true)] + (Glue(PParts(n.parts)) + rest)
  {
    assert PName(n) == [Sym(".")] + PParts(n.parts);
    GlueCons(Sym("."), PParts(n.parts));
  }

  lemma CompoundGlobal(rev: Revision, t: Token, body: seq<Token>)
    requires t.lex == Sym(".") && ParseNameParts(rev, body).Some?
    ensures ParseCompoundName(rev, [t] + body) ==
            var p := ParseNameParts(rev, body).value; Some(Parsed(Name(true, p.node), p.rest))
  {
    assert ([t] + body)[1..] == body;
  }

  lemma CompoundLocal(rev: Revision, body: seq<Token>)
    requires |body| > 0 && body[0].lex.Ident?
    ensures ParseCompoundName(rev, body) ==
            var p := ParseNameParts(rev, body).value; Some(Parsed(Name(false, p.node), p.rest))
  {
  }

  /** The part list a parse returns is never followed by something that continues it. */
  lemma {:induction false} NamePartsMaximal(rev: Revision, toks: seq<Token>)
    requires ParseNameParts(rev, toks).Some?
    ensures !ContinuesName(rev, ParseNameParts(rev, toks).value.rest)
    decreases |toks|
  {
    if ContinuesName(rev, toks[1..]) {
      NamePartsMaximal(rev, toks[1..][1..]);
    }
  }

  /** In the backup revision every `.` inside a parsed part list immediately follows the
      identifier before it; the parse leaves a suffix of its input. */
  lemma {:induction false} NamePartsGlued(toks: seq<Token>)
    requires ParseNameParts(Backup, toks).Some?
    ensures ParseNameParts(Backup, toks).value.rest == toks[|toks| - |ParseNameParts(Backup, toks).value.rest|..]
    ensures forall i :: 0 <= i < |toks| - |ParseNameParts(Backup, toks).value.rest| && toks[i].lex == Sym(".") ==> toks[i].glued
    decreases |toks|, 1
  {
    if ContinuesName(Backup, toks[1..]) {
      NamePartsGluedStep(toks);
    } else {
      assert ParseNameParts(Backup, toks).value.rest == toks[1..];
    }
  }

  lemma {:induction false} NamePartsGluedStep(toks: seq<Token>)
    requires |toks| > 0 && toks[0].lex.Ident? && ContinuesName(Backup, toks[1..])
    ensures ParseNameParts(Backup, toks).Some?
    ensures ParseNameParts(Backup, toks).value.rest == toks[|toks| - |ParseNameParts(Backup, toks).value.rest|..]
    ensures forall i :: 0 <= i < |toks| - |ParseNameParts(Backup, toks).value.rest| && toks[i].lex == Sym(".") ==> toks[i].glued
    decreases |toks|, 0
  {
    var inner := toks[2..];
    assert toks[1..][1..] == inner;
    NamePartsGlued(inner);
    var rest := ParseNameParts(Backup, inner).value.rest;
    assert ParseNameParts(Backup, toks).value.rest == rest;
    var k := |toks| - |rest|;
    assert inner[|inner| - |rest|..] == toks[k..];
    forall i | 0 <= i < k && toks[i].lex == Sym(".")
      ensures toks[i].glued
    {
      if i >= 2 {
        assert inner[i - 2] == toks[i];
      }
    }
  }

  /** A printed number parses back to itself; a negative one because its digits are glued to the `-`. */
  lemma NumberRoundTrip(n: Number, rest: seq<Token>)
    ensures ParseNumber(Glue(PNumber(n)) + rest) == Some(Parsed(n, rest))
  {
    if n.negative {
      GlueCons(Sym("-"), [Num(n.digits)]);
      GlueCons(Num(n.digits), []);
      assert Glue(PNumber(n)) + rest == [Token(Sym("-"), true), Token(Num(n.digits), true)] + rest;
    } else {
      GlueCons(Num(n.digits), []);
      assert Glue(PNumber(n)) + rest == [Token(Num(n.digits), true)] + rest;
    }
  }

  /** A printed name starts with `.` or an identifier and so is no wildcard. */
  lemma NameHead(n: Name, rest: seq<Token>)
    requires |n.parts| >= 1
    ensures |Glue(PName(n)) + rest| > 0
    ensures (Glue(PName(n)) + rest)[0].lex == (if n.global then Sym(".") else Ident(n.parts[0]))
  {
    GlueParts(n.parts);
    if n.global {
      GlobalNameTokens(n, rest);
    } else {
      assert PName(n) == PParts(n.parts);
    }
  }

  // ----- types and formals -----

  /** The type names the printer writes unambiguously: a named type has a part, and a
      local one is not spelled `bool` or `void`. */
  predicate WfTypeName(t: TypeName) {
    t.Named? ==> |t.name.parts| >= 1 && (t.name.global || (t.name.parts[0] != "bool" && t.name.parts[0] != "void"))
  }

  /** A formal reads back unambiguously: its type is well formed, and without a direction
      its type does not start with a direction word. */
  predicate WfFormal(f: Formal) {
    && WfTypeName(f.typ)
    && (f.dir.None? && f.typ.Named? && !f.typ.name.global ==>
          f.typ.name.parts[0] != "in" && f.typ.name.parts[0] != "out" && f.typ.name.parts[0] != "inout")
  }

  /** A printed type name parses back to itself when nothing continues it. */
  lemma TypeNameRoundTrip(rev: Revision, t: TypeName, rest: seq<Token>)
    requires WfTypeName(t) && !ContinuesName(rev, rest)
    ensures ParseTypeName(rev, Glue(PTypeName(t)) + rest) == Some(Parsed(t, rest))
  {
    match t
    case BoolType => GlueCons(Ident("bool"), []);
    case VoidType => GlueCons(Ident("void"), []);
    case Named(n) =>
      CompoundNameRoundTrip(rev, n, rest);
      NameHead(n, rest);
  }

  lemma FormalTokens(f: Formal, rest: seq<Token>)
    ensures Glue(PFormal(f)) + rest
         == Glue(PParamDir(f.dir)) + (Glue(PTypeName(f.typ)) + ([Token(Ident(f.name), false)] + rest))
  {
    GlueThen(PParamDir(f.dir), PTypeName(f.typ), Ident(f.name), rest);
  }

  /** The tokens of `a + b + [l]` for a lexeme `l` written with a space before it. */
  lemma GlueThen(a: seq<Lexeme>, b: seq<Lexeme>, l: Lexeme, rest: seq<Token>)
    requires !PrintedGlued(l)
    ensures Glue(a + b + [l]) + rest == Glue(a) + (Glue(b) + ([Token(l, false)] + rest))
  {
    GlueAppend(a + b, [l]);
    GlueAppend(a, b);
    GlueCons(l, []);
  }

  /** The tokens of `[o] + b + [c]` for lexemes `o` and `c` written with a space before them. */
  lemma GlueAround(o: Lexeme, b: seq<Lexeme>, c: Lexeme, rest: seq<Token>)
    requires !PrintedGlued(o) && !PrintedGlued(c)
    ensures Glue([o] + b + [c]) + rest == [Token(o, false)] + (Glue(b) + ([Token(c, false)] + rest))
  {
    GlueThen([o], b, c, rest);
    GlueCons(o, []);
  }

  /** The first token of a printed type name. */
  lemma TypeNameHead(t: TypeName, rest: seq<Token>)
    requires WfTypeName(t)
    ensures |Glue(PTypeName(t)) + rest| > 0
    ensures (Glue(PTypeName(t)) + rest)[0].lex ==
            match t
            case BoolType => Ident("bool")
            case VoidType => Ident("void")
            case Named(n) => if n.global then Sym(".") else Ident(n.parts[0])
  {
    match t
    case BoolType => GlueCons(Ident("bool"), []);
    case VoidType => GlueCons(Ident("void"), []);
    case Named(n) => NameHead(n, rest);
  }

  /** A formal's type and name, printed, parse back as its tail. */
  lemma FormalTailRoundTrip(rev: Revision, f: Formal, rest: seq<Token>)
    requires WfFormal(f) && (At(rest, Sym(",")) || At(rest, Sym(")")))
    ensures ParseFormalTail(rev, f.dir, Glue(PTypeName(f.typ)) + ([Token(Ident(f.name), false)] + rest))
         == Some(Parsed(f, rest))
  {
    var after := [Token(Ident(f.name), false)] + rest;
    TypeNameRoundTrip(rev, f.typ, after);
    assert after[1..] == rest;
  }

  /** A direction word heads the tail when the tail parses. */
  lemma DirectedStep(rev: Revision, d: ParamDir, tail: seq<Token>)
    requires ParseFormalTail(rev, Some(d), tail).Some?
    ensures ParseFormal(rev, Glue(PParamDir(Some(d))) + tail) == ParseFormalTail(rev, Some(d), tail)
  {
    var l := PParamDir(Some(d))[0];
    GlueCons(l, []);
    assert Glue(PParamDir(Some(d))) + tail == [Token(l, false)] + tail;
    assert ([Token(l, false)] + tail)[1..] == tail;
  }

  /** A printed formal parses back to itself before a `,` or `)`. */
  lemma FormalRoundTrip(rev: Revision, f: Formal, rest: seq<Token>)
    requires WfFormal(f) && (At(rest, Sym(",")) || At(rest, Sym(")")))
    ensures ParseFormal(rev, Glue(PFormal(f)) + rest) == Some(Parsed(f, rest))
  {
    var after := [Token(Ident(f.name), false)] + rest;
    var tail := Glue(PTypeName(f.typ)) + after;
    FormalTokens(f, rest);
    FormalTailRoundTrip(rev, f, rest);
    if f.dir.Some? {
      DirectedStep(rev, f.dir.value, tail);
    } else {
      TypeNameHead(f.typ, after);
      UndirectedStep(rev, tail);
    }
  }

  /** Without a direction word in front, a formal is its tail. */
  lemma UndirectedStep(rev: Revision, toks: seq<Token>)
    requires ParamDirOf(toks).None?
    ensures ParseFormal(rev, Glue(PParamDir(None)) + toks) == ParseFormalTail(rev, None, toks)
  {
    assert Glue(PParamDir(None)) + toks == toks;
  }

  lemma FormalListTokens(f: Formal, fs: seq<Formal>, rest: seq<Token>)
    requires fs != []
    ensures Glue(PFormalList([f] + fs)) + rest
         == Glue(PFormal(f)) + ([Token(Sym(","), false)] + (Glue(PFormalList(fs)) + rest))
  {
    FormalListCons(f, fs);
    GlueSep(PFormal(f), PFormalList(fs), rest);
  }

  /** The tokens of `a + [,] + b`. */
  lemma GlueSep(a: seq<Lexeme>, b: seq<Lexeme>, rest: seq<Token>)
    ensures Glue(a + [Sym(",")] + b) + rest == Glue(a) + ([Token(Sym(","), false)] + (Glue(b) + rest))
  {
    GlueAppend(a + [Sym(",")], b);
    GlueAppend(a, [Sym(",")]);
    GlueCons(Sym(","), []);
  }

  lemma FormalListStep(rev: Revision, f: Formal, body: seq<Token>, tail: seq<Token>)
    requires ParseFormal(rev, body) == Some(Parsed(f, [Token(Sym(","), false)] + tail))
    requires ParseFormalList(rev, tail).Some?
    ensures ParseFormalList(rev, body)
         == var m := ParseFormalList(rev, tail).value; Some(Parsed([f] + m.node, m.rest))
  {
    assert ([Token(Sym(","), false)] + tail)[1..] == tail;
  }

  /** A printed non-empty formal list parses back to itself before the closing `)`. */
  lemma {:induction false} FormalListRoundTrip(rev: Revision, fs: seq<Formal>, rest: seq<Token>)
    requires |fs| >= 1 && (forall i :: 0 <= i < |fs| ==> WfFormal(fs[i])) && At(rest, Sym(")"))
    ensures ParseFormalList(rev, Glue(PFormalList(fs)) + rest) == Some(Parsed(fs, rest))
    decreases |fs|
  {
    if |fs| == 1 {
      assert PFormalList(fs) == PFormal(fs[0]);
      FormalRoundTrip(rev, fs[0], rest);
      assert [fs[0]] == fs;
    } else {
      var tail := Glue(PFormalList(fs[1..])) + rest;
      assert fs == [fs[0]] + fs[1..];
      FormalListTokens(fs[0], fs[1..], rest);
      FormalRoundTrip(rev, fs[0], [Token(Sym(","), false)] + tail);
      FormalListRoundTrip(rev, fs[1..], rest);
      FormalListStep(rev, fs[0], Glue(PFormalList(fs)) + rest, tail);
    }
  }

  lemma FormalsTokens(fs: seq<Formal>, rest: seq<Token>)
    ensures Glue(PFormals(fs)) + rest
         == [Token(Sym("("), false)] + (Glue(PFormalList(fs)) + ([Token(Sym(")"), false)] + rest))
  {
    GlueAround(Sym("("), PFormalList(fs), Sym(")"), rest);
  }

  /** Nothing at a `)` is a formal. */
  lemma NoFormalAtClose(rev: Revision, rest: seq<Token>)
    ensures ParseFormalList(rev, [Token(Sym(")"), false)] + rest).None?
  {
    var toks := [Token(Sym(")"), false)] + rest;
    assert ParseCompoundName(rev, toks).None?;
    assert ParseTypeName(rev, toks).None?;
    assert ParseFormalTail(rev, None, toks).None?;
    assert ParamDirOf(toks).None?;
    assert ParseFormal(rev, toks).None?;
  }

  /** Printed formals, empty or not, parse back to themselves whatever follows. */
  lemma FormalsRoundTrip(rev: Revision, fs: seq<Formal>, rest: seq<Token>)
    requires forall i :: 0 <= i < |fs| ==> WfFormal(fs[i])
    ensures ParseFormals(rev, Glue(PFormals(fs)) + rest) == Some(Parsed(fs, rest))
  {
    var close := [Token(Sym(")"), false)] + rest;
    var body := Glue(PFormalList(fs)) + close;
    FormalsTokens(fs, rest);
    assert ([Token(Sym("("), false)] + body)[1..] == body;
    assert close[1..] == rest;
    if fs == [] {
      assert body == close;
      NoFormalAtClose(rev, rest);
    } else {
      FormalListRoundTrip(rev, fs, close);
    }
  }
}
