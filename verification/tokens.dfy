/** Lexemes and tokens of the Dezyne surface syntax, shared by the lexer and the parser,
    and the small helpers every recursive-descent parse function is built from. */
module Tokens {

  /** The conventional optional value; usable with `:-`. */
  datatype Option<+T> = None | Some(value: T) {
    predicate IsFailure() {
      None?
    }

    function PropagateFailure<U>(): Option<U>
      requires None?
    {
      None
    }

    function Extract(): T
      requires Some?
    {
      value
    }
  }

  /** A value or an error. */
  datatype Result<+T, +E> = Ok(value: T) | Err(error: E)

  /** The two grammar tables: the current one (grammar.js) and the older backup (grammar-bak.js). */
  datatype Revision = Current | Backup

  /** Keywords share the identifier class: they are `Ident` lexemes recognised by their text. */
  datatype Lexeme =
    | Ident(name: string)     // identifiers and keywords alike
    | Num(digits: string)     // an unsigned digit run; a sign is a separate `-`
    | Sym(sym: string)        // punctuation and operators
    | FileName(path: string)  // the operand of `import`
    | Raw(text: string)       // the content of a `$...$` block, without its delimiters

  /** `glued` holds when nothing (no whitespace, no comment) separates the token from the previous one. */
  datatype Token = Token(lex: Lexeme, glued: bool)

  /** What a parse function returns on success: the node and the unconsumed input. */
  datatype Parsed<+T> = Parsed(node: T, rest: seq<Token>)

  /** The words the grammar tables match by exact text somewhere. */
  const Keywords: set<string> := {
    "import", "enum", "subint", "extern", "namespace", "interface", "in", "out", "inout",
    "component", "system", "provides", "requires", "blocking", "external", "injected",
    "bool", "void", "behavior", "behaviour", "on", "optional", "inevitable", "otherwise",
    "defer", "illegal", "if", "else", "reply", "return", "true", "false"
  }

  /** The lexemes of a token sequence, forgetting the spacing. */
  function Lex(ts: seq<Token>): (ls: seq<Lexeme>)
    ensures |ls| == |ts|
  {
    if ts == [] then [] else [ts[0].lex] + Lex(ts[1..])
  }

  lemma {:induction false} LexAppend(a: seq<Token>, b: seq<Token>)
    ensures Lex(a + b) == Lex(a) + Lex(b)
  {
    if a != [] {
      assert (a + b)[1..] == a[1..] + b;
      LexAppend(a[1..], b);
    } else {
      assert a + b == b;
    }
  }

  /** A non-empty sequence is its head followed by its tail. */
  lemma HeadTail<T>(s: seq<T>)
    requires |s| >= 1
    ensures s == [s[0]] + s[1..]
  {
  }

  /** Chains two consumption steps into one. */
  lemma Chain2(x: seq<Lexeme>, y: seq<Lexeme>, a: seq<Lexeme>, b: seq<Lexeme>, c: seq<Lexeme>)
    requires x == a + y && y == b + c
    ensures x == a + b + c
  {
  }

  /** Chains three consumption steps into one. */
  lemma Chain3(x: seq<Lexeme>, y: seq<Lexeme>, z: seq<Lexeme>, a: seq<Lexeme>, b: seq<Lexeme>, c: seq<Lexeme>, d: seq<Lexeme>)
    requires x == a + y && y == b + z && z == c + d
    ensures x == a + b + c + d
  {
  }

  /** Chains four consumption steps into one. */
  lemma Chain4(x: seq<Lexeme>, y1: seq<Lexeme>, y2: seq<Lexeme>, y3: seq<Lexeme>,
               a: seq<Lexeme>, b: seq<Lexeme>, c: seq<Lexeme>, e: seq<Lexeme>, d: seq<Lexeme>)
    requires x == a + y1 && y1 == b + y2 && y2 == c + y3 && y3 == e + d
    ensures x == a + b + c + e + d
  {
  }

  /** Chains five consumption steps into one. */
  lemma Chain5(x: seq<Lexeme>, y1: seq<Lexeme>, y2: seq<Lexeme>, y3: seq<Lexeme>, y4: seq<Lexeme>,
               a: seq<Lexeme>, b: seq<Lexeme>, c: seq<Lexeme>, e: seq<Lexeme>, f: seq<Lexeme>, d: seq<Lexeme>)
    requires x == a + y1 && y1 == b + y2 && y2 == c + y3 && y3 == e + y4 && y4 == f + d
    ensures x == a + b + c + e + f + d
  {
    Chain4(y1, y2, y3, y4, b, c, e, f, d);
  }

  /** Chains six consumption steps into one. */
  lemma Chain6(x: seq<Lexeme>, y1: seq<Lexeme>, y2: seq<Lexeme>, y3: seq<Lexeme>, y4: seq<Lexeme>, y5: seq<Lexeme>,
               a: seq<Lexeme>, b: seq<Lexeme>, c: seq<Lexeme>, e: seq<Lexeme>, f: seq<Lexeme>, g: seq<Lexeme>, d: seq<Lexeme>)
    requires x == a + y1 && y1 == b + y2 && y2 == c + y3 && y3 == e + y4 && y4 == f + y5 && y5 == g + d
    ensures x == a + b + c + e + f + g + d
  {
    Chain5(y1, y2, y3, y4, y5, b, c, e, f, g, d);
  }

  /** Chains seven consumption steps into one. */
  lemma Chain7(x: seq<Lexeme>, y1: seq<Lexeme>, y2: seq<Lexeme>, y3: seq<Lexeme>, y4: seq<Lexeme>, y5: seq<Lexeme>,
               y6: seq<Lexeme>, a: seq<Lexeme>, b: seq<Lexeme>, c: seq<Lexeme>, e: seq<Lexeme>, f: seq<Lexeme>,
               g: seq<Lexeme>, h: seq<Lexeme>, d: seq<Lexeme>)
    requires x == a + y1 && y1 == b + y2 && y2 == c + y3 && y3 == e + y4 && y4 == f + y5 && y5 == g + y6
    requires y6 == h + d
    ensures x == a + b + c + e + f + g + h + d
  {
    Chain6(y1, y2, y3, y4, y5, y6, b, c, e, f, g, h, d);
  }

  /** Chains eight consumption steps into one. */
  lemma Chain8(x: seq<Lexeme>, y1: seq<Lexeme>, y2: seq<Lexeme>, y3: seq<Lexeme>, y4: seq<Lexeme>, y5: seq<Lexeme>,
               y6: seq<Lexeme>, y7: seq<Lexeme>, a: seq<Lexeme>, b: seq<Lexeme>, c: seq<Lexeme>, e: seq<Lexeme>,
               f: seq<Lexeme>, g: seq<Lexeme>, h: seq<Lexeme>, i: seq<Lexeme>, d: seq<Lexeme>)
    requires x == a + y1 && y1 == b + y2 && y2 == c + y3 && y3 == e + y4 && y4 == f + y5 && y5 == g + y6
    requires y6 == h + y7 && y7 == i + d
    ensures x == a + b + c + e + f + g + h + i + d
  {
    Chain7(y1, y2, y3, y4, y5, y6, y7, b, c, e, f, g, h, i, d);
  }

  /** The spacing a printer produces: `.`, `-` and digit runs are written without a space
      before them, every other token with one. */
  predicate PrintedGlued(l: Lexeme) {
    l == Sym(".") || l == Sym("-") || l.Num?
  }

  /** Turns printed lexemes into tokens with the printer's spacing. */
  function Glue(ls: seq<Lexeme>): (ts: seq<Token>)
    ensures Lex(ts) == ls
  {
    if ls == [] then [] else [Token(ls[0], PrintedGlued(ls[0]))] + Glue(ls[1..])
  }

  lemma {:induction false} GlueAppend(a: seq<Lexeme>, b: seq<Lexeme>)
    ensures Glue(a + b) == Glue(a) + Glue(b)
  {
    if a != [] {
      assert (a + b)[1..] == a[1..] + b;
      GlueAppend(a[1..], b);
    } else {
      assert a + b == b;
    }
  }

  /** The input starts with the lexeme `l`. */
  predicate At(toks: seq<Token>, l: Lexeme) {
    |toks| > 0 && toks[0].lex == l
  }

  /** Consumes the lexeme `l`. */
  function Expect(toks: seq<Token>, l: Lexeme): (r: Option<seq<Token>>)
    ensures r.Some? <==> At(toks, l)
    ensures r.Some? ==> r.value == toks[1..] && Lex(toks) == [l] + Lex(r.value)
  {
    if At(toks, l) then Some(toks[1..]) else None
  }

  /** Consumes one identifier (any `Ident` lexeme, keywords included). */
  function ExpectIdent(toks: seq<Token>): (r: Option<Parsed<string>>)
    ensures r.Some? <==> |toks| > 0 && toks[0].lex.Ident?
    ensures r.Some? ==> r.value.rest == toks[1..] && Lex(toks) == [Ident(r.value.node)] + Lex(r.value.rest)
  {
    if |toks| > 0 && toks[0].lex.Ident? then Some(Parsed(toks[0].lex.name, toks[1..])) else None
  }
}
