/** Properties of the lexer: which character runs become which lexemes, in both
    revisions, and that whitespace and comments are skipped. */
module LexerFacts {
  import opened Tokens
  import opened Lexer

  /** A run of class members ends exactly where the class stops. */
  lemma {:induction false} RunExact(k: CharClass, s: string, rest: string)
    requires forall i :: 0 <= i < |s| ==> InClass(k, s[i])
    requires rest == [] || !InClass(k, rest[0])
    ensures Run(k, s + rest) == |s|
    decreases |s|
  {
    if s == [] {
      assert s + rest == rest;
    } else {
      assert (s + rest)[1..] == s[1..] + rest;
      RunExact(k, s[1..], rest);
    }
  }

  /** An identifier of the revision's class, not followed by another identifier character,
      is lexed as one `Ident` lexeme. (The converse, that every `Ident` lexeme is such an
      identifier, is `NextStep`'s own postcondition.) */
  lemma IdentifierLexed(rev: Revision, x: string, rest: string)
    requires IsIdentifier(rev, x)
    requires rest == [] || !IdentPart(rev, rest[0])
    ensures NextStep(rev, x + rest, false) == Lexed(Ident(x), |x|)
  {
    var s := x + rest;
    assert s[0] == x[0];
    assert s[1..] == x[1..] + rest;
    RunExact(IdentChar(rev), x[1..], rest);
    assert s[..|x|] == x;
  }

  /** A digit run not followed by a digit is lexed as one `Num` lexeme. */
  lemma DigitsLexed(rev: Revision, d: string, rest: string)
    requires IsDigits(d)
    requires rest == [] || !IsDigit(rest[0])
    ensures NextStep(rev, d + rest, false) == Lexed(Num(d), |d|)
  {
    var s := d + rest;
    assert s[0] == d[0];
    RunExact(DigitChar, d, rest);
    assert s[..|d|] == d;
  }

  /** No backup-revision token starts with `_`. */
  lemma UnderscoreStuck(s: string, glued: bool)
    ensures NextStep(Backup, "_" + s, false) == Stuck
    ensures LexFrom(Backup, "_" + s, glued, false) == Err(|s| + 1)
  {
    var t := "_" + s;
    if |t| >= 2 {
      assert t[..1] == "_";
    }
    assert t[..1] !in Symbols;
  }

  /** The backup revision has no `_` in identifiers: after the letters before it the lexer
      is stuck, where the current revision takes the underscore into the identifier. */
  lemma UnderscoreInIdentifier(x: string, s: string, glued: bool)
    requires IsIdentifier(Backup, x) && x != "import"
    requires s == [] || !IdentPart(Current, s[0])
    ensures LexFrom(Backup, x + "_" + s, glued, false) == Err(|s| + 1)
    ensures NextStep(Current, x + "_" + s, false) == Lexed(Ident(x + "_"), |x| + 1)
  {
    var t := "_" + s;
    assert x + "_" + s == x + t;
    IdentifierLexed(Backup, x, t);
    LexFromLexed(Backup, x + t, glued, Ident(x), |x|);
    assert (x + t)[|x|..] == t;
    UnderscoreStuck(s, true);
    var y := x + "_";
    assert forall i :: 1 <= i < |y| ==> IdentPart(Current, y[i]);
    IdentifierLexed(Current, y, s);
  }

  /** In the backup revision identifiers are letters only: a digit ends one. */
  lemma BackupIdentifierStopsAtDigit(x: string, rest: string)
    requires IsIdentifier(Backup, x)
    requires |rest| > 0 && IsDigit(rest[0])
    ensures NextStep(Backup, x + rest, false) == Lexed(Ident(x), |x|)
    ensures !IsIdentifier(Backup, x + rest[..1])
  {
    IdentifierLexed(Backup, x, rest);
    assert (x + rest[..1])[|x|] == rest[0];
  }

  /** After `import`, a file name of the revision's class is lexed as one `FileName` lexeme:
      it runs to the next `;` now, and to the next whitespace or `;` in the backup revision. */
  lemma FileNameLexed(rev: Revision, f: string, rest: string)
    requires IsFileName(rev, f)
    requires rev == Current ==> rest == [] || rest[0] == ';'
    requires rev == Backup ==> rest == [] || IsSpace(rest[0]) || rest[0] == ';'
    ensures NextStep(rev, f + rest, true) == Lexed(FileName(f), |f|)
  {
    var s := f + rest;
    assert s[0] == f[0];
    match rev
    case Current =>
      assert s[1..] == f[1..] + rest;
      RunExact(NotSemicolon, f[1..], rest);
    case Backup =>
      RunExact(NotSpaceOrSemicolon, f, rest);
    assert s[..|f|] == f;
  }

  /** The body of a line comment without line breaks or backslashes runs to the line break. */
  lemma {:induction false} LineCommentToEol(c: string, rest: string)
    requires forall i :: 0 <= i < |c| ==> c[i] != '\n' && c[i] != '\\'
    requires rest == [] || rest[0] == '\n'
    ensures LineCommentLength(c + rest) == |c|
    decreases |c|
  {
    if c == [] {
      assert c + rest == rest;
    } else {
      assert (c + rest)[1..] == c[1..] + rest;
      LineCommentToEol(c[1..], rest);
    }
  }

  /** A `//` comment is skipped up to (not including) the line break. */
  lemma LineCommentSkipped(rev: Revision, c: string, rest: string)
    requires forall i :: 0 <= i < |c| ==> c[i] != '\n' && c[i] != '\\'
    requires rest == [] || rest[0] == '\n'
    ensures NextStep(rev, "//" + c + rest, false) == Skipped(2 + |c|)
  {
    var s := "//" + c + rest;
    assert s[2..] == c + rest;
    LineCommentToEol(c, rest);
  }

  /** Line-comment text without line breaks or backslashes is taken one character at a
      time, whatever follows it. */
  lemma {:induction false} LineCommentPrefix(c: string, t: string)
    requires forall i :: 0 <= i < |c| ==> c[i] != '\n' && c[i] != '\\'
    ensures LineCommentLength(c + t) == |c| + LineCommentLength(t)
    decreases |c|
  {
    if c == [] {
      assert c + t == t;
    } else {
      assert (c + t)[1..] == c[1..] + t;
      LineCommentPrefix(c[1..], t);
    }
  }

  /** A run of backslashes in a `//` comment takes the next character with it, a line break
      included (a carriage return and line feed as one), so the comment goes on past it; at
      the end of the input a single backslash is left out of the comment and a longer run is
      kept. */
  lemma LineCommentContinued(c: string, b: string, rest: string)
    requires forall i :: 0 <= i < |c| ==> c[i] != '\n' && c[i] != '\\'
    requires |b| >= 1 && forall i :: 0 <= i < |b| ==> b[i] == '\\'
    requires rest == [] || rest[0] != '\\'
    ensures rest == [] ==> LineCommentLength(c + b + rest) == |c| + (if |b| >= 2 then |b| else 0)
    ensures |rest| >= 2 && rest[0] == '\r' && rest[1] == '\n'
            ==> LineCommentLength(c + b + rest) == |c| + |b| + 2 + LineCommentLength(rest[2..])
    ensures rest != [] && !(|rest| >= 2 && rest[0] == '\r' && rest[1] == '\n')
            ==> LineCommentLength(c + b + rest) == |c| + |b| + 1 + LineCommentLength(rest[1..])
  {
    var t := b + rest;
    assert c + b + rest == c + t;
    LineCommentPrefix(c, t);
    RunExact(Backslash, b, rest);
    assert t[0] == '\\';
    assert t[|b|..] == rest;
    if |rest| >= 2 {
      assert t[|b| + 2..] == rest[2..];
    }
    if rest != [] {
      assert t[|b| + 1..] == rest[1..];
    }
  }

  /** `c` holds no star-slash pair. */
  predicate NoCommentEnd(c: string) {
    forall i :: 0 <= i < |c| - 1 ==> !(c[i] == '*' && c[i + 1] == '/')
  }

  /** A block comment body without a star-slash is closed by the first star-slash after it. */
  lemma {:induction false} BlockCommentEnds(c: string, rest: string)
    requires NoCommentEnd(c)
    ensures BlockCommentLength(c + "*/" + rest) == Some(|c| + 2)
    decreases |c|
  {
    var s := c + "*/" + rest;
    if c == [] {
      assert s == "*/" + rest;
    } else {
      assert s[1..] == c[1..] + "*/" + rest;
      assert s[0] == c[0];
      assert s[1] == if |c| >= 2 then c[1] else '*';
      assert NoCommentEnd(c[1..]) by {
        forall i | 0 <= i < |c[1..]| - 1
          ensures !(c[1..][i] == '*' && c[1..][i + 1] == '/')
        {
          assert c[1..][i] == c[i + 1] && c[1..][i + 1] == c[i + 2];
        }
      }
      BlockCommentEnds(c[1..], rest);
    }
  }

  /** A block comment is skipped through its first star-slash; without one the lexer is stuck. */
  lemma BlockCommentSkipped(rev: Revision, c: string, rest: string)
    requires NoCommentEnd(c)
    ensures NextStep(rev, "/*" + c + "*/" + rest, false) == Skipped(|c| + 4)
    ensures NextStep(rev, "/*" + c, false) == Stuck
  {
    var s := "/*" + c + "*/" + rest;
    assert s[2..] == c + "*/" + rest;
    BlockCommentEnds(c, rest);
    var u := "/*" + c;
    assert u[2..] == c;
  }

  /** `$ text $` is one `Raw` lexeme holding the text verbatim. */
  lemma {:induction false} RawEnds(t: string, rest: string)
    requires forall i :: 0 <= i < |t| ==> t[i] != '$'
    ensures RawLength(t + "$" + rest) == Some(|t|)
    decreases |t|
  {
    if t == [] {
      assert t + "$" + rest == "$" + rest;
    } else {
      assert (t + "$" + rest)[1..] == t[1..] + "$" + rest;
      RawEnds(t[1..], rest);
    }
  }

  lemma RawLexed(rev: Revision, t: string, rest: string)
    requires forall i :: 0 <= i < |t| ==> t[i] != '$'
    ensures NextStep(rev, "$" + t + "$" + rest, false) == Lexed(Raw(t), |t| + 2)
  {
    var s := "$" + t + "$" + rest;
    assert s[1..] == t + "$" + rest;
    RawEnds(t, rest);
    assert s[1..1 + |t|] == t;
  }

  /** A run of whitespace is skipped, and the token after it is not glued. */
  lemma {:induction false} WhitespaceSkipped(rev: Revision, w: string, s: string, glued: bool, afterImport: bool)
    requires w != [] && forall i :: 0 <= i < |w| ==> IsSpace(w[i])
    ensures LexFrom(rev, w + s, glued, afterImport) == LexFrom(rev, s, false, afterImport)
    decreases |w|
  {
    assert (w + s)[0] == w[0];
    assert (w + s)[1..] == w[1..] + s;
    if |w| > 1 {
      WhitespaceSkipped(rev, w[1..], s, false, afterImport);
    } else {
      assert w[1..] + s == s;
    }
  }

  /** The lexer's step on a lexeme: the token is glued when nothing was skipped before it. */
  lemma LexFromLexed(rev: Revision, s: string, glued: bool, l: Lexeme, n: nat)
    requires s != [] && NextStep(rev, s, false) == Lexed(l, n)
    ensures LexFrom(rev, s, glued, false) == Emit(rev, Token(l, glued), LexFrom(rev, s[n..], true, l == Ident("import")))
  {
  }

  /** The lexer's step on a lexeme, after `import` or not. */
  lemma LexFromStep(rev: Revision, s: string, glued: bool, afterImport: bool, l: Lexeme, n: nat)
    requires s != [] && NextStep(rev, s, afterImport) == Lexed(l, n)
    ensures LexFrom(rev, s, glued, afterImport) == Emit(rev, Token(l, glued), LexFrom(rev, s[n..], true, l == Ident("import")))
  {
  }

  lemma TailOfCons<T>(x: T, t: seq<T>)
    ensures ([x] + t)[1..] == t
  {
  }

  /** `p` followed by `c` is no longer operator. */
  predicate SymApart(p: string, c: char) {
    (|p| == 1 ==> p + [c] !in Symbols2) && (|p| == 2 ==> p + [c] !in Symbols3)
  }

  /** Operators and punctuation start with none of the characters that begin another kind
      of lexeme, whitespace or a comment. */
  lemma SymbolStart(p: string)
    requires p in Symbols
    ensures 1 <= |p| <= 3 && (|p| == 1 ==> p in Symbols1) && (|p| == 2 ==> p in Symbols2) && (|p| == 3 ==> p in Symbols3)
    ensures !IsSpace(p[0]) && !IsLetter(p[0]) && !IsDigit(p[0]) && p[0] != '_' && p[0] != '$' && p[0] != '/'
  {
  }

  /** Maximal munch stops at the end of an operator the next character does not continue. */
  lemma SymbolLengthApart(p: string, rest: string)
    requires p in Symbols
    requires rest == [] || SymApart(p, rest[0])
    ensures SymbolLength(p + rest) == |p|
  {
    var s := p + rest;
    SymbolStart(p);
    assert s[..|p|] == p;
    if |p| == 1 && |s| >= 2 {
      assert s[..2] == p + [rest[0]];
      assert s[..2] !in Symbols2;
      if |s| >= 3 {
        assert s[..3][..2] == s[..2] && "<=>"[..2] == "<=";
        assert s[..3] != "<=>";
      }
    } else if |p| == 2 && |s| >= 3 {
      assert s[..3] == p + [rest[0]];
      assert s[..3] !in Symbols3;
    }
  }

  /** An operator not continued by the next character into a longer one is lexed alone. */
  lemma SymbolLexed(rev: Revision, p: string, rest: string)
    requires p in Symbols
    requires rest == [] || SymApart(p, rest[0])
    ensures NextStep(rev, p + rest, false) == Lexed(Sym(p), |p|)
  {
    var s := p + rest;
    SymbolStart(p);
    SymbolLengthApart(p, rest);
    assert s[0] == p[0];
    assert !IdentStart(rev, s[0]);
    assert s[..|p|] == p;
  }

  /** A `-` before a character that is no other operator's second character is lexed alone. */
  lemma MinusLexed(rev: Revision, s: string)
    requires |s| >= 2 && s[0] == '-' && (IsDigit(s[1]) || IsSpace(s[1]))
    ensures NextStep(rev, s, false) == Lexed(Sym("-"), 1)
  {
    assert s[..1] == "-";
    assert s[..2][0] == '-' && s[..2][1] == s[1];
    if |s| >= 3 {
      assert s[..3][0] == '-';
    }
  }

  /** After a `-` that is no part of a longer operator, lexing goes on glued. */
  lemma MinusThen(rev: Revision, s: string, glued: bool, t: string)
    requires s == "-" + t && |t| > 0 && (IsDigit(t[0]) || IsSpace(t[0]))
    ensures LexFrom(rev, s, glued, false) == Emit(rev, Token(Sym("-"), glued), LexFrom(rev, t, true, false))
  {
    TailOfCons('-', t);
    MinusLexed(rev, s);
    LexFromLexed(rev, s, glued, Sym("-"), 1);
  }

  /** Digits up to a non-digit give one `Num` token. */
  lemma DigitsThen(rev: Revision, d: string, rest: string, glued: bool)
    requires IsDigits(d)
    requires rest == [] || !IsDigit(rest[0])
    ensures LexFrom(rev, d + rest, glued, false) == Emit(rev, Token(Num(d), glued), LexFrom(rev, rest, true, false))
  {
    DigitsLexed(rev, d, rest);
    LexFromLexed(rev, d + rest, glued, Num(d), |d|);
    assert (d + rest)[|d|..] == rest;
  }

  /** A `-` immediately followed by digits gives a `-` token and a glued `Num` token, which
      is what a negative number literal needs. */
  lemma MinusDigitsGlued(rev: Revision, d: string, rest: string, glued: bool)
    requires IsDigits(d)
    requires rest == [] || !IsDigit(rest[0])
    ensures LexFrom(rev, "-" + d + rest, glued, false) ==
            Emit(rev, Token(Sym("-"), glued), Emit(rev, Token(Num(d), true), LexFrom(rev, rest, true, false)))
  {
    assert "-" + d + rest == "-" + (d + rest);
    MinusThen(rev, "-" + d + rest, glued, d + rest);
    DigitsThen(rev, d, rest, true);
  }

  /** With a space between them the digits are not glued to the `-`: a binary minus or a
      unary one, never part of a number literal. */
  lemma MinusSpaceDigits(rev: Revision, d: string, rest: string, glued: bool)
    requires IsDigits(d)
    requires rest == [] || !IsDigit(rest[0])
    ensures LexFrom(rev, "- " + d + rest, glued, false) ==
            Emit(rev, Token(Sym("-"), glued), Emit(rev, Token(Num(d), false), LexFrom(rev, rest, true, false)))
  {
    var spaced := " " + (d + rest);
    assert "- " + d + rest == "-" + spaced;
    assert spaced[0] == ' ';
    MinusThen(rev, "- " + d + rest, glued, spaced);
    assert LexFrom(rev, spaced, true, false) == LexFrom(rev, d + rest, false, false) by {
      WhitespaceSkipped(rev, " ", d + rest, true, false);
    }
    DigitsThen(rev, d, rest, false);
  }

  // ----- printing tokens and lexing them back -----

  /** Writes tokens as text: a space before every token that is not glued, none before a
      glued one. */
  function PrintTokens(ts: seq<Token>): string {
    if ts == [] then "" else (if ts[0].glued then "" else " ") + Spell(ts[0].lex) + PrintTokens(ts[1..])
  }

  /** The text `r` after lexeme `l` does not continue it: no identifier character after an
      identifier, no digit after digits, no longer operator, and after a file name a `;` (or,
      in the backup revision, whitespace). */
  predicate Ends(rev: Revision, l: Lexeme, r: string) {
    r == [] ||
    match l
    case Ident(_) => !IdentPart(rev, r[0])
    case Num(_) => !IsDigit(r[0])
    case Sym(p) => SymApart(p, r[0])
    case FileName(_) => r[0] == ';' || (rev == Backup && IsSpace(r[0]))
    case Raw(_) => true
  }

  /** Tokens the lexer reads back from their printed text: each lexeme is well formed and
      not continued by what is printed after it, and a file name comes exactly after the
      word `import`. */
  predicate Printable(rev: Revision, ts: seq<Token>) {
    ts == [] ||
    (&& WellFormed(rev, ts[0].lex)
     && Ends(rev, ts[0].lex, PrintTokens(ts[1..]))
     && (|ts| > 1 ==> (ts[1].lex.FileName? <==> ts[0].lex == Ident("import")))
     && Printable(rev, ts[1..]))
  }

  /** Every well-formed lexeme that what follows does not continue is lexed as itself, a file
      name exactly after `import`. */
  lemma LexemeLexed(rev: Revision, l: Lexeme, r: string, afterImport: bool)
    requires WellFormed(rev, l) && Ends(rev, l, r) && (afterImport <==> l.FileName?)
    ensures NextStep(rev, Spell(l) + r, afterImport) == Lexed(l, |Spell(l)|)
  {
    match l
    case Ident(x) => IdentifierLexed(rev, x, r);
    case Num(d) => DigitsLexed(rev, d, r);
    case Sym(p) => SymbolLexed(rev, p, r);
    case FileName(f) => FileNameLexed(rev, f, r);
    case Raw(t) => RawLexed(rev, t, r);
  }

  /** One lexeme of printed tokens: an optional space, then the lexeme itself. */
  lemma PrintedStep(rev: Revision, ts: seq<Token>, glued: bool, afterImport: bool)
    requires ts != [] && WellFormed(rev, ts[0].lex) && Ends(rev, ts[0].lex, PrintTokens(ts[1..]))
    requires afterImport <==> ts[0].lex.FileName?
    ensures LexFrom(rev, PrintTokens(ts), glued, afterImport)
         == Emit(rev, Token(ts[0].lex, ts[0].glued && glued), LexFrom(rev, PrintTokens(ts[1..]), true, ts[0].lex == Ident("import")))
  {
    var l := ts[0].lex;
    var r := PrintTokens(ts[1..]);
    var s := Spell(l) + r;
    LexemeLexed(rev, l, r, afterImport);
    assert s[|Spell(l)|..] == r;
    LexFromStep(rev, s, ts[0].glued && glued, afterImport, l, |Spell(l)|);
    if !ts[0].glued {
      assert PrintTokens(ts) == " " + s;
      WhitespaceSkipped(rev, " ", s, glued, afterImport);
    } else {
      assert PrintTokens(ts) == s;
    }
  }

  /** Print then lex: the lexer reads printable tokens back from their text, glue flags
      included, except that the first token is glued only when the lexer starts glued. */
  lemma {:induction false} LexPrinted(rev: Revision, ts: seq<Token>, glued: bool, afterImport: bool)
    requires Printable(rev, ts)
    requires |ts| > 0 ==> (afterImport <==> ts[0].lex.FileName?)
    ensures LexFrom(rev, PrintTokens(ts), glued, afterImport)
         == Ok(if ts == [] then [] else [Token(ts[0].lex, ts[0].glued && glued)] + ts[1..])
    decreases |ts|
  {
    if ts != [] {
      PrintedStep(rev, ts, glued, afterImport);
      LexPrinted(rev, ts[1..], true, ts[0].lex == Ident("import"));
      if ts[1..] != [] {
        assert [Token(ts[1].lex, ts[1].glued)] + ts[2..] == ts[1..];
      }
    }
  }

  /** A whole printed text: printable tokens whose first one is not glued tokenize back to
      themselves. */
  lemma TokenizePrinted(rev: Revision, ts: seq<Token>)
    requires Printable(rev, ts) && (|ts| > 0 ==> !ts[0].glued && !ts[0].lex.FileName?)
    ensures Tokenize(rev, PrintTokens(ts)) == Ok(ts)
  {
    LexPrinted(rev, ts, false, false);
    if ts != [] {
      assert [Token(ts[0].lex, false)] + ts[1..] == ts;
    }
  }
}
