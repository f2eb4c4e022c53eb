/** The lexical layer of both grammar tables: identifiers, numbers, import file names,
    `$...$` raw blocks, operators and punctuation, with whitespace and the two comment
    forms skipped. */
module Lexer {
  import opened Tokens

  predicate IsLetter(c: char) {
    'a' <= c <= 'z' || 'A' <= c <= 'Z'
  }

  predicate IsDigit(c: char) {
    '0' <= c <= '9'
  }

  /** The ASCII members of the `\s` class. */
  predicate IsSpace(c: char) {
    c == ' ' || c == '\t' || c == '\n' || c == '\r' || c == '\U{000B}' || c == '\U{000C}'
  }

  /** First character of an identifier: `[a-zA-Z_]` now, `[a-zA-Z]` in the backup revision. */
  predicate IdentStart(rev: Revision, c: char) {
    match rev
    case Current => IsLetter(c) || c == '_'
    case Backup => IsLetter(c)
  }

  /** Later characters of an identifier: `[a-zA-Z0-9_]` now, `[a-zA-Z]` in the backup revision. */
  predicate IdentPart(rev: Revision, c: char) {
    match rev
    case Current => IsLetter(c) || IsDigit(c) || c == '_'
    case Backup => IsLetter(c)
  }

  predicate IsIdentifier(rev: Revision, s: string) {
    |s| > 0 && IdentStart(rev, s[0]) && forall i :: 1 <= i < |s| ==> IdentPart(rev, s[i])
  }

  predicate IsDigits(s: string) {
    |s| > 0 && forall i :: 0 <= i < |s| ==> IsDigit(s[i])
  }

  /** An import operand: `[^\s][^;]*` now, `[^\s;]+` in the backup revision. */
  predicate IsFileName(rev: Revision, s: string) {
    && |s| > 0
    && !IsSpace(s[0])
    && match rev
       case Current => forall i :: 1 <= i < |s| ==> s[i] != ';'
       case Backup => forall i :: 0 <= i < |s| ==> !IsSpace(s[i]) && s[i] != ';'
  }

  const Symbols3: set<string> := {"<=>"}
  const Symbols2: set<string> := {"<=", ">=", "==", "!=", "&&", "||", ".."}
  const Symbols1: set<string> := {"{", "}", "(", ")", "[", "]", ";", ",", ".", ":", "=", "<", ">", "!", "+", "-", "*"}

  /** Every operator and punctuation mark the tables use. `<-` is `<` followed by a glued `-`. */
  const Symbols: set<string> := Symbols3 + Symbols2 + Symbols1

  /** A character class whose maximal runs the lexer takes. */
  datatype CharClass = IdentChar(rev: Revision) | DigitChar | NotSemicolon | NotSpaceOrSemicolon | Backslash

  predicate InClass(k: CharClass, c: char) {
    match k
    case IdentChar(rev) => IdentPart(rev, c)
    case DigitChar => IsDigit(c)
    case NotSemicolon => c != ';'
    case NotSpaceOrSemicolon => !IsSpace(c) && c != ';'
    case Backslash => c == '\\'
  }

  /** The length of the longest prefix of `s` in class `k`. */
  function Run(k: CharClass, s: string): (n: nat)
    ensures n <= |s|
    ensures forall i :: 0 <= i < n ==> InClass(k, s[i])
    ensures n < |s| ==> !InClass(k, s[n])
  {
    if s != [] && InClass(k, s[0]) then 1 + Run(k, s[1..]) else 0
  }

  /** The length of the file name at the start of `s` (0 when there is none). */
  function FileNameLength(rev: Revision, s: string): (n: nat)
    ensures n <= |s|
    ensures n > 0 ==> IsFileName(rev, s[..n])
    ensures n == 0 ==> s == [] || IsSpace(s[0]) || (rev == Backup && s[0] == ';')
  {
    if s == [] || IsSpace(s[0]) then 0
    else
      match rev
      case Current => 1 + Run(NotSemicolon, s[1..])
      case Backup => Run(NotSpaceOrSemicolon, s)
  }

  /** The length of the body of a `//` comment, `s` being the text after the `//`:
      up to the end of the line, where a run of backslashes takes the next character
      (a line break included) with it. A lone backslash at the end of the input is
      not part of the comment. */
  function LineCommentLength(s: string): (n: nat)
    ensures n <= |s|
    ensures n < |s| ==> s[n] == '\n' || (s[n] == '\\' && n + 1 == |s|)
  {
    if s == [] || s[0] == '\n' then 0
    else if s[0] == '\\' then
      var k := Run(Backslash, s);
      if k == |s| then (if k >= 2 then k else 0)
      else if s[k] == '\r' && k + 1 < |s| && s[k + 1] == '\n' then k + 2 + LineCommentLength(s[k + 2..])
      else k + 1 + LineCommentLength(s[k + 1..])
    else 1 + LineCommentLength(s[1..])
  }

  /** For the text after a `/*`, the length through the first `*/`, if any. */
  function BlockCommentLength(s: string): (r: Option<nat>)
    ensures r.Some? ==> 2 <= r.value <= |s| && s[r.value - 2] == '*' && s[r.value - 1] == '/'
    ensures r.Some? ==> forall i :: 0 <= i < r.value - 2 ==> !(s[i] == '*' && s[i + 1] == '/')
    ensures r.None? ==> forall i :: 0 <= i < |s| - 1 ==> !(s[i] == '*' && s[i + 1] == '/')
  {
    if |s| < 2 then None
    else if s[0] == '*' && s[1] == '/' then Some(2)
    else
      match BlockCommentLength(s[1..])
      case None => None
      case Some(n) => Some(n + 1)
  }

  /** For the text after an opening `$`, the position of the closing `$`, if any. */
  function RawLength(s: string): (r: Option<nat>)
    ensures r.Some? ==> r.value < |s| && s[r.value] == '$' && forall i :: 0 <= i < r.value ==> s[i] != '$'
    ensures r.None? ==> forall i :: 0 <= i < |s| ==> s[i] != '$'
  {
    if s == [] then None
    else if s[0] == '$' then Some(0)
    else
      match RawLength(s[1..])
      case None => None
      case Some(n) => Some(n + 1)
  }

  /** The length of the longest operator or punctuation mark at the start of `s` (0 if none). */
  function SymbolLength(s: string): (n: nat)
    ensures n <= 3 && n <= |s|
    ensures n > 0 ==> s[..n] in Symbols
    ensures n == 0 ==> |s| == 0 || s[..1] !in Symbols
  {
    if |s| >= 3 && s[..3] in Symbols3 then 3
    else if |s| >= 2 && s[..2] in Symbols2 then 2
    else if |s| >= 1 && s[..1] in Symbols1 then 1
    else 0
  }

  /** What every token the lexer emits satisfies. */
  predicate WellFormed(rev: Revision, l: Lexeme) {
    match l
    case Ident(x) => IsIdentifier(rev, x)
    case Num(d) => IsDigits(d)
    case Sym(p) => p in Symbols
    case FileName(f) => IsFileName(rev, f)
    case Raw(t) => forall i :: 0 <= i < |t| ==> t[i] != '$'
  }

  /** Where lexing failed, counted as the number of characters left from there. */
  type LexError = nat

  predicate AllWellFormed(rev: Revision, ts: seq<Token>) {
    forall i :: 0 <= i < |ts| ==> WellFormed(rev, ts[i].lex)
  }

  /** Prepends `t` to a successful lexing result. */
  function Emit(rev: Revision, t: Token, r: Result<seq<Token>, LexError>): (r': Result<seq<Token>, LexError>)
    requires WellFormed(rev, t.lex)
    requires r.Ok? ==> AllWellFormed(rev, r.value)
    ensures r'.Ok? <==> r.Ok?
    ensures r'.Ok? ==> r'.value == [t] + r.value && AllWellFormed(rev, r'.value)
    ensures r'.Err? ==> r' == r
  {
    match r
    case Ok(ts) => Ok([t] + ts)
    case Err(e) => Err(e)
  }

  /** The length of the identifier at the start of `s`. */
  function IdentLength(rev: Revision, s: string): (n: nat)
    requires |s| > 0 && IdentStart(rev, s[0])
    ensures 1 <= n <= |s| && IsIdentifier(rev, s[..n])
    ensures n < |s| ==> !IdentPart(rev, s[n])
  {
    var n := 1 + Run(IdentChar(rev), s[1..]);
    assert forall i :: 1 <= i < n ==> s[..n][i] == s[1..][i - 1];
    n
  }

  /** The length of the digit run at the start of `s`. */
  function DigitsLength(s: string): (n: nat)
    requires |s| > 0 && IsDigit(s[0])
    ensures 1 <= n <= |s| && IsDigits(s[..n])
    ensures n < |s| ==> !IsDigit(s[n])
  {
    Run(DigitChar, s)
  }

  /** The characters a lexeme is written with. */
  function Spell(l: Lexeme): string {
    match l
    case Ident(x) => x
    case Num(d) => d
    case Sym(p) => p
    case FileName(f) => f
    case Raw(t) => "$" + t + "$"
  }

  /** One step of the lexer at a non-empty input: skip whitespace or a comment, produce a
      lexeme, or get stuck on a character no rule accepts or on an unterminated comment
      or raw block. */
  datatype Step = Skipped(len: nat) | Lexed(lex: Lexeme, len: nat) | Stuck

  function NextStep(rev: Revision, s: string, afterImport: bool): (st: Step)
    requires s != []
    ensures st.Skipped? || st.Lexed? ==> 0 < st.len <= |s|
    ensures st.Lexed? ==> WellFormed(rev, st.lex)
    ensures st.Lexed? ==> Spell(st.lex) == s[..st.len]
    ensures st.Lexed? && st.lex.FileName? ==> afterImport
    ensures st.Skipped? ==> IsSpace(s[0]) || (|s| >= 2 && s[0] == '/' && (s[1] == '/' || s[1] == '*'))
  {
    if IsSpace(s[0]) then Skipped(1)
    else if afterImport && FileNameLength(rev, s) > 0 then
      var n := FileNameLength(rev, s);
      Lexed(FileName(s[..n]), n)
    else if |s| >= 2 && s[0] == '/' && s[1] == '/' then
      Skipped(2 + LineCommentLength(s[2..]))
    else if |s| >= 2 && s[0] == '/' && s[1] == '*' then
      match BlockCommentLength(s[2..])
      case None => Stuck
      case Some(n) => Skipped(2 + n)
    else if s[0] == '$' then
      match RawLength(s[1..])
      case None => Stuck
      case Some(n) =>
        assert s[..n + 2] == "$" + s[1..1 + n] + "$";
        Lexed(Raw(s[1..1 + n]), n + 2)
    else if IdentStart(rev, s[0]) then
      var n := IdentLength(rev, s);
      Lexed(Ident(s[..n]), n)
    else if IsDigit(s[0]) then
      var n := DigitsLength(s);
      Lexed(Num(s[..n]), n)
    else if SymbolLength(s) > 0 then
      var n := SymbolLength(s);
      Lexed(Sym(s[..n]), n)
    else Stuck
  }

  /** Lexes `s`. `glued` says whether nothing was skipped since the previous token;
      `afterImport` whether that token was the word `import`, whose operand is a file name. */
  function LexFrom(rev: Revision, s: string, glued: bool, afterImport: bool): (r: Result<seq<Token>, LexError>)
    ensures r.Ok? ==> AllWellFormed(rev, r.value)
    ensures r.Err? ==> 0 < r.error <= |s|
    decreases |s|
  {
    if s == [] then Ok([])
    else
      match NextStep(rev, s, afterImport)
      case Stuck => Err(|s|)
      case Skipped(n) => LexFrom(rev, s[n..], false, afterImport)
      case Lexed(l, n) => Emit(rev, Token(l, glued), LexFrom(rev, s[n..], true, l == Ident("import")))
  }

  /** The token sequence of a whole source text. */
  function Tokenize(rev: Revision, text: string): Result<seq<Token>, LexError> {
    LexFrom(rev, text, false, false)
  }
}
