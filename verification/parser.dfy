/** A whole source file: the lexer followed by `source_file`, the root items up to the end
    of the input. */
module Parser {
  import opened Tokens
  import opened Ast
  import opened Lexer
  import opened Declarations

  /** Why a text is not a source file: the lexer stopped with `remaining` characters left,
      or the parser could not consume the token at index `at`. */
  datatype ParseError = LexicalError(remaining: nat) | SyntaxError(at: nat)

  /** `source_file` over tokens: root items, and nothing after them. */
  function ParseSourceTokens(rev: Revision, toks: seq<Token>): (r: Result<seq<Decl>, nat>)
    ensures r.Ok? ==> Lex(toks) == PDecls(r.value)
    ensures r.Ok? ==> forall i :: 0 <= i < |r.value| ==> DeclShape(rev, false, r.value[i])
    ensures r.Err? ==> r.error < |toks|
  {
    var ds := ParseDecls(rev, false, toks);
    if ds.rest == [] then
      assert Lex(ds.rest) == [];
      Ok(ds.node)
    else
      Err(|toks| - |ds.rest|)
  }

  /** Parses a source text of the given revision. */
  function Parse(rev: Revision, text: string): (r: Result<seq<Decl>, ParseError>)
    ensures r.Ok? ==> Tokenize(rev, text).Ok? && Lex(Tokenize(rev, text).value) == PDecls(r.value)
    ensures r.Ok? ==> forall i :: 0 <= i < |r.value| ==> DeclShape(rev, false, r.value[i])
    ensures r.Err? && r.error.LexicalError? <==> Tokenize(rev, text).Err?
    ensures r.Err? && r.error.LexicalError? ==> 0 < r.error.remaining <= |text|
    ensures r.Err? && r.error.SyntaxError? ==> r.error.at < |Tokenize(rev, text).value|
  {
    match Tokenize(rev, text)
    case Err(e) => Err(LexicalError(e))
    case Ok(toks) =>
      match ParseSourceTokens(rev, toks)
      case Ok(ds) => Ok(ds)
      case Err(i) => Err(SyntaxError(i))
  }
}
