# Dezyne grammar model

The repository defines the surface syntax of the Dezyne modelling language as two
tree-sitter grammar tables: `grammar.js` (the current revision) and `grammar-bak.js` (an
older revision). Neither contains executable logic; what they define is a language. This
project models that language in Dafny:

- **Lexer** (`lexer.dfy`): the character classes of both revisions (identifiers, digit
  runs, import file names, `$…$` raw blocks, punctuation), whitespace and `//` / `/* */`
  comments as skipped extras, and a tokenizer that records for every token whether it
  was glued to the previous one (no whitespace or comment between them). Keywords are
  identifier lexemes recognised by their text where a rule names them.
- **Parser** (`names.dfy`, `expressions.dfy`, `triggers.dfy`, `statements.dfy`,
  `declarations.dfy`, `parser.dfy`): one recursive-descent function per grammar rule,
  over a token sequence, returning `Option<Parsed<Node>>` (the node and the remaining
  tokens). `choice` is an ordered choice, `repeat` stops before the first element that
  does not parse, and a separator is only consumed when an element follows it.
- **Revision flag**: every function that depends on the revision takes
  `rev: Revision` (`Current` for `grammar.js`, `Backup` for `grammar-bak.js`).
- **Printer** (`ast.dfy`): the inverse of the parser, writing a node back as lexemes.
  Every parse function's contract says the consumed tokens are exactly the printed node
  (`Lex(toks) == P(node) + Lex(rest)`); the fact files prove the other direction — a
  printed node parses back to itself — and state
  the grammar's shape rules (precedence, associativity, glued dots, revision
  differences) as lemmas.
- **Fact files** (`lexer_facts.dfy`, `name_facts.dfy`, `expr_facts.dfy`,
  `trigger_facts.dfy`, `stmt_facts.dfy`, `decl_facts.dfy`, `behavior_facts.dfy`,
  `file_facts.dfy`): round trips for every construct, from names, numbers and
  expressions through statements, types, events, interfaces, functions, behaviours,
  ports, systems, components and namespaces to whole files — as tokens, and as text
  through the lexer. They also prove the rules' rejections (empty enums, doubled commas,
  two qualifiers, a missing component body, `.*` inside a path) and the differences
  between the revisions.

## Model

| member | source | states |
|---|---|---|
| Lexer.NextStep | grammar.js:4 | one lexing step on a non-empty input skips or consumes between 1 and the whole input's length of characters; what it skips starts with whitespace or a comment opener, and every lexeme it yields belongs to its character class (identifier, digits, symbol, file name only after `import`, raw text without `$`) and is spelled exactly by the characters it consumed |
| Lexer.LexFrom | grammar.js:246-253 | a successful tokenization yields only well-formed lexemes of the revision; a failure reports a position inside the input |
| LexerFacts.IdentifierLexed | grammar.js:246 | a maximal run matching `[A-Za-z_][A-Za-z0-9_]*` is lexed as exactly one identifier of that text |
| LexerFacts.UnderscoreInIdentifier | grammar-bak.js:182 | in the backup revision lexing stops at the `_` after a word, so the whole text fails there, while the current revision takes the `_` into the identifier |
| LexerFacts.BackupIdentifierStopsAtDigit | grammar-bak.js:182 | in the backup revision an identifier ends before a digit: identifiers are letters only |
| LexerFacts.DigitsLexed | grammar.js:248 | a maximal digit run is lexed as one number lexeme |
| LexerFacts.MinusDigitsGlued | grammar.js:248 | `-` immediately followed by digits yields a `-` and a digit run glued to it, which the parser reads as one negative number |
| LexerFacts.MinusSpaceDigits | grammar.js:210-213 | `-`, a space, then digits yields a digit run that is not glued, so the `-` stays a unary operator |
| LexerFacts.FileNameLexed | grammar-bak.js:20 | after `import`, a file name (no whitespace and no `;` in the backup revision; any first non-blank character then no `;` in the current one) is lexed as one file-name lexeme |
| LexerFacts.LineCommentSkipped | grammar.js:251 | `//` and the rest of a line without backslashes are skipped as one piece, up to the line break |
| LexerFacts.LineCommentContinued | grammar.js:251 | in a `//` comment a run of backslashes takes the next character with it, a line break or carriage return plus line feed included, so the comment goes on; at the end of the input a run of two or more backslashes stays in the comment and a single one does not |
| LexerFacts.SymbolLexed | grammar.js:210-226 | an operator or punctuation mark that the next character does not extend into a longer one is lexed as exactly that symbol |
| LexerFacts.LexPrinted | grammar.js:4 | printing tokens (a space before every token not glued to the one before it) and lexing the text gives back the same lexemes with the same glue flags, whenever no printed lexeme is extended by what follows it and file names come exactly after `import` |
| LexerFacts.TokenizePrinted | grammar.js:4 | a printed text of such tokens, the first not glued, tokenizes back to exactly those tokens |
| LexerFacts.BlockCommentSkipped | grammar.js:252 | `/*` through the first `*/` is skipped as one piece; a `/*` that is never closed stops the lexer |
| LexerFacts.RawLexed | grammar.js:29-31 | `$`, text without `$`, `$` is lexed as one raw lexeme carrying the text |
| LexerFacts.WhitespaceSkipped | grammar.js:4 | any run of whitespace is skipped and unglues the next token |
| Names.ParseNameParts | grammar.js:230-233 | the part list parses exactly when the input starts with an identifier, takes at least one part, and consumes exactly the printed parts |
| Names.ParseCompoundName | grammar.js:228-236 | a compound name has at least one part and consumes exactly its printed form, global `.` included |
| NameFacts.CompoundNameRoundTrip | grammar.js:228-236 | a printed compound name, with or without the global `.`, parses back to itself when what follows does not continue it |
| NameFacts.NamePartsMaximal | grammar.js:232 | a parsed name is never followed by a further `. identifier` it could have taken |
| NameFacts.NamePartsGlued | grammar-bak.js:160-164 | in the backup revision every `.` inside a parsed name was glued to the identifier before it |
| Names.ParseNumber | grammar.js:248 | a number consumes its printed form, and a negative one only when its digits were glued to the `-` |
| NameFacts.NumberRoundTrip | grammar.js:248 | a printed number, negative or not, parses back to itself |
| Names.ParseTypeName | grammar.js:96 | a type name (`bool`, `void` or a compound name) consumes exactly its printed form |
| Names.ParseFormal | grammar.js:94 | a formal (optional direction, type, name) consumes exactly its printed form |
| Names.ParseFormalList | grammar.js:92 | a formal list holds at least one formal and consumes exactly the printed, comma-separated list |
| Names.ParseFormals | grammar.js:92 | a parenthesised, possibly empty formal list consumes exactly its printed form |
| Names.ParseEndPoint | grammar.js:81-84 | an end point is `*` or a compound name optionally followed by `.*`, and consumes exactly its printed form |
| NameFacts.TypeNameRoundTrip | grammar.js:96 | a printed type name (`bool`, `void`, or a compound name not spelled like those) parses back to itself when nothing continues it |
| NameFacts.FormalRoundTrip | grammar.js:94 | a printed formal parses back to itself before `,` or `)`: a direction word is read as the direction, and an undirected type that does not start with one is read as the type |
| NameFacts.FormalListRoundTrip | grammar.js:92 | a printed non-empty formal list parses back to every one of its formals, stopping at the `)` |
| NameFacts.FormalsRoundTrip | grammar.js:92 | printed formals, the empty `( )` included, parse back to themselves whatever follows |
| Expressions.BinaryOpOf | grammar.js:215-226 | a lexeme denotes a binary operator exactly when it is one of the ten operator symbols |
| Expressions.ParseExpr | grammar.js:194-204 | a parsed expression consumes exactly its printed form, leans left, and in the backup revision uses only names, literals and operators |
| Expressions.ParseBinaryTail | grammar.js:215-226 | the operator chain folds every `op operand` pair onto the left operand, keeping the result left-leaning |
| Expressions.ParseUnary | grammar.js:210-213 | a unary operand is never a binary expression: `!` and `-` bind tighter than every binary operator |
| Expressions.ParsePrimary | grammar.js:194-208 | a primary is neither unary nor binary; the backup revision has no groups, raw blocks, calls or actions |
| Expressions.ParseLiteral | grammar.js:208 | a literal parses exactly when the first token is digits, `true`, `false` or (current revision) a raw block, and consumes that one token |
| Expressions.ParseActionExpr | grammar.js:174 | an action is `port . event (arguments)` and consumes exactly its printed form |
| Expressions.ParseCallExpr | grammar.js:176 | a call is `name (arguments)` and consumes exactly its printed form |
| Expressions.ParseArgs | grammar.js:178 | an argument list is parenthesised and comma-separated and consumes exactly its printed form |
| ExprFacts.ExprRoundTrip | grammar.js:194-226 | every well-formed printed expression parses back to itself: all binary operators share one level, chains associate to the left, unary operators bind tighter |
| ExprFacts.UnaryRoundTrip | grammar.js:210-213 | a printed non-binary operand parses back to itself |
| ExprFacts.ArgsRoundTrip | grammar.js:178 | printed arguments parse back to themselves whatever follows |
| ExprFacts.OrAndShareOneLevel | grammar.js:215-217 | for any names, `a \|\| b && c` parses as `(a \|\| b) && c` |
| ExprFacts.MinusLeansLeft | grammar.js:225 | for any names, `a - b - c` parses as `(a - b) - c` |
| ExprFacts.NotBindsTighter | grammar.js:210-211 | for any names, `!a && b` parses as `(!a) && b` |
| ExprFacts.MinusBeforeDigits | grammar.js:248 | a `-` glued to digits is one negative literal; separated from them it is the unary operator |
| Triggers.ParseTriggerFormal | grammar.js:135 | a trigger formal is a variable optionally followed by `<-` and another variable, and consumes exactly its printed form |
| Triggers.ParseTriggerFormals | grammar.js:133 | parenthesised trigger formals consume exactly their printed form |
| Triggers.ParsePortEvent | grammar.js:127 | a port event is `port . event (formals)` and consumes exactly its printed form |
| Triggers.ParseTrigger | grammar.js:120-125 | a trigger parses exactly when the input starts with an identifier (port event, `optional`, `inevitable` or event name) |
| Triggers.ParseTriggers | grammar.js:118 | the trigger list is non-empty, consumes exactly its printed comma-separated form, and stops only where no `, trigger` follows |
| TriggerFacts.TriggerFormalRoundTrip | grammar.js:135 | a printed trigger formal, with or without `<- var`, parses back to itself before `,` or `)` |
| TriggerFacts.TriggerFormalListRoundTrip | grammar.js:133 | a printed non-empty trigger formal list parses back to every one of its formals before `)` |
| TriggerFacts.TriggerFormalsRoundTrip | grammar.js:133 | printed trigger formals, empty or not, parse back to themselves whatever follows |
| TriggerFacts.TriggerRoundTrip | grammar.js:120-131 | a printed trigger (a port event, `optional`, `inevitable`, or an event name not spelled like those two) parses back to itself when no `.` follows |
| TriggerFacts.TriggersRoundTrip | grammar.js:118 | a printed trigger list parses back to every one of its triggers, whatever follows that does not continue it |
| TriggerFacts.TriggerTrailingCommaRejected | grammar.js:116-118 | `on ts , : s` is no `on` clause: a trigger list takes no trailing comma |
| Statements.ParseStatement | grammar.js:149-152 | when it succeeds, the tokens it consumes spell exactly the printed statement, which has its revision's shape (imperative only in the backup revision) |
| Statements.ParseDeclarative | grammar.js:109-114 | when it succeeds, the tokens it consumes spell exactly the printed `on`, `blocking`, guard or compound, of the revision's shape |
| Statements.ParseImperative | grammar.js:154-166 | when it succeeds, the tokens it consumes spell exactly the printed statement, which is imperative (never `on`, `blocking` or a guard) and, at the end of a then-branch, leaves no `if` without its `else` open |
| Statements.ParseOn | grammar.js:116 | when it succeeds, the tokens it consumes spell exactly the printed `on triggers : statement`, which is an `on` with a non-empty trigger list and cannot occur in the backup revision |
| Statements.ParseBlocking | grammar.js:182 | when it succeeds, the tokens it consumes spell exactly the printed `blocking statement`, which cannot occur in the backup revision |
| Statements.ParseGuard | grammar.js:137 | when it succeeds, the tokens it consumes spell exactly the printed `[otherwise-or-expression] statement`, which cannot occur in the backup revision |
| Statements.ParseCompound | grammar.js:141 | when it succeeds, the tokens it consumes spell exactly the printed `{ statements }`, any number of them in the current revision |
| Statements.ParseCompoundBody | grammar-bak.js:137 | in the backup revision a compound holds exactly one statement |
| Statements.ParseIf | grammar.js:188 | when it succeeds, the tokens it consumes spell exactly the printed `if (expression) imperative (else imperative)?`, both branches imperative |
| Statements.ParseElse | grammar.js:188 | the tokens it consumes spell exactly the printed optional `else` branch, which is imperative |
| Statements.ParseIllegal | grammar.js:184 | when it succeeds, the tokens it consumes spell exactly the printed `illegal ;` and yields the illegal statement |
| Statements.ParseReturn | grammar.js:192 | when it succeeds, the tokens it consumes spell exactly the printed `return expression? ;`, the expression of the backup revision's shape there |
| Statements.ParseDefer | grammar.js:168 | when it succeeds, the tokens it consumes spell exactly the printed `defer arguments? imperative` in the current revision and `defer ;` in the backup one |
| Statements.ParseBareDefer | grammar-bak.js:142 | the backup `defer` parses exactly when the input starts with `defer ;` and consumes those two tokens |
| Statements.ParseVariable | grammar.js:143 | when it succeeds, the tokens it consumes spell exactly the printed `type name (= expression)? ;` and yields a variable |
| Statements.ParseAssign | grammar.js:186 | when it succeeds, the tokens it consumes spell exactly the printed `name = expression ;` and yields an assignment |
| Statements.ParseReplyValue | grammar-bak.js:140 | the reply value is mandatory in the current revision and optional in the backup one |
| Statements.ParseReply | grammar.js:190 | when it succeeds, the tokens it consumes spell exactly the printed `(port .)? reply (expression) ;` and yields a reply; in the backup revision the port's `.` must not be glued to the port (a port prefix is taken only then) |
| Statements.ParseActionOrCall | grammar.js:172-176 | when it succeeds, the tokens it consumes spell exactly the printed action, call or interface action followed by `;` |
| StmtFacts.StmtRoundTrip | grammar.js:149-166 | every well-formed printed statement of either revision (declarative or imperative, of every kind) parses back to itself as a statement, unless an `else` follows an `if` left open |
| StmtFacts.DeclarativeRoundTrip | grammar.js:109-114 | a printed `on`, `blocking`, guard or compound parses back to itself as a declarative statement |
| StmtFacts.OnRoundTrip | grammar.js:116 | a printed `on triggers : statement` parses back to itself as a statement |
| StmtFacts.BlockingRoundTrip | grammar.js:182 | a printed `blocking statement` parses back to itself |
| StmtFacts.GuardRoundTrip | grammar.js:137 | a printed guard, `[otherwise]` or `[expression]` then a statement, parses back to itself |
| StmtFacts.VariableRoundTrip | grammar.js:143 | a printed variable declaration, with or without initializer, parses back to itself as the first non-keyword alternative |
| StmtFacts.ReplyRoundTrip | grammar.js:190 | a printed reply parses back to itself and is no variable or assignment: with or without port in the current revision, without port in the backup one |
| StmtFacts.PortReplyGluedInBackup | grammar-bak.js:139-140 | in the backup revision `port.reply();` with the `.` glued to the port is no statement (the glued `.` continues a compound name), while `port . reply();` with a space is a reply to that port |
| StmtFacts.ActionStmtRoundTrip | grammar.js:172-174 | a printed action statement `port . event ( args ) ;` parses back to itself |
| StmtFacts.CallStmtRoundTrip | grammar.js:172-176 | a printed call statement `f ( args ) ;` parses back to itself, not as an action, reply or assignment |
| StmtFacts.InterfaceActionRoundTrip | grammar.js:165 | a printed `name ;` parses back to itself as an interface action after every other alternative fails |
| StmtFacts.DeferRoundTrip | grammar.js:168 | a printed `defer`, with or without arguments, parses back to itself in the current revision |
| StmtFacts.BareDeferRoundTrip | grammar-bak.js:142 | `defer ;` parses back to itself in the backup revision |
| StmtFacts.ImperativeRoundTrip | grammar.js:154-166 | the same statements parse back to themselves as imperative statements |
| StmtFacts.ListRoundTrip | grammar.js:141 | a printed statement sequence followed by `}` parses back to exactly those statements |
| StmtFacts.CompoundRoundTrip | grammar.js:141 | a printed compound parses back to itself, any number of statements in the current revision and exactly one in the backup one |
| StmtFacts.IfRoundTrip | grammar.js:188 | a printed `if`, with or without `else`, parses back to itself unless an `else` follows an `if` left open |
| StmtFacts.AssignRoundTrip | grammar.js:186 | a printed assignment to a non-keyword name parses back to itself |
| StmtFacts.ReturnRoundTrip | grammar.js:192 | a printed `return`, with or without a value, parses back to itself |
| StmtFacts.IllegalRoundTrip | grammar.js:184 | a printed `illegal ;` parses back to itself |
| StmtFacts.SkipRoundTrip | grammar.js:180 | a printed empty statement `;` parses back to itself |
| StmtFacts.ElseIfChain | grammar.js:188 | `if (x) a = 1; else if (y) a = 2; else a = 3;` parses as a chain, each `else` taken by the `if` right before it |
| StmtFacts.DanglingElse | grammar.js:188 | in `if (x) if (y) a = 1; else a = 2;` the `else` belongs to the outer `if` (the left-associative `if` is closed before the `else`), and the inner `if` has none |
| StmtFacts.SecondElseLeftOver | grammar.js:188 | in `if (x) if (y) a = 1; else a = 2; else a = 3;` the first `else` goes to the outer `if` and the second is left unread, so the text is no single statement |
| StmtFacts.BackupCompoundHoldsOne | grammar-bak.js:137 | a braced pair of statements is no compound in the backup revision, while the current revision parses it back to itself |
| StmtFacts.ReplyValueOptionalInBackup | grammar-bak.js:140 | `reply ( ) ;` is a reply without a value in the backup revision and no reply in the current one |
| StmtFacts.DeferOnlyBareInBackup | grammar-bak.js:142 | `defer` followed by a statement other than `;` is a defer in the current revision and none in the backup one |
| Declarations.ParseIdentList | grammar.js:41 | an enum field list parses exactly when the input starts with a name, is non-empty, and stops only where no `, name` follows |
| Declarations.ParseTrailingComma | grammar.js:41 | at most one trailing comma is taken, exactly when one is there |
| Declarations.ParseEnum | grammar.js:39-41 | when it succeeds, the tokens it consumes spell exactly the printed enum, which has at least one field |
| Declarations.ParseSubint | grammar.js:43-45 | when it succeeds, the tokens it consumes spell exactly the printed `subint name { from .. to } ;` |
| Declarations.ParseExtern | grammar.js:47 | when it succeeds, the tokens it consumes spell exactly the printed `extern name $raw$ ;` |
| Declarations.ParseTypeDecl | grammar.js:33-37 | when it succeeds, the tokens it consumes spell exactly the printed enum, subint or extern, an enum always with a field |
| DeclFacts.IdentListRoundTrip | grammar.js:41 | a printed non-empty name list parses back to every one of its names, whatever follows that does not continue it |
| DeclFacts.EnumRoundTrip | grammar.js:39-41 | a printed enum, with or without its trailing comma, parses back to itself as a type definition |
| DeclFacts.SubintRoundTrip | grammar.js:43-45 | a printed `subint name { from .. to } ;`, negative bounds included, parses back to itself as a type definition |
| DeclFacts.ExternRoundTrip | grammar.js:47 | a printed `extern name $text$ ;` parses back to itself as a type definition |
| DeclFacts.TypeDeclRoundTrip | grammar.js:33-37 | every printed enum (with at least one field), subint or extern parses back to itself whatever follows |
| DeclFacts.EnumNeedsField | grammar.js:41 | `enum n { } ;` is no type definition: an enum names at least one value |
| DeclFacts.EnumOneTrailingComma | grammar.js:41 | `enum n { x , , } ;` is no type definition: at most one comma trails the names |
| Declarations.ParseEvent | grammar.js:65-67 | when it succeeds, the tokens it consumes spell exactly the printed event: `in`/`out`, type, name, formals, `;` |
| Declarations.ParseInterfaceItem | grammar.js:60-63 | when it succeeds, the tokens it consumes spell exactly the printed type definition or event |
| Declarations.ParseInterface | grammar.js:58 | when it succeeds, the tokens it consumes spell exactly the printed `interface name { items behavior? }`, its behaviour of the revision's shape |
| Declarations.ParseFunction | grammar.js:107 | when it succeeds, the tokens it consumes spell exactly the printed `type name formals compound`, of the revision's shape |
| Declarations.ParseBehaviorItem | grammar.js:100-105 | when it succeeds, the tokens it consumes spell exactly the printed function, variable, declarative statement or type; only functions and variables in the backup revision |
| Declarations.ParseBehavior | grammar.js:98 | when it succeeds, the tokens it consumes spell exactly the printed `behavior`/`behaviour`, optional name and braced items of the revision's shape |
| BehaviorFacts.EventRoundTrip | grammar.js:65-67 | a printed event parses back to itself whatever follows |
| BehaviorFacts.InterfaceItemRoundTrip | grammar.js:60-63 | a printed type definition or event parses back to itself as an interface item, in either revision (the backup grammar's interface items are the same two forms) |
| BehaviorFacts.InterfaceItemsRoundTrip | grammar.js:58 | printed interface items parse back to every one of them, up to whatever follows that is no item |
| BehaviorFacts.InterfaceRoundTrip | grammar.js:58 | a printed interface, with or without a behaviour, parses back to itself whatever follows |
| BehaviorFacts.FunctionRoundTrip | grammar.js:107 | a printed function parses back to itself whatever follows |
| BehaviorFacts.BehaviorItemRoundTrip | grammar.js:100-105 | a printed function, variable, declarative statement (current revision) or type definition (current revision) parses back to itself as a behaviour item; in the backup revision the items that read back are functions and variables only |
| BehaviorFacts.VariableNotFunction | grammar.js:107 | a printed variable is never read as a function: `=` or `;` follows its name, not `(` |
| BehaviorFacts.LocalTypeMember | grammar.js:104 | a printed type definition inside a behaviour is no function, variable or declarative statement and is read as a type |
| BehaviorFacts.BehaviorItemsRoundTrip | grammar.js:98 | printed behaviour items parse back to every one of them before the closing `}` |
| BehaviorFacts.BehaviorRoundTrip | grammar.js:98 | a printed behaviour, spelled `behavior` or `behaviour`, named or not, parses back to itself whatever follows |
| Declarations.ParsePort | grammar.js:86-90 | when it succeeds, the tokens it consumes spell exactly the printed port: one direction, at most one qualifier, type, optional formals, name, `;` |
| DeclFacts.PortRoundTrip | grammar.js:86-90 | a printed port, with or without qualifier and formals, parses back to itself whatever follows |
| DeclFacts.PortsRoundTrip | grammar.js:69 | printed ports parse back to every one of them, up to whatever follows that is no port |
| DeclFacts.TwoQualifiersRejected | grammar.js:86 | `provides q1 q2 t n ;` is no port: a port takes at most one qualifier |
| Declarations.ParseInstance | grammar.js:77 | when it succeeds, the tokens it consumes spell exactly the printed `compound_name name ;` and yields an instance |
| Declarations.ParseBinding | grammar.js:79 | when it succeeds, the tokens it consumes spell exactly the printed `end_point <=> end_point ;` and yields a binding |
| DeclFacts.EndPointRoundTrip | grammar.js:81-84 | a printed end point (`*`, a path, or a path with `.*`) parses back to itself when no `.` follows |
| DeclFacts.InstanceRoundTrip | grammar.js:77 | a printed instance parses back to itself as a system item |
| DeclFacts.BindingRoundTrip | grammar.js:79 | a printed binding parses back to itself as a system item, never mistaken for an instance |
| DeclFacts.SystemItemRoundTrip | grammar.js:75-79 | every printed instance or binding parses back to itself |
| DeclFacts.SystemItemsRoundTrip | grammar.js:73 | printed system items parse back to every one of them, up to whatever follows that is no item |
| DeclFacts.WildcardEndsPath | grammar.js:81-84 | `n . * . b` begins no system item: `.*` can only end an end point |
| Declarations.ParseBody | grammar.js:71-73 | when it succeeds, the tokens it consumes spell exactly the printed behaviour or system, the behaviour of the revision's shape |
| Declarations.ParseComponent | grammar.js:69 | when it succeeds, the tokens it consumes spell exactly the printed `component name { ports body }` with exactly one body |
| DeclFacts.SystemBodyRoundTrip | grammar.js:73 | a printed `system { items }` parses back to itself as a body |
| FileFacts.BodyRoundTrip | grammar.js:71 | a printed behaviour or system parses back to itself as a component body |
| FileFacts.ComponentRoundTrip | grammar.js:69 | a printed component with ports and a behaviour or system body parses back to itself |
| DeclFacts.ComponentNeedsBody | grammar.js:69 | `component n { ports }` is no component: the body is required |
| FileFacts.ComponentDeclRoundTrip | grammar.js:16-23 | in the current revision a printed component, with either body, is a root or namespace item that parses back to itself |
| DeclFacts.BackupHasNoComponents | grammar-bak.js:8-16 | in the backup revision nothing starting with `component` is a root or namespace item |
| Declarations.ParseImport | grammar.js:25 | when it succeeds, the tokens it consumes spell exactly the printed `import file_name ;` and yields an import |
| Declarations.ParseDecl | grammar.js:16-23 | when it succeeds, the tokens it consumes spell exactly the printed declaration, of the revision's shape: imports and raw blocks only at the root, components only in the current revision |
| Declarations.ParseNamespace | grammar.js:49-56 | when it succeeds, the tokens it consumes spell exactly the printed `namespace name { declarations }`, holding only namespace-level declarations |
| FileFacts.ImportRoundTrip | grammar.js:25 | a printed import is a root item that parses back to itself |
| FileFacts.RawBlockRoundTrip | grammar.js:29-31 | a printed raw block is a root item that parses back to itself |
| FileFacts.TypeDefRoundTrip | grammar.js:19 | a printed type definition is a root or namespace item that parses back to itself |
| FileFacts.InterfaceDefRoundTrip | grammar.js:21 | a printed interface is a root or namespace item that parses back to itself |
| FileFacts.NamespaceRoundTrip | grammar.js:49-56 | a printed namespace of printable namespace items, nested namespaces included, parses back to itself |
| FileFacts.DeclRoundTrip | grammar.js:16-23 | every printable item parses back to itself at the root or in a namespace: imports and raw blocks at the root only, components in the current revision only |
| FileFacts.DeclsRoundTrip | grammar.js:14 | printed items parse back to every one of them, up to whatever follows that is no item |
| FileFacts.SourceRoundTrip | grammar.js:14-23 | a printed file of printable root items parses as a source file of exactly those items |
| FileFacts.TextRoundTrip | grammar.js:14 | a file of printable root items written out as text, lexed and parsed, gives back exactly those items whenever its tokens lex back |
| Parser.ParseSourceTokens | grammar-bak.js:9-16 | a whole token sequence parses to declarations of the revision's root shape that print back to it, or fails at a position inside it |
| Parser.Parse | grammar.js:14-23 | a source text parses when it tokenizes and its tokens parse as root declarations; the error says which of the two steps failed |

## Left out

- The tree-sitter engine: `extras`, the `word` keyword extraction, `conflicts` and the
  LR/GLR resolution behind `prec`. Their effect is modelled directly: ordered choice,
  keywords matched by text, left-associative operator chains, and, because
  `if_statement` is left-associative, an `if` that ends another `if`'s then-branch is
  closed before an `else`, which goes to the outer `if`. The lexer's preference for the
  backup grammar's immediate `.` is modelled through the `glued` flag: a glued `.`
  after a word continues a compound name, so a backup port prefix needs a spaced `.`.
- Error recovery, incremental parsing and syntax trees with error nodes: a parse either
  succeeds or returns `None`.
- Unicode: `\s` is modelled as ASCII space, tab, carriage return, line feed, vertical
  tab and form feed.
- `$…$` is one raw lexeme in both revisions. In the current revision `dollars` is three
  tokens with `dollars_content` between them, so comments inside the dollars are not
  modelled separately.
- A file name is lexed after every `import` identifier, not only where the `import` rule
  is being parsed.
- The commented-out alternatives (`interface_action` in expressions, and the
  commented `component`, `declarative_statement`, `action_or_call` options of the backup
  revision) and the open-question notes at the end of `grammar.js`.
- Parser.ParseSourceTokens: the syntax-error position is the first token the root
  repetition did not consume, not the position of the innermost failure.
- Keyword reservation: tree-sitter's `word` extraction makes a keyword such as `reply`
  unusable as an identifier where the keyword is valid. The model applies this at the
  start of a behaviour item, where `on` and `blocking` always begin a declarative
  statement in the current revision; elsewhere a keyword-spelled identifier is accepted
  wherever an ordered-choice fallback reads an identifier (so `reply ( ) ;` is a call in
  the current revision). The round-trip lemmas exclude such names.
- The round trips hold for the printable forms the `Wf` predicates describe: names not
  spelled like keywords where a keyword could start, a guard condition not starting with
  `otherwise`, an `else` not following an `if` left open, and, in the text round trip,
  tokens the printer's spacing keeps apart (a word followed by glued digits, for
  instance, would merge into one identifier).
- Statements.ParseStatement: its contract states only that a success consumes exactly the printed node (soundness); that every printed node parses back (completeness) is StmtFacts.StmtRoundTrip.
- Statements.ParseDeclarative: its contract states only that a success consumes exactly the printed node (soundness); that every printed node parses back (completeness) is StmtFacts.DeclarativeRoundTrip.
- Statements.ParseImperative: its contract states only that a success consumes exactly the printed node (soundness); that every printed node parses back (completeness) is StmtFacts.ImperativeRoundTrip.
- Statements.ParseBlocking: its contract states only that a success consumes exactly the printed node (soundness); that every printed node parses back (completeness) is StmtFacts.BlockingRoundTrip.
- Statements.ParseGuard: its contract states only that a success consumes exactly the printed node (soundness); that every printed node parses back (completeness) is StmtFacts.GuardRoundTrip.
- Statements.ParseDefer: its contract states only that a success consumes exactly the printed node (soundness); that every printed node parses back (completeness) is StmtFacts.DeferRoundTrip.
- Statements.ParseVariable: its contract states only that a success consumes exactly the printed node (soundness); that every printed node parses back (completeness) is StmtFacts.VariableRoundTrip.
- Statements.ParseReply: its contract states only that a success consumes exactly the printed node (soundness); that every printed node parses back (completeness) is StmtFacts.ReplyRoundTrip.
- StmtFacts.ReplyRoundTrip: in the backup revision it covers only a reply without port, because the printer glues the port's `.` and a glued `.` continues a compound name there; StmtFacts.PortReplyGluedInBackup shows that the glued form is no statement and that the spaced form `port . reply();` is a reply.
- Statements.ParseActionOrCall: its contract states only that a success consumes exactly the printed node (soundness); that every printed node parses back (completeness) is StmtFacts.CallStmtRoundTrip.
- Declarations.ParseSubint: its contract states only that a success consumes exactly the printed node (soundness); that every printed node parses back (completeness) is DeclFacts.SubintRoundTrip.
- Declarations.ParseExtern: its contract states only that a success consumes exactly the printed node (soundness); that every printed node parses back (completeness) is DeclFacts.ExternRoundTrip.
- Declarations.ParseTypeDecl: its contract states only that a success consumes exactly the printed node (soundness); that every printed node parses back (completeness) is DeclFacts.TypeDeclRoundTrip.
- Declarations.ParseEvent: its contract states only that a success consumes exactly the printed node (soundness); that every printed node parses back (completeness) is BehaviorFacts.EventRoundTrip.
- Declarations.ParseInterfaceItem: its contract states only that a success consumes exactly the printed node (soundness); that every printed node parses back (completeness) is BehaviorFacts.InterfaceItemRoundTrip.
- Declarations.ParseInterface: its contract states only that a success consumes exactly the printed node (soundness); that every printed node parses back (completeness) is BehaviorFacts.InterfaceRoundTrip.
- Declarations.ParseFunction: its contract states only that a success consumes exactly the printed node (soundness); that every printed node parses back (completeness) is BehaviorFacts.FunctionRoundTrip.
- Declarations.ParseBehaviorItem: its contract states only that a success consumes exactly the printed node (soundness); that every printed node parses back (completeness) is BehaviorFacts.BehaviorItemRoundTrip.
- Declarations.ParseBehavior: its contract states only that a success consumes exactly the printed node (soundness); that every printed node parses back (completeness) is BehaviorFacts.BehaviorRoundTrip.
- Declarations.ParseBody: its contract states only that a success consumes exactly the printed node (soundness); that every printed node parses back (completeness) is FileFacts.BodyRoundTrip.
- Declarations.ParseComponent: its contract states only that a success consumes exactly the printed node (soundness); that every printed node parses back (completeness) is FileFacts.ComponentRoundTrip.
- Declarations.ParseImport: its contract states only that a success consumes exactly the printed node (soundness); that every printed node parses back (completeness) is FileFacts.ImportRoundTrip.
- Declarations.ParseDecl: its contract states only that a success consumes exactly the printed node (soundness); that every printed node parses back (completeness) is FileFacts.DeclRoundTrip.
- Declarations.ParseNamespace: its contract states only that a success consumes exactly the printed node (soundness); that every printed node parses back (completeness) is FileFacts.NamespaceRoundTrip.
- LexerFacts.LineCommentSkipped: covers a comment line without backslashes; a backslash run taking the next character, line breaks included, is LexerFacts.LineCommentContinued.
- Lexer.LexFrom: its contract states that what it yields is well formed and where it fails; that printed tokens lex back to themselves is LexerFacts.LexPrinted.
- Parser.ParseSourceTokens: its contract states soundness and the error position; that a printed file of well-formed declarations parses back to them is FileFacts.SourceRoundTrip.
- Parser.Parse: its contract states how the two steps combine; that a printed text parses back to its declarations is FileFacts.TextRoundTrip, which holds only for token sequences the printer's spacing keeps apart (a word followed by glued digits would merge into one identifier).
