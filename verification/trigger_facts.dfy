/** Properties of the trigger rules: printed trigger formals and trigger lists parse back
    to themselves, a list takes every `, trigger` there is, and a trailing comma makes the
    enclosing `on` fail. */
module TriggerFacts {
  import opened Tokens
  import opened Ast
  import opened Triggers
  import opened Statements
  import opened NameFacts
  import opened ExprFacts

  // ----- trigger formals -----

  lemma BindTokens(x: string, y: string, rest: seq<Token>)
    ensures Glue(PTriggerFormal(TriggerFormal(x, Some(y)))) + rest
         == [Token(Ident(x), false), Token(Sym("<"), false), Token(Sym("-"), true), Token(Ident(y), false)] + rest
  {
    assert PTriggerFormal(TriggerFormal(x, Some(y))) == [Ident(x)] + ([Sym("<")] + ([Sym("-")] + [Ident(y)]));
    GlueCons(Ident(x), [Sym("<")] + ([Sym("-")] + [Ident(y)]));
    GlueCons(Sym("<"), [Sym("-")] + [Ident(y)]);
    GlueCons(Sym("-"), [Ident(y)]);
    GlueCons(Ident(y), []);
  }

  /** A printed trigger formal parses back to itself before a `,` or `)`; the `<-` of a
      binding formal reads back because the printer glues its `-` to the `<`. */
  lemma TriggerFormalRoundTrip(f: TriggerFormal, rest: seq<Token>)
    requires At(rest, Sym(",")) || At(rest, Sym(")"))
    ensures ParseTriggerFormal(Glue(PTriggerFormal(f)) + rest) == Some(Parsed(f, rest))
  {
    if f.target.Some? {
      var toks := [Token(Ident(f.local), false), Token(Sym("<"), false), Token(Sym("-"), true), Token(Ident(f.target.value), false)] + rest;
      BindTokens(f.local, f.target.value, rest);
      assert toks[1..][1..][1..][1..] == rest;
    } else {
      assert PTriggerFormal(f) == [Ident(f.local)];
      GlueCons(Ident(f.local), []);
      assert ([Token(Ident(f.local), false)] + rest)[1..] == rest;
    }
  }

  lemma FormalListTokens(f: TriggerFormal, fs: seq<TriggerFormal>, rest: seq<Token>)
    requires fs != []
    ensures Glue(PTriggerFormalList([f] + fs)) + rest
         == Glue(PTriggerFormal(f)) + ([Token(Sym(","), false)] + (Glue(PTriggerFormalList(fs)) + rest))
  {
    TriggerFormalsCons(f, fs);
    GlueCat(PTriggerFormal(f) + [Sym(",")], PTriggerFormalList(fs), rest);
    GlueCat(PTriggerFormal(f), [Sym(",")], Glue(PTriggerFormalList(fs)) + rest);
    GlueCons(Sym(","), []);
  }

  lemma FormalListStep(f: TriggerFormal, body: seq<Token>, tail: seq<Token>)
    requires ParseTriggerFormal(body) == Some(Parsed(f, [Token(Sym(","), false)] + tail))
    requires ParseTriggerFormalList(tail).Some?
    ensures ParseTriggerFormalList(body)
         == var m := ParseTriggerFormalList(tail).value; Some(Parsed([f] + m.node, m.rest))
  {
    assert ([Token(Sym(","), false)] + tail)[1..] == tail;
  }

  /** A printed non-empty trigger formal list parses back to itself before `)`. */
  lemma {:induction false} TriggerFormalListRoundTrip(fs: seq<TriggerFormal>, rest: seq<Token>)
    requires |fs| >= 1 && At(rest, Sym(")"))
    ensures ParseTriggerFormalList(Glue(PTriggerFormalList(fs)) + rest) == Some(Parsed(fs, rest))
    decreases |fs|
  {
    if |fs| == 1 {
      assert PTriggerFormalList(fs) == PTriggerFormal(fs[0]);
      TriggerFormalRoundTrip(fs[0], rest);
      assert [fs[0]] == fs;
    } else {
      var tail := Glue(PTriggerFormalList(fs[1..])) + rest;
      assert fs == [fs[0]] + fs[1..];
      FormalListTokens(fs[0], fs[1..], rest);
      TriggerFormalRoundTrip(fs[0], [Token(Sym(","), false)] + tail);
      TriggerFormalListRoundTrip(fs[1..], rest);
      FormalListStep(fs[0], Glue(PTriggerFormalList(fs)) + rest, tail);
    }
  }

  lemma FormalsTokens(fs: seq<TriggerFormal>, rest: seq<Token>)
    ensures Glue(PTriggerFormals(fs)) + rest
         == [Token(Sym("("), false)] + (Glue(PTriggerFormalList(fs)) + ([Token(Sym(")"), false)] + rest))
  {
    GlueCat([Sym("(")] + PTriggerFormalList(fs), [Sym(")")], rest);
    GlueCat([Sym("(")], PTriggerFormalList(fs), [Token(Sym(")"), false)] + rest);
    GlueCons(Sym("("), []);
    GlueCons(Sym(")"), []);
  }

  /** Printed trigger formals, empty or not, parse back to themselves whatever follows. */
  lemma TriggerFormalsRoundTrip(fs: seq<TriggerFormal>, rest: seq<Token>)
    ensures ParseTriggerFormals(Glue(PTriggerFormals(fs)) + rest) == Some(Parsed(fs, rest))
  {
    var close := [Token(Sym(")"), false)] + rest;
    var body := Glue(PTriggerFormalList(fs)) + close;
    FormalsTokens(fs, rest);
    assert ([Token(Sym("("), false)] + body)[1..] == body;
    assert close[1..] == rest;
    if fs == [] {
      assert body == close;
      assert ParseTriggerFormalList(close).None?;
    } else {
      TriggerFormalListRoundTrip(fs, close);
    }
  }

  // ----- triggers -----

  /** The triggers the printer writes unambiguously: an event name is not spelled
      `optional` or `inevitable`. */
  predicate WfTrigger(t: Trigger) {
    t.EventTrigger? ==> t.eventName != "optional" && t.eventName != "inevitable"
  }

  lemma PortEventTokens(p: string, ev: string, fs: seq<TriggerFormal>, rest: seq<Token>)
    ensures Glue(PTrigger(PortEvent(p, ev, fs))) + rest
         == [Token(Ident(p), false), Token(Sym("."), true), Token(Ident(ev), false)] + (Glue(PTriggerFormals(fs)) + rest)
  {
    assert PTrigger(PortEvent(p, ev, fs)) == [Ident(p), Sym("."), Ident(ev)] + PTriggerFormals(fs);
    GlueCat([Ident(p), Sym("."), Ident(ev)], PTriggerFormals(fs), rest);
    GlueCons(Ident(p), [Sym("."), Ident(ev)]);
    GlueCons(Sym("."), [Ident(ev)]);
    GlueCons(Ident(ev), []);
  }

  /** A printed trigger parses back to itself when no `.` follows it. */
  lemma TriggerRoundTrip(t: Trigger, rest: seq<Token>)
    requires WfTrigger(t) && !At(rest, Sym("."))
    ensures ParseTrigger(Glue(PTrigger(t)) + rest) == Some(Parsed(t, rest))
  {
    match t
    case PortEvent(p, ev, fs) =>
      var after := Glue(PTriggerFormals(fs)) + rest;
      var toks := [Token(Ident(p), false), Token(Sym("."), true), Token(Ident(ev), false)] + after;
      PortEventTokens(p, ev, fs, rest);
      TriggerFormalsRoundTrip(fs, rest);
      assert toks[1..][1..][1..] == after;
      assert ParsePortEvent(toks) == Some(Parsed(t, rest));
    case _ =>
      var w := PTrigger(t)[0];
      GlueCons(w, []);
      var toks := [Token(w, false)] + rest;
      assert Glue(PTrigger(t)) + rest == toks;
      assert toks[1..] == rest;
      assert ParsePortEvent(toks).None?;
  }

  /** A `,` followed by an identifier: the input continues a trigger list. */
  predicate ContinuesTriggers(toks: seq<Token>) {
    |toks| >= 2 && toks[0].lex == Sym(",") && toks[1].lex.Ident?
  }

  lemma TriggersTokens(t: Trigger, ts: seq<Trigger>, rest: seq<Token>)
    requires ts != []
    ensures Glue(PTriggers([t] + ts)) + rest
         == Glue(PTrigger(t)) + ([Token(Sym(","), false)] + (Glue(PTriggers(ts)) + rest))
  {
    TriggersCons(t, ts);
    GlueCat(PTrigger(t) + [Sym(",")], PTriggers(ts), rest);
    GlueCat(PTrigger(t), [Sym(",")], Glue(PTriggers(ts)) + rest);
    GlueCons(Sym(","), []);
  }

  lemma TriggersStep(t: Trigger, body: seq<Token>, tail: seq<Token>)
    requires ParseTrigger(body) == Some(Parsed(t, [Token(Sym(","), false)] + tail))
    requires ParseTriggers(tail).Some?
    ensures ParseTriggers(body)
         == var m := ParseTriggers(tail).value; Some(Parsed([t] + m.node, m.rest))
  {
    assert ([Token(Sym(","), false)] + tail)[1..] == tail;
  }

  lemma TriggerHead(t: Trigger, rest: seq<Token>)
    ensures |Glue(PTrigger(t)) + rest| > 0 && (Glue(PTrigger(t)) + rest)[0].lex.Ident?
  {
    GlueCons(PTrigger(t)[0], PTrigger(t)[1..]);
    assert [PTrigger(t)[0]] + PTrigger(t)[1..] == PTrigger(t);
  }

  /** A printed trigger list parses back to itself, whatever follows that neither continues
      the list nor starts with `.`. */
  lemma {:induction false} TriggersRoundTrip(ts: seq<Trigger>, rest: seq<Token>)
    requires |ts| >= 1 && (forall i :: 0 <= i < |ts| ==> WfTrigger(ts[i]))
    requires !At(rest, Sym(".")) && !ContinuesTriggers(rest)
    ensures ParseTriggers(Glue(PTriggers(ts)) + rest) == Some(Parsed(ts, rest))
    decreases |ts|
  {
    if |ts| == 1 {
      assert PTriggers(ts) == PTrigger(ts[0]);
      TriggerRoundTrip(ts[0], rest);
      assert [ts[0]] == ts;
    } else {
      var tail := Glue(PTriggers(ts[1..])) + rest;
      assert ts == [ts[0]] + ts[1..];
      TriggersTokens(ts[0], ts[1..], rest);
      TriggerRoundTrip(ts[0], [Token(Sym(","), false)] + tail);
      TriggersRoundTrip(ts[1..], rest);
      TriggersStep(ts[0], Glue(PTriggers(ts)) + rest, tail);
    }
  }

  // ----- on -----

  lemma OnLexemes(ts: seq<Trigger>, s: Stmt)
    ensures PStmt(On(ts, s)) == [Ident("on")] + (PTriggers(ts) + ([Sym(":")] + PStmt(s)))
  {
  }

  lemma OnTokens(ts: seq<Trigger>, s: Stmt, rest: seq<Token>)
    ensures Glue(PStmt(On(ts, s))) + rest
         == [Token(Ident("on"), false)] + (Glue(PTriggers(ts)) + ([Token(Sym(":"), false)] + (Glue(PStmt(s)) + rest)))
  {
    OnLexemes(ts, s);
    OnGlue(PTriggers(ts), PStmt(s), rest);
  }

  lemma OnGlue(a: seq<Lexeme>, b: seq<Lexeme>, rest: seq<Token>)
    ensures Glue([Ident("on")] + (a + ([Sym(":")] + b))) + rest
         == [Token(Ident("on"), false)] + (Glue(a) + ([Token(Sym(":"), false)] + (Glue(b) + rest)))
  {
    var y := [Sym(":")] + b;
    GlueCons(Ident("on"), a + y);
    GlueCat(a, y, rest);
    GlueCons(Sym(":"), b);
    assert Glue([Ident("on")] + (a + y)) + rest == [Token(Ident("on"), false)] + (Glue(a + y) + rest);
    assert Glue(y) + rest == [Token(Sym(":"), false)] + (Glue(b) + rest);
  }

  /** One unfolding of `ParseOn` in the current revision after `on`. */
  lemma OnStep(body: seq<Token>)
    ensures ParseOn(Current, [Token(Ident("on"), false)] + body)
         == match ParseTriggers(body)
            case None => None
            case Some(ts) =>
              if !At(ts.rest, Sym(":")) then None
              else match ParseStatement(Current, ts.rest[1..])
                   case None => None
                   case Some(b) => Some(Parsed(On(ts.node, b.node), b.rest))
  {
    assert ([Token(Ident("on"), false)] + body)[1..] == body;
  }

  /** No trailing comma in a trigger list: in `on ts , : s` the list stops before the `,`
      and the clause then misses its `:`. */
  lemma TriggerTrailingCommaRejected(ts: seq<Trigger>, rest: seq<Token>)
    requires |ts| >= 1 && (forall i :: 0 <= i < |ts| ==> WfTrigger(ts[i]))
    ensures ParseOn(Current, [Token(Ident("on"), false)]
                             + (Glue(PTriggers(ts)) + ([Token(Sym(","), false), Token(Sym(":"), false)] + rest))).None?
  {
    var after := [Token(Sym(","), false), Token(Sym(":"), false)] + rest;
    TriggersRoundTrip(ts, after);
    OnStep(Glue(PTriggers(ts)) + after);
  }
}
