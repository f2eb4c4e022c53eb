/** The trigger list of an `on` clause: a non-empty, comma-separated list without a
    trailing comma, each trigger a port event, `optional`, `inevitable` or an event name. */
module Triggers {
  import opened Tokens
  import opened Ast

  /** `trigger_formal`: `var`, optionally followed by `<-` and another `var`. The `<-`
      is a `<` with a `-` immediately after it. */
  function ParseTriggerFormal(toks: seq<Token>): (r: Option<Parsed<TriggerFormal>>)
    ensures r.Some? ==> |r.value.rest| < |toks|
    ensures r.Some? ==> Lex(toks) == PTriggerFormal(r.value.node) + Lex(r.value.rest)
  {
    var x :- ExpectIdent(toks);
    var none := Parsed(TriggerFormal(x.node, None), x.rest);
    var lt := Expect(x.rest, Sym("<"));
    if lt.None? || !(|lt.value| > 0 && lt.value[0].glued) then Some(none)
    else
      var minus := Expect(lt.value, Sym("-"));
      if minus.None? then Some(none)
      else
        match ExpectIdent(minus.value)
        case None => Some(none)
        case Some(y) =>
          Some(Parsed(TriggerFormal(x.node, Some(y.node)), y.rest))
  }

  /** `trigger_formal (',' trigger_formal)*`. */
  function ParseTriggerFormalList(toks: seq<Token>): (r: Option<Parsed<seq<TriggerFormal>>>)
    ensures r.Some? ==> |r.value.node| >= 1 && |r.value.rest| < |toks|
    ensures r.Some? ==> Lex(toks) == PTriggerFormalList(r.value.node) + Lex(r.value.rest)
    decreases |toks|
  {
    var f :- ParseTriggerFormal(toks);
    assert PTriggerFormalList([f.node]) == PTriggerFormal(f.node);
    var one := Parsed([f.node], f.rest);
    var sep := Expect(f.rest, Sym(","));
    if sep.None? then Some(one)
    else
      var tail := ParseTriggerFormalList(sep.value);
      if tail.None? then Some(one)
      else
        var more := tail.value;
        TriggerFormalListLex(Lex(toks), Lex(f.rest), Lex(sep.value), Lex(more.rest), f.node, more.node);
        Some(Parsed([f.node] + more.node, more.rest))
  }

  /** `trigger_formals`: `(`, an optional trigger formal list, `)`. */
  function ParseTriggerFormals(toks: seq<Token>): (r: Option<Parsed<seq<TriggerFormal>>>)
    ensures r.Some? ==> |r.value.rest| < |toks|
    ensures r.Some? ==> Lex(toks) == PTriggerFormals(r.value.node) + Lex(r.value.rest)
  {
    var open :- Expect(toks, Sym("("));
    match ParseTriggerFormalList(open)
    case Some(fs) =>
      var close :- Expect(fs.rest, Sym(")"));
      Chain3(Lex(toks), Lex(open), Lex(fs.rest), [Sym("(")], PTriggerFormalList(fs.node), [Sym(")")], Lex(close));
      Some(Parsed(fs.node, close))
    case None =>
      var close :- Expect(open, Sym(")"));
      Chain3(Lex(toks), Lex(open), Lex(open), [Sym("(")], PTriggerFormalList([]), [Sym(")")], Lex(close));
      Some(Parsed([], close))
  }

  lemma PortEventLex(x: seq<Lexeme>, a: seq<Lexeme>, b: seq<Lexeme>, c: seq<Lexeme>, d: seq<Lexeme>,
                     p: string, ev: string, fs: seq<TriggerFormal>)
    requires x == [Ident(p)] + a && a == [Sym(".")] + b && b == [Ident(ev)] + c
    requires c == PTriggerFormals(fs) + d
    ensures x == PTrigger(PortEvent(p, ev, fs)) + d
  {
    Chain4(x, a, b, c, [Ident(p)], [Sym(".")], [Ident(ev)], PTriggerFormals(fs), d);
  }

  /** `port_event`: `port_name . name trigger_formals`. */
  function ParsePortEvent(toks: seq<Token>): (r: Option<Parsed<Trigger>>)
    ensures r.Some? ==> |r.value.rest| < |toks| && r.value.node.PortEvent?
    ensures r.Some? ==> Lex(toks) == PTrigger(r.value.node) + Lex(r.value.rest)
  {
    var port :- ExpectIdent(toks);
    var dot :- Expect(port.rest, Sym("."));
    var ev :- ExpectIdent(dot);
    var fs :- ParseTriggerFormals(ev.rest);
    PortEventLex(Lex(toks), Lex(port.rest), Lex(dot), Lex(ev.rest), Lex(fs.rest), port.node, ev.node, fs.node);
    Some(Parsed(PortEvent(port.node, ev.node, fs.node), fs.rest))
  }

  /** `trigger`: tried as a port event, then `optional`, `inevitable`, then a bare event name. */
  function ParseTrigger(toks: seq<Token>): (r: Option<Parsed<Trigger>>)
    ensures r.Some? <==> |toks| > 0 && toks[0].lex.Ident?
    ensures r.Some? ==> |r.value.rest| < |toks|
    ensures r.Some? ==> Lex(toks) == PTrigger(r.value.node) + Lex(r.value.rest)
  {
    match ParsePortEvent(toks)
    case Some(p) => Some(p)
    case None =>
      if At(toks, Ident("optional")) then Some(Parsed(OptionalTrigger, toks[1..]))
      else if At(toks, Ident("inevitable")) then Some(Parsed(InevitableTrigger, toks[1..]))
      else
        var ev :- ExpectIdent(toks);
        Some(Parsed(EventTrigger(ev.node), ev.rest))
  }

  /** `triggers`: `trigger (',' trigger)*`. */
  function ParseTriggers(toks: seq<Token>): (r: Option<Parsed<seq<Trigger>>>)
    ensures r.Some? <==> |toks| > 0 && toks[0].lex.Ident?
    ensures r.Some? ==> |r.value.node| >= 1 && |r.value.rest| < |toks|
    ensures r.Some? ==> Lex(toks) == PTriggers(r.value.node) + Lex(r.value.rest)
    ensures r.Some? ==> !(|r.value.rest| >= 2 && r.value.rest[0].lex == Sym(",") && r.value.rest[1].lex.Ident?)
    decreases |toks|
  {
    var t :- ParseTrigger(toks);
    assert PTriggers([t.node]) == PTrigger(t.node);
    var one := Parsed([t.node], t.rest);
    var sep := Expect(t.rest, Sym(","));
    if sep.None? then Some(one)
    else
      var tail := ParseTriggers(sep.value);
      if tail.None? then Some(one)
      else
        var more := tail.value;
        TriggersLex(Lex(toks), Lex(t.rest), Lex(sep.value), Lex(more.rest), t.node, more.node);
        Some(Parsed([t.node] + more.node, more.rest))
  }

  lemma TriggerFormalListLex(x: seq<Lexeme>, a: seq<Lexeme>, b: seq<Lexeme>, d: seq<Lexeme>, f: TriggerFormal, fs: seq<TriggerFormal>)
    requires fs != []
    requires x == PTriggerFormal(f) + a && a == [Sym(",")] + b && b == PTriggerFormalList(fs) + d
    ensures x == PTriggerFormalList([f] + fs) + d
  {
    TriggerFormalsCons(f, fs);
    Chain3(x, a, b, PTriggerFormal(f), [Sym(",")], PTriggerFormalList(fs), d);
  }

  lemma TriggersLex(x: seq<Lexeme>, a: seq<Lexeme>, b: seq<Lexeme>, d: seq<Lexeme>, t: Trigger, ts: seq<Trigger>)
    requires ts != []
    requires x == PTrigger(t) + a && a == [Sym(",")] + b && b == PTriggers(ts) + d
    ensures x == PTriggers([t] + ts) + d
  {
    TriggersCons(t, ts);
    Chain3(x, a, b, PTrigger(t), [Sym(",")], PTriggers(ts), d);
  }
}
