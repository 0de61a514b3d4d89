/** Configuration directives: `%` followed by a directive name and one
    argument (`ConfigOption::parse`).
 */
module Directives {
  import opened Outcomes
  import opened Tokens

  /** One configuration option.  `V` is whatever syn's `Visibility` parser
      produces; the model never looks inside it. */
  datatype ConfigOption<V> =
    | Name(ident: string)
    | Visibility(visibility: V)
    | Token(ident: string)
    | Start(ident: string)

  /** The directive names, one per variant. */
  const NameDirective := "name"
  const VisibilityDirective := "visibility"
  const TokenDirective := "token"
  const StartDirective := "start"

  /** The directive names that select a variant; any other name aborts. */
  const DirectiveNames: set<string> := {NameDirective, VisibilityDirective, TokenDirective, StartDirective}

  /** The directive name that selects each variant. */
  function DirectiveOf<V>(o: ConfigOption<V>): (d: string)
    ensures d in DirectiveNames
  {
    match o
    case Name(_) => NameDirective
    case Visibility(_) => VisibilityDirective
    case Token(_) => TokenDirective
    case Start(_) => StartDirective
  }

  /** The tokens that write an identifier-valued option: `% <directive> <ident>`. */
  function Spell<V>(o: ConfigOption<V>): seq<Tok>
    requires !o.Visibility?
  {
    [Percent, Ident(DirectiveOf(o)), Ident(o.ident)]
  }

  /** The cursor is at a `%` followed by an identifier. */
  predicate AtDirective(toks: seq<Tok>, pos: nat)
  {
    AtPercent(toks, pos) && AtIdent(toks, pos + 1)
  }

  /** The directive name after the `%`. */
  function DirectiveAt(toks: seq<Tok>, pos: nat): string
    requires AtDirective(toks, pos)
  {
    toks[pos + 1].name
  }

  /** `ConfigOption::parse`: reads `%`, the directive name, then the
      directive's argument.
      - A missing `%` or a missing directive name is an ordinary error.
      - It aborts exactly on an unknown directive name, or when the
        visibility parser itself aborts.
      - A known directive whose identifier argument is missing is an error
        at the argument; an error of the visibility parser is passed on with
        the cursor that parser left.
      - On success the variant is the one the directive name selects, and
        exactly the `%`, the name and the argument were consumed. */
  function ParseConfigOption<V>(toks: seq<Tok>, pos: nat, vis: Parser<V>): (r: Outcome<ConfigOption<V>>)
    ensures !AtPercent(toks, pos) ==> r == Err(pos)
    ensures AtPercent(toks, pos) && !AtIdent(toks, pos + 1) ==> r == Err(pos + 1)
    ensures r.Panic? <==> AtDirective(toks, pos) && (DirectiveAt(toks, pos) !in DirectiveNames || (DirectiveAt(toks, pos) == VisibilityDirective && vis(toks, pos + 2).Panic?))
    ensures AtDirective(toks, pos) && DirectiveAt(toks, pos) in DirectiveNames && DirectiveAt(toks, pos) != VisibilityDirective && !AtIdent(toks, pos + 2) ==> r == Err(pos + 2)
    ensures r.Ok? ==> AtDirective(toks, pos) && DirectiveAt(toks, pos) == DirectiveOf(r.value)
    ensures r.Ok? && !r.value.Visibility? ==> r.pos == pos + 3 && AtIdent(toks, pos + 2) && toks[pos + 2].name == r.value.ident
    ensures r.Ok? && r.value.Visibility? ==> vis(toks, pos + 2) == Ok(r.value.visibility, r.pos)
    ensures AtDirective(toks, pos) && DirectiveAt(toks, pos) == VisibilityDirective && vis(toks, pos + 2).Err? ==> r == Err(vis(toks, pos + 2).pos)
  {
    if !AtPercent(toks, pos) then Err(pos)
    else if !AtIdent(toks, pos + 1) then Err(pos + 1)
    else
      var directive := DirectiveAt(toks, pos);
      if directive == NameDirective then ParseIdent(toks, pos + 2).Map(x => Name(x))
      else if directive == VisibilityDirective then vis(toks, pos + 2).Map(v => Visibility(v))
      else if directive == TokenDirective then ParseIdent(toks, pos + 2).Map(x => Token(x))
      else if directive == StartDirective then ParseIdent(toks, pos + 2).Map(x => Start(x))
      else Panic
  }

  /** Reading back a spelled option yields that option, wherever it stands
      and whatever follows it. */
  lemma SpellRoundTrip<V>(pre: seq<Tok>, o: ConfigOption<V>, rest: seq<Tok>, vis: Parser<V>)
    requires !o.Visibility?
    ensures ParseConfigOption(pre + Spell(o) + rest, |pre|, vis) == Ok(o, |pre| + |Spell(o)|)
  {
    var toks := pre + Spell(o) + rest;
    assert toks[|pre|] == Percent;
    assert toks[|pre| + 1] == Ident(DirectiveOf(o));
    assert toks[|pre| + 2] == Ident(o.ident);
  }

  /** `%visibility` hands the rest of the stream to the visibility parser. */
  lemma VisibilityDelegates<V>(pre: seq<Tok>, rest: seq<Tok>, vis: Parser<V>, v: V, p: nat)
    requires vis(pre + [Percent, Ident(VisibilityDirective)] + rest, |pre| + 2) == Ok(v, p)
    ensures ParseConfigOption(pre + [Percent, Ident(VisibilityDirective)] + rest, |pre|, vis) == Ok(Visibility(v), p)
  {
    var toks := pre + [Percent, Ident(VisibilityDirective)] + rest;
    assert toks[|pre|] == Percent;
    assert toks[|pre| + 1] == Ident(VisibilityDirective);
  }

  /** An error of the visibility parser after `%visibility` is passed on,
      cursor included (the `?` on its result). */
  lemma VisibilityErrorPropagates<V>(pre: seq<Tok>, rest: seq<Tok>, vis: Parser<V>, q: nat)
    requires vis(pre + [Percent, Ident(VisibilityDirective)] + rest, |pre| + 2) == Err(q)
    ensures ParseConfigOption(pre + [Percent, Ident(VisibilityDirective)] + rest, |pre|, vis) == Err(q)
  {
    var toks := pre + [Percent, Ident(VisibilityDirective)] + rest;
    assert toks[|pre|] == Percent;
    assert toks[|pre| + 1] == Ident(VisibilityDirective);
  }

  /** Any directive name outside the four, `public` among them, aborts. */
  lemma UnknownDirectivePanics<V>(pre: seq<Tok>, d: string, rest: seq<Tok>, vis: Parser<V>)
    requires d !in DirectiveNames
    ensures ParseConfigOption(pre + [Percent, Ident(d)] + rest, |pre|, vis) == Panic
  {
    var toks := pre + [Percent, Ident(d)] + rest;
    assert toks[|pre|] == Percent;
    assert toks[|pre| + 1] == Ident(d);
  }
}
