/** The macro invocations of the repository's tests, and what the front end
    makes of them.  Every statement holds for any visibility parser: none of
    these inputs uses `%visibility`.
 */
module Scenarios {
  import opened Outcomes
  import opened Tokens
  import opened Directives
  import opened Terms
  import opened Syntax

  /** `%token Token %start Token` */
  const ItWorksInput: seq<Tok> :=
    [Percent, Ident("token"), Ident("Token"), Percent, Ident("start"), Ident("Token")]

  /** `%name parser %token Token %start Token` */
  const NameOptionInput: seq<Tok> :=
    [Percent, Ident("name"), Ident("parser")] + ItWorksInput

  /** `%name parser %public %token Token %start Token` */
  const IntegrationInput: seq<Tok> :=
    [Percent, Ident("name"), Ident("parser"), Percent, Ident("public")] + ItWorksInput

  /** Two options, then the lookahead pads the list with 98 productions;
      with no `%name` the parser is called `oxi_parser`. */
  lemma ItWorksUsesDefaultName<V>(vis: Parser<V>)
    ensures ParseOxiSyntax(ItWorksInput, 0, vis) == Ok(OxiSyntax(OxiConfig("oxi_parser")), 6)
  {
    var toks := ItWorksInput;
    var ts: seq<Term<V>> := [ConfigOption(Token("Token")), ConfigOption(Start("Token"))];
    assert Chain(toks, vis, [0, 3, 6], ts);
    CollectFollowsChain(toks, vis, [0, 3, 6], ts, LoopCap);
    ProductionRepeats(toks, 6, vis, LoopCap - 2);
    var all := ts + Productions(LoopCap - 2);
    assert ParseTerms(toks, 0, vis) == Ok(all, 6);
    forall i ensures !NameAt(all, i) {
      if 2 <= i < |all| { assert all[i] == Production; }
    }
  }

  /** `%name parser` renames the parser. */
  lemma NameOptionRenames<V>(vis: Parser<V>)
    ensures ParseOxiSyntax(NameOptionInput, 0, vis) == Ok(OxiSyntax(OxiConfig("parser")), 9)
  {
    var toks := NameOptionInput;
    var ts: seq<Term<V>> := [ConfigOption(Name("parser")), ConfigOption(Token("Token")), ConfigOption(Start("Token"))];
    assert Chain(toks, vis, [0, 3, 6, 9], ts);
    CollectFollowsChain(toks, vis, [0, 3, 6, 9], ts, LoopCap);
    ProductionRepeats(toks, 9, vis, LoopCap - 3);
    var all := ts + Productions(LoopCap - 3);
    assert ParseTerms(toks, 0, vis) == Ok(all, 9);
    assert FirstNameAt(all, 0);
  }

  /** `%public` is not a directive: the expansion aborts, even though the
      `%name` before it parsed. */
  lemma IntegrationInputPanics<V>(vis: Parser<V>)
    ensures ParseOxiSyntax(IntegrationInput, 0, vis) == Panic
  {
    var toks := IntegrationInput;
    var ts: seq<Term<V>> := [ConfigOption(Name("parser"))];
    assert Chain(toks, vis, [0, 3], ts);
    UnknownDirectivePanics(toks[..3], "public", toks[5..], vis);
    assert toks[..3] + [Percent, Ident("public")] + toks[5..] == toks;
    PanicAborts(toks, vis, [0, 3], ts, LoopCap);
  }

  /** An ordinary error ends collection quietly and hides everything after
      it, even an unknown directive that would otherwise abort: `%name`
      followed by anything that is not an identifier (another token, a
      keyword, a `%`, or the end of input) yields no terms and the default
      name, with the cursor left at the bad argument. */
  lemma ErrorHidesLaterInput<V>(rest: seq<Tok>, vis: Parser<V>)
    requires !AtIdent([Percent, Ident("name")] + rest, 2)
    ensures ParseOxiSyntax([Percent, Ident("name")] + rest, 0, vis)
            == Ok(OxiSyntax(OxiConfig(DefaultName)), 2)
  {
    var toks := [Percent, Ident("name")] + rest;
    assert toks[0] == Percent && toks[1] == Ident("name");
    assert Chain(toks, vis, [0], []);
    StopsAtFirstError(toks, vis, [0], [], LoopCap, 2);
  }

  /** The first `%name` decides the parser name whatever follows it: the
      expansion either aborts or is called after that first option. */
  lemma LeadingNameDecides<V>(x: string, rest: seq<Tok>, vis: Parser<V>)
    ensures var r := ParseOxiSyntax(Spell<V>(Name(x)) + rest, 0, vis);
      r.Panic? || (r.Ok? && r.value.config.name == x)
  {
    var toks := Spell<V>(Name(x)) + rest;
    SpellRoundTrip([], Name(x), rest, vis);
    assert [] + Spell<V>(Name(x)) + rest == toks;
    var ts: seq<Term<V>> := [ConfigOption(Name(x))];
    assert Chain(toks, vis, [0, 3], ts);
    CollectFollowsChain(toks, vis, [0, 3], ts, LoopCap);
    var r := ParseTerms(toks, 0, vis);
    if r.Ok? {
      assert r.value[0] == ConfigOption(Name(x));
      assert FirstNameAt(r.value, 0);
    }
  }
}
