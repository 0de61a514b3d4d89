/** The whole macro input (`OxiSyntax::parse`): collect the terms, then
    resolve the configuration from the options among them.  Only the parser
    name is kept.
 */
module Syntax {
  import opened Outcomes
  import opened Tokens
  import opened Directives
  import opened Terms

  /** The resolved configuration: the name of the generated parser function. */
  datatype OxiConfig = OxiConfig(name: string)

  datatype OxiSyntax = OxiSyntax(config: OxiConfig)

  /** The parser name used when no `%name` option is given. */
  const DefaultName := "oxi_parser"

  /** The options of the configuration terms, in term order (the `filter_map`). */
  function OptionsOf<V>(ts: seq<Term<V>>): (opts: seq<ConfigOption<V>>)
    ensures |opts| <= |ts|
    ensures forall k :: 0 <= k < |opts| ==> ConfigOption(opts[k]) in ts
    ensures forall i :: 0 <= i < |ts| && ts[i].ConfigOption? ==> ts[i].option in opts
  {
    if ts == [] then []
    else
      match ts[0]
      case ConfigOption(o) => [o] + OptionsOf(ts[1..])
      case Production => OptionsOf(ts[1..])
  }

  /** The argument of the first `Name` option (the `find_map`). */
  function FindName<V>(opts: seq<ConfigOption<V>>): (r: Option<string>)
    ensures r.Some? <==> exists i :: 0 <= i < |opts| && opts[i].Name?
    ensures forall i :: 0 <= i < |opts| && opts[i].Name? && (forall j :: 0 <= j < i ==> !opts[j].Name?)
              ==> r == Some(opts[i].ident)
  {
    if opts == [] then None
    else if opts[0].Name? then Some(opts[0].ident)
    else
      var r := FindName(opts[1..]);
      assert forall i :: 1 <= i < |opts| ==> opts[i] == opts[1..][i - 1];
      r
  }

  /** Term `i` is a `Name` option. */
  ghost predicate NameAt<V>(ts: seq<Term<V>>, i: int)
  {
    0 <= i < |ts| && ts[i].ConfigOption? && ts[i].option.Name?
  }

  /** Term `i` is the first `Name` option. */
  ghost predicate FirstNameAt<V>(ts: seq<Term<V>>, i: int)
  {
    NameAt(ts, i) && forall j :: 0 <= j < i ==> !NameAt(ts, j)
  }

  /** The parser name the terms select: the argument of the first `Name`
      option in term order, later ones ignored, or the default when there
      is none. */
  function ResolveName<V>(ts: seq<Term<V>>): (name: string)
    ensures (forall i :: !NameAt(ts, i)) ==> name == DefaultName
    ensures forall i :: FirstNameAt(ts, i) ==> name == ts[i].option.ident
  {
    FindNameOfOptions(ts);
    FindName(OptionsOf(ts)).GetOr(DefaultName)
  }

  /** Filtering the options out first finds the same name as looking for it
      among the terms. */
  lemma {:induction false} FindNameOfOptions<V>(ts: seq<Term<V>>)
    ensures FindName(OptionsOf(ts)).None? <==> forall i :: !NameAt(ts, i)
    ensures forall i :: FirstNameAt(ts, i) ==> FindName(OptionsOf(ts)) == Some(ts[i].option.ident)
    decreases |ts|
  {
    if ts != [] {
      var tail := ts[1..];
      FindNameOfOptions(tail);
      assert forall i :: 1 <= i < |ts| ==> (NameAt(ts, i) <==> NameAt(tail, i - 1)) by {
        forall i | 1 <= i < |ts| ensures ts[i] == tail[i - 1] { }
      }
      if NameAt(ts, 0) {
        assert OptionsOf(ts) == [ts[0].option] + OptionsOf(tail);
        assert forall i :: FirstNameAt(ts, i) ==> i == 0;
      } else {
        if ts[0].ConfigOption? {
          var opts := OptionsOf(ts);
          assert opts == [ts[0].option] + OptionsOf(tail);
          assert opts[1..] == OptionsOf(tail);
        }
        assert FindName(OptionsOf(ts)) == FindName(OptionsOf(tail));
        forall i | FirstNameAt(ts, i) ensures FirstNameAt(tail, i - 1) {
          assert i >= 1;
          forall j | 0 <= j < i - 1 ensures !NameAt(tail, j) {
            assert !NameAt(ts, j + 1);
          }
        }
        if exists i :: NameAt(ts, i) {
          var i :| NameAt(ts, i);
          assert NameAt(tail, i - 1);
        } else {
          forall i ensures !NameAt(tail, i) {
            assert !NameAt(ts, i + 1);
          }
        }
      }
    }
  }

  /** `OxiSyntax::parse`: never an error, since term collection swallows
      errors; only a panic stops it.  The cursor is left where term
      collection left it. */
  function ParseOxiSyntax<V>(toks: seq<Tok>, pos: nat, vis: Parser<V>): (r: Outcome<OxiSyntax>)
    ensures !r.Err?
    ensures r.Panic? <==> ParseTerms(toks, pos, vis).Panic?
    ensures r.Ok? ==> && ParseTerms(toks, pos, vis).Ok?
                      && r.pos == ParseTerms(toks, pos, vis).pos
                      && r.value.config.name == ResolveName(ParseTerms(toks, pos, vis).value)
  {
    var run := ParseTerms(toks, pos, vis);
    if run.Ok? then Ok(OxiSyntax(OxiConfig(ResolveName(run.value))), run.pos)
    else Panic
  }

  lemma {:induction false} OptionsOfAppend<V>(a: seq<Term<V>>, b: seq<Term<V>>)
    ensures OptionsOf(a + b) == OptionsOf(a) + OptionsOf(b)
    decreases |a|
  {
    if a != [] {
      assert (a + b)[1..] == a[1..] + b;
      OptionsOfAppend(a[1..], b);
    } else {
      assert a + b == b;
    }
  }

  lemma {:induction false} FindNameSkips<V>(a: seq<ConfigOption<V>>, o: ConfigOption<V>, b: seq<ConfigOption<V>>)
    requires !o.Name?
    ensures FindName(a + [o] + b) == FindName(a + b)
    decreases |a|
  {
    if a == [] {
      assert (a + [o] + b)[1..] == a + b;
    } else if !a[0].Name? {
      assert (a + [o] + b)[1..] == a[1..] + [o] + b;
      assert (a + b)[1..] == a[1..] + b;
      FindNameSkips(a[1..], o, b);
    }
  }

  /** Only the name survives into the configuration: inserting any term that
      is not a `Name` option, anywhere, leaves the resolved name unchanged. */
  lemma OnlyNameMatters<V>(a: seq<Term<V>>, t: Term<V>, b: seq<Term<V>>)
    requires !(t.ConfigOption? && t.option.Name?)
    ensures ResolveName(a + [t] + b) == ResolveName(a + b)
  {
    OptionsOfAppend(a + [t], b);
    OptionsOfAppend(a, [t]);
    OptionsOfAppend(a, b);
    if t.ConfigOption? {
      assert OptionsOf([t]) == [t.option];
      FindNameSkips(OptionsOf(a), t.option, OptionsOf(b));
    } else {
      assert OptionsOf([t]) == [];
      assert OptionsOf(a) + [] == OptionsOf(a);
    }
  }
}
