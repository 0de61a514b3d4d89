/** Terms of the macro input and their collection (`Term::parse` and
    `parse_terms`).
 */
module Terms {
  import opened Outcomes
  import opened Tokens
  import opened Directives

  /** A term is a configuration option or a production.  Productions are
      not parsed yet: the variant is a placeholder with no contents. */
  datatype Term<V> =
    | ConfigOption(option: ConfigOption<V>)
    | Production

  /** `Term::is_config_option`. */
  predicate IsConfigOption<V>(t: Term<V>)
  {
    match t
    case ConfigOption(_) => true
    case _ => false
  }

  /** `Term::is_production`: every term is exactly one of the two kinds. */
  function IsProduction<V>(t: Term<V>): (r: bool)
    ensures r <==> !IsConfigOption(t)
  {
    match t
    case Production => true
    case _ => false
  }

  /** `Term::parse`: one token of lookahead.  A `%` starts a configuration
      option; anything else, end of input included, is a production that
      consumes nothing. */
  function ParseTerm<V>(toks: seq<Tok>, pos: nat, vis: Parser<V>): (r: Outcome<Term<V>>)
    ensures !AtPercent(toks, pos) ==> r == Ok(Production, pos)
    ensures r.Ok? ==> (r.value.ConfigOption? <==> AtPercent(toks, pos))
    ensures r.Ok? && r.value.ConfigOption? ==> ParseConfigOption(toks, pos, vis) == Ok(r.value.option, r.pos)
    ensures r.Err? ==> AtPercent(toks, pos) && ParseConfigOption(toks, pos, vis) == Err(r.pos)
    ensures r.Panic? ==> AtPercent(toks, pos) && ParseConfigOption(toks, pos, vis).Panic?
  {
    if AtPercent(toks, pos) then ParseConfigOption(toks, pos, vis).Map(o => ConfigOption(o))
    else Ok(Production, pos)
  }

  /** The number of iterations of the collection loop. */
  const LoopCap: nat := 100

  /** Puts `pre` in front of the terms of a successful collection. */
  function Prepend<V>(pre: seq<Term<V>>, o: Outcome<seq<Term<V>>>): Outcome<seq<Term<V>>>
  {
    match o
    case Ok(ts, q) => Ok(pre + ts, q)
    case Err(q) => Err(q)
    case Panic => Panic
  }

  /** The collection loop with `n` iterations left: parse a term, keep it
      and go on; an error ends the loop quietly with the terms so far; a
      panic aborts.  With no iteration left the loop ends where it is. */
  function Collect<V>(toks: seq<Tok>, pos: nat, vis: Parser<V>, n: nat): (r: Outcome<seq<Term<V>>>)
    ensures !r.Err?
    ensures r.Ok? ==> |r.value| <= n
    decreases n
  {
    if n == 0 then Ok([], pos)
    else
      match ParseTerm(toks, pos, vis)
      case Ok(t, p) => Prepend([t], Collect(toks, p, vis, n - 1))
      case Err(p) => Ok([], p)
      case Panic => Panic
  }

  /** `parse_terms`: never an error, and at most `LoopCap` terms. */
  function ParseTerms<V>(toks: seq<Tok>, pos: nat, vis: Parser<V>): (r: Outcome<seq<Term<V>>>)
    ensures !r.Err?
    ensures r.Ok? ==> |r.value| <= LoopCap
  {
    Collect(toks, pos, vis, LoopCap)
  }

  /** `parse_terms` as the loop it is written as; it computes `ParseTerms`. */
  method CollectTerms<V>(toks: seq<Tok>, pos: nat, vis: Parser<V>) returns (r: Outcome<seq<Term<V>>>)
    ensures r == ParseTerms(toks, pos, vis)
    ensures !r.Err?
    ensures r.Ok? ==> |r.value| <= LoopCap
  {
    var terms: seq<Term<V>> := [];
    var cur := pos;
    PrependNothing(Collect(toks, pos, vis, LoopCap));
    for i := 0 to LoopCap
      invariant |terms| == i
      invariant Collect(toks, pos, vis, LoopCap) == Prepend(terms, Collect(toks, cur, vis, LoopCap - i))
    {
      match ParseTerm(toks, cur, vis)
      case Ok(t, p) =>
        PrependTwice(terms, [t], Collect(toks, p, vis, LoopCap - i - 1));
        terms := terms + [t];
        cur := p;
      case Err(p) =>
        assert terms + [] == terms;
        return Ok(terms, p);
      case Panic =>
        return Panic;
    }
    assert terms + [] == terms;
    return Ok(terms, cur);
  }

  /** Bookkeeping: prepending no terms changes nothing. */
  lemma PrependNothing<V>(o: Outcome<seq<Term<V>>>)
    ensures Prepend([], o) == o
  {
    if o.Ok? {
      assert [] + o.value == o.value;
    }
  }

  /** Bookkeeping: two prepends are one prepend of the joined terms. */
  lemma PrependTwice<V>(a: seq<Term<V>>, b: seq<Term<V>>, o: Outcome<seq<Term<V>>>)
    ensures Prepend(a, Prepend(b, o)) == Prepend(a + b, o)
  {
    if o.Ok? {
      assert a + (b + o.value) == (a + b) + o.value;
    }
  }

  /** `cs` are the cursors of a run of successful term parses producing `ts`:
      term `i` was parsed from `cs[i]` and left the cursor at `cs[i + 1]`. */
  ghost predicate Chain<V>(toks: seq<Tok>, vis: Parser<V>, cs: seq<nat>, ts: seq<Term<V>>)
  {
    && |cs| == |ts| + 1
    && forall i :: 0 <= i < |ts| ==> ParseTerm(toks, cs[i], vis) == Ok(ts[i], cs[i + 1])
  }

  /** Collection follows any run of successful term parses and then
      continues from where that run left the cursor. */
  lemma {:induction false} CollectFollowsChain<V>(toks: seq<Tok>, vis: Parser<V>, cs: seq<nat>, ts: seq<Term<V>>, n: nat)
    requires Chain(toks, vis, cs, ts) && |ts| <= n
    ensures Collect(toks, cs[0], vis, n) == Prepend(ts, Collect(toks, cs[|ts|], vis, n - |ts|))
    decreases |ts|
  {
    var rest := Collect(toks, cs[|ts|], vis, n - |ts|);
    if |ts| == 0 {
      if rest.Ok? {
        assert [] + rest.value == rest.value;
      }
    } else {
      assert ParseTerm(toks, cs[0], vis) == Ok(ts[0], cs[1]);
      assert Chain(toks, vis, cs[1..], ts[1..]) by {
        forall i | 0 <= i < |ts[1..]|
          ensures ParseTerm(toks, cs[1..][i], vis) == Ok(ts[1..][i], cs[1..][i + 1])
        {
          assert ParseTerm(toks, cs[i + 1], vis) == Ok(ts[i + 1], cs[i + 2]);
        }
      }
      CollectFollowsChain(toks, vis, cs[1..], ts[1..], n - 1);
      PrependTwice([ts[0]], ts[1..], rest);
      assert [ts[0]] + ts[1..] == ts;
    }
  }

  /** Collection stops at the first error and returns exactly the terms
      parsed before it; nothing after the failing term is looked at. */
  lemma StopsAtFirstError<V>(toks: seq<Tok>, vis: Parser<V>, cs: seq<nat>, ts: seq<Term<V>>, n: nat, q: nat)
    requires Chain(toks, vis, cs, ts) && |ts| < n
    requires ParseTerm(toks, cs[|ts|], vis) == Err(q)
    ensures Collect(toks, cs[0], vis, n) == Ok(ts, q)
  {
    CollectFollowsChain(toks, vis, cs, ts, n);
    assert ts + [] == ts;
  }

  /** A panic in any term before the cap aborts the whole collection,
      whatever was parsed before it. */
  lemma PanicAborts<V>(toks: seq<Tok>, vis: Parser<V>, cs: seq<nat>, ts: seq<Term<V>>, n: nat)
    requires Chain(toks, vis, cs, ts) && |ts| < n
    requires ParseTerm(toks, cs[|ts|], vis).Panic?
    ensures Collect(toks, cs[0], vis, n) == Panic
  {
    CollectFollowsChain(toks, vis, cs, ts, n);
  }

  /** When every iteration succeeds the loop runs out and returns all `n`
      terms (this is where `parse_terms` reports the exhausted cap). */
  lemma CapEndsCollection<V>(toks: seq<Tok>, vis: Parser<V>, cs: seq<nat>, ts: seq<Term<V>>)
    requires Chain(toks, vis, cs, ts)
    ensures Collect(toks, cs[0], vis, |ts|) == Ok(ts, cs[|ts|])
  {
    CollectFollowsChain(toks, vis, cs, ts, |ts|);
    assert ts + [] == ts;
  }

  /** Conversely, every collection result is such a run: it ends at the cap,
      at the first error, or at the first panic. */
  lemma {:induction false} CollectIsChain<V>(toks: seq<Tok>, pos: nat, vis: Parser<V>, n: nat)
    ensures var r := Collect(toks, pos, vis, n);
      r.Ok? ==>
        exists cs :: && Chain(toks, vis, cs, r.value) && cs[0] == pos
                     && ((|r.value| == n && cs[n] == r.pos)
                         || (|r.value| < n && ParseTerm(toks, cs[|r.value|], vis) == Err(r.pos)))
    ensures Collect(toks, pos, vis, n).Panic? ==>
      exists cs, ts :: && Chain(toks, vis, cs, ts) && cs[0] == pos && |ts| < n
                       && ParseTerm(toks, cs[|ts|], vis).Panic?
    decreases n
  {
    var step := ParseTerm(toks, pos, vis);
    if n == 0 || !step.Ok? {
      assert Chain(toks, vis, [pos], []);
    } else {
      var t, p := step.value, step.pos;
      CollectIsChain(toks, p, vis, n - 1);
      var inner := Collect(toks, p, vis, n - 1);
      if inner.Ok? {
        var cs' :| && Chain(toks, vis, cs', inner.value) && cs'[0] == p
                   && ((|inner.value| == n - 1 && cs'[n - 1] == inner.pos)
                       || (|inner.value| < n - 1 && ParseTerm(toks, cs'[|inner.value|], vis) == Err(inner.pos)));
        ConsChain(toks, vis, pos, t, cs', inner.value);
      } else if inner.Panic? {
        var cs', ts' :| && Chain(toks, vis, cs', ts') && cs'[0] == p && |ts'| < n - 1
                        && ParseTerm(toks, cs'[|ts'|], vis).Panic?;
        ConsChain(toks, vis, pos, t, cs', ts');
      }
    }
  }

  /** A successful term parse in front of a run extends the run. */
  lemma ConsChain<V>(toks: seq<Tok>, vis: Parser<V>, pos: nat, t: Term<V>, cs: seq<nat>, ts: seq<Term<V>>)
    requires Chain(toks, vis, cs, ts) && ParseTerm(toks, pos, vis) == Ok(t, cs[0])
    ensures Chain(toks, vis, [pos] + cs, [t] + ts)
  {
    var cs2, ts2 := [pos] + cs, [t] + ts;
    forall i | 0 <= i < |ts2|
      ensures ParseTerm(toks, cs2[i], vis) == Ok(ts2[i], cs2[i + 1])
    {
      if i > 0 {
        assert cs2[i] == cs[i - 1] && ts2[i] == ts[i - 1] && cs2[i + 1] == cs[i];
      }
    }
  }

  /** `n` production placeholders. */
  function Productions<V>(n: nat): seq<Term<V>>
  {
    seq(n, _ => Production)
  }

  /** Once the lookahead sees no `%`, the cursor never moves again: every
      remaining iteration yields a production, so the list is padded to the cap. */
  lemma {:induction false} ProductionRepeats<V>(toks: seq<Tok>, pos: nat, vis: Parser<V>, n: nat)
    requires !AtPercent(toks, pos)
    ensures Collect(toks, pos, vis, n) == Ok(Productions(n), pos)
    decreases n
  {
    if n > 0 {
      ProductionRepeats(toks, pos, vis, n - 1);
      assert [Production] + Productions<V>(n - 1) == Productions(n);
    } else {
      assert Productions<V>(0) == [];
    }
  }

  /** Every collected list is configuration options followed by
      productions, and if any production is present it fills the list to
      the cap. */
  lemma {:induction false} CollectShape<V>(toks: seq<Tok>, pos: nat, vis: Parser<V>, n: nat)
    ensures var r := Collect(toks, pos, vis, n);
      r.Ok? ==> forall i, j :: 0 <= i < j < |r.value| && r.value[i].Production? ==> r.value[j].Production?
    ensures var r := Collect(toks, pos, vis, n);
      r.Ok? && (exists i :: 0 <= i < |r.value| && r.value[i].Production?) ==> |r.value| == n
    decreases n
  {
    if n > 0 {
      match ParseTerm(toks, pos, vis)
      case Ok(t, p) =>
        if t.Production? {
          ProductionRepeats(toks, pos, vis, n);
        } else {
          CollectShape(toks, p, vis, n - 1);
          var inner := Collect(toks, p, vis, n - 1);
          if inner.Ok? {
            var ts := [t] + inner.value;
            assert Collect(toks, pos, vis, n) == Ok(ts, inner.pos);
            forall i, j | 0 <= i < j < |ts| && ts[i].Production?
              ensures ts[j].Production?
            {
              assert i > 0 && ts[i] == inner.value[i - 1] && ts[j] == inner.value[j - 1];
            }
            if exists i :: 0 <= i < |ts| && ts[i].Production? {
              var i :| 0 <= i < |ts| && ts[i].Production?;
              assert i > 0 && inner.value[i - 1].Production?;
            }
          }
        }
      case Err(_) =>
      case Panic =>
    }
  }

  /** The visibility parser never moves the cursor backwards or past the
      end of the input. */
  ghost predicate Advances<V>(vis: Parser<V>)
  {
    forall toks: seq<Tok>, pos: nat ::
      pos <= |toks| && !vis(toks, pos).Panic? ==> pos <= vis(toks, pos).pos <= |toks|
  }

  /** With such a visibility parser every term parse stays inside the input,
      and a configuration term consumes at least the `%` and the directive
      name: the only step that does not move forward is a production. */
  lemma TermAdvances<V>(toks: seq<Tok>, pos: nat, vis: Parser<V>)
    requires Advances(vis) && pos <= |toks|
    ensures var r := ParseTerm(toks, pos, vis);
      !r.Panic? ==> pos <= r.pos <= |toks|
    ensures var r := ParseTerm(toks, pos, vis);
      r.Ok? && r.value.ConfigOption? ==> pos + 2 <= r.pos
  {
    if AtPercent(toks, pos) && AtIdent(toks, pos + 1) {
      assert !vis(toks, pos + 2).Panic? ==> pos + 2 <= vis(toks, pos + 2).pos <= |toks|;
    }
  }

  /** Term collection keeps the cursor inside the input and never moves it
      backwards. */
  lemma {:induction false} CollectStaysInInput<V>(toks: seq<Tok>, pos: nat, vis: Parser<V>, n: nat)
    requires Advances(vis) && pos <= |toks|
    ensures var r := Collect(toks, pos, vis, n);
      !r.Panic? ==> pos <= r.pos <= |toks|
    decreases n
  {
    if n > 0 {
      TermAdvances(toks, pos, vis);
      var step := ParseTerm(toks, pos, vis);
      if step.Ok? {
        CollectStaysInInput(toks, step.pos, vis, n - 1);
      }
    }
  }
}
