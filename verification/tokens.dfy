/** The macro input as the front end sees it: a sequence of tokens read
    through a cursor, and the two token-level parses it performs itself
    (the `%` punctuation and a plain identifier).
 */
module Tokens {
  import opened Outcomes

  /** One token tree of the macro input.  The lexer is assumed to give every
      Rust keyword and `_` as `Keyword`, so an `Ident` whose name is a
      keyword (`Ident("pub")`) does not describe any real input. */
  datatype Tok =
    | Percent               // the punctuation `%`
    | Ident(name: string)   // a non-keyword identifier; keywords are never `Ident`
    | Keyword(name: string) // a reserved word (`pub`, `crate`, ...) or `_`
    | Other                 // any other punctuation, literal or group

  /** A parser syn supplies and whose source is not part of this model: it
      reads from the cursor and reports where it left it. */
  type Parser<V> = (seq<Tok>, nat) -> Outcome<V>

  /** The token under the cursor is `%` (syn's `peek(Token![%])`). */
  predicate AtPercent(toks: seq<Tok>, pos: nat)
  {
    pos < |toks| && toks[pos] == Percent
  }

  /** The token under the cursor is an identifier syn accepts as `Ident`. */
  predicate AtIdent(toks: seq<Tok>, pos: nat)
  {
    pos < |toks| && toks[pos].Ident?
  }

  /** `input.parse::<Ident>()`: takes one identifier, or fails in place. */
  function ParseIdent(toks: seq<Tok>, pos: nat): (r: Outcome<string>)
    ensures !r.Panic?
    ensures r.Ok? <==> AtIdent(toks, pos)
    ensures r.Ok? ==> r.pos == pos + 1 && toks[pos] == Ident(r.value)
    ensures r.Err? ==> r.pos == pos
  {
    if AtIdent(toks, pos) then Ok(toks[pos].name, pos + 1) else Err(pos)
  }
}
