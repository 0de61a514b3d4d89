# oxi_gen front end, modelled in Dafny

`oxi_gen` provides the `oxi!` procedural macro, which is meant to become a
parser generator. Today the macro has only a front end. It reads a list of
terms from the macro input. A term is either a configuration option
(`%name parser`, `%visibility pub`, `%token Token`, `%start Expr`) or a
production placeholder. From those terms it resolves the name of the
function to generate. This project models that front end as pure functions
over a token sequence with an explicit cursor, and proves what the code does.

- `outcomes.dfy` (`Outcomes`): the three-way result of a parse step. `Ok`
  carries a value and the new cursor. `Err` carries the cursor where the
  stream was left. `Panic` stands for a `panic!` that unwinds through every
  caller.
- `tokens.dfy` (`Tokens`): tokens (`Percent`, `Ident`, `Keyword`, `Other`),
  the `%` lookahead, and syn's one-token `Ident` parse.
- `directives.dfy` (`Directives`): `ConfigOption` and `ConfigOption::parse`,
  the directive dispatch.
- `terms.dfy` (`Terms`): `Term`, the one-token lookahead `Term::parse`, and
  `parse_terms`. `parse_terms` appears twice: as a recursion on the number
  of iterations left (`Collect`), and as the for-loop it is written as
  (`CollectTerms`). The two are proved equal.
- `syntax.dfy` (`Syntax`): `OxiSyntax::parse` and the parser-name resolution.
- `scenarios.dfy` (`Scenarios`): the invocations in `tests/tests.rs` and
  what the front end makes of them.

What the code does, as modelled:
- The default parser name is `oxi_parser`.
- The first `%name` wins. Later ones are ignored.
- The recognised directives are `name`, `visibility`, `token` and `start`.
- An unknown directive panics.
- Nothing is validated, and no option is required.
- Term collection ends at a 100-iteration cap. A production term consumes
  no input, so once the lookahead sees no `%`, every remaining iteration
  adds another placeholder.
- `tests/tests.rs:34-42` writes `%public`. The code panics on it
  (`Scenarios.IntegrationInputPanics`).

syn's `Visibility` parser is a parameter `vis` of the parsing functions. It
is a function from the tokens and a cursor to an `Outcome`, and its value
type is a type parameter `V`. syn's `Ident` parse is modelled directly: it
takes one `Ident` token. Rust keywords and `_` are `Keyword` tokens, which
syn does not accept as identifiers.

## Model

| member | source | states |
|---|---|---|
| `Tokens.ParseIdent` | src/lib.rs:36 | an identifier parse never panics; it succeeds exactly on an `Ident` token, consuming that one token and returning its name; otherwise it fails without moving the cursor |
| `Directives.DirectiveOf` | src/lib.rs:38-50 | each variant is selected by one of the four directive names `name`, `visibility`, `token`, `start` |
| `Directives.ParseConfigOption` | src/lib.rs:34-55 | a missing `%` fails at the cursor; a missing directive identifier fails after the `%`; it panics exactly when the directive name is none of the four, or when the visibility parser panics; a known identifier-valued directive without an identifier argument fails at the argument; on success the input starts with `%` and the directive name of the returned variant; an identifier-valued option consumes exactly three tokens, the third being its argument; `Visibility` carries what the visibility parser returned and ends where that parser left the cursor; an error of the visibility parser is passed on with that parser's cursor |
| `Directives.SpellRoundTrip` | src/lib.rs:35-50 | `% name x`, `% token x` and `% start x`, read back at any position and followed by anything, yield that option and advance the cursor by three |
| `Directives.VisibilityErrorPropagates` | src/lib.rs:42-44 | after `% visibility`, an error of the visibility parser is returned unchanged, with the cursor that parser left |
| `Directives.VisibilityDelegates` | src/lib.rs:42-44 | after `% visibility`, a visibility value parsed from the third token on becomes a `Visibility` option, ending where the visibility parser ended |
| `Directives.UnknownDirectivePanics` | src/lib.rs:51-53 | a `%` followed by any identifier outside the four directive names (for example `public`) panics, whatever follows |
| `Terms.IsProduction` | src/lib.rs:64-76 | a term is a production exactly when it is not a configuration option, so the two tests are exclusive and cover every term |
| `Terms.ParseTerm` | src/lib.rs:79-89 | without a `%` under the cursor it yields a production and consumes nothing, end of input included; a successful result is a configuration option exactly when the next token is `%`, and that option is what `ConfigOption::parse` returned; errors and panics come only from a `%` term, as `ConfigOption::parse` produced them |
| `Terms.Collect` | src/lib.rs:95-103 | the loop with `n` iterations left never ends in an error and returns at most `n` terms |
| `Terms.ParseTerms` | src/lib.rs:91-104 | `parse_terms` never returns an error and returns at most 100 terms |
| `Terms.CollectTerms` | src/lib.rs:91-104 | the for-loop as written computes the same outcome as the recursive `ParseTerms`: never an error, at most 100 terms |
| `Terms.CollectFollowsChain` | src/lib.rs:95-100 | after any run of successful term parses, collection has kept exactly those terms in order and continues from where the run left the cursor, with correspondingly fewer iterations left |
| `Terms.StopsAtFirstError` | src/lib.rs:96-98 | if a term parse fails before the cap, collection returns exactly the terms parsed before it, with the cursor where the failing parse left it, whatever input follows |
| `Terms.PanicAborts` | src/lib.rs:95-98 | if a term parse panics before the cap, the whole collection panics, whatever was parsed before it |
| `Terms.CapEndsCollection` | src/lib.rs:95-103 | when every iteration succeeds, the loop returns all its terms and ends at the cursor of the last one |
| `Terms.CollectIsChain` | src/lib.rs:95-103 | every successful collection is a run of successful term parses from the starting cursor that ends at the cap, or at the first failing parse, whose cursor it returns; every panicking collection contains a run that reaches a panicking term parse before the cap |
| `Terms.ProductionRepeats` | src/lib.rs:80-100 | once the lookahead sees no `%`, the cursor never moves again: every remaining iteration yields a production and the list is padded to the cap |
| `Terms.CollectShape` | src/lib.rs:80-103 | a collected list is configuration options followed only by productions, and if it holds any production its length is the full iteration count |
| `Terms.TermAdvances` | src/lib.rs:80-88 | with a visibility parser that never moves the cursor backwards or past the end, a term parse keeps the cursor inside the input, and a configuration-option term consumes at least the `%` and the directive name |
| `Terms.CollectStaysInInput` | src/lib.rs:91-104 | with such a visibility parser, term collection never moves the cursor backwards nor past the end of the input |
| `Syntax.OptionsOf` | src/lib.rs:117-122 | the options kept are exactly those of the configuration terms: every kept option comes from a configuration term, every configuration term's option is kept, and there are no more options than terms |
| `Syntax.FindName` | src/lib.rs:124-131 | there is a name exactly when some option is `Name`, and then it is the argument of the first `Name` option |
| `Syntax.FindNameOfOptions` | src/lib.rs:117-131 | filtering the options out and then finding the first `Name` finds nothing exactly when no term is a `Name` option, and otherwise finds the argument of the first `Name` term |
| `Syntax.ResolveName` | src/lib.rs:124-134 | the parser name is the argument of the first `Name` option in term order, later ones ignored; with no `Name` option it is `oxi_parser` |
| `Syntax.OptionsOfAppend` | src/lib.rs:117-122 | keeping the options of two term lists one after the other gives the options of the joined list, so term order is preserved |
| `Syntax.FindNameSkips` | src/lib.rs:124-131 | an option that is not `Name` never changes which name the search finds, wherever it stands |
| `Syntax.OnlyNameMatters` | src/lib.rs:117-140 | inserting a term that is not a `Name` option (a `Visibility`, `Token` or `Start` option, or a production) anywhere leaves the resolved name unchanged |
| `Syntax.ParseOxiSyntax` | src/lib.rs:114-141 | `OxiSyntax::parse` never returns an error; it panics exactly when term collection panics; otherwise it ends where term collection left the cursor, and its configuration holds the name resolved from the collected terms |
| `Scenarios.ItWorksUsesDefaultName` | tests/tests.rs:8-16 | `%token Token %start Token` yields a parser named `oxi_parser`, with the cursor at the end of the input |
| `Scenarios.NameOptionRenames` | tests/tests.rs:21-30 | `%name parser %token Token %start Token` yields a parser named `parser` |
| `Scenarios.IntegrationInputPanics` | tests/tests.rs:34-42 | `%name parser %public %token Token %start Token` aborts the expansion, because `public` is not a directive |
| `Scenarios.ErrorHidesLaterInput` | src/lib.rs:96-98 | `%name` followed by anything that is not an identifier (another token, a keyword, a `%`, or the end of input) ends collection quietly with no terms, whatever follows; the name is the default and the cursor stays at the bad argument |
| `Scenarios.LeadingNameDecides` | src/lib.rs:124-134 | an input that starts with `%name x` either aborts or yields a parser named `x`, whatever follows, including later `%name` options |

## Left out

- The `#[proc_macro] oxi` entry point and its `quote!` output (src/lib.rs:144-159). These are host-language token splicing, and the output is a constant stub function. That includes `parse_macro_input!`, which rejects tokens left after `OxiSyntax::parse`. The model returns the final cursor instead, so leftover input is visible in the result.
- How syn parses `Visibility`. Its source is not part of this model, so it is the opaque parameter `vis`.
- Token streams in which an `Ident` token carries a Rust keyword or `_` as its name. The model takes the lexer to produce those as `Keyword` tokens, which syn's `Ident` parse rejects; it does not list the keywords itself, so `Ident("pub")` can be written but stands for no real input.
- Details of syn's `Ident` parse beyond "one identifier token that is not a keyword", such as raw identifiers (`r#name`) and spans. syn's `Token![%]` parse is modelled as "one `%` token".
- The text of syn's error values and of the panic message (src/lib.rs:52). Only where an error leaves the cursor, and that a panic happens, are modelled.
- The `println!("CURSED")` after the loop (src/lib.rs:101). It is output only. In the model it is reached when `Collect` runs out of iterations (`CapEndsCollection`).
- Grammar productions and parse-table construction. The source has neither: a production term is an empty placeholder that consumes no input, and no table is built.
- `Term::is_config_option` has no contract of its own: it is only the test for the `ConfigOption` variant. Its property, that it is exclusive with `is_production` and together they cover every term, is stated on `Terms.IsProduction`.
