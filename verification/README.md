# Trait transformer, modelled in Dafny

This project models the `trait_transformer` attribute macro of `impl-trait-utils`.
Given a trait declaration and a list of `subtrait_name: subtrait` requests, the macro
emits the trait unchanged and then, for each request in order, two items. This holds as
written only for a trait without generic parameters (or with no requests); for a generic
trait the source aborts, and the model describes the corrected expansion (see "Findings"):

- a **derived trait** `subtrait_name` with no items and exactly two supertraits. The
  first is the source trait applied to its own type generics (in the corrected
  expansion) and to one `method(..): subtrait` binding per *bindable* method. The
  second is `subtrait` itself.
- a **blanket impl** of that derived trait for a synthetic type parameter `__WSelf`.
  The parameter is appended to the source generics and carries the same two bounds.

A trait item is bindable when it is a `fn` that is `async` or whose declared
return type is, syntactically, `impl Trait`.

Modules:

- `Syntax` (`syntax.dfy`): immutable datatypes for the parts of the Rust syntax tree
  the macro reads and builds. These are trait items, signatures, types, paths, bounds,
  generics, `ItemTrait`, `ItemImpl` and the request record `Transform`.
- `Classify` (`classify.dfy`): the per-item decision `Bindable`/`Plain` and the binding
  list `FnBounds`, which is a filter-map over the trait's items. `BindableIndices` is an
  independent description of the same filter, as a list of indices.
- `ImplArgs` (`implargs.dfy`): the generic arguments of the blanket impl's trait path.
  It covers the trait's type generics (`split_for_impl`), their tokens, and the parser
  that reads those tokens back as angle-bracketed generic arguments.
- `Transformer` (`transformer.dfy`): the two supertrait bounds, the derived trait, the
  `__WSelf` parameter, the blanket impl, and the assembled output. There are two
  versions: the corrected `TraitTransformer`, and `TraitTransformerAsWritten`, which
  follows the source exactly (see "Findings").
- `Scenarios` (`scenarios.dfy`): full expansions of a concrete `Runner` trait, with and
  without a type parameter.

### What the code emits

- The first supertrait is built from `#tr_ident<#(#fn_bounds),*>`. That is the trait's
  name applied to the binding list only, with none of the trait's own generic arguments.
  For a trait `Runner` with an async `run`, it is `Runner<run(..): Send>`. With no
  bindable method it is `Runner<>`. For `Runner<T>` it would be `Runner<run(..): Send>`,
  which leaves out `T` (see "Findings"). `Specialized(traitIdent, traitArgs, bindings)`
  carries the generic arguments: empty as written, the type generics when corrected.
- The derived trait is built as `..tr.clone()` with only `attrs`, `ident`, `items` and
  `supertraits` overridden. Every other field is kept, including visibility, `auto`,
  unsafety, and the generics with their where clause.
- The impl's trait path takes its arguments from `syn::parse2(quote!{ <#b> }).unwrap()`.
  Here `b` is the type generics, which print their own angle brackets when there is at
  least one parameter. With no parameters, `b` prints nothing and the path is
  `Subtrait<>`. With any parameter, the tokens are `< <T> >`. These do not parse (see
  "Findings"), so the expansion of a generic trait aborts as soon as one request is
  processed.

## Model

Several helper functions have no contract of their own; the row named after each
specifies it:

- `Classify.ReturnsImplTrait`, `Classify.Classify`, `Classify.IsBindable` and
  `Classify.FnBinding`: `Classify.SingleItemBinding`.
- `Classify.CountBindable` and `Classify.BoundMethod`: `Classify.FnBounds` and
  `Classify.FnBoundsFollowDeclarationOrder`.
- `ImplArgs.ParamArgument` and `ImplArgs.ParamArgs`: `ImplArgs.TypeGenericsPermuteParams`.
- `ImplArgs.SimpleArg`, `ImplArgs.ArgTok` and `ImplArgs.TypeGenericsSimple`: `ImplArgs.Join`.
- `ImplArgs.ParseArgs`, `ImplArgs.ParseAfterArg` and `ImplArgs.ParseAngleArgs`:
  `ImplArgs.ParseJoinRoundTrip` and `ImplArgs.TypeGenericsRoundTrip`.
- `ImplArgs.ReparsedArgs`: `ImplArgs.ReparsedArgsFailOnGenerics`.
- `Transformer.SubtraitBoundsWith`, `Transformer.SubtraitBounds`,
  `Transformer.DerivedTraitWith` and `Transformer.DerivedTrait`: `Transformer.DerivedTraitOutput`
  and `Transformer.FirstBoundAsWrittenVersusCorrected`.
- `Transformer.WSelfParam`, `Transformer.ImplGenerics`, `Transformer.ImplPath`,
  `Transformer.BlanketImplWith` and `Transformer.BlanketImpl`: `Transformer.BlanketImplOutput`.
- `Transformer.TransformPair`: `Transformer.TransformTraitAt`.
- `Transformer.TransformPairAsWritten` and `Transformer.TransformTraitAsWritten`:
  `Transformer.TransformTraitAsWrittenVersusCorrected`.
- `Transformer.TraitTransformerAsWritten`: `Transformer.AsWrittenVersusCorrected`.

| member | source | states |
|---|---|---|
| `Syntax.SimplePath` | trait-transformer/src/transformer.rs:152-155 | `format_ident!("__WSelf").into()` is a path of one segment, with that ident, no leading `::` and no arguments |
| `Classify.SingleItemBinding` | trait-transformer/src/transformer.rs:71-90 | specifies `ReturnsImplTrait`, `Classify` and `FnBinding`: one item adds the binding `name(..): target` exactly when it is a `fn` that is `async` or returns `impl Trait`; otherwise it adds nothing |
| `Classify.AsyncImplTraitBoundOnce` | trait-transformer/src/transformer.rs:82-85 | a `fn` that is both `async` and returns `impl Trait` contributes exactly one binding, not two |
| `Classify.PlainFnAddsNothing` | trait-transformer/src/transformer.rs:74-85 | a non-async `fn` with no return type, or any return type that is not syntactically `impl Trait` (`(impl T)` included), contributes nothing |
| `Classify.NonFnAddsNothing` | trait-transformer/src/transformer.rs:86-89 | associated consts, associated types, macros and verbatim items contribute nothing |
| `Classify.FnBounds` | trait-transformer/src/transformer.rs:71-90 | the binding list has one entry per bindable item, so it is no longer than the item list, and every entry is bound to the request's subtrait path |
| `Classify.BindableIndices` | trait-transformer/src/transformer.rs:71-90 | reference description of the filter: strictly increasing indices, each in range and each of a bindable item |
| `Classify.BindableIndicesComplete` | trait-transformer/src/transformer.rs:71-90 | no bindable item is missing from the reference indices |
| `Classify.FnBoundsFollowOrderFrom` | trait-transformer/src/transformer.rs:71-95 | for any suffix of the items, binding `k` is `(name of the k-th bindable item, subtrait)` |
| `Classify.FnBoundsFollowDeclarationOrder` | trait-transformer/src/transformer.rs:71-95 | the binding list is exactly the bindable items in declaration order, each as `(method ident, subtrait)`; it is never permuted and never names a plain item |
| `Classify.FnBoundsAppend` | trait-transformer/src/transformer.rs:71-90 | the binding list of `a + b` is the list of `a` followed by the list of `b` |
| `Classify.FnBoundsEmptyIff` | trait-transformer/src/transformer.rs:71-90 | the binding list is empty if and only if no item is bindable |
| `Classify.FnBoundsMethodsIndependentOfTarget` | trait-transformer/src/transformer.rs:82-84 | which methods are bound, and in what order, does not depend on the subtrait path |
| `ImplArgs.TypeGenerics` | trait-transformer/src/transformer.rs:129 | the type generics from `split_for_impl`, as arguments, number exactly the source generic parameters |
| `ImplArgs.LifetimeArgs` | trait-transformer/src/transformer.rs:129 | the lifetime part of the type generics: only lifetime arguments, at most one per parameter |
| `ImplArgs.OtherArgs` | trait-transformer/src/transformer.rs:129 | the type/const part of the type generics: only type arguments (a const name parses back as a type), at most one per parameter |
| `ImplArgs.TypeGenericsCount` | trait-transformer/src/transformer.rs:129 | the lifetime arguments and the type/const arguments together number the parameters |
| `ImplArgs.SplitPermutes` | trait-transformer/src/transformer.rs:129 | splitting the parameters into lifetimes and the rest loses and duplicates no argument (multiset equality) |
| `ImplArgs.TypeGenericsPermuteParams` | trait-transformer/src/transformer.rs:129 | the type generics are a permutation of the parameters' own arguments, with all lifetimes before all other arguments |
| `ImplArgs.OtherArgsWithoutLifetimes` | trait-transformer/src/transformer.rs:129 | without lifetime parameters, the lifetime part is empty and the type/const part is every parameter's argument, in declaration order |
| `ImplArgs.TypeGenericsWithoutLifetimes` | trait-transformer/src/transformer.rs:129 | for any generics without lifetime parameters, the type generics name the parameters in declaration order |
| `ImplArgs.Join` | trait-transformer/src/transformer.rs:136-137 | printed arguments are comma-separated with no `<`, `>` or `::` of their own, and are empty exactly when there are no arguments |
| `ImplArgs.TypeGenericsTokens` | trait-transformer/src/transformer.rs:129-137 | the printed type generics are empty exactly when there are no parameters, and otherwise carry their own `<` and `>` |
| `ImplArgs.ParseJoinRoundTrip` | trait-transformer/src/transformer.rs:136-139 | printed arguments followed by `>` parse back to the same arguments, in order |
| `ImplArgs.TypeGenericsRoundTrip` | trait-transformer/src/transformer.rs:129-139 | corrected half: parsing the printed type generics gives back exactly the type generics |
| `ImplArgs.ReparsedArgsFailOnGenerics` | trait-transformer/src/transformer.rs:136-139 | specifies `ReparsedArgs`, as written: the re-parse of `<#b>` yields no arguments when there are no parameters, and fails when there is at least one |
| `Transformer.TransformTrait` | trait-transformer/src/transformer.rs:66-168 | the corrected per-request output has exactly two items per request |
| `Transformer.TraitTransformer` | trait-transformer/src/transformer.rs:56-60 | the corrected expansion is one item longer than the per-request output and starts with the source trait, unchanged |
| `Transformer.TransformTraitAsWrittenVersusCorrected` | trait-transformer/src/transformer.rs:66-168 | specifies `TransformPairAsWritten` and `TransformTraitAsWritten`: the per-request output as written aborts exactly when there is a request and a generic parameter; otherwise it equals the corrected output |
| `Transformer.AsWrittenVersusCorrected` | trait-transformer/src/transformer.rs:56-168 | specifies `TraitTransformerAsWritten`: the expansion as written is nothing (a panic) if and only if there is at least one request and the trait has at least one generic parameter; otherwise it is exactly the corrected expansion |
| `Transformer.TransformTraitAt` | trait-transformer/src/transformer.rs:66-168 | specifies `TransformPair`: items `2i` and `2i+1` of the per-request output are the derived trait and the blanket impl of request `i` |
| `Transformer.OutputLayout` | trait-transformer/src/transformer.rs:56-168 | the expansion is the source trait, then one (derived trait, blanket impl) pair per request in request order, with `1 + 2n` items for `n` requests |
| `Transformer.DerivedTraitOutput` | trait-transformer/src/transformer.rs:92-114 | specifies `DerivedTrait` and `SubtraitBounds`. The derived trait of request `i` has ident `subtrait_name`, no attributes and no items, and keeps every other field of the source. It has exactly two supertraits: the source trait applied to its type generics and to the in-order bindings of the bindable methods, then the subtrait path as an unmodified plain bound |
| `Transformer.FirstBoundAsWrittenVersusCorrected` | trait-transformer/src/transformer.rs:92-95 | as written the first bound carries no generic arguments, the corrected one carries the type generics (one per parameter), and the two derived traits agree if and only if the trait has no generic parameters |
| `Transformer.BlanketImplOutput` | trait-transformer/src/transformer.rs:120-158 | specifies `BlanketImpl`, `BlanketImplWith`, `ImplGenerics`, `ImplPath` and `WSelfParam`. The impl of request `i` has no attributes, items or `default`, and the source's unsafety. It implements `subtrait_name<type generics>` for `__WSelf`; that is `subtrait_name<>` for a non-generic trait. Its generics are the source generics plus `__WSelf` at the end, with no default, bounded by exactly the derived trait's supertraits; the where clause is unchanged |
| `Transformer.ZeroBindableOutput` | trait-transformer/src/transformer.rs:92-114 | the first bound is the source trait with its type generics and no binding if and only if no method is bindable, and the pair is emitted either way |
| `Transformer.TransformTraitAppend` | trait-transformer/src/transformer.rs:66-166 | the output for a concatenation of request lists is the concatenation of their outputs |
| `Transformer.RequestIndependence` | trait-transformer/src/transformer.rs:66-166 | the pair of a request is the same wherever it stands and whatever other requests surround it |
| `Scenarios.RunnerBindings` | trait-transformer/src/transformer.rs:71-90 | in `Runner`, the async `run` is bound and the plain `id -> u32` is not |
| `Scenarios.RunnerExpansion` | trait-transformer/src/transformer.rs:56-168 | as written and corrected alike, `SendRunner: Send` on the non-generic `Runner` expands to the trait, `SendRunner: Runner<run(..): Send> + Send {}`, and `impl<__WSelf: Runner<run(..): Send> + Send> SendRunner<> for __WSelf {}` |
| `Scenarios.TwoRequestExpansion` | trait-transformer/src/transformer.rs:66-168 | on the non-generic `Runner`, requests `A: Send` and `B: Sync` give two pairs, as written and corrected alike, each bound only by its own target: each derived trait has that target's binding and plain bound, and each impl implements its own `A<>` or `B<>` with `__WSelf` bounded by exactly its derived trait's supertraits |
| `Scenarios.GenericRunnerAsWritten` | trait-transformer/src/transformer.rs:136-139 | as written, `SendRunner: Send` on `Runner<T>` expands to nothing: the re-parse of `< <T> >` fails |
| `Scenarios.GenericRunnerFirstBoundAsWritten` | trait-transformer/src/transformer.rs:92-95 | as written, the first bound for `SendRunner: Send` on `Runner<T>` is `Runner<run(..): Send>`, without `T`; corrected, it is `Runner<T, run(..): Send>` |
| `Scenarios.GenericRunnerCorrected` | trait-transformer/src/transformer.rs:56-168 | corrected half of both findings: on `Runner<T>` the expansion is the trait, `SendRunner<T>: Runner<T, run(..): Send> + Send {}`, and `impl<T, __WSelf: Runner<T, run(..): Send> + Send> SendRunner<T> for __WSelf {}` |

## Findings

| source | as written | input that shows it | evidently intended | confidence | as-written member | corrected member |
|---|---|---|---|---|---|---|
| trait-transformer/src/transformer.rs:136-139 | the impl path's arguments are `syn::parse2(quote!{ <#b> }).unwrap()`, but `b` (the type generics) prints its own `<...>` whenever the trait has a parameter | `#[trait_transformer(SendRunner: Send)]` on `trait Runner<T> { async fn run(&self) -> Output; }`: the tokens are `< <T> >`; the inner `<T>` opens a qualified path that never gets its `::`; the parse fails and the `unwrap` panics, so nothing is emitted | the impl path `SendRunner<T>`, carrying the trait's type generics | high; not executed | `Scenarios.GenericRunnerAsWritten` | `ImplArgs.TypeGenericsRoundTrip` |
| trait-transformer/src/transformer.rs:92-95 | the first supertrait is `#tr_ident<#(#fn_bounds),*>`: the trait's name applied to the bindings only, without the trait's own generic arguments | the same `Runner<T>`: the bound would be `Runner<run(..): Send>`, a generic trait named without `T`, which Rust rejects. The abort at 136-139 comes first, so this shows only once that abort is fixed | the bound `Runner<T, run(..): Send>`, carrying the trait's type generics before the bindings | medium; not executed | `Scenarios.GenericRunnerFirstBoundAsWritten` | `Transformer.FirstBoundAsWrittenVersusCorrected` |

`ImplArgs.ReparsedArgsFailOnGenerics`, `Transformer.FirstBoundAsWrittenVersusCorrected` and
`Transformer.AsWrittenVersusCorrected` state the as-written behaviour for every input. `Transformer.TraitTransformer`, `BlanketImplOutput` and
`Scenarios.GenericRunnerCorrected` state the corrected behaviour. The two agree whenever
the trait has no generic parameters or there are no requests.

## Left out

- Parsing (`Attrs::parse`, `Transform::parse` and `parse_macro_input!`) is left out. Those grammars belong to `syn`. The request list and the trait declaration are inputs to the model, and the parse-error path is not modelled.
- Token rendering by `quote!` is left out, and so are the fields that only carry tokens or spans. The verbatim `Trait<bindings>` splice is modelled as the structured bound `Specialized`, which has a slot for generic arguments. The only tokens modelled are those of the type generics and their re-parse.
- `proc_macro::TokenStream` conversion is left out. It is I/O with the host compiler.
- `split_for_impl` belongs to `syn` and is not part of this model. `ImplArgs.TypeGenerics` and `ImplArgs.TypeGenericsTokens` follow syn 2's rendering of type generics: nothing when there are no parameters; otherwise `<`, lifetimes first, then type and const parameter names, then `>`. Bounds and defaults are left off.
- `ImplArgs.ParseArgs` is syn's generic-argument grammar cut down to the tokens that type generics print. It accepts a qualified-path argument only in the shape `<Q>::Name`, which is enough to show that `< <T> >` fails. A const parameter's name parses back as a type path.
- BlanketImplOutput: states the corrected impl path `subtrait_name<type generics>`. As written, the source panics for any trait with a generic parameter (see "Findings"). `Transformer.AsWrittenVersusCorrected` states that behaviour.
- DerivedTraitOutput: states the corrected first bound, which carries the type generics. As written the bound carries none (see "Findings"); `Transformer.FirstBoundAsWrittenVersusCorrected` states that difference.
- ZeroBindableOutput: like `DerivedTraitOutput`, it states the corrected first bound.
- OutputLayout: like `DerivedTraitOutput`, `ZeroBindableOutput`, `TransformTraitAppend` and `RequestIndependence`, it describes the corrected expansion `TraitTransformer`. As written, that expansion exists only for traits without generic parameters or with no requests; otherwise nothing is emitted.
- The commented-out `auto` branch is left out. It is dead code, and the macro always emits both the trait and the impl.
- Whether the emitted Rust compiles is left out. That covers a missing subtrait and colliding names. The macro checks neither.
- Types are abstracted to what classification distinguishes: `impl Trait`, paths, parentheses, and all other types as opaque text. Attributes, function inputs and where-clause predicates are opaque text.
- Determinism of classification is not stated as a lemma. Every Dafny function is deterministic, so it holds by construction.
