/**
 An abstract syntax for the fragment of Rust items that the trait transformer
 reads and writes: trait declarations, their items and generics, bounds, paths,
 and `impl` blocks. Fields that only carry punctuation tokens or spans are
 omitted; pieces the transformer never looks inside (attributes, function
 inputs, where-clause predicates) are kept as opaque text.
 */
module Syntax {

  type Ident = string

  datatype Option<+T> = None | Some(value: T)

  /** An outer attribute such as `#[doc = "..."]`, kept as opaque text. */
  datatype Attribute = Attribute(text: string)

  datatype Visibility = Public | Restricted(path: Path) | Inherited

  /** A path such as `core::marker::Send` or `Runner<T>`. */
  datatype Path = Path(leadingColon: bool, segments: seq<PathSegment>)

  datatype PathSegment = PathSegment(ident: Ident, arguments: PathArguments)

  datatype PathArguments =
    | NoArguments
    | AngleBracketed(args: seq<GenericArgument>)
    | Parenthesized(inputs: seq<Type>, output: ReturnType)

  datatype GenericArgument =
    | LifetimeArg(lifetime: Ident)
    | TypeArg(ty: Type)
    | ConstArg(expr: string)

  /**
   The shapes of type the transformer distinguishes. `ImplTrait` is the
   opaque `impl Bound + ...` type; a parenthesised type keeps its own
   constructor, so `(impl Bound)` is not an `ImplTrait`.
   */
  datatype Type =
    | ImplTrait(bounds: seq<TypeParamBound>)
    | TypePath(path: Path)
    | Paren(elem: Type)
    | OtherType(text: string)

  datatype ReturnType = DefaultReturn | TypeReturn(ty: Type)

  datatype TraitBoundModifier = NoModifier | Maybe

  /** The associated-type binding `method(..): Target` that pins the return
      type of one method of a trait to a further bound. */
  datatype Binding = Binding(fnName: Ident, target: Path)

  datatype TraitBound = TraitBound(
    parenthesized: bool,
    modifier: TraitBoundModifier,
    lifetimes: Option<seq<Ident>>,
    path: Path)

  /**
   A bound in a supertrait list or on a type parameter. `Specialized` stands
   for the verbatim tokens `Trait<a1, ..., m1(..): T, m2(..): T, ...>` that the
   transformer splices in: a trait name applied to generic arguments and then
   to a binding list.
   */
  datatype TypeParamBound =
    | Trait(bound: TraitBound)
    | Lifetime(lifetime: Ident)
    | Specialized(traitIdent: Ident, traitArgs: seq<GenericArgument>, bindings: seq<Binding>)

  datatype GenericParam =
    | LifetimeParam(lifetime: Ident, lifetimeBounds: seq<Ident>)
    | TypeParam(attrs: seq<Attribute>, ident: Ident, bounds: seq<TypeParamBound>, default: Option<Type>)
    | ConstParam(ident: Ident, ty: Type, constDefault: Option<string>)

  datatype WhereClause = WhereClause(predicates: seq<string>)

  datatype Generics = Generics(params: seq<GenericParam>, whereClause: Option<WhereClause>)

  datatype Signature = Signature(
    constness: bool,
    asyncness: bool,
    unsafety: bool,
    ident: Ident,
    inputs: seq<string>,
    output: ReturnType)

  /** The items a trait body can hold. */
  datatype TraitItem =
    | Fn(sig: Signature, hasDefault: bool)
    | Const(constIdent: Ident, constTy: Type)
    | AssocType(typeIdent: Ident, typeBounds: seq<TypeParamBound>)
    | Macro(macroText: string)
    | VerbatimItem(text: string)

  datatype ItemTrait = ItemTrait(
    attrs: seq<Attribute>,
    vis: Visibility,
    unsafety: bool,
    auto: bool,
    ident: Ident,
    generics: Generics,
    supertraits: seq<TypeParamBound>,
    items: seq<TraitItem>)

  /** The `Trait` in `impl<...> Trait for Type`; `negative` is a leading `!`. */
  datatype ImplTraitRef = ImplTraitRef(negative: bool, path: Path)

  datatype ImplItem = ImplItem(text: string)

  datatype ItemImpl = ItemImpl(
    attrs: seq<Attribute>,
    defaultness: bool,
    unsafety: bool,
    generics: Generics,
    trait_: Option<ImplTraitRef>,
    selfTy: Type,
    items: seq<ImplItem>)

  /** One item of the emitted token fragment. */
  datatype Item = TraitDecl(tr: ItemTrait) | ImplDecl(imp: ItemImpl)

  /** One `subtrait_name: subtrait` entry of the attribute argument list. */
  datatype Transform = Transform(subtraitName: Ident, subtrait: Path)

  /** A path of one segment without arguments, as `format_ident!(..).into()` builds. */
  function SimplePath(id: Ident): (p: Path)
    ensures |p.segments| == 1 && p.segments[0].ident == id
    ensures !p.leadingColon && p.segments[0].arguments.NoArguments?
  {
    Path(false, [PathSegment(id, NoArguments)])
  }
}
