/**
 The trait transformer proper: for each `subtrait_name: subtrait` request, a
 derived trait bounded by the source trait (with one binding per bindable
 method) and by the subtrait, and a blanket impl of it for a synthetic type
 parameter `__WSelf`. The output is the source trait followed by one such
 pair per request.
 */
module Transformer {
  import opened Syntax
  import opened Classify
  import opened ImplArgs

  /** Name of the synthetic type parameter of every blanket impl. */
  const WSelf: Ident := "__WSelf"

  /**
   The two bounds shared by the derived trait and by `__WSelf`: the source
   trait applied to `traitArgs` and then to its binding list, followed by the
   subtrait as a plain bound.
   */
  function SubtraitBoundsWith(tr: ItemTrait, t: Transform, traitArgs: seq<GenericArgument>): seq<TypeParamBound>
  {
    [ Specialized(tr.ident, traitArgs, FnBounds(tr.items, t.subtrait)),
      Trait(TraitBound(false, NoModifier, None, t.subtrait)) ]
  }

  /** The corrected bounds: the source trait carries its own type generics. */
  function SubtraitBounds(tr: ItemTrait, t: Transform): seq<TypeParamBound>
  {
    SubtraitBoundsWith(tr, t, TypeGenerics(tr.generics))
  }

  /** The source trait with attributes and items dropped, renamed, and given
      the two subtrait bounds as its supertraits. */
  function DerivedTraitWith(tr: ItemTrait, t: Transform, traitArgs: seq<GenericArgument>): ItemTrait
  {
    tr.(attrs := [], ident := t.subtraitName, items := [], supertraits := SubtraitBoundsWith(tr, t, traitArgs))
  }

  function DerivedTrait(tr: ItemTrait, t: Transform): ItemTrait
  {
    DerivedTraitWith(tr, t, TypeGenerics(tr.generics))
  }

  /** The synthetic parameter `__WSelf: bounds`, with no attributes and no default. */
  function WSelfParam(bounds: seq<TypeParamBound>): GenericParam
  {
    TypeParam([], WSelf, bounds, None)
  }

  /** The source generics with `__WSelf` pushed at the end. */
  function ImplGenerics(tr: ItemTrait, t: Transform, traitArgs: seq<GenericArgument>): Generics
  {
    tr.generics.(params := tr.generics.params + [WSelfParam(SubtraitBoundsWith(tr, t, traitArgs))])
  }

  /** `Subtrait<args>`: a path of one segment. */
  function ImplPath(t: Transform, args: seq<GenericArgument>): Path
  {
    Path(false, [PathSegment(t.subtraitName, AngleBracketed(args))])
  }

  /** `impl<generics, __WSelf: bounds> Subtrait<pathArgs> for __WSelf {}`. */
  function BlanketImplWith(tr: ItemTrait, t: Transform, traitArgs: seq<GenericArgument>,
                           pathArgs: seq<GenericArgument>): ItemImpl
  {
    ItemImpl(
      attrs := [],
      defaultness := false,
      unsafety := tr.unsafety,
      generics := ImplGenerics(tr, t, traitArgs),
      trait_ := Some(ImplTraitRef(false, ImplPath(t, pathArgs))),
      selfTy := TypePath(SimplePath(WSelf)),
      items := [])
  }

  /** The corrected blanket impl: the source's type generics on both the
      first bound and the implemented trait path. */
  function BlanketImpl(tr: ItemTrait, t: Transform): ItemImpl
  {
    BlanketImplWith(tr, t, TypeGenerics(tr.generics), TypeGenerics(tr.generics))
  }

  /** The (derived trait, blanket impl) pair emitted for one request. */
  function TransformPair(tr: ItemTrait, t: Transform): seq<Item>
  {
    [TraitDecl(DerivedTrait(tr, t)), ImplDecl(BlanketImpl(tr, t))]
  }

  /** The pairs of all requests, concatenated in request order. */
  function TransformTrait(ts: seq<Transform>, tr: ItemTrait): (out: seq<Item>)
    ensures |out| == 2 * |ts|
    decreases |ts|
  {
    if ts == [] then [] else TransformPair(tr, ts[0]) + TransformTrait(ts[1..], tr)
  }

  /** The whole expansion: the source trait, unchanged, then every pair. */
  function TraitTransformer(ts: seq<Transform>, tr: ItemTrait): (out: seq<Item>)
    ensures |out| == 1 + 2 * |ts|
    ensures out[0] == TraitDecl(tr)
  {
    [TraitDecl(tr)] + TransformTrait(ts, tr)
  }

  /**
   The pair for one request as the source builds it: the first bound names
   the source trait with no generic arguments, the impl's trait path takes
   the re-parse of `<#b>`, and a failed re-parse aborts (`unwrap`).
   */
  function TransformPairAsWritten(tr: ItemTrait, t: Transform): Option<seq<Item>>
  {
    match ReparsedArgs(tr.generics)
    case None => None
    case Some(args) => Some([TraitDecl(DerivedTraitWith(tr, t, [])), ImplDecl(BlanketImplWith(tr, t, [], args))])
  }

  /** The pairs of all requests as written; one abort aborts the whole map. */
  function TransformTraitAsWritten(ts: seq<Transform>, tr: ItemTrait): Option<seq<Item>>
    decreases |ts|
  {
    if ts == [] then Some([])
    else match TransformPairAsWritten(tr, ts[0])
      case None => None
      case Some(pair) =>
        match TransformTraitAsWritten(ts[1..], tr)
        case None => None
        case Some(rest) => Some(pair + rest)
  }

  /** The whole expansion as written; `None` is a panic that emits nothing. */
  function TraitTransformerAsWritten(ts: seq<Transform>, tr: ItemTrait): Option<seq<Item>>
  {
    match TransformTraitAsWritten(ts, tr)
    case None => None
    case Some(out) => Some([TraitDecl(tr)] + out)
  }

  lemma {:induction false} TransformTraitAsWrittenVersusCorrected(ts: seq<Transform>, tr: ItemTrait)
    ensures TransformTraitAsWritten(ts, tr) ==
            if ts != [] && tr.generics.params != [] then None else Some(TransformTrait(ts, tr))
    decreases |ts|
  {
    ReparsedArgsFailOnGenerics(tr.generics);
    TypeGenericsRoundTrip(tr.generics);
    if ts != [] {
      TransformTraitAsWrittenVersusCorrected(ts[1..], tr);
    }
  }

  /**
   The expansion as written aborts exactly when there is at least one request
   and the source trait has at least one generic parameter; otherwise it is
   the corrected expansion `TraitTransformer`.
   */
  lemma AsWrittenVersusCorrected(ts: seq<Transform>, tr: ItemTrait)
    ensures TraitTransformerAsWritten(ts, tr) ==
            if ts != [] && tr.generics.params != [] then None else Some(TraitTransformer(ts, tr))
  {
    TransformTraitAsWrittenVersusCorrected(ts, tr);
  }

  /** Items `2i` and `2i + 1` of the concatenated pairs are the pair of request `i`. */
  lemma {:induction false} TransformTraitAt(ts: seq<Transform>, tr: ItemTrait, i: nat)
    requires i < |ts|
    ensures TransformTrait(ts, tr)[2 * i] == TraitDecl(DerivedTrait(tr, ts[i]))
    ensures TransformTrait(ts, tr)[2 * i + 1] == ImplDecl(BlanketImpl(tr, ts[i]))
    decreases i
  {
    var rest := TransformTrait(ts[1..], tr);
    assert TransformTrait(ts, tr) == TransformPair(tr, ts[0]) + rest;
    if i > 0 {
      TransformTraitAt(ts[1..], tr, i - 1);
      assert TransformTrait(ts, tr)[2 * i] == rest[2 * (i - 1)];
      assert TransformTrait(ts, tr)[2 * i + 1] == rest[2 * (i - 1) + 1];
    }
  }

  /**
   The expansion is the source trait, unchanged, followed by exactly one
   (derived trait, blanket impl) pair per request, in request order.
   */
  lemma OutputLayout(ts: seq<Transform>, tr: ItemTrait)
    ensures var out := TraitTransformer(ts, tr);
            && |out| == 1 + 2 * |ts|
            && out[0] == TraitDecl(tr)
            && forall i :: 0 <= i < |ts| ==>
                 && out[1 + 2 * i] == TraitDecl(DerivedTrait(tr, ts[i]))
                 && out[2 + 2 * i] == ImplDecl(BlanketImpl(tr, ts[i]))
  {
    forall i | 0 <= i < |ts|
      ensures TraitTransformer(ts, tr)[1 + 2 * i] == TraitDecl(DerivedTrait(tr, ts[i]))
      ensures TraitTransformer(ts, tr)[2 + 2 * i] == ImplDecl(BlanketImpl(tr, ts[i]))
    {
      TransformTraitAt(ts, tr, i);
    }
  }

  /**
   The derived trait of request `i`: named after the request, no attributes,
   no items, every other field of the source trait kept, and exactly two
   supertraits: the source trait applied to its own type generics and to the
   bindings of its bindable methods in declaration order, then the request's
   subtrait as a plain bound.
   */
  lemma DerivedTraitOutput(ts: seq<Transform>, tr: ItemTrait, i: nat)
    requires i < |ts|
    ensures TraitTransformer(ts, tr)[1 + 2 * i].TraitDecl?
    ensures var d := TraitTransformer(ts, tr)[1 + 2 * i].tr;
            && d.ident == ts[i].subtraitName
            && d.attrs == []
            && d.items == []
            && d.(attrs := tr.attrs, ident := tr.ident, items := tr.items, supertraits := tr.supertraits) == tr
    ensures var d := TraitTransformer(ts, tr)[1 + 2 * i].tr;
            && |d.supertraits| == 2
            && d.supertraits[0].Specialized?
            && d.supertraits[0].traitIdent == tr.ident
            && d.supertraits[0].traitArgs == TypeGenerics(tr.generics)
            && d.supertraits[1] == Trait(TraitBound(false, NoModifier, None, ts[i].subtrait))
    ensures var bs := TraitTransformer(ts, tr)[1 + 2 * i].tr.supertraits[0].bindings;
            var idx := BindableIndices(tr.items, 0);
            && |bs| == |idx|
            && forall k :: 0 <= k < |bs| ==> bs[k] == Binding(BoundMethod(tr.items[idx[k]]), ts[i].subtrait)
  {
    TransformTraitAt(ts, tr, i);
    FnBoundsFollowDeclarationOrder(tr.items, ts[i].subtrait);
  }

  /**
   As written, the first bound names the source trait with its binding list
   only. It agrees with the corrected bound, which also carries the type
   generics, exactly when the source trait has no generic parameters.
   */
  lemma FirstBoundAsWrittenVersusCorrected(tr: ItemTrait, t: Transform)
    ensures DerivedTraitWith(tr, t, []).supertraits[0].traitArgs == []
    ensures DerivedTrait(tr, t).supertraits[0].traitArgs == TypeGenerics(tr.generics)
    ensures |DerivedTrait(tr, t).supertraits[0].traitArgs| == |tr.generics.params|
    ensures DerivedTraitWith(tr, t, []) == DerivedTrait(tr, t) <==> tr.generics.params == []
  {
  }

  /**
   The blanket impl of request `i`: `impl<source generics, __WSelf: B>
   Subtrait<type generics> for __WSelf {}`, where `B` is exactly the derived
   trait's supertrait list, with no attributes and the source's unsafety.
   */
  lemma BlanketImplOutput(ts: seq<Transform>, tr: ItemTrait, i: nat)
    requires i < |ts|
    ensures TraitTransformer(ts, tr)[1 + 2 * i].TraitDecl?
    ensures TraitTransformer(ts, tr)[2 + 2 * i].ImplDecl?
    ensures var imp := TraitTransformer(ts, tr)[2 + 2 * i].imp;
            && imp.attrs == []
            && imp.items == []
            && !imp.defaultness
            && imp.unsafety == tr.unsafety
            && imp.selfTy == TypePath(SimplePath(WSelf))
            && imp.trait_ == Some(ImplTraitRef(false, Path(false,
                 [PathSegment(ts[i].subtraitName, AngleBracketed(TypeGenerics(tr.generics)))])))
            && (tr.generics.params == [] ==> imp.trait_.value.path.segments[0].arguments == AngleBracketed([]))
    ensures var imp := TraitTransformer(ts, tr)[2 + 2 * i].imp;
            var d := TraitTransformer(ts, tr)[1 + 2 * i].tr;
            && imp.generics.params == tr.generics.params + [TypeParam([], WSelf, d.supertraits, None)]
            && imp.generics.whereClause == tr.generics.whereClause
  {
    TransformTraitAt(ts, tr, i);
  }

  /**
   The derived trait's binding list is empty exactly when the source trait
   has no bindable method; the pair is emitted either way.
   */
  lemma ZeroBindableOutput(ts: seq<Transform>, tr: ItemTrait, i: nat)
    requires i < |ts|
    ensures |TraitTransformer(ts, tr)| == 1 + 2 * |ts|
    ensures TraitTransformer(ts, tr)[1 + 2 * i].TraitDecl?
    ensures TraitTransformer(ts, tr)[2 + 2 * i].ImplDecl?
    ensures |TraitTransformer(ts, tr)[1 + 2 * i].tr.supertraits| == 2
    ensures TraitTransformer(ts, tr)[1 + 2 * i].tr.supertraits[0] == Specialized(tr.ident, TypeGenerics(tr.generics), []) <==>
            forall j :: 0 <= j < |tr.items| ==> !IsBindable(tr.items[j])
  {
    TransformTraitAt(ts, tr, i);
    FnBoundsEmptyIff(tr.items, ts[i].subtrait);
  }

  /** The pairs of a concatenation of request lists are the concatenation of
      their pairs. */
  lemma {:induction false} TransformTraitAppend(a: seq<Transform>, b: seq<Transform>, tr: ItemTrait)
    ensures TransformTrait(a + b, tr) == TransformTrait(a, tr) + TransformTrait(b, tr)
    decreases |a|
  {
    if a == [] {
      assert a + b == b;
    } else {
      assert (a + b)[1..] == a[1..] + b;
      TransformTraitAppend(a[1..], b, tr);
    }
  }

  /**
   Request independence: the pair emitted for a request depends only on that
   request and the source trait, not on the other requests or its position.
   */
  lemma RequestIndependence(ts1: seq<Transform>, ts2: seq<Transform>, tr: ItemTrait, i: nat, j: nat)
    requires i < |ts1| && j < |ts2| && ts1[i] == ts2[j]
    ensures TraitTransformer(ts1, tr)[1 + 2 * i .. 3 + 2 * i] == TraitTransformer(ts2, tr)[1 + 2 * j .. 3 + 2 * j]
  {
    TransformTraitAt(ts1, tr, i);
    TransformTraitAt(ts2, tr, j);
  }
}
