/**
 Classification of trait items and the binding list built from them: for
 every method that is `async` or returns `impl Trait`, one binding
 `method(..): target`, in declaration order.
 */
module Classify {
  import opened Syntax

  /** The two-way decision made for each trait item. */
  datatype Classification = Bindable(fnName: Ident) | Plain

  /** True when the declared return type is, syntactically, `impl Trait`. */
  predicate ReturnsImplTrait(sig: Signature)
  {
    match sig.output
    case TypeReturn(ty) => ty.ImplTrait?
    case DefaultReturn => false
  }

  /** A `fn` item that is `async` or returns `impl Trait` is bindable. */
  function Classify(item: TraitItem): Classification
  {
    match item
    case Fn(sig, _) =>
      if sig.asyncness || ReturnsImplTrait(sig) then Bindable(sig.ident) else Plain
    case _ => Plain
  }

  predicate IsBindable(item: TraitItem)
  {
    Classify(item).Bindable?
  }

  /** The closure given to `filter_map`: the binding one item contributes, if any. */
  function FnBinding(item: TraitItem, target: Path): Option<Binding>
  {
    match Classify(item)
    case Bindable(m) => Some(Binding(m, target))
    case Plain => None
  }

  /** Number of bindable items in a sequence. */
  function CountBindable(items: seq<TraitItem>): nat
    decreases |items|
  {
    if items == [] then 0
    else (if IsBindable(items[0]) then 1 else 0) + CountBindable(items[1..])
  }

  /**
   The binding list of `items` for one target path: `items` filtered to the
   bindable ones, each mapped to `name(..): target`.
   */
  function FnBounds(items: seq<TraitItem>, target: Path): (bs: seq<Binding>)
    ensures |bs| == CountBindable(items) <= |items|
    ensures forall k :: 0 <= k < |bs| ==> bs[k].target == target
    decreases |items|
  {
    if items == [] then []
    else
      var rest := FnBounds(items[1..], target);
      match FnBinding(items[0], target)
      case Some(b) => [b] + rest
      case None => rest
  }

  /**
   An independent description of which items are bindable: the indices, from
   `from` on, of bindable items, strictly increasing; `BindableIndicesComplete`
   shows that no bindable index is missing.
   */
  function BindableIndices(items: seq<TraitItem>, from: nat): (idx: seq<nat>)
    requires from <= |items|
    ensures |idx| == CountBindable(items[from..])
    ensures forall k :: 0 <= k < |idx| ==> from <= idx[k] < |items| && IsBindable(items[idx[k]])
    ensures forall k, l :: 0 <= k < l < |idx| ==> idx[k] < idx[l]
    decreases |items| - from
  {
    if from == |items| then []
    else
      var rest := BindableIndices(items, from + 1);
      assert items[from..][1..] == items[from + 1..];
      if IsBindable(items[from]) then [from] + rest else rest
  }

  /** Every bindable item from `from` on has its index in `BindableIndices`. */
  lemma {:induction false} BindableIndicesComplete(items: seq<TraitItem>, from: nat, i: nat)
    requires from <= i < |items| && IsBindable(items[i])
    ensures i in BindableIndices(items, from)
    decreases i - from
  {
    if from < i {
      BindableIndicesComplete(items, from + 1, i);
    }
  }

  /** The name a bindable item contributes. */
  function BoundMethod(item: TraitItem): Ident
    requires IsBindable(item)
  {
    Classify(item).fnName
  }

  /**
   Order preservation: entry `k` of the binding list of `items[from..]` is the
   binding of the `k`-th bindable item from `from` on, in declaration order.
   */
  lemma {:induction false} FnBoundsFollowOrderFrom(items: seq<TraitItem>, from: nat, target: Path)
    requires from <= |items|
    ensures var bs := FnBounds(items[from..], target); var idx := BindableIndices(items, from);
            |bs| == |idx| &&
            forall k :: 0 <= k < |bs| ==> bs[k] == Binding(BoundMethod(items[idx[k]]), target)
    decreases |items| - from
  {
    if from < |items| {
      FnBoundsFollowOrderFrom(items, from + 1, target);
      var tail := items[from..];
      assert tail[1..] == items[from + 1..];
      var rest := FnBounds(items[from + 1..], target);
      var ridx := BindableIndices(items, from + 1);
      if IsBindable(items[from]) {
        var bs := FnBounds(tail, target);
        var idx := BindableIndices(items, from);
        assert bs == [Binding(BoundMethod(items[from]), target)] + rest;
        assert idx == [from] + ridx;
        forall k | 0 <= k < |bs|
          ensures bs[k] == Binding(BoundMethod(items[idx[k]]), target)
        {
          if k > 0 {
            assert bs[k] == rest[k - 1];
            assert idx[k] == ridx[k - 1];
          }
        }
      } else {
        assert FnBounds(tail, target) == rest;
        assert BindableIndices(items, from) == ridx;
      }
    }
  }

  /**
   Order preservation: the binding list is the list of bindable items, in
   declaration order, each mapped to `name(..): target`.
   */
  lemma FnBoundsFollowDeclarationOrder(items: seq<TraitItem>, target: Path)
    ensures var bs := FnBounds(items, target); var idx := BindableIndices(items, 0);
            |bs| == |idx| &&
            forall k :: 0 <= k < |bs| ==> bs[k] == Binding(BoundMethod(items[idx[k]]), target)
  {
    FnBoundsFollowOrderFrom(items, 0, target);
    assert items[0..] == items;
  }

  /** Filtering commutes with concatenation: the binding list of `a + b` is the
      list of `a` followed by the list of `b`. */
  lemma {:induction false} FnBoundsAppend(a: seq<TraitItem>, b: seq<TraitItem>, target: Path)
    ensures FnBounds(a + b, target) == FnBounds(a, target) + FnBounds(b, target)
    decreases |a|
  {
    if a != [] {
      assert (a + b)[1..] == a[1..] + b;
      FnBoundsAppend(a[1..], b, target);
    } else {
      assert a + b == b;
    }
  }

  /** One item on its own adds `name(..): target` exactly when it is a `fn`
      that is `async` or returns `impl Trait`, and otherwise nothing. */
  lemma SingleItemBinding(item: TraitItem, target: Path)
    ensures FnBounds([item], target) ==
            if item.Fn? && (item.sig.asyncness || ReturnsImplTrait(item.sig))
            then [Binding(item.sig.ident, target)]
            else []
  {
  }

  /** A method that is both `async` and returns `impl Trait` is bound once. */
  lemma AsyncImplTraitBoundOnce(sig: Signature, hasDefault: bool, target: Path)
    requires sig.asyncness && ReturnsImplTrait(sig)
    ensures FnBounds([Fn(sig, hasDefault)], target) == [Binding(sig.ident, target)]
  {
  }

  /** A non-async method with no return type, or with a return type other than
      `impl Trait` (a parenthesised `(impl Trait)` included), adds nothing. */
  lemma PlainFnAddsNothing(sig: Signature, hasDefault: bool, target: Path)
    requires !sig.asyncness
    requires sig.output.DefaultReturn? || !sig.output.ty.ImplTrait?
    ensures FnBounds([Fn(sig, hasDefault)], target) == []
  {
  }

  /** Associated consts and types, macros and verbatim items add nothing. */
  lemma NonFnAddsNothing(item: TraitItem, target: Path)
    requires !item.Fn?
    ensures FnBounds([item], target) == []
  {
  }

  /** The binding list is empty exactly when no item is bindable. */
  lemma {:induction false} FnBoundsEmptyIff(items: seq<TraitItem>, target: Path)
    ensures FnBounds(items, target) == [] <==>
            forall i :: 0 <= i < |items| ==> !IsBindable(items[i])
    decreases |items|
  {
    if items != [] {
      FnBoundsEmptyIff(items[1..], target);
      assert forall i :: 1 <= i < |items| ==> items[1..][i - 1] == items[i];
    }
  }

  /** The methods named in the binding list do not depend on the target. */
  lemma {:induction false} FnBoundsMethodsIndependentOfTarget(items: seq<TraitItem>, t1: Path, t2: Path)
    ensures |FnBounds(items, t1)| == |FnBounds(items, t2)|
    ensures forall k :: 0 <= k < |FnBounds(items, t1)| ==>
              FnBounds(items, t1)[k].fnName == FnBounds(items, t2)[k].fnName
    decreases |items|
  {
    if items != [] {
      FnBoundsMethodsIndependentOfTarget(items[1..], t1, t2);
    }
  }
}
