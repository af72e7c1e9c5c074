/**
 The generic arguments of the blanket impl's trait path. The source takes
 the type generics of the trait (`split_for_impl`), prints them inside
 another pair of angle brackets, and parses the tokens back as
 angle-bracketed generic arguments. This module models the type generics,
 their tokens, and that parse.
 */
module ImplArgs {
  import opened Syntax

  /**
   The argument that names one generic parameter when its name is parsed
   back as a generic argument: a lifetime stays a lifetime, and both a type
   and a const parameter come back as a type path of one segment.
   */
  function ParamArgument(p: GenericParam): GenericArgument
  {
    match p
    case LifetimeParam(l, _) => LifetimeArg(l)
    case TypeParam(_, id, _, _) => TypeArg(TypePath(SimplePath(id)))
    case ConstParam(id, _, _) => TypeArg(TypePath(SimplePath(id)))
  }

  /** The arguments of the lifetime parameters, in order. */
  function LifetimeArgs(ps: seq<GenericParam>): (args: seq<GenericArgument>)
    ensures |args| <= |ps|
    ensures forall k :: 0 <= k < |args| ==> args[k].LifetimeArg?
    decreases |ps|
  {
    if ps == [] then []
    else (if ps[0].LifetimeParam? then [ParamArgument(ps[0])] else []) + LifetimeArgs(ps[1..])
  }

  /** The arguments of the type and const parameters, in order. */
  function OtherArgs(ps: seq<GenericParam>): (args: seq<GenericArgument>)
    ensures |args| <= |ps|
    ensures forall k :: 0 <= k < |args| ==> args[k].TypeArg?
    decreases |ps|
  {
    if ps == [] then []
    else (if ps[0].LifetimeParam? then [] else [ParamArgument(ps[0])]) + OtherArgs(ps[1..])
  }

  /**
   The type generics of the source trait as generic arguments: lifetimes
   first and then type and const parameters, with bounds and defaults left
   off. These are the arguments the implemented trait path is meant to carry.
   */
  function TypeGenerics(g: Generics): (args: seq<GenericArgument>)
    ensures |args| == |g.params|
  {
    TypeGenericsCount(g.params);
    LifetimeArgs(g.params) + OtherArgs(g.params)
  }

  /** Every parameter contributes exactly one argument. */
  lemma {:induction false} TypeGenericsCount(ps: seq<GenericParam>)
    ensures |LifetimeArgs(ps)| + |OtherArgs(ps)| == |ps|
    decreases |ps|
  {
    if ps != [] {
      TypeGenericsCount(ps[1..]);
    }
  }

  /** The per-parameter arguments in declaration order. */
  function ParamArgs(ps: seq<GenericParam>): seq<GenericArgument>
  {
    seq(|ps|, k requires 0 <= k < |ps| => ParamArgument(ps[k]))
  }

  /**
   The type generics are a permutation of the parameters' own arguments:
   each parameter appears exactly once, lifetimes before everything else.
   */
  lemma {:induction false} TypeGenericsPermuteParams(g: Generics)
    ensures multiset(TypeGenerics(g)) == multiset(ParamArgs(g.params))
    ensures forall k, l :: 0 <= k < l < |TypeGenerics(g)| && TypeGenerics(g)[l].LifetimeArg? ==>
              TypeGenerics(g)[k].LifetimeArg?
  {
    SplitPermutes(g.params);
    var args := TypeGenerics(g);
    var n := |LifetimeArgs(g.params)|;
    assert forall l :: n <= l < |args| ==> args[l] == OtherArgs(g.params)[l - n];
    assert forall k :: 0 <= k < n ==> args[k] == LifetimeArgs(g.params)[k];
  }

  lemma {:induction false} SplitPermutes(ps: seq<GenericParam>)
    ensures multiset(LifetimeArgs(ps)) + multiset(OtherArgs(ps)) == multiset(ParamArgs(ps))
    decreases |ps|
  {
    if ps != [] {
      SplitPermutes(ps[1..]);
      assert ParamArgs(ps) == [ParamArgument(ps[0])] + ParamArgs(ps[1..]);
    }
  }

  /** Without lifetime parameters the type and const arguments are all the
      parameters' arguments, in declaration order. */
  lemma {:induction false} OtherArgsWithoutLifetimes(ps: seq<GenericParam>)
    requires forall k :: 0 <= k < |ps| ==> !ps[k].LifetimeParam?
    ensures LifetimeArgs(ps) == []
    ensures OtherArgs(ps) == ParamArgs(ps)
    decreases |ps|
  {
    if ps != [] {
      OtherArgsWithoutLifetimes(ps[1..]);
      assert ParamArgs(ps) == [ParamArgument(ps[0])] + ParamArgs(ps[1..]);
    }
  }

  /** Without lifetime parameters the type generics keep declaration order. */
  lemma TypeGenericsWithoutLifetimes(g: Generics)
    requires forall k :: 0 <= k < |g.params| ==> !g.params[k].LifetimeParam?
    ensures LifetimeArgs(g.params) == []
    ensures TypeGenerics(g) == ParamArgs(g.params)
  {
    OtherArgsWithoutLifetimes(g.params);
  }

  /** The tokens that occur in printed type generics and generic arguments. */
  datatype Tok = Lt | Gt | Comma | Colon2 | LifetimeTok(lifetime: Ident) | IdentTok(ident: Ident)

  /** An argument that prints as a single token: a lifetime or a bare name. */
  predicate SimpleArg(a: GenericArgument)
  {
    || a.LifetimeArg?
    || (a.TypeArg? && a.ty.TypePath? && |a.ty.path.segments| == 1 &&
        a.ty.path == SimplePath(a.ty.path.segments[0].ident))
  }

  function ArgTok(a: GenericArgument): Tok
    requires SimpleArg(a)
  {
    if a.LifetimeArg? then LifetimeTok(a.lifetime) else IdentTok(a.ty.path.segments[0].ident)
  }

  /** Arguments printed with a comma between each two. */
  function Join(args: seq<GenericArgument>): (toks: seq<Tok>)
    requires forall k :: 0 <= k < |args| ==> SimpleArg(args[k])
    ensures forall k :: 0 <= k < |toks| ==> toks[k] != Lt && toks[k] != Gt && toks[k] != Colon2
    ensures |args| == 0 <==> |toks| == 0
    decreases |args|
  {
    if args == [] then []
    else if |args| == 1 then [ArgTok(args[0])]
    else [ArgTok(args[0]), Comma] + Join(args[1..])
  }

  lemma {:induction false} TypeGenericsSimple(ps: seq<GenericParam>)
    ensures forall k :: 0 <= k < |LifetimeArgs(ps)| ==> SimpleArg(LifetimeArgs(ps)[k])
    ensures forall k :: 0 <= k < |OtherArgs(ps)| ==> SimpleArg(OtherArgs(ps)[k])
    decreases |ps|
  {
    if ps != [] {
      TypeGenericsSimple(ps[1..]);
    }
  }

  /**
   What `split_for_impl`'s type generics print as: nothing when there are no
   parameters, and otherwise `<` the arguments `>`, brackets included.
   */
  function TypeGenericsTokens(g: Generics): (toks: seq<Tok>)
    ensures g.params == [] <==> toks == []
    ensures toks != [] ==> toks[0] == Lt && toks[|toks| - 1] == Gt
  {
    TypeGenericsSimple(g.params);
    var args := TypeGenerics(g);
    if args == [] then [] else [Lt] + Join(args) + [Gt]
  }

  /**
   The angle-bracketed generic argument parser, after the opening `<`:
   arguments separated by commas, an optional trailing comma, then `>`,
   which must be the last token. An argument that starts with `<` is a
   qualified path `<Q>::Name` and needs the `::` after its `>`.
   */
  function ParseArgs(toks: seq<Tok>, acc: seq<GenericArgument>): Option<seq<GenericArgument>>
    decreases |toks|
  {
    if toks == [] then None
    else match toks[0]
      case Gt => if |toks| == 1 then Some(acc) else None
      case LifetimeTok(l) => ParseAfterArg(toks[1..], acc + [LifetimeArg(l)])
      case IdentTok(id) => ParseAfterArg(toks[1..], acc + [TypeArg(TypePath(SimplePath(id)))])
      case Lt =>
        if |toks| >= 5 && toks[1].IdentTok? && toks[2] == Gt && toks[3] == Colon2 && toks[4].IdentTok?
        then ParseAfterArg(toks[5..], acc + [TypeArg(OtherType("qualified path"))])
        else None
      case _ => None
  }

  /** After an argument: a comma and more arguments, or the closing `>`. */
  function ParseAfterArg(toks: seq<Tok>, acc: seq<GenericArgument>): Option<seq<GenericArgument>>
    decreases |toks|
  {
    if toks == [] then None
    else match toks[0]
      case Comma => ParseArgs(toks[1..], acc)
      case Gt => if |toks| == 1 then Some(acc) else None
      case _ => None
  }

  /** `syn::parse2::<AngleBracketedGenericArguments>`: a `<`, then the arguments. */
  function ParseAngleArgs(toks: seq<Tok>): Option<seq<GenericArgument>>
  {
    if toks != [] && toks[0] == Lt then ParseArgs(toks[1..], []) else None
  }

  /** The arguments the source builds, as written: the re-parse of `<#b>`. */
  function ReparsedArgs(g: Generics): Option<seq<GenericArgument>>
  {
    ParseAngleArgs([Lt] + TypeGenericsTokens(g) + [Gt])
  }

  /** Printed arguments followed by `>` parse back to the same arguments. */
  lemma {:induction false} ParseJoinRoundTrip(args: seq<GenericArgument>, acc: seq<GenericArgument>)
    requires forall k :: 0 <= k < |args| ==> SimpleArg(args[k])
    ensures ParseArgs(Join(args) + [Gt], acc) == Some(acc + args)
    decreases |args|
  {
    if args == [] {
      assert Join(args) + [Gt] == [Gt];
      assert acc + args == acc;
    } else if |args| == 1 {
      assert Join(args) + [Gt] == [ArgTok(args[0]), Gt];
      assert [ArgTok(args[0]), Gt][1..] == [Gt];
      assert acc + [args[0]] == acc + args;
    } else {
      var toks := Join(args) + [Gt];
      var rest := Join(args[1..]) + [Gt];
      assert toks == [ArgTok(args[0]), Comma] + rest;
      assert toks[1..][1..] == rest;
      ParseJoinRoundTrip(args[1..], acc + [args[0]]);
      assert acc + [args[0]] + args[1..] == acc + args;
    }
  }

  /**
   Printing the type generics and parsing the tokens back as generic
   arguments gives back the type generics: no argument is lost, added or
   reordered. With no parameters the arguments are empty.
   */
  lemma TypeGenericsRoundTrip(g: Generics)
    ensures g.params != [] ==> ParseAngleArgs(TypeGenericsTokens(g)) == Some(TypeGenerics(g))
    ensures g.params == [] ==> TypeGenerics(g) == []
  {
    TypeGenericsSimple(g.params);
    var args := TypeGenerics(g);
    if args != [] {
      var toks := TypeGenericsTokens(g);
      assert toks[1..] == Join(args) + [Gt];
      ParseJoinRoundTrip(args, []);
      assert [] + args == args;
    }
  }

  /**
   The re-parse as written succeeds only when there are no parameters: any
   parameter makes the inner `<` open a qualified path that never gets its
   `::`, so the parse fails (and the `unwrap` on it panics).
   */
  lemma ReparsedArgsFailOnGenerics(g: Generics)
    ensures g.params == [] ==> ReparsedArgs(g) == Some([])
    ensures g.params != [] ==> ReparsedArgs(g) == None
  {
  }
}
