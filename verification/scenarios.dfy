/**
 Worked expansions of concrete traits, written out in full.
 */
module Scenarios {
  import opened Syntax
  import opened Classify
  import opened ImplArgs
  import opened Transformer

  const SendPath: Path := SimplePath("Send")
  const SyncPath: Path := SimplePath("Sync")
  const TParam: GenericParam := TypeParam([], "T", [], None)
  const TArg: GenericArgument := TypeArg(TypePath(SimplePath("T")))

  /** `async fn run(&self) -> Output` */
  const RunFn: TraitItem :=
    Fn(Signature(false, true, false, "run", ["&self"], TypeReturn(TypePath(SimplePath("Output")))), false)

  /** `fn id(&self) -> u32` */
  const IdFn: TraitItem :=
    Fn(Signature(false, false, false, "id", ["&self"], TypeReturn(TypePath(SimplePath("u32")))), false)

  /** `#[doc = "runs"] pub trait Runner { async fn run(&self) -> Output; fn id(&self) -> u32; }` */
  const Runner: ItemTrait :=
    ItemTrait([Attribute("doc = \"runs\"")], Public, false, false, "Runner",
              Generics([], None), [], [RunFn, IdFn])

  /** The same trait with one type parameter: `pub trait Runner<T> { ... }`. */
  const GenericRunner: ItemTrait := Runner.(generics := Generics([TParam], None))

  /** Only `run` of `Runner` is bindable. */
  lemma RunnerBindings(target: Path)
    ensures FnBounds(Runner.items, target) == [Binding("run", target)]
  {
  }

  /**
   `#[trait_transformer(SendRunner: Send)]` on the non-generic `Runner`
   expands to the unchanged trait, `pub trait SendRunner: Runner<run(..): Send>
   + Send {}` and `impl<__WSelf: Runner<run(..): Send> + Send> SendRunner<>
   for __WSelf {}`, both as written and in the corrected model.
   */
  lemma RunnerExpansion()
    ensures
      var bounds := [Specialized("Runner", [], [Binding("run", SendPath)]),
                     Trait(TraitBound(false, NoModifier, None, SendPath))];
      var expected :=
        [ TraitDecl(Runner),
          TraitDecl(ItemTrait([], Public, false, false, "SendRunner", Generics([], None), bounds, [])),
          ImplDecl(ItemImpl([], false, false,
                            Generics([TypeParam([], "__WSelf", bounds, None)], None),
                            Some(ImplTraitRef(false, Path(false, [PathSegment("SendRunner", AngleBracketed([]))]))),
                            TypePath(SimplePath("__WSelf")),
                            [])) ];
      && TraitTransformer([Transform("SendRunner", SendPath)], Runner) == expected
      && TraitTransformerAsWritten([Transform("SendRunner", SendPath)], Runner) == Some(expected)
  {
    RunnerBindings(SendPath);
    var ts := [Transform("SendRunner", SendPath)];
    assert ts[1..] == [];
    assert TransformTrait(ts, Runner) == TransformPair(Runner, ts[0]);
    var bounds := [Specialized("Runner", [], [Binding("run", SendPath)]),
                   Trait(TraitBound(false, NoModifier, None, SendPath))];
    assert SubtraitBounds(Runner, ts[0]) == bounds;
    assert TypeGenerics(Runner.generics) == [];
    assert ImplGenerics(Runner, ts[0], []) == Generics([TypeParam([], "__WSelf", bounds, None)], None);
    AsWrittenVersusCorrected(ts, Runner);
  }

  /**
   Two requests `A: Send, B: Sync` on `Runner` give two pairs; each binds
   `run` to its own target and carries only that target as its plain bound,
   and each impl implements its own derived trait with `__WSelf` bounded by
   that trait's supertraits.
   */
  lemma TwoRequestExpansion()
    ensures
      var ts := [Transform("A", SendPath), Transform("B", SyncPath)];
      var out := TraitTransformer(ts, Runner);
      && TraitTransformerAsWritten(ts, Runner) == Some(out)
      && |out| == 5
      && out[1].TraitDecl? && out[1].tr.ident == "A"
      && out[1].tr.supertraits == [Specialized("Runner", [], [Binding("run", SendPath)]),
                                   Trait(TraitBound(false, NoModifier, None, SendPath))]
      && out[3].TraitDecl? && out[3].tr.ident == "B"
      && out[3].tr.supertraits == [Specialized("Runner", [], [Binding("run", SyncPath)]),
                                   Trait(TraitBound(false, NoModifier, None, SyncPath))]
      && out[2].ImplDecl? && out[4].ImplDecl?
      && out[2].imp.generics.params == [TypeParam([], "__WSelf", out[1].tr.supertraits, None)]
      && out[4].imp.generics.params == [TypeParam([], "__WSelf", out[3].tr.supertraits, None)]
      && out[2].imp.trait_ == Some(ImplTraitRef(false, Path(false, [PathSegment("A", AngleBracketed([]))])))
      && out[4].imp.trait_ == Some(ImplTraitRef(false, Path(false, [PathSegment("B", AngleBracketed([]))])))
  {
    RunnerBindings(SendPath);
    RunnerBindings(SyncPath);
    var ts := [Transform("A", SendPath), Transform("B", SyncPath)];
    TransformTraitAt(ts, Runner, 0);
    TransformTraitAt(ts, Runner, 1);
    BlanketImplOutput(ts, Runner, 0);
    BlanketImplOutput(ts, Runner, 1);
    AsWrittenVersusCorrected(ts, Runner);
  }

  /**
   As written, `SendRunner: Send` on `Runner<T>` expands to nothing: the
   type generics print as `<T>`, the tokens `< <T> >` do not parse as
   generic arguments, and the `unwrap` panics.
   */
  lemma GenericRunnerAsWritten()
    ensures ReparsedArgs(GenericRunner.generics) == None
    ensures TraitTransformerAsWritten([Transform("SendRunner", SendPath)], GenericRunner) == None
  {
  }

  /**
   As written, the first bound built for `SendRunner: Send` on `Runner<T>` is
   `Runner<run(..): Send>`, which leaves out `T`; the corrected bound is
   `Runner<T, run(..): Send>`. The abort at the impl path hides this.
   */
  lemma GenericRunnerFirstBoundAsWritten()
    ensures DerivedTraitWith(GenericRunner, Transform("SendRunner", SendPath), []).supertraits[0] ==
            Specialized("Runner", [], [Binding("run", SendPath)])
    ensures DerivedTrait(GenericRunner, Transform("SendRunner", SendPath)).supertraits[0] ==
            Specialized("Runner", [TArg], [Binding("run", SendPath)])
  {
    RunnerBindings(SendPath);
    assert [TParam][1..] == [];
    assert TypeGenerics(GenericRunner.generics) == [TArg];
  }

  /**
   The corrected expansion of `SendRunner: Send` on `Runner<T>`: the trait,
   `SendRunner<T>: Runner<T, run(..): Send> + Send {}`, and
   `impl<T, __WSelf: Runner<T, run(..): Send> + Send> SendRunner<T> for __WSelf {}`.
   */
  lemma GenericRunnerCorrected()
    ensures
      var bounds := [Specialized("Runner", [TArg], [Binding("run", SendPath)]),
                     Trait(TraitBound(false, NoModifier, None, SendPath))];
      TraitTransformer([Transform("SendRunner", SendPath)], GenericRunner) ==
      [ TraitDecl(GenericRunner),
        TraitDecl(ItemTrait([], Public, false, false, "SendRunner",
                            Generics([TParam], None), bounds, [])),
        ImplDecl(ItemImpl([], false, false,
                          Generics([TParam, TypeParam([], "__WSelf", bounds, None)], None),
                          Some(ImplTraitRef(false, Path(false,
                            [PathSegment("SendRunner", AngleBracketed([TArg]))]))),
                          TypePath(SimplePath("__WSelf")),
                          [])) ]
  {
    RunnerBindings(SendPath);
    assert [TParam][1..] == [];
    assert TypeGenerics(Generics([TParam], None)) == [TArg];
    var ts := [Transform("SendRunner", SendPath)];
    assert ts[1..] == [];
    assert TransformTrait(ts, GenericRunner) == TransformPair(GenericRunner, ts[0]);
    var bounds := [Specialized("Runner", [TArg], [Binding("run", SendPath)]),
                   Trait(TraitBound(false, NoModifier, None, SendPath))];
    assert SubtraitBounds(GenericRunner, ts[0]) == bounds;
    assert DerivedTrait(GenericRunner, ts[0]) == ItemTrait([], Public, false, false, "SendRunner",
                                                           Generics([TParam], None), bounds, []);
    assert ImplGenerics(GenericRunner, ts[0], [TArg]) == Generics([TParam, TypeParam([], "__WSelf", bounds, None)], None);
  }
}
