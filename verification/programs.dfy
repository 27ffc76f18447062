/** Slot plans of loaded Core ML programs, and what their sizes mean for submissions. */
module Programs {
  import opened Bytes
  import opened Graphs
  import opened Wire
  import opened Regions
  import opened Artifacts
  import opened Admission

  const MAX_BINDINGS_PER_SUBMISSION: nat := 256

  function FeaturesOf(a: Artifact): seq<FeatureMapping> {
    seq(|a.mappings|, i requires 0 <= i < |a.mappings| => FeatureMapping(a.mappings[i].slot, a.mappings[i].input))
  }

  /** The features of an artifact are its mappings without their names. */
  lemma FeaturesAreMappings(a: Artifact, slot: nat, input: bool)
    ensures Maps(FeaturesOf(a), slot, input) <==>
            exists i | 0 <= i < |a.mappings| :: a.mappings[i].slot == slot && a.mappings[i].input == input
  {
    var features := FeaturesOf(a);
    forall i | 0 <= i < |a.mappings|
      ensures features[i] == FeatureMapping(slot, input) <==> a.mappings[i].slot == slot && a.mappings[i].input == input
    {
    }
  }

  /** The plan of a path artifact has exactly its mapped slots, and no submission can overrun the
      bitmap with it. */
  method PlanArtifact(source: Source, memory: bool) returns (r: Result<seq<SlotPlan>, DecodeError>)
    requires ValidSource(source)
    ensures r.Ok? <==> ParseArtifact(Content(source), memory).Ok?
    ensures r.Ok? ==>
              var features := FeaturesOf(ParseArtifact(Content(source), memory).value);
              && StrictPlan(r.value) && |r.value| <= 256
              && (forall slot: nat :: (exists i | 0 <= i < |r.value| :: r.value[i].slot == slot)
                                      <==> Maps(features, slot, true) || Maps(features, slot, false))
              && (forall i | 0 <= i < |r.value| ::
                    r.value[i].access
                      == AccessOf(Maps(features, r.value[i].slot, true), Maps(features, r.value[i].slot, false)))
              && forall context, bindings, n: nat :: !Overruns(context, r.value, bindings, n)
  {
    hide Maps, ParseArtifact, Overruns, ArtifactBytes;
    var decoded := Decode(source, memory);
    if decoded.Err? { return Err(decoded.error); }
    Bounded(Content(source), memory);
    var plan := BuildSlotPlan(FeaturesOf(decoded.value));
    forall context, bindings, n: nat
      ensures !Overruns(context, plan, bindings, n)
    {
      OverrunsIffTooManySlots(context, plan);
    }
    return Ok(plan);
  }

  lemma Bounded(s: seq<Byte>, memory: bool)
    requires ParseArtifact(s, memory).Ok?
    ensures |ParseArtifact(s, memory).value.mappings| <= 256
  {
    hide ParseEntries, Field, Utf8;
    assert memory;
    DecodedReencodes(s);
  }

  // ------------------------------------------------------------------------------------------
  // Lowered programs.

  /** Inputs take the first slots and outputs the next. */
  function LoweredFeatures(inputs: nat, outputs: nat): seq<FeatureMapping> {
    seq(inputs + outputs, i requires 0 <= i < inputs + outputs => FeatureMapping(i, i < inputs))
  }

  function LoweredPlan(features: seq<FeatureMapping>): seq<SlotPlan> {
    seq(|features|, i requires 0 <= i < |features| =>
      SlotPlan(features[i].slot, AccessOf(features[i].input, !features[i].input)))
  }

  /** Lowering sorts and merges nothing, yet its plan is strict and agrees with the merged one:
      every slot is found at its own number. */
  lemma LoweredPlanIsStrict(inputs: nat, outputs: nat)
    ensures var features := LoweredFeatures(inputs, outputs);
            var plan := LoweredPlan(features);
            && StrictPlan(plan) && |plan| == inputs + outputs
            && (forall i | 0 <= i < |plan| :: Search(plan, i) == Some(i))
            && (forall i | 0 <= i < |plan| ::
                  plan[i].access == AccessOf(Maps(features, i, true), Maps(features, i, false)))
  {
    var features := LoweredFeatures(inputs, outputs);
    var plan := LoweredPlan(features);
    forall i | 0 <= i < |plan|
      ensures Search(plan, i) == Some(i)
      ensures plan[i].access == AccessOf(Maps(features, i, true), Maps(features, i, false))
    {
      SearchFinds(plan, i);
      assert features[i] == FeatureMapping(i, i < inputs);
    }
  }

  function FullBinding(context: nat, s: SlotPlan): CoreBinding {
    CoreBinding(CoreBuffer(context, BufferDesc(1, 1, 1, MUTABLE_STATE), 0), s.slot, s.access, 0, 1)
  }

  /** A lowered program can be submitted exactly when it has at most 256 features, and some
      submission overruns the bitmap exactly when it has more. */
  lemma LoweredProgramsFit(context: nat, inputs: nat, outputs: nat)
    requires inputs > 0 && outputs > 0
    ensures var plan := LoweredPlan(LoweredFeatures(inputs, outputs));
            && ((exists bindings :: 1 <= |bindings| <= MAX_BINDINGS_PER_SUBMISSION && Matching(context, plan, bindings))
                <==> inputs + outputs <= 256)
            && ((exists bindings, n: nat :: |bindings| == 1 && Overruns(context, plan, bindings, n))
                <==> inputs + outputs > 256)
  {
    hide Search, LoweredFeatures, LoweredPlan;
    var plan := LoweredPlan(LoweredFeatures(inputs, outputs));
    LoweredPlanIsStrict(inputs, outputs);
    OverrunsIffTooManySlots(context, plan);
    if inputs + outputs <= 256 {
      EveryPlanMatches(context, plan);
    }
  }

  /** Some binding list matches any strict plan. */
  lemma EveryPlanMatches(context: nat, plan: seq<SlotPlan>)
    requires StrictPlan(plan)
    ensures exists bindings :: |bindings| == |plan| && Matching(context, plan, bindings)
  {
    hide Search;
    var bindings := seq(|plan|, i requires 0 <= i < |plan| => FullBinding(context, plan[i]));
    forall i | 0 <= i < |plan|
      ensures Suits(context, plan, bindings[i])
    {
      SearchFinds(plan, i);
      assert UsageBit(MUTABLE_STATE, MUTABLE_STATE);
    }
    assert Matching(context, plan, bindings);
  }
}
