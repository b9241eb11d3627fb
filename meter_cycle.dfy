/**
 * What one generation cycle of `MeterDataGenerator` guarantees about the block: which
 * definitions end a cycle, when a cycle reports success, which words it leaves alone, and
 * that a register reads back the value its generator produced.
 */
module MeterCycle {
  import opened Wrappers
  import opened PyValue
  import opened WordCodec
  import opened Generators
  import opened DataBlock
  import opened MeterGenerator
  import RegisterLoader

  /** Whether a step writes word k. */
  predicate Covers(s: Step, k: int) {
    s.Written? && s.address <= k < s.address + |s.words|
  }

  /** A pass is cut short exactly when one of its steps ends the cycle. */
  lemma {:induction false} PassAbortsIffAbortedStep(block: seq<Word>, steps: seq<Step>)
    ensures ApplySteps(block, steps).aborted <==> exists i :: 0 <= i < |steps| && steps[i].Aborted?
    decreases |steps|
  {
    if steps != [] {
      var n := |steps| - 1;
      PassAbortsIffAbortedStep(block, steps[..n]);
      assert forall i :: 0 <= i < n ==> steps[..n][i] == steps[i];
    }
  }

  /** A cycle is cut short exactly when the table holds an element that is not a dict. */
  lemma PassAbortsIffNonDict(block: seq<Word>, defs: seq<Json>, env: seq<Entropy>, reg: Registry, platform: Platform)
    requires |env| == |defs|
    ensures ApplySteps(block, Steps(defs, env, reg, platform)).aborted
            <==> exists i :: 0 <= i < |defs| && !defs[i].JObject?
  {
    var steps := Steps(defs, env, reg, platform);
    PassAbortsIffAbortedStep(block, steps);
    assert forall i :: 0 <= i < |defs| ==> (steps[i].Aborted? <==> !defs[i].JObject?);
  }

  /** A pass that runs to the end has written something exactly when one of its steps is a write. */
  lemma {:induction false} PassCountsWrites(block: seq<Word>, steps: seq<Step>)
    requires !ApplySteps(block, steps).aborted
    ensures ApplySteps(block, steps).count > 0 <==> exists i :: 0 <= i < |steps| && steps[i].Written?
    decreases |steps|
  {
    if steps != [] {
      var n := |steps| - 1;
      PassCountsWrites(block, steps[..n]);
      assert forall i :: 0 <= i < n ==> steps[..n][i] == steps[i];
    }
  }

  /** A word that no step writes keeps its value through the pass. */
  lemma {:induction false} UntouchedWordsKeep(block: seq<Word>, steps: seq<Step>, k: int)
    requires |block| == BlockSize && StepsFit(steps) && 0 <= k < BlockSize
    requires forall i :: 0 <= i < |steps| ==> !Covers(steps[i], k)
    ensures ApplySteps(block, steps).block[k] == block[k]
    decreases |steps|
  {
    if steps != [] {
      var n := |steps| - 1;
      PrefixFits(steps, n);
      assert forall i :: 0 <= i < n ==> steps[..n][i] == steps[i];
      UntouchedWordsKeep(block, steps[..n], k);
      assert !Covers(steps[n], k);
    }
  }

  /**
   * A word holds what the last step covering it wrote: when step i writes word k and no
   * later step writes it, the completed pass leaves step i's word there.
   */
  lemma {:induction false} LastWriterWins(block: seq<Word>, steps: seq<Step>, i: nat, k: int)
    requires |block| == BlockSize && StepsFit(steps)
    requires i < |steps| && Covers(steps[i], k)
    requires forall j :: i < j < |steps| ==> !Covers(steps[j], k)
    requires !ApplySteps(block, steps).aborted
    ensures 0 <= k < BlockSize
    ensures ApplySteps(block, steps).block[k] == steps[i].words[k - steps[i].address]
    decreases |steps|
  {
    var n := |steps| - 1;
    PrefixFits(steps, n);
    var s := steps[i];
    var prev := ApplySteps(block, steps[..n]);
    if i == n {
      var after := Overwrite(prev.block, s.address, s.words);
      assert ApplySteps(block, steps).block == after;
      assert after[s.address..s.address + |s.words|][k - s.address] == after[k];
    } else {
      assert steps[..n][i] == steps[i];
      assert forall j :: i < j < n ==> steps[..n][j] == steps[j];
      LastWriterWins(block, steps[..n], i, k);
      assert !Covers(steps[n], k);
    }
  }

  /** Whether a step writes any word of [a, a + w). */
  predicate Overlaps(s: Step, a: int, w: nat) {
    s.Written? && s.address < a + w && a < s.address + |s.words|
  }

  /**
   * After a completed pass, a step that wrote a register of type t and was not overwritten
   * by a later step reads back as the decoding of its own words.
   */
  lemma WrittenStepReadsBack(block: seq<Word>, steps: seq<Step>, i: nat, t: DataType, f32: Float32Format)
    requires |block| == BlockSize && StepsFit(steps)
    requires i < |steps| && steps[i].Written? && |steps[i].words| == Width(t)
    requires forall j :: i < j < |steps| ==> !Overlaps(steps[j], steps[i].address, Width(t))
    requires !ApplySteps(block, steps).aborted
    ensures ReadRegister(ApplySteps(block, steps).block, steps[i].address, TypeName(t), f32, ReaderMessages)
            == DecodeWords(t, steps[i].words, f32)
  {
    var s := steps[i];
    var p := ApplySteps(block, steps);
    assert ParseDataType(TypeName(t)) == Some(t);
    forall k | s.address <= k < s.address + Width(t)
      ensures p.block[k] == s.words[k - s.address]
    {
      LastWriterWins(block, steps, i, k);
    }
    assert p.block[s.address..s.address + Width(t)] == s.words;
  }

  /**
   * After a completed cycle, a definition that was written and not overwritten by a later one
   * reads back, through `get_register_value`'s decoder, as its generated value: `int(value)`
   * for the integer types, `unpack(pack(float(value)))` for the float types.
   */
  lemma GeneratedValueReadsBack(block: seq<Word>, defs: seq<Json>, env: seq<Entropy>,
                                reg: Registry, platform: Platform, i: nat, t: DataType)
    requires |block| == BlockSize && |env| == |defs| && TableFits(defs)
    requires i < |defs| && Steps(defs, env, reg, platform)[i].Written?
    requires defs[i].fields["data_type"] == JStr(TypeName(t))
    requires forall j :: i < j < |defs| ==>
               !Overlaps(Steps(defs, env, reg, platform)[j], Steps(defs, env, reg, platform)[i].address, Width(t))
    requires !ApplySteps(block, Steps(defs, env, reg, platform)).aborted
    ensures var s := Steps(defs, env, reg, platform)[i];
            var value := GenerateValue(defs[i].fields["generation"], env[i], reg, platform.sin).value;
            var r := ReadRegister(ApplySteps(block, Steps(defs, env, reg, platform)).block, s.address,
                                  TypeName(t), platform.float32, ReaderMessages);
            (t == Int16 || t == Int16U || t == Int64 ==> r == IntValue(ToInt(value).value))
            && (t == DateTime ==> r == Seconds(ToInt(value).value))
            && (t == Float32 || t == QuadrantPF ==>
                  r == FloatValue(platform.float32.unpack(platform.float32.pack(ToFloat(value).value).value)))
  {
    var steps := Steps(defs, env, reg, platform);
    var value := GenerateValue(defs[i].fields["generation"], env[i], reg, platform.sin).value;
    assert EncodeAs(value, JStr(TypeName(t)), platform.float32) == Ok(steps[i].words);
    EncodedValueDecodes(value, t, platform.float32, steps[i].words);
    WrittenStepReadsBack(block, steps, i, t, platform.float32);
  }

  /** The gate: a first call runs, a call within the interval holds, a call after it runs again. */
  lemma GateCadence(last: real, interval: int, now: real)
    ensures Gate(true, 0.0, now, interval) == Run
    ensures last != 0.0 && last <= now < last + interval as real ==> Gate(true, last, now, interval) == Hold
    ensures last + interval as real <= now ==> Gate(true, last, now, interval) == Run
    ensures Gate(false, last, now, interval) == Refuse
  {
  }
}

/** The cycle on concrete register tables. */
module MeterCycleExamples {
  import opened Wrappers
  import opened PyValue
  import opened WordCodec
  import opened Generators
  import opened DataBlock
  import opened MeterGenerator
  import RegisterLoader
  import MeterCycle

  function Fixed(v: Json): Json {
    JObject(map["type" := JStr("fixed"), "params" := JList([v])])
  }

  function Definition(address: int, dataType: string, generation: Json): Json {
    JObject(map["address" := JInt(address), "data_type" := JStr(dataType),
                "description" := JStr(""), "generation" := generation])
  }

  /** A definition with a generation entry is generated, encoded and written at its address. */
  lemma DefinitionStep(address: int, dataType: string, generation: Json, e: Entropy, reg: Registry, platform: Platform)
    requires Truthy(generation)
    ensures var d := Definition(address, dataType, generation);
            var value := GenerateValue(generation, e, reg, platform.sin);
            (value.Err? ==> SingleRegister(d, e, reg, platform) == Skipped(value.error))
            && (value.Ok? ==>
                  var words := EncodeAs(value.value, JStr(dataType), platform.float32);
                  (words.Err? ==> SingleRegister(d, e, reg, platform) == Skipped(EncodeFailed(words.error)))
                  && (words.Ok? ==> SingleRegister(d, e, reg, platform) == Written(address, words.value)))
  {
    var m := Definition(address, dataType, generation).fields;
    assert "address" in m && "data_type" in m && m["generation"] == generation;
    assert m["data_type"] == JStr(dataType) && m["address"] == JInt(address);
  }

  /** `fixed` with a one-element list generates that element. */
  lemma FixedGenerates(v: Json, e: Entropy, reg: Registry, sin: Sine)
    ensures GenerateValue(Fixed(v), e, reg, sin) == Ok(v)
  {
    assert Get(Fixed(v).fields, "type", JStr("fixed")) == JStr("fixed");
    assert Get(Fixed(v).fields, "params", JList([])) == JList([v]);
    assert GetGenerator("fixed", reg) == Ok(Generators.Fixed);
  }

  /** A FLOAT32 register at 1000 fixed at 42.0 and an INT16 register at 1002 fixed at 100. */
  const TwoRegisters: seq<Json> :=
    [Definition(1000, "FLOAT32", Fixed(JReal(42.0))), Definition(1002, "INT16", Fixed(JInt(100)))]

  /** The table passes the loader and every register of it lies inside the block. */
  lemma TwoRegistersLoad()
    ensures TableLoads(JList(TwoRegisters)) && TableFits(TwoRegisters)
  {
    DefinitionLoads(1000, Float32, Fixed(JReal(42.0)));
    DefinitionLoads(1002, Int16, Fixed(JInt(100)));
    PairLoads(TwoRegisters, 2, 1);
  }

  lemma PairLoads(defs: seq<Json>, w0: nat, w1: nat)
    requires |defs| == 2 && RegisterLoader.HasRequiredFields(defs[0]) && RegisterLoader.HasRequiredFields(defs[1])
    requires Target(defs[0]) == Some((1000, w0)) && Target(defs[1]) == Some((1002, w1)) && w0 <= 2 && w1 <= 1
    ensures TableLoads(JList(defs)) && TableFits(defs)
  {
    forall i | 0 <= i < |defs|
      ensures RegisterLoader.HasRequiredFields(defs[i])
      ensures Target(defs[i]).Some? && 0 <= Target(defs[i]).value.0
              && Target(defs[i]).value.0 + Target(defs[i]).value.1 <= BlockSize
    {
      assert i == 0 || i == 1;
    }
  }

  /** A definition of the four fields passes the loader and targets its address with its type's width. */
  lemma DefinitionLoads(address: nat, t: DataType, generation: Json)
    ensures RegisterLoader.HasRequiredFields(Definition(address, TypeName(t), generation))
    ensures Target(Definition(address, TypeName(t), generation)) == Some((address, Width(t)))
  {
    var d := Definition(address, TypeName(t), generation);
    RegisterLoader.ValidDefinitionHasRequiredFields(d.fields);
    assert ParseDataType(TypeName(t)) == Some(t);
  }

  lemma FloatRegisterWritten(e: Entropy, reg: Registry, platform: Platform)
    requires platform.float32.pack(42.0).Some?
    ensures SingleRegister(TwoRegisters[0], e, reg, platform) == Written(1000, EncodeFloat(42.0, platform.float32).value)
    ensures GenerateValue(TwoRegisters[0].fields["generation"], e, reg, platform.sin) == Ok(JReal(42.0))
  {
    FixedGenerates(JReal(42.0), e, reg, platform.sin);
    assert ParseDataType("FLOAT32") == Some(Float32);
    assert EncodeAs(JReal(42.0), JStr("FLOAT32"), platform.float32) == EncodeFloat(42.0, platform.float32);
    DefinitionStep(1000, "FLOAT32", Fixed(JReal(42.0)), e, reg, platform);
  }

  lemma IntRegisterWritten(e: Entropy, reg: Registry, platform: Platform)
    ensures SingleRegister(TwoRegisters[1], e, reg, platform) == Written(1002, EncodeInt(Int16, 100).value)
    ensures GenerateValue(TwoRegisters[1].fields["generation"], e, reg, platform.sin) == Ok(JInt(100))
  {
    FixedGenerates(JInt(100), e, reg, platform.sin);
    assert ParseDataType("INT16") == Some(Int16);
    assert InRange(Int16, 100);
    assert EncodeAs(JInt(100), JStr("INT16"), platform.float32) == EncodeInt(Int16, 100);
    DefinitionStep(1002, "INT16", Fixed(JInt(100)), e, reg, platform);
  }

  /** Both registers are written, and each reads back its fixed value. */
  lemma TwoRegistersReadBack(block: seq<Word>, env: seq<Entropy>, reg: Registry, platform: Platform)
    requires |block| == BlockSize && |env| == 2 && platform.float32.pack(42.0).Some?
    ensures TableLoads(JList(TwoRegisters)) && TableFits(TwoRegisters)
    ensures var p := ApplySteps(block, Steps(TwoRegisters, env, reg, platform));
            !p.aborted && p.count == 2
            && ReadRegister(p.block, 1002, "INT16", platform.float32, ReaderMessages) == IntValue(100)
            && ReadRegister(p.block, 1000, "FLOAT32", platform.float32, ReaderMessages)
               == FloatValue(platform.float32.unpack(platform.float32.pack(42.0).value))
  {
    TwoRegistersLoad();
    var f32 := platform.float32;
    var w0, w1 := EncodeFloat(42.0, f32).value, EncodeInt(Int16, 100).value;
    TwoRegisterSteps(env, reg, platform);
    ReadBackOfTwo(block, Steps(TwoRegisters, env, reg, platform), f32, w0, w1);
    IntRoundTrip(Int16, 100);
    FloatRoundTrip(42.0, f32);
  }

  /** Two writes side by side, the float pair at 1000 and the integer word at 1002, read back. */
  lemma ReadBackOfTwo(block: seq<Word>, steps: seq<Step>, f32: Float32Format, w0: seq<Word>, w1: seq<Word>)
    requires |block| == BlockSize && |w0| == 2 && |w1| == 1
    requires steps == [Written(1000, w0), Written(1002, w1)]
    ensures var p := ApplySteps(block, steps);
            !p.aborted && p.count == 2
            && ReadRegister(p.block, 1002, "INT16", f32, ReaderMessages) == DecodeWords(Int16, w1, f32)
            && ReadRegister(p.block, 1000, "FLOAT32", f32, ReaderMessages) == DecodeWords(Float32, w0, f32)
  {
    TwoWrites(block, steps);
    MeterCycle.WrittenStepReadsBack(block, steps, 1, Int16, f32);
    MeterCycle.WrittenStepReadsBack(block, steps, 0, Float32, f32);
  }

  lemma TwoRegisterSteps(env: seq<Entropy>, reg: Registry, platform: Platform)
    requires |env| == 2 && platform.float32.pack(42.0).Some?
    ensures Steps(TwoRegisters, env, reg, platform)
            == [Written(1000, EncodeFloat(42.0, platform.float32).value), Written(1002, EncodeInt(Int16, 100).value)]
  {
    FloatRegisterWritten(env[0], reg, platform);
    IntRegisterWritten(env[1], reg, platform);
    StepsOfTwo(TwoRegisters, env, reg, platform,
               Written(1000, EncodeFloat(42.0, platform.float32).value), Written(1002, EncodeInt(Int16, 100).value));
  }

  lemma StepsOfTwo(defs: seq<Json>, env: seq<Entropy>, reg: Registry, platform: Platform, s0: Step, s1: Step)
    requires |defs| == 2 && |env| == 2
    requires SingleRegister(defs[0], env[0], reg, platform) == s0
    requires SingleRegister(defs[1], env[1], reg, platform) == s1
    ensures Steps(defs, env, reg, platform) == [s0, s1]
  {
  }

  lemma TwoWrites(block: seq<Word>, steps: seq<Step>)
    requires |block| == BlockSize && StepsFit(steps)
    requires |steps| == 2 && steps[0].Written? && steps[1].Written?
    ensures !ApplySteps(block, steps).aborted && ApplySteps(block, steps).count == 2
  {
    PrefixFits(steps, 1);
    PrefixFits(steps, 0);
    assert steps[..1][..0] == steps[..0] == [];
    assert steps[..1][0] == steps[0];
    var p0 := ApplySteps(block, steps[..0]);
    assert p0 == Pass(block, 0, false);
    var p1 := ApplySteps(block, steps[..1]);
    assert !p1.aborted && p1.count == 1;
    assert steps[..1] == steps[..|steps| - 1];
  }

  /** A generator type missing from the registry skips the register and names what is available. */
  lemma UnknownGeneratorSkips(e: Entropy, reg: Registry, platform: Platform)
    ensures SingleRegister(Definition(10, "INT16", JObject(map["type" := JStr("ramp")])), e, reg, platform)
            == Skipped(GeneratorFailed(UnknownGenerator("ramp", GeneratorNames)))
  {
    var gen := JObject(map["type" := JStr("ramp")]);
    assert Get(gen.fields, "type", JStr("fixed")) == JStr("ramp");
    assert GetGenerator("ramp", reg) == Err(UnknownGenerator("ramp", GeneratorNames));
    DefinitionStep(10, "INT16", gen, e, reg, platform);
  }

  /** A data type outside the six supported names skips the register after generation. */
  lemma UnsupportedTypeSkips(e: Entropy, reg: Registry, platform: Platform)
    ensures SingleRegister(Definition(10, "FLOAT64", Fixed(JInt(1))), e, reg, platform)
            == Skipped(EncodeFailed(UnsupportedType))
  {
    FixedGenerates(JInt(1), e, reg, platform.sin);
    assert ParseDataType("FLOAT64") == None;
    DefinitionStep(10, "FLOAT64", Fixed(JInt(1)), e, reg, platform);
  }

  /** A value beyond the 16-bit unsigned range skips the register instead of wrapping. */
  lemma OutOfRangeSkips(e: Entropy, reg: Registry, platform: Platform)
    ensures SingleRegister(Definition(10, "INT16U", Fixed(JInt(70000))), e, reg, platform)
            == Skipped(EncodeFailed(OutOfRange))
  {
    FixedGenerates(JInt(70000), e, reg, platform.sin);
    assert ParseDataType("INT16U") == Some(Int16U);
    assert !InRange(Int16U, 70000);
    DefinitionStep(10, "INT16U", Fixed(JInt(70000)), e, reg, platform);
  }

  /** A spare definition without a generation entry may point past the block: it is skipped, and the table fits. */
  lemma SpareDefinitionPastEnd(e: Entropy, reg: Registry, platform: Platform)
    ensures var d := JObject(map["address" := JInt(6000), "data_type" := JStr("INT16"), "description" := JStr("spare")]);
            SingleRegister(d, e, reg, platform) == Skipped(NoGeneration) && TableFits([d])
  {
    var d := JObject(map["address" := JInt(6000), "data_type" := JStr("INT16"), "description" := JStr("spare")]);
    assert Get(d.fields, "generation", JNull) == JNull;
    forall i | 0 <= i < 1
      ensures !(Target([d][i]).Some? && Truthy(Get([d][i].fields, "generation", JNull)))
    {
      assert [d][i] == d;
    }
  }

  /**
   * A register past the end of the block is appended to the list instead (slice assignment
   * past the end): the block grows by its words, a read at its own address fails, and a read
   * at the old end finds its value.
   */
  lemma PastEndWriteAppends(block: seq<Word>, env: seq<Entropy>, reg: Registry, platform: Platform)
    requires |block| == BlockSize && |env| == 1
    ensures var p := ApplySteps(block, Steps([Definition(6000, "INT16", Fixed(JInt(7)))], env, reg, platform));
            !p.aborted && p.count == 1
            && p.block == block + EncodeInt(Int16, 7).value
            && ReadRegister(p.block, 6000, "INT16", platform.float32, ReaderMessages) == Text(ReaderMessages.readFailure)
            && ReadRegister(p.block, BlockSize, "INT16", platform.float32, ReaderMessages) == IntValue(7)
  {
    var ws := EncodeInt(Int16, 7).value;
    Int16Written(6000, 7, env[0], reg, platform);
    StepsOfOne([Definition(6000, "INT16", Fixed(JInt(7)))], env, reg, platform, Written(6000, ws));
    OneWritePastEnd(block, 6000, ws, platform.float32);
    IntRoundTrip(Int16, 7);
  }

  /** An INT16 register fixed at an in-range value is written at its address. */
  lemma Int16Written(address: int, v: int, e: Entropy, reg: Registry, platform: Platform)
    requires InRange(Int16, v)
    ensures SingleRegister(Definition(address, "INT16", Fixed(JInt(v))), e, reg, platform)
            == Written(address, EncodeInt(Int16, v).value)
  {
    FixedGenerates(JInt(v), e, reg, platform.sin);
    assert ParseDataType("INT16") == Some(Int16);
    assert EncodeAs(JInt(v), JStr("INT16"), platform.float32) == EncodeInt(Int16, v);
    DefinitionStep(address, "INT16", Fixed(JInt(v)), e, reg, platform);
  }

  lemma StepsOfOne(defs: seq<Json>, env: seq<Entropy>, reg: Registry, platform: Platform, s0: Step)
    requires |defs| == 1 && |env| == 1
    requires SingleRegister(defs[0], env[0], reg, platform) == s0
    ensures Steps(defs, env, reg, platform) == [s0]
  {
  }

  /** One register written past the end of a list lands at its old end, not at its address. */
  lemma OneWritePastEnd(block: seq<Word>, a: int, ws: seq<Word>, f32: Float32Format)
    requires |block| < a && |ws| == 1
    ensures var p := ApplySteps(block, [Written(a, ws)]);
            !p.aborted && p.count == 1 && p.block == block + ws
            && ReadRegister(p.block, a, "INT16", f32, ReaderMessages) == Text(ReaderMessages.readFailure)
            && ReadRegister(p.block, |block|, "INT16", f32, ReaderMessages) == DecodeWords(Int16, ws, f32)
  {
    var steps := [Written(a, ws)];
    assert steps[..0] == [];
    assert ApplySteps(block, steps[..0]) == Pass(block, 0, false);
    assert SliceAssign(block, a, ws) == block + ws;
    assert ApplySteps(block, steps) == Pass(block + ws, 1, false);
    AppendedRegisterReads(block, a, ws, f32);
  }

  /** After one register is appended, it reads back at the old end and not at a later address. */
  lemma AppendedRegisterReads(block: seq<Word>, a: int, ws: seq<Word>, f32: Float32Format)
    requires |block| < a && |ws| == 1
    ensures ReadRegister(block + ws, a, "INT16", f32, ReaderMessages) == Text(ReaderMessages.readFailure)
    ensures ReadRegister(block + ws, |block|, "INT16", f32, ReaderMessages) == DecodeWords(Int16, ws, f32)
  {
    var b := block + ws;
    assert ParseDataType("INT16") == Some(Int16) && Width(Int16) == 1;
    assert b[|block|..|block| + 1] == ws;
  }

  /**
   * A string element with the three field names in it passes the loader (its `in` is a
   * substring test) but makes the cycle's error handling raise, so the pass is cut short.
   */
  lemma StringElementEndsCycle(block: seq<Word>, env: seq<Entropy>, reg: Registry, platform: Platform)
    requires |block| == BlockSize && |env| == 1
    ensures TableLoads(JList([JStr(RegisterLoader.FieldNamesText)]))
    ensures TableFits([JStr(RegisterLoader.FieldNamesText)])
    ensures ApplySteps(block, Steps([JStr(RegisterLoader.FieldNamesText)], env, reg, platform)).aborted
  {
    RegisterLoader.StrictCheckAdmitsStrings();
    var steps := Steps([JStr(RegisterLoader.FieldNamesText)], env, reg, platform);
    assert steps[..1][..0] == [] && steps[..1] == steps;
  }
}

/** The two-register file driven through the device object, as a caller of the class sees it. */
module MeterScenario {
  import opened Wrappers
  import opened PyValue
  import opened WordCodec
  import opened DataBlock
  import opened Generators
  import opened MeterGenerator
  import MeterCycleExamples

  /**
   * A device built on a register file that loads generates once at `now` and reads two
   * registers back; it starts from 5000 zero words.
   */
  method GenerateAndRead(file: Json, now: real, env: seq<Entropy>, reg: Registry, platform: Platform,
                         a0: int, t0: string, a1: int, t1: string)
      returns (ok: bool, r0: Reading, r1: Reading)
    requires TableLoads(file) && file.items != [] && |env| == |file.items|
    ensures var p := ApplySteps(seq(BlockSize, _ => 0), Steps(file.items, env, reg, platform));
            (p.aborted ==> !ok) && (!p.aborted ==> ok == (p.count > 0))
            && r0 == ReadRegister(p.block, a0, t0, platform.float32, ReaderMessages)
            && r1 == ReadRegister(p.block, a1, t1, platform.float32, ReaderMessages)
  {
    var meter := new MeterDataGenerator(1, Some(file), 0, reg, platform);
    assert meter.block == seq(BlockSize, _ => 0);
    ok := meter.GenerateRegisters(now, env);
    r0 := meter.GetRegisterValue(a0, t0);
    r1 := meter.GetRegisterValue(a1, t1);
  }

  /**
   * A device built on the two-register file generates once and reads its registers back:
   * 100 from the INT16 register and `unpack(pack(42.0))` from the FLOAT32 one.
   */
  method ReadBackScenario(now: real, env: seq<Entropy>, reg: Registry, platform: Platform)
      returns (ok: bool, floatReading: Reading, intReading: Reading)
    requires |env| == 2 && platform.float32.pack(42.0).Some?
    ensures ok
    ensures floatReading == FloatValue(platform.float32.unpack(platform.float32.pack(42.0).value))
    ensures intReading == IntValue(100)
  {
    MeterCycleExamples.TwoRegistersLoad();
    ok, floatReading, intReading :=
      GenerateAndRead(JList(MeterCycleExamples.TwoRegisters), now, env, reg, platform, 1000, "FLOAT32", 1002, "INT16");
    MeterCycleExamples.TwoRegistersReadBack(seq(BlockSize, _ => 0), env, reg, platform);
  }
}
