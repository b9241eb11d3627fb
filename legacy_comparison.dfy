/**
 * The legacy generator of `virtual_pm_CLI.py` next to the package's cycle, definition by
 * definition: where they agree and where the missing error handling and the missing `int()`
 * and `float()` conversions make them differ.
 */
module LegacyComparison {
  import opened Wrappers
  import opened PyValue
  import opened WordCodec
  import opened Generators
  import opened DataBlock
  import opened MeterGenerator
  import opened LegacyMeter
  import MeterCycleExamples

  /** A definition whose generation entry names a type and gives params. */
  function Definition(address: int, dataType: string, genType: Json, params: Json): Json {
    MeterCycleExamples.Definition(address, dataType, JObject(map["type" := genType, "params" := params]))
  }

  /** The legacy step of such a definition: pick a value, pack it, write it at the address. */
  lemma LegacyDefinitionStep(address: int, dataType: string, genType: Json, params: Json, e: Entropy, f32: Float32Format)
    ensures var d := Definition(address, dataType, genType, params);
            var value := LegacyValue(BranchOf(genType, params), params, e);
            (value.Err? ==> LegacyStep(d, e, f32) == Aborted)
            && (value.Ok? ==>
                  var packed := LegacyEncode(value.value, JStr(dataType), f32);
                  (packed.Err? ==> LegacyStep(d, e, f32) == Aborted)
                  && (packed.Ok? && packed.value.None? ==> LegacyStep(d, e, f32) == Skipped(EncodeFailed(UnsupportedType)))
                  && (packed.Ok? && packed.value.Some? ==> LegacyStep(d, e, f32) == Written(address, packed.value.value)))
  {
    var gen := JObject(map["type" := genType, "params" := params]);
    var m := Definition(address, dataType, genType, params).fields;
    assert "address" in m && "data_type" in m && m["generation"] == gen;
    assert m["data_type"] == JStr(dataType) && m["address"] == JInt(address);
    assert Truthy(gen) by { assert "type" in gen.fields; }
    assert Get(gen.fields, "type", JStr("fixed")) == genType && Get(gen.fields, "params", JList([])) == params;
  }

  /** The package's step of such a definition, likewise. */
  lemma NewDefinitionStep(address: int, dataType: string, genType: Json, params: Json,
                          e: Entropy, reg: Registry, platform: Platform)
    ensures var d := Definition(address, dataType, genType, params);
            var value := GenerateValue(JObject(map["type" := genType, "params" := params]), e, reg, platform.sin);
            (value.Err? ==> SingleRegister(d, e, reg, platform) == Skipped(value.error))
            && (value.Ok? ==>
                  var words := EncodeAs(value.value, JStr(dataType), platform.float32);
                  (words.Err? ==> SingleRegister(d, e, reg, platform) == Skipped(EncodeFailed(words.error)))
                  && (words.Ok? ==> SingleRegister(d, e, reg, platform) == Written(address, words.value)))
  {
    var gen := JObject(map["type" := genType, "params" := params]);
    assert Truthy(gen) by { assert "type" in gen.fields; }
    MeterCycleExamples.DefinitionStep(address, dataType, gen, e, reg, platform);
  }

  /**
   * With an integer `fixed` value both versions pick the same value and pack it the same way:
   * one writes exactly when the other does, and then the same words at the same address.
   */
  lemma FixedIntegerAgrees(address: int, dataType: string, v: int, rest: seq<Json>,
                           e: Entropy, reg: Registry, platform: Platform)
    ensures var d := Definition(address, dataType, JStr("fixed"), JList([JInt(v)] + rest));
            (LegacyStep(d, e, platform.float32).Written? <==> SingleRegister(d, e, reg, platform).Written?)
            && (SingleRegister(d, e, reg, platform).Written? ==>
                  LegacyStep(d, e, platform.float32) == SingleRegister(d, e, reg, platform))
  {
    var f32 := platform.float32;
    LegacyFixedStep(address, dataType, JInt(v), rest, e, f32);
    NewFixedStep(address, dataType, JInt(v), rest, e, reg, platform);
    match ParseDataType(dataType)
    case None =>
    case Some(t) =>
      if IsInteger(t) {
        assert LegacyEncode(JInt(v), JStr(dataType), f32).Ok? <==> InRange(t, v);
      } else {
        assert LegacyEncode(JInt(v), JStr(dataType), f32).Ok? <==> f32.pack(v as real).Some?;
      }
  }

  /** An unknown generator type: the legacy loop writes 0, the package skips the register. */
  lemma UnknownGeneratorWritesZero(address: int, e: Entropy, reg: Registry, platform: Platform)
    ensures var d := Definition(address, "INT16", JStr("ramp"), JList([]));
            LegacyStep(d, e, platform.float32) == Written(address, EncodeInt(Int16, 0).value)
            && SingleRegister(d, e, reg, platform) == Skipped(GeneratorFailed(UnknownGenerator("ramp", GeneratorNames)))
  {
    LegacyWritesZero(address, JStr("ramp"), JList([]), e, platform.float32);
    NewDefinitionStep(address, "INT16", JStr("ramp"), JList([]), e, reg, platform);
    assert GetGenerator("ramp", reg) == Err(UnknownGenerator("ramp", GeneratorNames));
  }

  /** `fixed` with no params: the legacy loop writes 0, the package skips the register. */
  lemma EmptyFixedWritesZero(address: int, e: Entropy, reg: Registry, platform: Platform)
    ensures var d := Definition(address, "INT16", JStr("fixed"), JList([]));
            LegacyStep(d, e, platform.float32) == Written(address, EncodeInt(Int16, 0).value)
            && SingleRegister(d, e, reg, platform) == Skipped(GeneratorFailed(TooFewParams))
  {
    LegacyWritesZero(address, JStr("fixed"), JList([]), e, platform.float32);
    NewDefinitionStep(address, "INT16", JStr("fixed"), JList([]), e, reg, platform);
    assert GetGenerator("fixed", reg) == Ok(Generators.Fixed);
  }

  /** A generation entry that takes no branch of the legacy chain writes the initial 0. */
  lemma LegacyWritesZero(address: int, genType: Json, params: Json, e: Entropy, f32: Float32Format)
    requires BranchOf(genType, params) == NoBranch
    ensures LegacyStep(Definition(address, "INT16", genType, params), e, f32) == Written(address, EncodeInt(Int16, 0).value)
  {
    LegacyDefinitionStep(address, "INT16", genType, params, e, f32);
    assert ParseDataType("INT16") == Some(Int16) && InRange(Int16, 0);
  }

  /** A value outside the type's range: the legacy pass ends, the package skips the register. */
  lemma OutOfRangeEndsLegacyPass(address: int, e: Entropy, reg: Registry, platform: Platform)
    ensures var d := Definition(address, "INT16U", JStr("fixed"), JList([JInt(70000)]));
            LegacyStep(d, e, platform.float32) == Aborted
            && SingleRegister(d, e, reg, platform) == Skipped(EncodeFailed(OutOfRange))
  {
    var params := JList([JInt(70000)]);
    FixedIntegerAgrees(address, "INT16U", 70000, [], e, reg, platform);
    assert [JInt(70000)] + [] == [JInt(70000)];
    LegacyFixedStep(address, "INT16U", JInt(70000), [], e, platform.float32);
    NewFixedStep(address, "INT16U", JInt(70000), [], e, reg, platform);
    assert ParseDataType("INT16U") == Some(Int16U) && !InRange(Int16U, 70000);
  }

  /**
   * A float for an integer register: the legacy loop hands it to struct.pack unconverted and
   * the pass ends; the package writes `int(value)`, truncated toward zero.
   */
  lemma FloatIntoIntegerRegister(address: int, e: Entropy, reg: Registry, platform: Platform)
    ensures var d := Definition(address, "INT16", JStr("fixed"), JList([JReal(-12.7)]));
            LegacyStep(d, e, platform.float32) == Aborted
            && SingleRegister(d, e, reg, platform) == Written(address, EncodeInt(Int16, -12).value)
  {
    assert [JReal(-12.7)] + [] == [JReal(-12.7)];
    LegacyFixedStep(address, "INT16", JReal(-12.7), [], e, platform.float32);
    NewFixedStep(address, "INT16", JReal(-12.7), [], e, reg, platform);
    assert ParseDataType("INT16") == Some(Int16);
    assert Trunc(-12.7) == -12;
    assert InRange(Int16, -12);
  }

  /** The legacy step of a `fixed` entry with at least one param: `params[0]` packed as it is. */
  lemma LegacyFixedStep(address: int, dataType: string, v: Json, rest: seq<Json>, e: Entropy, f32: Float32Format)
    ensures var d := Definition(address, dataType, JStr("fixed"), JList([v] + rest));
            var packed := LegacyEncode(v, JStr(dataType), f32);
            (packed.Err? ==> LegacyStep(d, e, f32) == Aborted)
            && (packed.Ok? && packed.value.None? ==> LegacyStep(d, e, f32) == Skipped(EncodeFailed(UnsupportedType)))
            && (packed.Ok? && packed.value.Some? ==> LegacyStep(d, e, f32) == Written(address, packed.value.value))
  {
    var params := JList([v] + rest);
    assert Truthy(params) by { assert |params.items| > 0; }
    LegacyDefinitionStep(address, dataType, JStr("fixed"), params, e, f32);
    assert BranchOf(JStr("fixed"), params) == FixedBranch;
    assert LegacyValue(FixedBranch, params, e) == Ok(v);
  }

  /** The package's step of such an entry: `params[0]` converted and encoded. */
  lemma NewFixedStep(address: int, dataType: string, v: Json, rest: seq<Json>,
                     e: Entropy, reg: Registry, platform: Platform)
    ensures var d := Definition(address, dataType, JStr("fixed"), JList([v] + rest));
            var words := EncodeAs(v, JStr(dataType), platform.float32);
            (words.Err? ==> SingleRegister(d, e, reg, platform) == Skipped(EncodeFailed(words.error)))
            && (words.Ok? ==> SingleRegister(d, e, reg, platform) == Written(address, words.value))
  {
    var params := JList([v] + rest);
    NewDefinitionStep(address, dataType, JStr("fixed"), params, e, reg, platform);
    var gen := JObject(map["type" := JStr("fixed"), "params" := params]);
    assert GetGenerator("fixed", reg) == Ok(Generators.Fixed);
    assert GenerateValue(gen, e, reg, platform.sin) == Ok(v);
  }
}
