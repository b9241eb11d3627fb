/**
 * The per-device generation cycle of `src/data_generation/meter_generator.py`: a
 * `MeterDataGenerator` owns a 5000-word block and a table of register definitions; every
 * cycle asks each definition's generator for a value, encodes it with the definition's data
 * type and writes the words at the definition's address. A definition that fails is skipped;
 * the cycle succeeds when at least one definition was written.
 */
module MeterGenerator {
  import opened Wrappers
  import opened PyValue
  import opened WordCodec
  import opened Generators
  import opened DataBlock
  import RegisterLoader

  /** Why `_generate_single_register` gave up on a definition (it then returns False). */
  datatype SkipReason =
    | MissingAddress                 // reg_def["address"] raises KeyError
    | NoGeneration                   // the generation entry is absent or falsy
    | BadGenerationSpec              // the generation entry has no `.get`
    | GeneratorFailed(failure: GenError)
    | MissingDataType                // reg_def["data_type"] raises KeyError
    | EncodeFailed(problem: CodecError)
    | BadAddress                     // setValues cannot slice at a non-integer address

  /** The outcome of one definition within a cycle. */
  datatype Step =
    | Written(address: int, words: seq<Word>)
    | Skipped(reason: SkipReason)
    | Aborted                        // an element that is not a dict ends the whole cycle

  /** The generator a generation entry names, applied to its params (defaults: "fixed", []). */
  function GenerateValue(gen: Json, e: Entropy, reg: Registry, sin: Sine): (r: Result<Json, SkipReason>)
    ensures !gen.JObject? ==> r == Err(BadGenerationSpec)
    ensures gen.JObject? ==>
              var name := Get(gen.fields, "type", JStr("fixed"));
              !(name.JStr? && name.s in GeneratorNames) ==> r.Err? && r.error.GeneratorFailed?
    ensures gen.JObject? && Get(gen.fields, "type", JStr("fixed")) == JStr("timestamp") ==> r.Ok?
    ensures r.Err? ==> r.error == BadGenerationSpec || r.error.GeneratorFailed?
    ensures r.Ok? <==>
              (gen.JObject? &&
               var name := Get(gen.fields, "type", JStr("fixed"));
               name.JStr? && GetGenerator(name.s, reg).Ok?
               && Generate(GetGenerator(name.s, reg).value, Get(gen.fields, "params", JList([])), e, sin).Ok?)
    ensures r.Ok? ==>
              (gen.JObject? &&
               var name := Get(gen.fields, "type", JStr("fixed"));
               name.JStr? && GetGenerator(name.s, reg).Ok?
               && Generate(GetGenerator(name.s, reg).value, Get(gen.fields, "params", JList([])), e, sin) == Ok(r.value))
  {
    if !gen.JObject? then Err(BadGenerationSpec)
    else
      var name := Get(gen.fields, "type", JStr("fixed"));
      if !name.JStr? then Err(GeneratorFailed(NotAName))
      else match GetGenerator(name.s, reg)
        case Err(why) => Err(GeneratorFailed(why))
        case Ok(generator) =>
          match Generate(generator, Get(gen.fields, "params", JList([])), e, sin)
          case Err(why) => Err(GeneratorFailed(why))
          case Ok(v) => Ok(v)
  }

  /** The registers `value` becomes under a data type: `float(value)` or `int(value)`, then struct.pack. */
  function EncodeAs(value: Json, dataType: Json, f32: Float32Format): (r: Result<seq<Word>, CodecError>)
    ensures !(dataType.JStr? && ParseDataType(dataType.s).Some?) ==> r == Err(UnsupportedType)
    ensures r.Ok? ==> dataType.JStr? && ParseDataType(dataType.s).Some?
                      && |r.value| == Width(ParseDataType(dataType.s).value)
    ensures dataType.JStr? && ParseDataType(dataType.s).Some? && IsInteger(ParseDataType(dataType.s).value) ==>
              var t := ParseDataType(dataType.s).value;
              (ToInt(value).Err? ==> r == Err(ConversionFailed))
              && (ToInt(value).Ok? ==> (r.Ok? <==> InRange(t, ToInt(value).value))
                                       && (r.Ok? ==> DecodeInt(t, r.value) == ToInt(value).value))
    ensures dataType.JStr? && ParseDataType(dataType.s).Some? && !IsInteger(ParseDataType(dataType.s).value) ==>
              (ToFloat(value).Err? ==> r == Err(ConversionFailed))
              && (ToFloat(value).Ok? ==> (r.Ok? <==> f32.pack(ToFloat(value).value).Some?)
                                         && (r.Ok? ==> DecodeFloat(r.value, f32)
                                                       == f32.unpack(f32.pack(ToFloat(value).value).value)))
  {
    if !dataType.JStr? then Err(UnsupportedType)
    else match ParseDataType(dataType.s)
      case None => Err(UnsupportedType)
      case Some(t) =>
        if IsInteger(t) then
          match ToInt(value)
          case Err(_) => Err(ConversionFailed)
          case Ok(v) =>
            if InRange(t, v) then IntRoundTrip(t, v); EncodeInt(t, v) else EncodeInt(t, v)
        else
          match ToFloat(value)
          case Err(_) => Err(ConversionFailed)
          case Ok(x) =>
            if f32.pack(x).Some? then FloatRoundTrip(x, f32); EncodeFloat(x, f32) else EncodeFloat(x, f32)
  }

  /** Words `EncodeAs` produced decode to `int(value)`, or to `unpack(pack(float(value)))`. */
  lemma EncodedValueDecodes(value: Json, t: DataType, f32: Float32Format, ws: seq<Word>)
    requires EncodeAs(value, JStr(TypeName(t)), f32) == Ok(ws)
    ensures |ws| == Width(t)
    ensures t == Int16 || t == Int16U || t == Int64 ==> DecodeWords(t, ws, f32) == IntValue(ToInt(value).value)
    ensures t == DateTime ==> DecodeWords(t, ws, f32) == Seconds(ToInt(value).value)
    ensures t == Float32 || t == QuadrantPF ==>
              DecodeWords(t, ws, f32) == FloatValue(f32.unpack(f32.pack(ToFloat(value).value).value))
  {
    assert ParseDataType(TypeName(t)) == Some(t);
    if IsInteger(t) {
      var r := DecodeWords(t, ws, f32);
      IntRoundTrip(t, if t == DateTime then r.n else r.i);
    }
  }

  /**
   * One definition within a cycle (`_generate_single_register` and the handler around it).
   * A dict is written or skipped; anything else makes the error handlers themselves raise,
   * which ends the cycle.
   */
  function SingleRegister(d: Json, e: Entropy, reg: Registry, platform: Platform): (r: Step)
    ensures r == Aborted <==> !d.JObject?
    ensures r.Written? ==> Target(d) == Some((r.address, |r.words|)) && Truthy(Get(d.fields, "generation", JNull))
    ensures d.JObject? && "address" !in d.fields ==> r == Skipped(MissingAddress)
    ensures d.JObject? && "address" in d.fields && !Truthy(Get(d.fields, "generation", JNull))
            ==> r == Skipped(NoGeneration)
    ensures r.Written? ==> GenerateValue(d.fields["generation"], e, reg, platform.sin).Ok?
                           && EncodeAs(GenerateValue(d.fields["generation"], e, reg, platform.sin).value,
                                       d.fields["data_type"], platform.float32) == Ok(r.words)
  {
    if !d.JObject? then Aborted
    else
      var m := d.fields;
      if "address" !in m then Skipped(MissingAddress)
      else if !Truthy(Get(m, "generation", JNull)) then Skipped(NoGeneration)
      else match GenerateValue(m["generation"], e, reg, platform.sin)
        case Err(why) => Skipped(why)
        case Ok(value) =>
          if "data_type" !in m then Skipped(MissingDataType)
          else match EncodeAs(value, m["data_type"], platform.float32)
            case Err(why) => Skipped(EncodeFailed(why))
            case Ok(words) =>
              match AsInt(m["address"])
              case None => Skipped(BadAddress)
              case Some(a) => Written(a, words)
  }

  /** The block, the number of definitions written, and whether the cycle was cut short. */
  datatype Pass = Pass(block: seq<Word>, count: nat, aborted: bool)

  /** Every write of a step sequence lies inside a block of the device's size. */
  predicate StepsFit(steps: seq<Step>) {
    forall i :: 0 <= i < |steps| && steps[i].Written? ==>
      0 <= steps[i].address && steps[i].address + |steps[i].words| <= BlockSize
  }

  /** The outcomes of a table's definitions, one entropy draw per definition. */
  function Steps(defs: seq<Json>, env: seq<Entropy>, reg: Registry, platform: Platform): (steps: seq<Step>)
    requires |env| == |defs|
    ensures |steps| == |defs|
    ensures forall i :: 0 <= i < |defs| ==> steps[i] == SingleRegister(defs[i], env[i], reg, platform)
    ensures TableFits(defs) ==> StepsFit(steps)
  {
    seq(|defs|, i requires 0 <= i < |defs| => SingleRegister(defs[i], env[i], reg, platform))
  }

  /**
   * The loop of `generate_registers`: the steps in order, each write a `setValues`, up to the
   * first step that ends the cycle. Writes that fit leave the block's size unchanged.
   */
  function ApplySteps(block: seq<Word>, steps: seq<Step>): (p: Pass)
    ensures p.count <= |steps|
    ensures |block| <= |p.block|
    ensures |block| == BlockSize && StepsFit(steps) ==> |p.block| == BlockSize
    decreases |steps|
  {
    if steps == [] then Pass(block, 0, false)
    else
      var n := |steps| - 1;
      assert StepsFit(steps) ==> StepsFit(steps[..n]) by {
        forall i | 0 <= i < n ensures steps[..n][i] == steps[i] { }
      }
      var p := ApplySteps(block, steps[..n]);
      if p.aborted then p
      else match steps[n]
        case Written(a, ws) => Pass(SliceAssign(p.block, a, ws), p.count + 1, false)
        case Skipped(_) => Pass(p.block, p.count, false)
        case Aborted => Pass(p.block, p.count, true)
  }

  /** What the gate at the top of `generate_registers` decides. */
  datatype Decision =
    | Refuse     // no definitions: report failure
    | Hold       // the interval has not elapsed: report success, change nothing
    | Run        // generate now

  function Gate(hasDefinitions: bool, lastUpdate: real, now: real, interval: int): (d: Decision)
    ensures d == Refuse <==> !hasDefinitions
    ensures d == Hold <==> hasDefinitions && lastUpdate != 0.0 && now - lastUpdate < interval as real
  {
    if lastUpdate == 0.0 || !hasDefinitions then
      if !hasDefinitions then Refuse else Run
    else if now - lastUpdate < interval as real then Hold
    else Run
  }

  /** The texts `get_register_value` returns instead of a value. */
  const ReaderMessages := Messages("Tipo desconocido", "Error: Error inesperado: ")

  /** The table a register file yields: the parsed list when it passes the loader, else empty. */
  predicate TableLoads(parsed: Json) {
    parsed.JList? && forall i :: 0 <= i < |parsed.items| ==> RegisterLoader.HasRequiredFields(parsed.items[i])
  }

  class MeterDataGenerator {
    const deviceId: int
    const updateInterval: int
    const registry: Registry
    const platform: Platform
    const definitions: seq<Json>
    /** The values of the device's `ModbusSequentialDataBlock`, a Python list. */
    var block: seq<Word>
    var lastUpdate: real

    /**
     * A device with a zeroed block. `registerFile` is the parsed register file, or None when
     * the file cannot be read or parsed; a table the loader refuses leaves the device empty.
     */
    constructor(deviceId: int, registerFile: Option<Json>, updateInterval: int, registry: Registry, platform: Platform)
      ensures |block| == BlockSize && forall k :: 0 <= k < |block| ==> block[k] == 0
      ensures lastUpdate == 0.0
      ensures registerFile.Some? && TableLoads(registerFile.value) ==> definitions == registerFile.value.items
      ensures !(registerFile.Some? && TableLoads(registerFile.value)) ==> definitions == []
      ensures this.deviceId == deviceId && this.updateInterval == updateInterval
      ensures this.registry == registry && this.platform == platform
    {
      var defs: seq<Json> := [];
      if registerFile.Some? {
        var loaded := RegisterLoader.LoadRegisterTable(registerFile.value);
        if loaded.Ok? {
          defs := loaded.value;
        }
      }
      this.deviceId := deviceId;
      this.updateInterval := updateInterval;
      this.registry := registry;
      this.platform := platform;
      definitions := defs;
      block := seq(BlockSize, _ => 0);
      lastUpdate := 0.0;
    }

    /**
     * One call of `generate_registers` at time `now`, with one entropy draw per definition.
     * Past the gate, the block becomes the pass's block; a completed pass stamps the time
     * and reports whether anything was written, a cut-short pass reports failure and keeps
     * the old time.
     */
    method GenerateRegisters(now: real, env: seq<Entropy>) returns (ok: bool)
      requires |env| == |definitions|
      modifies this
      ensures Gate(definitions != [], old(lastUpdate), now, updateInterval) == Refuse ==>
                !ok && block == old(block) && lastUpdate == old(lastUpdate)
      ensures Gate(definitions != [], old(lastUpdate), now, updateInterval) == Hold ==>
                ok && block == old(block) && lastUpdate == old(lastUpdate)
      ensures Gate(definitions != [], old(lastUpdate), now, updateInterval) == Run ==>
                var p := ApplySteps(old(block), Steps(definitions, env, registry, platform));
                block == p.block
                && (p.aborted ==> !ok && lastUpdate == old(lastUpdate))
                && (!p.aborted ==> ok == (p.count > 0) && lastUpdate == now)
    {
      if lastUpdate == 0.0 || definitions == [] {
        if definitions == [] {
          return false;
        }
      } else if now - lastUpdate < updateInterval as real {
        return true;
      }
      ghost var initial := block;
      ghost var steps := Steps(definitions, env, registry, platform);
      var successfulUpdates := 0;
      var i := 0;
      while i < |definitions|
        invariant 0 <= i <= |definitions|
        invariant lastUpdate == old(lastUpdate)
        invariant var p := ApplySteps(initial, steps[..i]);
                  block == p.block && successfulUpdates == p.count && !p.aborted
      {
        NextStep(initial, steps, i);
        match SingleRegister(definitions[i], env[i], registry, platform) {
          case Written(address, words) =>
            SetValues(address, words);
            successfulUpdates := successfulUpdates + 1;
          case Skipped(_) =>
          case Aborted =>
            AbortIsFinal(initial, steps, i + 1);
            return false;
        }
        i := i + 1;
      }
      assert steps[..i] == steps;
      lastUpdate := now;
      return successfulUpdates > 0;
    }

    /** `block.setValues(address, words)`. */
    method SetValues(address: int, words: seq<Word>)
      modifies this
      ensures block == SliceAssign(old(block), address, words)
      ensures lastUpdate == old(lastUpdate)
    {
      block := SliceAssign(block, address, words);
    }

    /** `get_register_value`: the typed read of the block, failures turned into text. */
    function GetRegisterValue(address: int, dataType: string): (r: Reading)
      reads this
      ensures ParseDataType(dataType).None? ==> r == Text("Tipo desconocido")
      ensures ParseDataType(dataType).Some? && 0 <= address && address + Width(ParseDataType(dataType).value) <= |block|
              ==> r == DecodeWords(ParseDataType(dataType).value,
                                   block[address..address + Width(ParseDataType(dataType).value)], platform.float32)
      ensures ParseDataType(dataType).Some? && 0 <= address && address + Width(ParseDataType(dataType).value) > |block|
              ==> r == Text("Error: Error inesperado: ")
    {
      ReadRegister(block, address, dataType, platform.float32, ReaderMessages)
    }
  }

  lemma PrefixFits(steps: seq<Step>, n: nat)
    requires StepsFit(steps) && n <= |steps|
    ensures StepsFit(steps[..n])
  {
    forall i | 0 <= i < n ensures steps[..n][i] == steps[i] { }
  }

  /** One more step of the pass: what `ApplySteps` does with the step after a prefix. */
  lemma NextStep(block: seq<Word>, steps: seq<Step>, i: nat)
    requires i < |steps|
    ensures var p, q := ApplySteps(block, steps[..i]), ApplySteps(block, steps[..i + 1]);
            (p.aborted ==> q == p)
            && (!p.aborted && steps[i].Written? ==>
                  q == Pass(SliceAssign(p.block, steps[i].address, steps[i].words), p.count + 1, false))
            && (!p.aborted && steps[i].Skipped? ==> q == Pass(p.block, p.count, false))
            && (!p.aborted && steps[i].Aborted? ==> q == Pass(p.block, p.count, true))
  {
    assert steps[..i + 1][..i] == steps[..i];
  }

  /** Once a prefix of the steps has cut the pass short, the remaining steps change nothing. */
  lemma {:induction false} AbortIsFinal(block: seq<Word>, steps: seq<Step>, n: nat)
    requires 0 < n <= |steps| && ApplySteps(block, steps[..n]).aborted
    ensures ApplySteps(block, steps) == ApplySteps(block, steps[..n])
    decreases |steps| - n
  {
    if n < |steps| {
      var m := |steps| - 1;
      assert steps[..m][..n] == steps[..n];
      AbortIsFinal(block, steps[..m], n);
    } else {
      assert steps[..n] == steps;
    }
  }
}
