/**
 * The generator of `virtual_pm_CLI.py`, the program the package replaced. It walks the same
 * kind of table into the same kind of block with the same codec, but has no error handling:
 * an unknown generator or an empty `fixed` yields 0, values are packed without `int()` or
 * `float()`, and any exception ends the pass. Its outcomes are expressed as the new cycle's
 * steps, so the pass and its lemmas are shared.
 */
module LegacyMeter {
  import opened Wrappers
  import opened PyValue
  import opened WordCodec
  import opened Generators
  import opened DataBlock
  import opened MeterGenerator

  /** The branch of the if-chain on the generator type that a definition takes. */
  datatype Branch = UniformBranch | RandintBranch | TimestampBranch | FixedBranch | NoBranch

  function BranchOf(genType: Json, params: Json): (b: Branch)
    ensures b == NoBranch <==> !(genType.JStr? && genType.s in ["uniform", "randint", "timestamp", "fixed"])
                               || (genType == JStr("fixed") && !Truthy(params))
  {
    if genType == JStr("uniform") then UniformBranch
    else if genType == JStr("randint") then RandintBranch
    else if genType == JStr("timestamp") then TimestampBranch
    else if genType == JStr("fixed") && Truthy(params) then FixedBranch
    else NoBranch
  }

  /**
   * The value the if-chain picks: `uniform(*params)` and `randint(*params)` need exactly two
   * arguments, `timestamp` reads the clock, a truthy `fixed` takes `params[0]`, anything else
   * leaves the initial 0.
   */
  function LegacyValue(branch: Branch, params: Json, e: Entropy): (r: Result<Json, PyError>)
    ensures branch == UniformBranch ==> (r.Ok? <==> UnpackNumbers(params, 2).Ok?)
    ensures branch == UniformBranch && r.Ok? ==>
              var lo, hi := AsNumber(params.items[0]).value, AsNumber(params.items[1]).value;
              r.value.JReal? && ((lo <= r.value.r <= hi) || (hi <= r.value.r <= lo))
    ensures branch == RandintBranch ==>
              (r.Ok? <==> params.JList? && |params.items| == 2
                          && AsInt(params.items[0]).Some? && AsInt(params.items[1]).Some?
                          && AsInt(params.items[0]).value <= AsInt(params.items[1]).value)
    ensures branch == RandintBranch && r.Ok? ==>
              r.value.JInt? && AsInt(params.items[0]).value <= r.value.i <= AsInt(params.items[1]).value
    ensures branch == TimestampBranch ==> r.Ok? && r.value.JInt?
    ensures branch == FixedBranch ==> r == Item(params, 0)
    ensures branch == NoBranch ==> r == Ok(JInt(0))
  {
    match branch
    case UniformBranch =>
      (match UnpackNumbers(params, 2)
       case Ok(p) => Ok(JReal(RandomUniform(p[0], p[1], e.u)))
       case Err(_) => Err(TypeError))
    case RandintBranch =>
      if params.JList? && |params.items| == 2 && AsInt(params.items[0]).Some? && AsInt(params.items[1]).Some? then
        var a, b := AsInt(params.items[0]).value, AsInt(params.items[1]).value;
        if a <= b then Ok(JInt(RandomInt(a, b, e.pick))) else Err(ValueError)
      else Err(TypeError)
    case TimestampBranch => Ok(JInt(Trunc(e.clock)))
    case FixedBranch => Item(params, 0)
    case NoBranch => Ok(JInt(0))
  }

  /**
   * The registers the builder holds after the data-type chain: None when the type matches no
   * branch (nothing is written), an error when struct.pack refuses the value. The value is
   * packed as it is: the float types take any number, the integer types only an int, and
   * only DATETIME converts with `int(value)`.
   */
  function LegacyEncode(value: Json, dataType: Json, f32: Float32Format): (r: Result<Option<seq<Word>>, CodecError>)
    ensures !(dataType.JStr? && ParseDataType(dataType.s).Some?) ==> r == Ok(None)
    ensures r.Ok? && r.value.Some? ==> dataType.JStr? && ParseDataType(dataType.s).Some?
                                       && |r.value.value| == Width(ParseDataType(dataType.s).value)
    ensures dataType.JStr? && ParseDataType(dataType.s).Some? ==>
              var t := ParseDataType(dataType.s).value;
              (t == Int16 || t == Int16U || t == Int64 ==>
                 (r.Ok? <==> AsInt(value).Some? && InRange(t, AsInt(value).value)))
              && (t == DateTime ==> (r.Ok? <==> ToInt(value).Ok? && InRange(t, ToInt(value).value)))
              && (t == Float32 || t == QuadrantPF ==>
                    (r.Ok? <==> AsNumber(value).Some? && f32.pack(AsNumber(value).value).Some?))
  {
    if !dataType.JStr? then Ok(None)
    else match ParseDataType(dataType.s)
      case None => Ok(None)
      case Some(t) =>
        var packed :=
          if t == Float32 || t == QuadrantPF then
            (if AsNumber(value).Some? then EncodeFloat(AsNumber(value).value, f32) else Err(ConversionFailed))
          else if t == DateTime then
            (if ToInt(value).Ok? then EncodeInt(t, ToInt(value).value) else Err(ConversionFailed))
          else
            (if AsInt(value).Some? then EncodeInt(t, AsInt(value).value) else Err(ConversionFailed));
        match packed
        case Ok(ws) => Ok(Some(ws))
        case Err(why) => Err(why)
  }

  /**
   * One definition of the legacy loop, as a step of the shared pass: a write, a definition
   * passed over (no generation, or a type no branch packs), or an exception that ends the pass.
   */
  function LegacyStep(d: Json, e: Entropy, f32: Float32Format): (r: Step)
    ensures r.Written? ==> Target(d) == Some((r.address, |r.words|)) && Truthy(Get(d.fields, "generation", JNull))
    ensures !d.JObject? ==> r == Aborted
    ensures d.JObject? && "address" !in d.fields ==> r == Aborted
    ensures d.JObject? && "address" in d.fields && !Truthy(Get(d.fields, "generation", JNull))
            ==> r == Skipped(NoGeneration)
    ensures r.Skipped? ==> r.reason == NoGeneration || r.reason == EncodeFailed(UnsupportedType)
  {
    if !d.JObject? then Aborted
    else
      var m := d.fields;
      if "address" !in m then Aborted
      else if !Truthy(Get(m, "generation", JNull)) then Skipped(NoGeneration)
      else if !m["generation"].JObject? then Aborted
      else
        var g := m["generation"].fields;
        var params := Get(g, "params", JList([]));
        match LegacyValue(BranchOf(Get(g, "type", JStr("fixed")), params), params, e)
        case Err(_) => Aborted
        case Ok(value) =>
          if "data_type" !in m then Aborted
          else match LegacyEncode(value, m["data_type"], f32)
            case Err(_) => Aborted
            case Ok(None) => Skipped(EncodeFailed(UnsupportedType))
            case Ok(Some(words)) =>
              match AsInt(m["address"])
              case None => Aborted
              case Some(a) => Written(a, words)
  }

  function LegacySteps(defs: seq<Json>, env: seq<Entropy>, f32: Float32Format): (steps: seq<Step>)
    requires |env| == |defs|
    ensures |steps| == |defs|
    ensures forall i :: 0 <= i < |defs| ==> steps[i] == LegacyStep(defs[i], env[i], f32)
    ensures TableFits(defs) ==> StepsFit(steps)
  {
    seq(|defs|, i requires 0 <= i < |defs| => LegacyStep(defs[i], env[i], f32))
  }

  /**
   * Iterating a parsed file that is not a list: a dict yields its keys and a string its
   * characters, and the first of them raises at `reg_def["address"]`; anything else is not
   * iterable. So the loop ends normally only on an empty dict or an empty string.
   */
  predicate IteratesToNothing(parsed: Json) {
    parsed == JObject(map[]) || parsed == JStr("")
  }

  /** The texts `decode_register_value` returns instead of a value. */
  const LegacyMessages := Messages("Unknown type", "Unexpected Error: ")

  /** `decode_register_value(block, address, data_type)`: a typed read, failures turned into text. */
  function DecodeRegisterValue(block: seq<Word>, address: int, dataType: string, f32: Float32Format): (r: Reading)
    ensures ParseDataType(dataType).None? ==> r == Text("Unknown type")
    ensures ParseDataType(dataType).Some? && 0 <= address && address + Width(ParseDataType(dataType).value) <= |block|
            ==> r == DecodeWords(ParseDataType(dataType).value,
                                 block[address..address + Width(ParseDataType(dataType).value)], f32)
    ensures ParseDataType(dataType).Some? && 0 <= address && address + Width(ParseDataType(dataType).value) > |block|
            ==> r == Text("Unexpected Error: ")
  {
    ReadRegister(block, address, dataType, f32, LegacyMessages)
  }

  class LegacyMeterDataGenerator {
    const deviceId: int
    const definitions: Json
    const platform: Platform
    /** The values of the device's `ModbusSequentialDataBlock`, a Python list. */
    var block: seq<Word>

    /** A device over the parsed register file, with a zeroed block. */
    constructor(deviceId: int, registerFile: Json, platform: Platform)
      ensures |block| == BlockSize && forall k :: 0 <= k < |block| ==> block[k] == 0
      ensures definitions == registerFile
      ensures this.deviceId == deviceId && this.platform == platform
    {
      this.deviceId := deviceId;
      definitions := registerFile;
      this.platform := platform;
      block := seq(BlockSize, _ => 0);
    }

    /**
     * One call of `generate_registers`, one entropy draw per definition; `completed` is false
     * when the call ends in an exception, with the writes made before it kept.
     */
    method GenerateRegisters(env: seq<Entropy>) returns (completed: bool)
      requires definitions.JList? ==> |env| == |definitions.items|
      modifies this
      ensures definitions.JList? ==>
                var p := ApplySteps(old(block), LegacySteps(definitions.items, env, platform.float32));
                block == p.block && completed == !p.aborted
      ensures !definitions.JList? ==> block == old(block) && completed == IteratesToNothing(definitions)
    {
      if !definitions.JList? {
        return IteratesToNothing(definitions);
      }
      completed := WriteTable(definitions.items, env);
    }

    /** The loop over a list table: each definition in turn, up to the first exception. */
    method WriteTable(defs: seq<Json>, env: seq<Entropy>) returns (completed: bool)
      requires |env| == |defs|
      modifies this
      ensures var p := ApplySteps(old(block), LegacySteps(defs, env, platform.float32));
              block == p.block && completed == !p.aborted
    {
      ghost var initial := block;
      ghost var steps := LegacySteps(defs, env, platform.float32);
      var i := 0;
      while i < |defs|
        invariant 0 <= i <= |defs|
        invariant var p := ApplySteps(initial, steps[..i]);
                  block == p.block && !p.aborted
      {
        NextStep(initial, steps, i);
        match LegacyStep(defs[i], env[i], platform.float32) {
          case Written(address, words) =>
            SetValues(address, words);
          case Skipped(_) =>
          case Aborted =>
            AbortIsFinal(initial, steps, i + 1);
            return false;
        }
        i := i + 1;
      }
      assert steps[..i] == steps;
      return true;
    }

    /** `self.block.setValues(address, words)`. */
    method SetValues(address: int, words: seq<Word>)
      modifies this
      ensures block == SliceAssign(old(block), address, words)
    {
      block := SliceAssign(block, address, words);
    }
  }
}
