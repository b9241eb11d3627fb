/**
 * The six value generators a register definition can name, and the registry that maps
 * their names to them. Randomness and the wall clock are inputs (an `Entropy` per call);
 * `math.sin` is a function value with the two properties the model relies on.
 */
module Generators {
  import opened Wrappers
  import opened PyValue

  /** A draw of `random.random()`. */
  type Unit = u: real | 0.0 <= u <= 1.0

  /** The sine function as far as the model depends on it. */
  type Sine = f: real -> real | f(0.0) == 0.0 && forall x :: -1.0 <= f(x) <= 1.0
    witness (x: real) => 0.0

  /** `math.pi` as a double. */
  const Pi: real := 3.141592653589793

  /** What one generator call may read from its environment: a uniform draw, an integer draw, the clock. */
  datatype Entropy = Entropy(u: Unit, pick: nat, clock: real)

  /** The registered generators; the sine generator keeps the clock reading taken when it was built. */
  datatype Generator = Uniform | Randint | Timestamp | Fixed | SineWave(epoch: real) | Noise

  datatype GenError =
    | TooFewParams                 // the explicit length checks raise ValueError
    | TooManyParams                // tuple unpacking of too many params raises ValueError
    | BadParams(cause: PyError)    // params of the wrong kind, or randint's empty range
    | UnknownGenerator(name: string, available: seq<string>)
    | NotAName                     // a type that is not a string: ValueError, or TypeError if unhashable

  /** The registry's keys, in insertion order. */
  const GeneratorNames: seq<string> := ["uniform", "randint", "timestamp", "fixed", "sine", "noise"]

  /** The registry holds one instance of each generator; only the sine one has state. */
  datatype Registry = Registry(sineEpoch: real)

  function NameOf(g: Generator): string {
    match g
    case Uniform => "uniform"
    case Randint => "randint"
    case Timestamp => "timestamp"
    case Fixed => "fixed"
    case SineWave(_) => "sine"
    case Noise => "noise"
  }

  /** `get_generator`: the registered instance, or an error listing the available names. */
  function GetGenerator(name: string, reg: Registry): (r: Result<Generator, GenError>)
    ensures r.Ok? <==> name in GeneratorNames
    ensures r.Ok? ==> NameOf(r.value) == name
    ensures r.Ok? && r.value.SineWave? ==> r.value.epoch == reg.sineEpoch
    ensures r.Err? ==> r.error == UnknownGenerator(name, GeneratorNames)
  {
    if name == "uniform" then Ok(Uniform)
    else if name == "randint" then Ok(Randint)
    else if name == "timestamp" then Ok(Timestamp)
    else if name == "fixed" then Ok(Fixed)
    else if name == "sine" then Ok(SineWave(reg.sineEpoch))
    else if name == "noise" then Ok(Noise)
    else Err(UnknownGenerator(name, GeneratorNames))
  }

  /** A generator of the registry is found again under its own name. */
  lemma GetGeneratorFindsEachInstance(g: Generator, reg: Registry)
    requires g.SineWave? ==> g.epoch == reg.sineEpoch
    ensures GetGenerator(NameOf(g), reg) == Ok(g)
  {
    match g
    case SineWave(_) =>
    case _ =>
  }

  // ----- random helpers -----

  /** `random.uniform(a, b)`, i.e. `a + (b - a) * random.random()`. */
  function RandomUniform(a: real, b: real, u: Unit): (r: real)
    ensures a <= b ==> a <= r <= b
    ensures b <= a ==> b <= r <= a
  {
    a + Scale(b - a, u)
  }

  /** A fraction u of the signed length d lies between 0 and d. */
  function Scale(d: real, u: Unit): (r: real)
    ensures d >= 0.0 ==> 0.0 <= r <= d
    ensures d <= 0.0 ==> d <= r <= 0.0
  {
    if d >= 0.0 then
      assert d - d * u == d * (1.0 - u);
      d * u
    else
      assert d * u - d == (-d) * (1.0 - u);
      d * u
  }

  /**
   * `random.randint(a, b)`: an integer of [a, b], which the draw chooses as an offset from a
   * (a draw past the range stands for b; only which outcomes are possible is modelled).
   */
  function RandomInt(a: int, b: int, pick: nat): (r: int)
    requires a <= b
    ensures a <= r <= b
  {
    if pick <= b - a then a + pick else b
  }

  /** Every integer of [a, b] is a possible outcome of `randint(a, b)`. */
  lemma RandomIntCoversRange(a: int, b: int, k: int)
    requires a <= k <= b
    ensures exists pick: nat :: RandomInt(a, b, pick) == k
  {
    assert RandomInt(a, b, k - a) == k;
  }

  // ----- the six generators -----

  /** UniformGenerator: at least two params; the first two must be numbers. */
  function GenerateUniform(params: Json, u: Unit): (r: Result<Json, GenError>)
    ensures Len(params).None? ==> r == Err(BadParams(TypeError))
    ensures Len(params).Some? && Len(params).value < 2 ==> r == Err(TooFewParams)
    ensures r.Ok? <==> params.JList? && |params.items| >= 2
                       && AsNumber(params.items[0]).Some? && AsNumber(params.items[1]).Some?
    ensures r.Ok? ==> r.value.JReal?
    ensures r.Ok? ==> var a, b := AsNumber(params.items[0]).value, AsNumber(params.items[1]).value;
                      (a <= b ==> a <= r.value.r <= b) && (b <= a ==> b <= r.value.r <= a)
  {
    match Len(params)
    case None => Err(BadParams(TypeError))
    case Some(n) =>
      if n < 2 then Err(TooFewParams)
      else match (Item(params, 0), Item(params, 1))
        case (Ok(x), Ok(y)) =>
          if AsNumber(x).Some? && AsNumber(y).Some? then Ok(JReal(RandomUniform(AsNumber(x).value, AsNumber(y).value, u)))
          else Err(BadParams(TypeError))
        case (Err(e), _) => Err(BadParams(e))
        case (_, Err(e)) => Err(BadParams(e))
  }

  /** RandintGenerator: at least two params; the first two must be integers with min <= max. */
  function GenerateRandint(params: Json, pick: nat): (r: Result<Json, GenError>)
    ensures Len(params).Some? && Len(params).value < 2 ==> r == Err(TooFewParams)
    ensures r.Ok? <==> params.JList? && |params.items| >= 2
                       && AsInt(params.items[0]).Some? && AsInt(params.items[1]).Some?
                       && AsInt(params.items[0]).value <= AsInt(params.items[1]).value
    ensures r.Ok? ==> r.value.JInt? && AsInt(params.items[0]).value <= r.value.i <= AsInt(params.items[1]).value
  {
    match Len(params)
    case None => Err(BadParams(TypeError))
    case Some(n) =>
      if n < 2 then Err(TooFewParams)
      else match (Item(params, 0), Item(params, 1))
        case (Ok(x), Ok(y)) =>
          if AsInt(x).None? || AsInt(y).None? then Err(BadParams(TypeError))
          else if AsInt(x).value > AsInt(y).value then Err(BadParams(ValueError))
          else Ok(JInt(RandomInt(AsInt(x).value, AsInt(y).value, pick)))
        case (Err(e), _) => Err(BadParams(e))
        case (_, Err(e)) => Err(BadParams(e))
  }

  /** TimestampGenerator: `int(time.time())`; the params are not looked at. */
  function GenerateTimestamp(clock: real): (r: Result<Json, GenError>)
    ensures r.Ok? && r.value.JInt?
    ensures clock >= 0.0 ==> r.value.i as real <= clock < r.value.i as real + 1.0
  {
    Ok(JInt(Trunc(clock)))
  }

  /** FixedGenerator: the first param as it is; an empty (falsy) params value is refused. */
  function GenerateFixed(params: Json): (r: Result<Json, GenError>)
    ensures !Truthy(params) ==> r == Err(TooFewParams)
    ensures params.JList? && params.items != [] ==> r == Ok(params.items[0])
    ensures r.Ok? <==> (params.JList? || params.JStr?) && Truthy(params)
  {
    if !Truthy(params) then Err(TooFewParams)
    else match Item(params, 0)
      case Ok(v) => Ok(v)
      case Err(e) => Err(BadParams(e))
  }

  /** The value `params` unpacks into n variables, when it is a list of n numbers. */
  function UnpackNumbers(params: Json, n: nat): (r: Result<seq<real>, GenError>)
    ensures r.Ok? <==> params.JList? && |params.items| == n
                       && forall k :: 0 <= k < n ==> AsNumber(params.items[k]).Some?
    ensures r.Ok? ==> |r.value| == n && forall k :: 0 <= k < n ==> r.value[k] == AsNumber(params.items[k]).value
    ensures Len(params).Some? && Len(params).value < n ==> r == Err(TooFewParams)
    ensures Len(params).Some? && Len(params).value > n ==> r == Err(TooManyParams)
  {
    match Len(params)
    case None => Err(BadParams(TypeError))
    case Some(len) =>
      if len < n then Err(TooFewParams)
      else if len > n then Err(TooManyParams)
      else if params.JList? && forall k :: 0 <= k < n ==> AsNumber(params.items[k]).Some? then
        Ok(seq(n, k requires 0 <= k < n => AsNumber(params.items[k]).value))
      else Err(BadParams(TypeError))
  }

  /** SineWaveGenerator: exactly [amplitude, frequency, phase, dc_offset]. */
  function GenerateSine(params: Json, epoch: real, clock: real, sin: Sine): (r: Result<Json, GenError>)
    ensures Len(params).Some? && Len(params).value < 4 ==> r == Err(TooFewParams)
    ensures Len(params).Some? && Len(params).value > 4 ==> r == Err(TooManyParams)
    ensures r.Ok? <==> UnpackNumbers(params, 4).Ok?
    ensures r.Ok? ==> (r.value.JReal? &&
      var amplitude, dc := UnpackNumbers(params, 4).value[0], UnpackNumbers(params, 4).value[3];
      dc - Abs(amplitude) <= r.value.r <= dc + Abs(amplitude))
  {
    match UnpackNumbers(params, 4)
    case Err(e) => Err(e)
    case Ok(p) =>
      var amplitude, frequency, phase, dc := p[0], p[1], p[2], p[3];
      Ok(JReal(Wave(amplitude, sin(Angle(frequency, phase, clock - epoch)), dc)))
  }

  /** The argument of the sine: `2 * pi * frequency * elapsed + phase`. */
  function Angle(frequency: real, phase: real, elapsed: real): (a: real)
    ensures frequency == 0.0 ==> a == phase
  {
    2.0 * Pi * frequency * elapsed + phase
  }

  function Abs(x: real): real {
    if x < 0.0 then -x else x
  }

  /** `amplitude * sin_value + dc_offset`: within |amplitude| of the offset, and the offset where the sine is 0. */
  function Wave(amplitude: real, s: real, dc: real): (r: real)
    requires -1.0 <= s <= 1.0
    ensures dc - Abs(amplitude) <= r <= dc + Abs(amplitude)
    ensures s == 0.0 ==> r == dc
  {
    ScaledBound(amplitude, s);
    amplitude * s + dc
  }

  /** A value of [-1, 1] scaled by a stays within |a| of 0. */
  lemma ScaledBound(a: real, s: real)
    requires -1.0 <= s <= 1.0
    ensures -Abs(a) <= a * s <= Abs(a)
    ensures s == 0.0 ==> a * s == 0.0
  {
    var m := Abs(a);
    var sign := if a < 0.0 then -1.0 else 1.0;
    assert a == m * sign;
    var t := sign * s;
    assert -1.0 <= t <= 1.0;
    assert a * s == m * t;
    ProductOfNonnegatives(m, 1.0 - t);
    ProductOfNonnegatives(m, 1.0 + t);
  }

  lemma ProductOfNonnegatives(x: real, y: real)
    requires 0.0 <= x && 0.0 <= y
    ensures 0.0 <= x * y
  {
  }

  /** NoiseGenerator: exactly [base, amplitude]; base plus a uniform draw from [-amplitude, amplitude]. */
  function GenerateNoise(params: Json, u: Unit): (r: Result<Json, GenError>)
    ensures Len(params).Some? && Len(params).value < 2 ==> r == Err(TooFewParams)
    ensures Len(params).Some? && Len(params).value > 2 ==> r == Err(TooManyParams)
    ensures r.Ok? <==> UnpackNumbers(params, 2).Ok?
    ensures r.Ok? ==> (r.value.JReal? &&
      var base, amplitude := UnpackNumbers(params, 2).value[0], UnpackNumbers(params, 2).value[1];
      base - Abs(amplitude) <= r.value.r <= base + Abs(amplitude))
  {
    match UnpackNumbers(params, 2)
    case Err(e) => Err(e)
    case Ok(p) =>
      var base, amplitude := p[0], p[1];
      Ok(JReal(base + RandomUniform(-amplitude, amplitude, u)))
  }

  /** `generator.generate(params)` for the generator the registry returned. */
  function Generate(g: Generator, params: Json, e: Entropy, sin: Sine): (r: Result<Json, GenError>)
    ensures g == Timestamp ==> r.Ok?
    ensures r.Ok? && (g.Uniform? || g.SineWave? || g.Noise?) ==> r.value.JReal?
    ensures r.Ok? && (g.Randint? || g.Timestamp?) ==> r.value.JInt?
    ensures g == Uniform ==> r == GenerateUniform(params, e.u)
    ensures g == Randint ==> r == GenerateRandint(params, e.pick)
    ensures g == Timestamp ==> r == GenerateTimestamp(e.clock)
    ensures g == Fixed ==> r == GenerateFixed(params)
    ensures g.SineWave? ==> r == GenerateSine(params, g.epoch, e.clock, sin)
    ensures g == Noise ==> r == GenerateNoise(params, e.u)
  {
    match g
    case Uniform => GenerateUniform(params, e.u)
    case Randint => GenerateRandint(params, e.pick)
    case Timestamp => GenerateTimestamp(e.clock)
    case Fixed => GenerateFixed(params)
    case SineWave(epoch) => GenerateSine(params, epoch, e.clock, sin)
    case Noise => GenerateNoise(params, e.u)
  }
}

/** The documented behaviour of individual generators, stated on concrete parameter lists. */
module GeneratorExamples {
  import opened Wrappers
  import opened PyValue
  import opened Generators

  /** With frequency 0 and phase 0 the wave is flat at its offset, whenever it is sampled. */
  lemma SineWithoutFrequencyIsOffset(params: Json, amplitude: real, dc: real, epoch: real, clock: real, sin: Sine)
    requires params == JList([JReal(amplitude), JReal(0.0), JReal(0.0), JReal(dc)])
    ensures GenerateSine(params, epoch, clock, sin) == Ok(JReal(dc))
  {
    var p := UnpackNumbers(params, 4).value;
    assert p[0] == amplitude && p[1] == 0.0 && p[2] == 0.0 && p[3] == dc;
    assert Angle(p[1], p[2], clock - epoch) == 0.0;
    assert sin(0.0) == 0.0;
  }

  /** `noise(100, 5)` stays within [95, 105]. */
  lemma NoiseAroundHundred(u: Unit)
    ensures GenerateNoise(JList([JReal(100.0), JReal(5.0)]), u).Ok?
    ensures 95.0 <= GenerateNoise(JList([JReal(100.0), JReal(5.0)]), u).value.r <= 105.0
  {
    var params := JList([JReal(100.0), JReal(5.0)]);
    assert UnpackNumbers(params, 2).Ok?;
    var p := UnpackNumbers(params, 2).value;
    assert p[0] == 100.0 && p[1] == 5.0;
  }

  /** `fixed` hands back its first parameter whatever its kind. */
  lemma FixedIsVerbatim(v: Json, rest: seq<Json>)
    ensures GenerateFixed(JList([v] + rest)) == Ok(v)
    ensures GenerateFixed(JList([])) == Err(TooFewParams)
  {
  }
}
