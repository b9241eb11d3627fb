# Virtual power meter: the register engine

This project models the core of a virtual power meter. The meter is a simulated Modbus
device that holds its values in a 5000-word block of 16-bit registers. The model covers:

- **The register table loader.** It turns a parsed JSON file into a list of register
  definitions. A definition has an address, a data type, a description and an optional
  generation entry. The model has the strict shape check and the lenient validator.
- **The six value generators** (`uniform`, `randint`, `timestamp`, `fixed`, `sine`, `noise`)
  and the registry that finds a generator by name. Randomness and the wall clock are inputs:
  each call receives an `Entropy` value. `math.sin` is a function value that is 0 at 0 and
  stays in [-1, 1].
- **The word codec.** A value is packed big-endian into bytes, paired into registers
  (first byte high) and stored least significant word first. It supports the types
  FLOAT32, 4Q_FP_PF, INT16, INT16U, INT64 and DATETIME. IEEE single precision is an input
  `Float32Format(pack, unpack)`; `pack` returns None where packing overflows.
- **`MeterDataGenerator`.** It is a class whose fields are the block and the time of the
  last update. The block is the Python list inside pymodbus's `ModbusSequentialDataBlock`,
  so a write is a slice assignment: inside the 5000 words it overwrites, past the end it
  appends. The methods are:
  - `GenerateRegisters` runs one generation cycle;
  - `SetValues` writes registers;
  - `GetRegisterValue` is the typed read, with failures turned into text.
  
  The cycle is specified by a function on values. `Steps` gives the outcome of each
  definition and `ApplySteps` folds those outcomes over the block. The lemmas about the
  cycle are stated against these two functions.
- **The legacy generator of `virtual_pm_CLI.py`.** This is the program the package
  replaced. Its outcomes are expressed as steps of the same fold, so its lemmas are shared.
  `LegacyComparison` states, definition by definition, where the two generators agree and
  where they differ.

The model keeps two behaviours of the source as written. Both can surprise a reader of
its documentation:

- **A table element that is not a dict ends the whole cycle.** The handler inside
  `_generate_single_register` refers to `address` before it is bound. The loop's own
  handler then calls `.get` on the element. The second exception reaches the outer handler,
  so the cycle reports failure and the update time is not stamped (`PassAbortsIffNonDict`).
  A dict that fails in any other way is only skipped.
- **The strict loader's `field in register` is Python's `in`.** For a string this is a
  substring test and for a list it is a membership test. A string or a list that mentions
  the three field names therefore passes the loader (`StrictCheckAdmitsStrings`,
  `StrictCheckAdmitsLists`). It then ends the cycle (`StringElementEndsCycle`).

## Model

| member | source | states |
|---|---|---|
| PyValue.Len | src/data_generation/generators.py:24 | `len` is defined exactly on strings, lists and dicts, and is 0 exactly when the value is falsy |
| PyValue.Item | src/data_generation/generators.py:51 | `params[0]` is the first element of a non-empty list and succeeds only on a long enough list or string |
| PyValue.Get | src/data_generation/meter_generator.py:124-125 | `dict.get` gives the stored value for a present key and the default for an absent one |
| PyValue.AsInt | src/data_generation/register_loader.py:70 | `isinstance(x, int)` holds exactly for ints and bools, and an int keeps its value |
| PyValue.AsNumber | src/data_generation/generators.py:26 | the numbers are exactly ints, bools and floats; an integer's value is carried over unchanged |
| PyValue.Trunc | src/data_generation/generators.py:42 | `int()` of a float truncates toward zero: at most 1 below a non-negative value, at most 1 above a negative one |
| PyValue.ParseInt | src/data_generation/meter_generator.py:138 | `int()` accepts only an optional sign followed by one or more digits; a digit string is its decimal value, and `-` or `+` before digits negates or keeps it |
| PyValue.IntTextRoundTrip | src/data_generation/meter_generator.py:138 | `int(str(n)) == n` for every integer n |
| PyValue.ParseReal | src/data_generation/meter_generator.py:136 | `float()` of an integer literal is the value `int()` gives it; an accepted string starts with a digit, a sign or a '.', has only digits and '.' after that, and holds at most one '.' |
| PyValue.DecimalValue | src/data_generation/meter_generator.py:136 | the digits after the point add less than one to the whole part, and nothing when there are none |
| PyValue.DecimalLiteral | src/data_generation/meter_generator.py:136 | `float("w.f")` of digit strings is w plus f over ten to the length of f |
| PyValue.NegativeDecimalLiteral | src/data_generation/meter_generator.py:136 | `float("-w.f")` of digit strings is the negation of `float("w.f")` |
| PyValue.ParseRealSignedExample | src/data_generation/meter_generator.py:136 | `float("-2.5")` is -2.5 |
| PyValue.ToInt | src/data_generation/meter_generator.py:138-144 | `int(x)` keeps ints and bools and truncates floats; of a string it succeeds exactly when the string parses, with that value, and raises ValueError otherwise; it raises TypeError on None, lists and dicts |
| PyValue.ToFloat | src/data_generation/meter_generator.py:136 | `float(x)` keeps numbers and agrees with `int(x)` on every non-float input `int` accepts; of a string it succeeds exactly when the string parses as a decimal, and raises ValueError otherwise; it raises TypeError on None, lists and dicts |
| PyValue.ConversionExamples | src/data_generation/meter_generator.py:136-144 | `int("-7")` is -7, while `int("2.5")` and `float("x")` raise ValueError |
| PyValue.Contains | src/data_generation/register_loader.py:38 | `key in x` is key membership for a dict, a substring test for a string, element equality for a list, and TypeError otherwise |
| WordCodec.ParseDataType | src/data_generation/meter_generator.py:135-147 | a data type is recognised exactly when it is one of the six supported names, and `TypeName` inverts the recognition |
| WordCodec.Width | src/data_generation/meter_generator.py:189-214 | INT16 and INT16U take 1 register, the float types 2, INT64 and DATETIME 4 (each in both directions) |
| WordCodec.ValueOfBytes | src/data_generation/meter_generator.py:76 | the big-endian bytes of x read back as x |
| WordCodec.BytesOfValue | src/data_generation/meter_generator.py:76 | every byte string is the big-endian image of its own value |
| WordCodec.UnpackPack | src/data_generation/meter_generator.py:76 | pairing bytes into registers and splitting them again gives the bytes back |
| WordCodec.PackUnpack | src/data_generation/meter_generator.py:76 | splitting registers into bytes and pairing them again gives the registers back |
| WordCodec.Reverse | src/data_generation/meter_generator.py:76 | little word order: register k of the result is register n-1-k of the input |
| WordCodec.DecodeEncodeUnsigned | src/data_generation/meter_generator.py:189-194 | decoding the registers of an unsigned value gives the value back |
| WordCodec.EncodeDecodeUnsigned | src/data_generation/meter_generator.py:189-194 | every register sequence is the encoding of the value it decodes to |
| WordCodec.LeastSignificantWordFirst | src/data_generation/meter_generator.py:76 | the first register holds the low 16 bits and the rest encode x / 2^16 |
| WordCodec.EncodeInt | src/data_generation/meter_generator.py:137-144 | packing succeeds exactly for values in the range of `h`, `H`, `q` or `Q`, gives the type's width, and fails with OutOfRange otherwise |
| WordCodec.DecodeInt | src/data_generation/meter_generator.py:195-218 | a decoded integer is always within its type's range |
| WordCodec.IntRoundTrip | src/data_generation/meter_generator.py:137-144 | every in-range integer encodes, and decodes back to itself |
| WordCodec.IntWordsRoundTrip | src/data_generation/meter_generator.py:195-218 | every register pattern of the type's width is the encoding of the integer it decodes to |
| WordCodec.EncodeFloat | src/data_generation/meter_generator.py:136 | packing a float succeeds exactly when float32 packing does, and gives 2 registers |
| WordCodec.FloatRoundTrip | src/data_generation/meter_generator.py:189-194 | the float32 bit pattern survives the registers: decoding gives `unpack(pack(x))`, the float32 value `pack` gives the input |
| Generators.GetGenerator | src/data_generation/generators.py:105-122 | a generator is found exactly for the six registry names, under that name; the sine instance keeps the registry's epoch; any other name fails with the name and the list of available names |
| Generators.GetGeneratorFindsEachInstance | src/data_generation/generators.py:95-102 | each registered instance is returned under its own name |
| Generators.RandomUniform | src/data_generation/generators.py:26 | `random.uniform(a, b)` lies between a and b, in either order |
| Generators.RandomInt | src/data_generation/generators.py:35 | `random.randint(a, b)` lies in [a, b] |
| Generators.RandomIntCoversRange | src/data_generation/generators.py:35 | every integer of [a, b] is a possible outcome of `randint(a, b)` |
| Generators.GenerateUniform | src/data_generation/generators.py:20-26 | fewer than two params raise; the call succeeds exactly for a list whose first two items are numbers, and the value lies between them |
| Generators.GenerateRandint | src/data_generation/generators.py:29-35 | fewer than two params raise; the call succeeds exactly for a list whose first two items are integers with min <= max, and the value is an integer between them |
| Generators.GenerateTimestamp | src/data_generation/generators.py:38-42 | the call always gives an int, the whole seconds of the clock |
| Generators.GenerateFixed | src/data_generation/generators.py:45-51 | falsy params raise; a non-empty list gives its first item; the call succeeds exactly for a truthy list or string |
| Generators.UnpackNumbers | src/data_generation/generators.py:70 | too few or too many params raise; unpacking succeeds exactly for a list of n numbers and keeps their order |
| Generators.GenerateSine | src/data_generation/generators.py:54-76 | fewer or more than four params raise; the call succeeds exactly for four numbers, and the value stays within abs(amplitude) of the dc offset |
| Generators.Angle | src/data_generation/generators.py:75 | with frequency 0 the sine's argument is the phase, at any time |
| Generators.Wave | src/data_generation/generators.py:75 | `amplitude * s + dc` stays within abs(amplitude) of dc, and equals dc where the sine is 0 |
| Generators.GenerateNoise | src/data_generation/generators.py:79-91 | params other than two raise; the call succeeds exactly for two numbers, and the value stays within abs(amplitude) of the base |
| Generators.Generate | src/data_generation/meter_generator.py:128-129 | each generator's result is exactly its own generator function's (`GenerateUniform`, `GenerateRandint`, `GenerateTimestamp`, `GenerateFixed`, `GenerateSine`, `GenerateNoise`), so it carries that function's bounds; `uniform`, `sine` and `noise` give floats, `randint` and `timestamp` give ints, and the timestamp generator cannot fail, whatever its params |
| GeneratorExamples.SineWithoutFrequencyIsOffset | src/data_generation/generators.py:75 | with frequency 0 and phase 0 the sine generator gives its dc offset at every time |
| GeneratorExamples.NoiseAroundHundred | src/data_generation/generators.py:89-91 | `noise(100, 5)` succeeds and stays within [95, 105] |
| GeneratorExamples.FixedIsVerbatim | src/data_generation/generators.py:48-51 | `fixed` returns its first param as it is, and refuses an empty list |
| RegisterLoader.LoadRegisterTable | src/data_generation/register_loader.py:32-41 | anything but a list is refused; the table loads exactly when every element has the three required fields, and the loaded list is the parsed list; a refusal names the first offending element |
| RegisterLoader.ValidateRegisterDefinition | src/data_generation/register_loader.py:47-73 | a definition is valid exactly when it has the three fields, a supported type name and a non-negative integer address; a missing field makes it invalid |
| RegisterLoader.ValidDefinitionHasRequiredFields | src/data_generation/register_loader.py:57-62 | a definition the validator accepts also passes the loader |
| RegisterLoader.StrictCheckIgnoresTypeAndAddress | src/data_generation/register_loader.py:35-39 | the loader accepts an unknown type and a negative address that the validator refuses |
| RegisterLoader.StrictCheckAdmitsStrings | src/data_generation/register_loader.py:38 | a string that mentions the three field names passes the loader's check |
| RegisterLoader.StrictCheckAdmitsLists | src/data_generation/register_loader.py:38 | a list of the three field names passes the loader's check |
| DataBlock.Overwrite | src/data_generation/meter_generator.py:152 | an overwrite changes only the covered range, and that range then holds the words |
| DataBlock.SliceAssign | src/data_generation/meter_generator.py:152 | `setValues` is list slice assignment: a range inside the block is overwritten, a write at or past the end appends the words, a write straddling the end replaces the tail and grows the block, a negative address whose range stays negative counts from the end, a negative address whose range reaches 0 inserts the words before the addressed word when they are no more than the block holds, and the block never shrinks |
| DataBlock.Target | src/data_generation/meter_generator.py:117 | only a dict with an address and a data type is ever written |
| DataBlock.DecodeWords | src/data_generation/meter_generator.py:188-219 | the integer decoders give the value whose encoding is those registers; the float decoders give the float32 value of the registers |
| DataBlock.GetValues | src/data_generation/meter_generator.py:190 | a read inside the block gives exactly those registers; a read running past the end gives fewer registers than asked for, namely the tail from the address; a negative range counts from the end, and a negative address whose range reaches 0 gives no registers when fewer than the block's length are asked for |
| DataBlock.ReadRegister | src/data_generation/meter_generator.py:188-225 | an unknown type name gives the unknown-type text; a read inside the block decodes those registers; a read past the end gives the failure text |
| DataBlock.ReadAfterWriteInt | src/data_generation/meter_generator.py:195-218 | an integer written with its type reads back as itself |
| DataBlock.ReadAfterWriteFloat | src/data_generation/meter_generator.py:189-194 | a float x written with a float type reads back as `unpack(pack(x))` |
| MeterGenerator.GenerateValue | src/data_generation/meter_generator.py:118-129 | a generation entry that is not a dict, or whose type names no generator, fails; otherwise the value is exactly what the named generator (default `fixed`) gives for the entry's params (default []), and the call fails exactly when that generator fails; `timestamp` always succeeds |
| MeterGenerator.EncodeAs | src/data_generation/meter_generator.py:132-147 | an unsupported type is refused; an integer type encodes `int(value)` exactly when it is in range and decodes back to it; a float type encodes `float(value)` exactly when float32 packing succeeds and decodes to its float32 value |
| MeterGenerator.EncodedValueDecodes | src/data_generation/meter_generator.py:135-147 | the encoded registers have the type's width and decode to `int(value)` or to `unpack(pack(float(value)))` |
| MeterGenerator.SingleRegister | src/data_generation/meter_generator.py:103-158 | only a non-dict ends the cycle; a missing address or generation skips; a write goes to the definition's address with the type's width, holding the encoding of the generated value |
| MeterGenerator.Steps | src/data_generation/meter_generator.py:79-81 | there is one outcome per definition, each definition's own; a table whose definitions with a generation entry all lie inside the block gives writes inside the block |
| MeterGenerator.ApplySteps | src/data_generation/meter_generator.py:79-97 | the block never shrinks and keeps its 5000 words when every write fits inside it; the write count never exceeds the number of definitions |
| MeterGenerator.Gate | src/data_generation/meter_generator.py:66-74 | the cycle is refused exactly when there are no definitions, and held exactly when the device has run before and the interval has not elapsed |
| MeterGenerator.MeterDataGenerator.constructor | src/data_generation/meter_generator.py:25-53 | the block is 5000 zero words and the update time is 0; the definitions are the loaded table, or empty when the file is missing or the loader refuses it |
| MeterGenerator.MeterDataGenerator.GenerateRegisters | src/data_generation/meter_generator.py:55-101 | a refused cycle fails and a held cycle succeeds, both without changing anything; a cycle that runs leaves the block of the fold; a cycle cut short fails without stamping the time; a completed cycle stamps the time and succeeds exactly when something was written |
| MeterGenerator.MeterDataGenerator.SetValues | src/data_generation/meter_generator.py:150-153 | the block becomes the slice assignment of the words at the address, and the update time is unchanged |
| MeterGenerator.MeterDataGenerator.GetRegisterValue | src/data_generation/meter_generator.py:160-175 | an unknown type gives "Tipo desconocido"; a read inside the block decodes the registers at the address; a read running past the end gives the failure text |
| MeterGenerator.NextStep | src/data_generation/meter_generator.py:79-88 | each loop iteration extends the fold by one step: a write overwrites and counts, a skip changes nothing, a non-dict cuts the cycle short |
| MeterGenerator.AbortIsFinal | src/data_generation/meter_generator.py:99-101 | once the cycle is cut short, the later definitions change nothing |
| MeterCycle.PassAbortsIffAbortedStep | src/data_generation/meter_generator.py:99-101 | a cycle is cut short exactly when one of its steps ends it |
| MeterCycle.PassAbortsIffNonDict | src/data_generation/meter_generator.py:84-88 | a cycle is cut short exactly when the table holds an element that is not a dict |
| MeterCycle.PassCountsWrites | src/data_generation/meter_generator.py:92-97 | a completed cycle succeeds exactly when at least one definition was written |
| MeterCycle.UntouchedWordsKeep | src/data_generation/meter_generator.py:150-153 | a word no definition writes keeps its value through the cycle |
| MeterCycle.LastWriterWins | src/data_generation/meter_generator.py:79-83 | a word holds what the last definition covering it wrote |
| MeterCycle.WrittenStepReadsBack | src/data_generation/meter_generator.py:188-219 | a written register that no later definition overlaps reads back as the decoding of its own registers |
| MeterCycle.GeneratedValueReadsBack | src/data_generation/meter_generator.py:127-153 | such a register reads back as its generated value: `int(value)` for the integer types, `unpack(pack(float(value)))` for the float types |
| MeterCycle.GateCadence | src/data_generation/meter_generator.py:66-74 | the first call runs, a call within the interval holds, a call after it runs again, and a device without definitions refuses |
| MeterCycleExamples.DefinitionStep | src/data_generation/meter_generator.py:116-153 | a definition with a generation entry is generated, then encoded, then written at its address, or skipped with the first failure |
| MeterCycleExamples.FixedGenerates | src/data_generation/generators.py:48-51 | a `fixed` entry with one param generates that param |
| MeterCycleExamples.TwoRegistersLoad | tests/test_integration.py:75-88 | the two-register table (FLOAT32 at 1000, INT16 at 1002) passes the loader and fits the block |
| MeterCycleExamples.DefinitionLoads | src/data_generation/register_loader.py:35-39 | a definition with the four fields passes the loader and targets its address with its type's width |
| MeterCycleExamples.FloatRegisterWritten | tests/test_integration.py:76-81 | the FLOAT32 register generates 42.0 and is written at 1000 |
| MeterCycleExamples.IntRegisterWritten | tests/test_integration.py:82-87 | the INT16 register generates 100 and is written at 1002 |
| MeterCycleExamples.TwoRegistersReadBack | tests/test_integration.py:119-131 | after one cycle both registers are written; 1002 reads 100 and 1000 reads `unpack(pack(42.0))` |
| MeterCycleExamples.UnknownGeneratorSkips | src/data_generation/generators.py:118-120 | an unknown generator type skips the register, with the available names |
| MeterCycleExamples.SpareDefinitionPastEnd | src/data_generation/meter_generator.py:117-121 | a definition at 6000 without a generation entry is skipped, and a table of it still counts as fitting |
| MeterCycleExamples.Int16Written | src/data_generation/meter_generator.py:116-153 | an INT16 `fixed` definition with an in-range value is written at its address as that value's encoding |
| MeterCycleExamples.PastEndWriteAppends | src/data_generation/meter_generator.py:150-153 | a generated INT16 at 6000 is appended to the 5000-word block: the cycle counts it, a read at 6000 fails, and the new word 5000 reads 7 |
| MeterCycleExamples.UnsupportedTypeSkips | src/data_generation/meter_generator.py:145-147 | an unsupported data type skips the register after generation |
| MeterCycleExamples.OutOfRangeSkips | src/data_generation/meter_generator.py:139-140 | 70000 for an INT16U register skips it instead of wrapping |
| MeterCycleExamples.StringElementEndsCycle | src/data_generation/meter_generator.py:84-88 | a string element that passes the loader cuts the cycle short |
| MeterScenario.GenerateAndRead | tests/test_integration.py:119-126 | a device built on a table that loads generates once; its result and its two reads are those of the fold from the zero block; a cycle cut short reports failure, and a completed one succeeds exactly when it wrote something |
| MeterScenario.ReadBackScenario | tests/test_integration.py:119-131 | through the device object, generation succeeds; 1000 reads `unpack(pack(42.0))` and 1002 reads 100 |
| LegacyMeter.BranchOf | virtual_pm_CLI.py:188-195 | a definition takes no branch exactly when its type is none of the four names, or it is `fixed` with empty params |
| LegacyMeter.LegacyValue | virtual_pm_CLI.py:184-195 | `uniform` needs exactly two numbers and gives a value between them; `randint` needs exactly two ordered integers and gives one between them; `timestamp` gives an int; `fixed` gives `params[0]`; no branch gives 0 |
| LegacyMeter.LegacyEncode | virtual_pm_CLI.py:197-209 | an unknown type writes nothing; integer types pack only in-range ints; DATETIME packs `int(value)`; float types pack any number that fits float32 |
| LegacyMeter.LegacyStep | virtual_pm_CLI.py:177-213 | a non-dict or a missing address ends the pass; a missing generation skips; only an unknown type otherwise skips; a write goes to the definition's target |
| LegacyMeter.LegacySteps | virtual_pm_CLI.py:177 | there is one outcome per definition, each definition's own; a table whose definitions with a generation entry all lie inside the block gives writes inside the block |
| LegacyMeter.DecodeRegisterValue | virtual_pm_CLI.py:100-141 | an unknown type gives "Unknown type"; a read inside the block decodes the registers; a read past the end gives "Unexpected Error: ", because the short-buffer `struct.error` reaches the generic handler |
| LegacyMeter.LegacyMeterDataGenerator.constructor | virtual_pm_CLI.py:167-171 | the block is 5000 zero words and the definitions are the parsed file |
| LegacyMeter.LegacyMeterDataGenerator.GenerateRegisters | virtual_pm_CLI.py:173-213 | a list table leaves the block of the legacy fold and completes exactly when no step raised; any other value changes nothing and completes exactly when it is an empty dict or an empty string |
| LegacyMeter.LegacyMeterDataGenerator.WriteTable | virtual_pm_CLI.py:177-213 | the loop leaves the block of the legacy fold, with the writes made before an exception kept |
| LegacyMeter.LegacyMeterDataGenerator.SetValues | virtual_pm_CLI.py:213 | the block becomes the slice assignment of the words at the address |
| LegacyComparison.LegacyDefinitionStep | virtual_pm_CLI.py:177-213 | a legacy definition raises if its value or its packing fails, skips for an unknown type, and otherwise writes at its address |
| LegacyComparison.NewDefinitionStep | src/data_generation/meter_generator.py:116-153 | the package's step for such a definition: skipped with the generation failure, skipped with the encoding failure, or written at its address with the encoded value |
| LegacyComparison.FixedIntegerAgrees | virtual_pm_CLI.py:194-209 | with an integer `fixed` value both versions write exactly together, the same words at the same address |
| LegacyComparison.UnknownGeneratorWritesZero | virtual_pm_CLI.py:184-195 | an unknown generator type writes 0 in the legacy loop and is skipped by the package |
| LegacyComparison.EmptyFixedWritesZero | virtual_pm_CLI.py:194-195 | `fixed` with no params writes 0 in the legacy loop and is skipped by the package |
| LegacyComparison.LegacyWritesZero | virtual_pm_CLI.py:184 | a definition that takes no branch writes the initial 0 |
| LegacyComparison.OutOfRangeEndsLegacyPass | virtual_pm_CLI.py:205 | an out-of-range INT16U value ends the legacy pass and is skipped by the package |
| LegacyComparison.FloatIntoIntegerRegister | virtual_pm_CLI.py:203 | a float for an INT16 register ends the legacy pass; the package writes it truncated toward zero |
| LegacyComparison.LegacyFixedStep | virtual_pm_CLI.py:194-195 | a legacy `fixed` entry with a param packs `params[0]` as it is |
| LegacyComparison.NewFixedStep | src/data_generation/generators.py:48-51 | the package's `fixed` entry with a param converts and encodes `params[0]` |

## Left out

- The device lock (`threading.Lock`) is not modelled. The model is sequential, and each
  call to the device is atomic.
- Reading the register file (`open`, `json.load`, FileNotFoundError and JSON syntax errors)
  is not modelled. The constructors take the parsed value, and the package's constructor
  takes None for a file that cannot be read or parsed.
- Console output is not modelled (the progress and error `print`s). Neither are
  `print_all_registers` and the statistics helpers, which only report.
- `server.py`, the web interface, the command-line parser and `run_modbus_server` are not
  part of this model. Neither is the legacy `parse_json_register_table`, which only reads
  a file.
- WordCodec.EncodeFloat: IEEE 754 single-precision rounding and overflow are inputs
  (`Float32Format`), not computed. Only the treatment of the bit pattern is proved.
- Python floats (IEEE doubles) are reals throughout the model. This covers JSON floats
  (`JReal`), `float(value)` in the encoder, the arithmetic of `random.uniform`, the noise
  sum and the sine formula. Double rounding is not modelled, so a bound such as
  `base - amplitude <= v <= base + amplitude` holds over the reals and ignores the
  rounding of `base + amplitude`. Float32 rounding is the only rounding in the model, and
  it is an input.
- Generators.GenerateSine: `math.sin` is an input known only to be 0 at 0 and within
  [-1, 1]. Floating-point rounding of the formula is not modelled, so values are reals.
- Generators.RandomInt: the distribution of `random.randint` is not modelled. Only the
  set of possible outcomes is, through the `pick` input.
- Generators.RandomUniform: the distribution of `random.uniform` is not modelled. Only
  its range is, through the `u` input.
- PyValue.ParseInt: the string literals `int()` accepts are limited to an optional sign and
  ASCII digits, as for PyValue.ToInt below.
- PyValue.ParseReal: the string literals `float()` accepts are limited to plain decimals,
  as for PyValue.ToFloat below.
- PyValue.ToInt: the string literals `int()` accepts are limited to an optional sign and
  ASCII digits. Underscores, surrounding whitespace and other digit sets are not modelled.
- PyValue.ToFloat: the string literals `float()` accepts are limited to plain decimals.
  Exponents, `inf` and `nan` are not modelled.
- MeterGenerator.MeterDataGenerator.GetRegisterValue: a DATETIME register reads back as
  its count of seconds, not as local-time text. The date conversion's own errors (a year
  out of range) are therefore not modelled.
- MeterGenerator.MeterDataGenerator.GetRegisterValue: for an error, only the message's
  fixed prefix is modelled. The exception text after it is not.
- LegacyMeter.DecodeRegisterValue: for an error, only the message's fixed prefix
  "Unexpected Error: " is modelled. The exception text after it is not.
- LegacyMeter.DecodeRegisterValue: a DATETIME register reads back as its count of
  seconds, not as the local-time text `strftime` gives. The date conversion's own errors
  are therefore not modelled.
- DataBlock.SliceAssign: the result for an address before `-len(values)`, and for a negative
  address with more words than the block holds, is given by the body's Python slice rules
  but not stated in the contract.
- DataBlock.GetValues: the result for an address before `-len(values)` is given by the
  body's Python slice rules but not stated in the contract.
- DataBlock.ReadRegister: its contract does not state the result for a negative address.
  The body follows Python slicing, as pymodbus `getValues` does.
- The wall clock of `generate_registers` and of the generators is an input (`now` and
  `Entropy.clock`). Neither reads a clock.
