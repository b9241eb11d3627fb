/**
 * The device's word store (a `ModbusSequentialDataBlock` of 5000 words at base address 0)
 * as the generation cycles and the readers see it: how a write changes it, which word
 * range a definition targets, and what a typed read returns.
 */
module DataBlock {
  import opened Wrappers
  import opened PyValue
  import opened WordCodec
  import opened Generators

  const BlockSize: nat := 5000

  /** The C library behind `math.sin` and `struct.pack("!f")`. */
  datatype Platform = Platform(sin: Sine, float32: Float32Format)

  /** `setValues(address, words)`: the words replace exactly the range they cover. */
  function Overwrite(block: seq<Word>, address: int, words: seq<Word>): (r: seq<Word>)
    requires 0 <= address && address + |words| <= |block|
    ensures |r| == |block|
    ensures forall k :: 0 <= k < |block| && (k < address || address + |words| <= k) ==> r[k] == block[k]
    ensures r[address..address + |words|] == words
  {
    block[..address] + words + block[address + |words|..]
  }

  /** The word range a definition would be written to: its integer address and its type's width. */
  function Target(d: Json): (r: Option<(int, nat)>)
    ensures r.Some? ==> d.JObject? && "address" in d.fields && "data_type" in d.fields
  {
    match d
    case JObject(m) =>
      if "address" in m && "data_type" in m && AsInt(m["address"]).Some?
         && m["data_type"].JStr? && ParseDataType(m["data_type"].s).Some?
      then Some((AsInt(m["address"]).value, Width(ParseDataType(m["data_type"].s).value)))
      else None
    case _ => None
  }

  /**
   * `setValues(address, words)` on the block's list: the Python slice assignment
   * `values[address:address + |words|] = words`. Inside the list it overwrites the range;
   * past the end it appends; a negative address counts from the end, and an empty slice
   * (stop before start) inserts the words instead of replacing any.
   */
  function SliceAssign(block: seq<Word>, address: int, words: seq<Word>): (r: seq<Word>)
    ensures 0 <= address && address + |words| <= |block| ==> r == Overwrite(block, address, words)
    ensures |block| <= address ==> r == block + words
    ensures 0 <= address <= |block| ==>
              r == block[..address] + words + (if address + |words| <= |block| then block[address + |words|..] else [])
    ensures -|block| <= address && address + |words| < 0 ==> r == Overwrite(block, address + |block|, words)
    ensures -|block| <= address < 0 <= address + |words| <= address + |block| ==>
              r == block[..address + |block|] + words + block[address + |block|..]
    ensures |block| <= |r|
  {
    var lo := SliceIndex(address, |block|);
    var hi := SliceIndex(address + |words|, |block|);
    var stop := if hi < lo then lo else hi;
    assert stop - lo <= |words|;
    block[..lo] + words + block[stop..]
  }

  /**
   * Every definition that could be written lies inside the block. A definition without a
   * generation entry is never written, so where it points does not matter.
   */
  predicate TableFits(defs: seq<Json>) {
    forall i :: 0 <= i < |defs| && Target(defs[i]).Some? && Truthy(Get(defs[i].fields, "generation", JNull)) ==>
      0 <= Target(defs[i]).value.0 && Target(defs[i]).value.0 + Target(defs[i]).value.1 <= BlockSize
  }

  /** What a read returns: a number, the seconds of a DATETIME, or a message. */
  datatype Reading = IntValue(i: int) | FloatValue(x: real) | Seconds(n: int) | Text(s: string)

  /** The value registers of type t hold, read as the decoder reads them. */
  function DecodeWords(t: DataType, ws: seq<Word>, f32: Float32Format): (r: Reading)
    requires |ws| == Width(t)
    ensures t == Int16 || t == Int16U || t == Int64 ==> r.IntValue? && EncodeInt(t, r.i) == Ok(ws)
    ensures t == DateTime ==> r.Seconds? && EncodeInt(DateTime, r.n) == Ok(ws)
    ensures t == Float32 || t == QuadrantPF ==> r == FloatValue(DecodeFloat(ws, f32))
  {
    if IsInteger(t) then
      IntWordsRoundTrip(t, ws);
      if t == DateTime then Seconds(DecodeInt(t, ws)) else IntValue(DecodeInt(t, ws))
    else FloatValue(DecodeFloat(ws, f32))
  }

  /** pymodbus `getValues(address, count)`: the Python slice `values[address:address + count]`. */
  function GetValues(block: seq<Word>, address: int, count: nat): (r: seq<Word>)
    ensures 0 <= address && address + count <= |block| ==> r == block[address..address + count]
    ensures 0 <= address && 0 < count && address + count > |block| ==> |r| < count
    ensures 0 <= address <= |block| <= address + count ==> r == block[address..]
    ensures -|block| <= address && address + count < 0 ==>
              r == block[address + |block|..address + |block| + count]
    ensures address < 0 <= address + count && count < |block| ==> r == []
  {
    var lo := SliceIndex(address, |block|);
    var hi := SliceIndex(address + count, |block|);
    if lo <= hi then block[lo..hi] else []
  }

  /** Where a Python slice bound lands in a sequence of length n. */
  function SliceIndex(i: int, n: nat): (r: nat)
    ensures r <= n
    ensures 0 <= i <= n ==> r == i
    ensures i > n ==> r == n
  {
    if i < 0 then (if i + n < 0 then 0 else i + n) else if i > n then n else i
  }

  /** The texts a reader returns instead of a value. */
  datatype Messages = Messages(unknownType: string, readFailure: string)

  /**
   * A typed read of the block: an unknown type name gives the unknown-type text, a read
   * that cannot gather the type's full width gives the failure text, otherwise the words
   * are decoded.
   */
  function ReadRegister(block: seq<Word>, address: int, dataType: string, f32: Float32Format, msg: Messages): (r: Reading)
    ensures ParseDataType(dataType).None? ==> r == Text(msg.unknownType)
    ensures ParseDataType(dataType).Some? && 0 <= address && address + Width(ParseDataType(dataType).value) <= |block|
            ==> r == DecodeWords(ParseDataType(dataType).value, block[address..address + Width(ParseDataType(dataType).value)], f32)
    ensures ParseDataType(dataType).Some? && 0 <= address && address + Width(ParseDataType(dataType).value) > |block|
            ==> r == Text(msg.readFailure)
  {
    match ParseDataType(dataType)
    case None => Text(msg.unknownType)
    case Some(t) =>
      var regs := GetValues(block, address, Width(t));
      if |regs| == Width(t) then DecodeWords(t, regs, f32) else Text(msg.readFailure)
  }

  /** An integer written with type t reads back as itself. */
  lemma ReadAfterWriteInt(block: seq<Word>, address: int, t: DataType, v: int, f32: Float32Format, msg: Messages)
    requires IsInteger(t) && InRange(t, v)
    requires 0 <= address && address + Width(t) <= |block|
    ensures ReadRegister(SliceAssign(block, address, EncodeInt(t, v).value), address, TypeName(t), f32, msg)
              == if t == DateTime then Seconds(v) else IntValue(v)
  {
    var ws := EncodeInt(t, v).value;
    IntRoundTrip(t, v);
    assert ParseDataType(TypeName(t)) == Some(t);
    assert Overwrite(block, address, ws)[address..address + Width(t)] == ws;
  }

  /** A float x written with a float type reads back as `unpack(pack(x))`. */
  lemma ReadAfterWriteFloat(block: seq<Word>, address: int, t: DataType, x: real, f32: Float32Format, msg: Messages)
    requires t == Float32 || t == QuadrantPF
    requires f32.pack(x).Some?
    requires 0 <= address && address + Width(t) <= |block|
    ensures ReadRegister(SliceAssign(block, address, EncodeFloat(x, f32).value), address, TypeName(t), f32, msg)
              == FloatValue(f32.unpack(f32.pack(x).value))
  {
    var ws := EncodeFloat(x, f32).value;
    FloatRoundTrip(x, f32);
    assert ParseDataType(TypeName(t)) == Some(t);
    assert Overwrite(block, address, ws)[address..address + Width(t)] == ws;
  }
}
