/**
 * Loading and validating a register table once its JSON has been parsed. The strict loader
 * only checks the shape (a list whose every element has the three required fields); the
 * lenient predicate also checks the data type and the address.
 */
module RegisterLoader {
  import opened Wrappers
  import opened PyValue
  import WordCodec

  const RequiredFields: seq<string> := ["address", "data_type", "description"]

  datatype SchemaError =
    | NotAList                   // the top-level value is not a list
    | MissingField(field: string) // an element lacks a required field
    | NotSearchable              // `field in element` raised TypeError (a number, bool or null element)

  /** `field in element` is true for every required field (the test the strict loader applies). */
  predicate HasRequiredFields(e: Json) {
    forall k :: 0 <= k < |RequiredFields| ==> Contains(e, RequiredFields[k]) == Some(true)
  }

  /** err is what the inner loop raises for e: the first required field that is absent, or TypeError. */
  predicate ReportsProblem(e: Json, err: SchemaError) {
    match err
    case NotAList => false
    case NotSearchable => Contains(e, RequiredFields[0]).None?
    case MissingField(f) =>
      exists k :: 0 <= k < |RequiredFields| && RequiredFields[k] == f && Contains(e, f) == Some(false)
                  && forall j :: 0 <= j < k ==> Contains(e, RequiredFields[j]) == Some(true)
  }

  /** `load_register_table` after `json.load`: the list itself, or the first violation found. */
  method LoadRegisterTable(parsed: Json) returns (r: Result<seq<Json>, SchemaError>)
    ensures !parsed.JList? ==> r == Err(NotAList)
    ensures r.Ok? <==> parsed.JList? && forall i :: 0 <= i < |parsed.items| ==> HasRequiredFields(parsed.items[i])
    ensures r.Ok? ==> r.value == parsed.items
    ensures r.Err? && parsed.JList? ==>
      exists i :: 0 <= i < |parsed.items| && ReportsProblem(parsed.items[i], r.error)
                  && forall j :: 0 <= j < i ==> HasRequiredFields(parsed.items[j])
  {
    if !parsed.JList? {
      return Err(NotAList);
    }
    var registers := parsed.items;
    for i := 0 to |registers|
      invariant forall j :: 0 <= j < i ==> HasRequiredFields(registers[j])
    {
      var register := registers[i];
      for k := 0 to |RequiredFields|
        invariant forall j :: 0 <= j < k ==> Contains(register, RequiredFields[j]) == Some(true)
      {
        var present := Contains(register, RequiredFields[k]);
        if present.None? {
          return Err(NotSearchable);
        }
        if !present.value {
          return Err(MissingField(RequiredFields[k]));
        }
      }
    }
    return Ok(registers);
  }

  /** The data_type value is one of the supported type names. */
  predicate IsSupportedType(v: Json) {
    v.JStr? && v.s in WordCodec.SupportedNames
  }

  /** What `validate_register_definition` accepts. */
  predicate IsValidDefinition(register: map<string, Json>) {
    && "address" in register && "data_type" in register && "description" in register
    && IsSupportedType(register["data_type"])
    && AsInt(register["address"]).Some? && AsInt(register["address"]).value >= 0
  }

  /** `validate_register_definition`: the required keys, a supported type, a non-negative integer address. */
  method ValidateRegisterDefinition(register: map<string, Json>) returns (valid: bool)
    ensures valid <==> IsValidDefinition(register)
    ensures (exists k :: 0 <= k < |RequiredFields| && RequiredFields[k] !in register) ==> !valid
  {
    for k := 0 to |RequiredFields|
      invariant forall j :: 0 <= j < k ==> RequiredFields[j] in register
    {
      if RequiredFields[k] !in register {
        return false;
      }
    }
    assert RequiredFields[0] in register && RequiredFields[1] in register && RequiredFields[2] in register;
    if !IsSupportedType(register["data_type"]) {
      return false;
    }
    var address := AsInt(register["address"]);
    if address.None? || address.value < 0 {
      return false;
    }
    return true;
  }

  /** A definition the lenient predicate accepts is one the strict loader accepts. */
  lemma ValidDefinitionHasRequiredFields(register: map<string, Json>)
    requires IsValidDefinition(register)
    ensures HasRequiredFields(JObject(register))
  {
    forall k | 0 <= k < |RequiredFields|
      ensures Contains(JObject(register), RequiredFields[k]) == Some(true)
    {
      assert RequiredFields[k] in register;
    }
  }

  /**
   * The strict loader looks at keys only: an object with an unknown data type and a negative
   * address passes it, and the lenient predicate refuses that same object.
   */
  lemma StrictCheckIgnoresTypeAndAddress()
    ensures var m := map["address" := JInt(-1), "data_type" := JStr("FLOAT64"), "description" := JStr("")];
            HasRequiredFields(JObject(m)) && !IsValidDefinition(m)
  {
    var m := map["address" := JInt(-1), "data_type" := JStr("FLOAT64"), "description" := JStr("")];
    assert Contains(JObject(m), "address") == Some(true);
    assert Contains(JObject(m), "data_type") == Some(true);
    assert Contains(JObject(m), "description") == Some(true);
  }

  /**
   * Python's `in` is a substring test on a string and an element test on a list, so a string
   * or a list that mentions the three field names passes the strict loader as a "register".
   */
  lemma StrictCheckAdmitsStrings()
    ensures HasRequiredFields(JStr(FieldNamesText))
  {
    JoinedMentionsEach(RequiredFields[0], RequiredFields[1], RequiredFields[2]);
  }

  lemma StrictCheckAdmitsLists()
    ensures HasRequiredFields(JList([JStr("address"), JStr("data_type"), JStr("description")]))
  {
    var xs := [JStr("address"), JStr("data_type"), JStr("description")];
    assert xs[0] == JStr("address") && xs[1] == JStr("data_type") && xs[2] == JStr("description");
  }

  /** The string "address data_type description": the three field names, space-separated. */
  const FieldNamesText: string := Joined(RequiredFields[0], RequiredFields[1], RequiredFields[2])

  /** Three words joined by single spaces. */
  function Joined(a: string, b: string, c: string): (r: string)
    ensures |r| == |a| + |b| + |c| + 2
  {
    a + (" " + (b + (" " + c)))
  }

  /** Each of three words occurs in the three joined by spaces. */
  lemma JoinedMentionsEach(a: string, b: string, c: string)
    ensures IsSubstring(a, Joined(a, b, c)) && IsSubstring(b, Joined(a, b, c)) && IsSubstring(c, Joined(a, b, c))
  {
    var tail := b + (" " + c);
    PartsOccur(a, " " + tail);
    PartsOccur(b, " " + c);
    OccursLater(b, " ", tail, 0);
    OccursLater(b, a, " " + tail, 1);
    PartsOccur(" ", c);
    OccursLater(c, b, " " + c, 1);
    OccursLater(c, " ", tail, |b| + 1);
    OccursLater(c, a, " " + tail, |b| + 2);
  }

  /** Both halves of a concatenation occur in it. */
  lemma PartsOccur(a: string, b: string)
    ensures OccursAt(a, a + b, 0) && OccursAt(b, a + b, |a|)
  {
    assert (a + b)[..|a|] == a;
    assert (a + b)[|a|..|a| + |b|] == b;
  }

  /** An occurrence in b is an occurrence in a + b, shifted by |a|. */
  lemma OccursLater(needle: string, a: string, b: string, k: nat)
    requires OccursAt(needle, b, k)
    ensures OccursAt(needle, a + b, |a| + k)
  {
    assert (a + b)[|a| + k..|a| + k + |needle|] == b[k..k + |needle|];
  }
}
