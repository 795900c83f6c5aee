/** A field mapping of a table mapping and the rules that read its type string. */
module FieldMappings {
  import opened Base

  /** The configured mapping of one source field to a destination column. A
      field the configuration leaves out is `None` (Java `null`). */
  datatype FieldMapping = FieldMapping(
    sourceName: Option<string>,
    destinationName: Option<string>,
    fieldType: Option<string>,
    indexed: bool,
    foreignKey: Option<string>,
    scalarFieldDestinationName: Option<string>)

  const ArrayPrefix: string := "_ARRAY"
  const PresenceType: string := "_PRESENCE"
  const PresenceColumnType: string := "BOOLEAN DEFAULT FALSE"

  /** `Character.toUpperCase` on the characters that can take part in a case-blind
      match with `_PRESENCE`: ASCII letters, and the long s, which upper-cases to S. */
  function UpperCase(c: char): char
  {
    if 'a' <= c <= 'z' then (c as int - 32) as char
    else if c == 'ſ' then 'S'
    else c
  }

  /** `Character.toLowerCase` on ASCII letters. */
  function LowerCase(c: char): char
  {
    if 'A' <= c <= 'Z' then (c as int + 32) as char else c
  }

  /** One step of `String.regionMatches(true, ...)`. */
  predicate SameIgnoringCase(a: char, b: char)
  {
    a == b || UpperCase(a) == UpperCase(b) || LowerCase(UpperCase(a)) == LowerCase(UpperCase(b))
  }

  /** `a.equalsIgnoreCase(b)` where one side is `_PRESENCE`. The case mapping
      above covers only the characters that can match that word, so this is
      exact for comparisons against it and not Java's comparison in general. */
  predicate EqualsIgnoreCase(a: string, b: string)
  {
    |a| == |b| && forall i :: 0 <= i < |a| ==> SameIgnoringCase(a[i], b[i])
  }

  /** `isAnArray`: a case-sensitive prefix test; a null type raises. */
  function IsAnArray(f: FieldMapping): (r: Result<bool>)
    ensures f.fieldType.None? <==> r == Err(NullPointer)
    ensures r.Ok? ==> (r.value <==> StartsWith(f.fieldType.value, ArrayPrefix))
  {
    match f.fieldType
    case None => Err(NullPointer)
    case Some(t) => Ok(StartsWith(t, ArrayPrefix))
  }

  /** `getType`: the column type to create; a presence marker becomes a boolean
      column, any other type is passed through; a null type raises. */
  function GetType(f: FieldMapping): (r: Result<string>)
    ensures f.fieldType.None? <==> r == Err(NullPointer)
    ensures r.Ok? && EqualsIgnoreCase(f.fieldType.value, PresenceType) ==> r.value == PresenceColumnType
    ensures r.Ok? && !EqualsIgnoreCase(f.fieldType.value, PresenceType) ==> r.value == f.fieldType.value
  {
    match f.fieldType
    case None => Err(NullPointer)
    case Some(t) => if EqualsIgnoreCase(t, PresenceType) then Ok(PresenceColumnType) else Ok(t)
  }

  /** `getTrueType`: the raw configured type, presence marker included. */
  function GetTrueType(f: FieldMapping): (r: Option<string>)
    ensures r.None? <==> GetType(f).Err?
    ensures r.Some? && GetType(f).value != r.value ==> EqualsIgnoreCase(r.value, PresenceType)
  {
    f.fieldType
  }

  /** The raw type and the column type differ only for the presence marker. */
  lemma TrueTypeDiffersOnlyForPresence(f: FieldMapping)
    requires f.fieldType.Some?
    ensures GetType(f) == Ok(f.fieldType.value) || EqualsIgnoreCase(f.fieldType.value, PresenceType)
    ensures GetTrueType(f) == f.fieldType
  {
  }

  /** An array type is never the presence marker, so its column type is its raw type. */
  lemma ArrayTypeIsTrueType(f: FieldMapping)
    requires IsAnArray(f) == Ok(true)
    ensures GetType(f) == Ok(f.fieldType.value)
    ensures GetTrueType(f) == Some(f.fieldType.value)
  {
    var t := f.fieldType.value;
    assert t[1] == ArrayPrefix[1] == 'A';
    assert !SameIgnoringCase(t[1], PresenceType[1]);
  }

  /** The presence test ignores case (long s included); the array test does not. */
  lemma TypeStringExamples()
    ensures GetType(FieldMapping(None, None, Some("_presence"), false, None, None)) == Ok(PresenceColumnType)
    ensures GetType(FieldMapping(None, None, Some("_preſence"), false, None, None)) == Ok(PresenceColumnType)
    ensures GetTrueType(FieldMapping(None, None, Some("_presence"), false, None, None)) == Some("_presence")
    ensures IsAnArray(FieldMapping(None, None, Some("_ARRAY_INT"), false, None, None)) == Ok(true)
    ensures IsAnArray(FieldMapping(None, None, Some("_array_int"), false, None, None)) == Ok(false)
  {
    var lower := "_presence";
    assert forall i :: 0 <= i < |lower| ==> SameIgnoringCase(lower[i], PresenceType[i]);
    var longS := "_preſence";
    assert forall i :: 0 <= i < |longS| ==> SameIgnoringCase(longS[i], PresenceType[i]);
    assert "_array_int"[1] != ArrayPrefix[1];
  }
}
