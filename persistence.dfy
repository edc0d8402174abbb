/** The shape check applied to a saved game state before it is restored. */
module Persistence {
  import opened SeqOps

  /**
   * A JavaScript value as the check sees it: `null`, `undefined`, the JSON
   * scalars, arrays and plain objects. An object field may hold `undefined`
   * and still count as present.
   */
  datatype Json =
    | JNull
    | JUndefined
    | JBool(b: bool)
    | JNumber(n: real)
    | JString(s: string)
    | JArray(items: seq<Json>)
    | JObject(fields: map<string, Json>)

  /** `typeof v === 'object'`: arrays and objects, and `null`. */
  predicate IsObject(v: Json) {
    v.JNull? || v.JArray? || v.JObject?
  }

  /** `key in v` for the names the check asks about; an array has none of them. */
  predicate HasKey(v: Json, key: string) {
    v.JObject? && key in v.fields
  }

  /** The seven fields a saved state must have, in the order they are checked. */
  const REQUIRED_FIELDS: seq<string> := ["pieces", "capturedPieces", "currentTurn", "history", "currentIndex", "version", "timestamp"]

  function Lacks(data: Json): string -> bool {
    (field: string) => !HasKey(data, field)
  }

  /**
   * `validatePersistedGameState`: reject `null` and `undefined`, non-objects,
   * a missing required field, then each field of the wrong type, a turn other
   * than sente or gote, and a cursor outside 0..history.length (both ends
   * included); accept everything else.
   */
  function ValidatePersistedGameState(data: Json): (r: bool)
    ensures r <==> WellShaped(data)
  {
    if data.JNull? || data.JUndefined? then false
    else if !IsObject(data) then false
    else if Any(REQUIRED_FIELDS, Lacks(data)) then false
    else
      assert HasKey(data, REQUIRED_FIELDS[0]);
      var record := data.fields;
      if !record["pieces"].JArray? then false
      else if !IsObject(record["capturedPieces"]) || record["capturedPieces"].JNull?
        || !HasKey(record["capturedPieces"], "sente") || !HasKey(record["capturedPieces"], "gote") then false
      else if !(record["currentTurn"] == JString("sente") || record["currentTurn"] == JString("gote")) then false
      else if !record["history"].JArray? then false
      else if !record["currentIndex"].JNumber? then false
      else if record["currentIndex"].n < 0.0 || record["currentIndex"].n > |record["history"].items| as real then false
      else if !record["version"].JString? then false
      else if !record["timestamp"].JNumber? then false
      else true
  }

  /** The accepted values, described field by field: an object with the seven fields, each of its documented kind. */
  ghost predicate WellShaped(data: Json) {
    data.JObject? &&
    var f := data.fields;
    "pieces" in f && "capturedPieces" in f && "currentTurn" in f && "history" in f &&
    "currentIndex" in f && "version" in f && "timestamp" in f &&
    f["pieces"].JArray? &&
    f["capturedPieces"].JObject? && "sente" in f["capturedPieces"].fields && "gote" in f["capturedPieces"].fields &&
    (f["currentTurn"] == JString("sente") || f["currentTurn"] == JString("gote")) &&
    f["history"].JArray? &&
    f["currentIndex"].JNumber? && 0.0 <= f["currentIndex"].n <= |f["history"].items| as real &&
    f["version"].JString? &&
    f["timestamp"].JNumber?
  }

  /** `null`, `undefined` and every scalar are rejected, and so is any array. */
  lemma RejectsNonObjects(data: Json)
    requires !data.JObject?
    ensures !ValidatePersistedGameState(data)
  {
  }

  /** An object missing any one of the seven fields is rejected. */
  lemma RejectsMissingField(fields: map<string, Json>, i: nat)
    requires i < |REQUIRED_FIELDS| && REQUIRED_FIELDS[i] !in fields
    ensures !ValidatePersistedGameState(JObject(fields))
  {
    assert !HasKey(JObject(fields), REQUIRED_FIELDS[i]);
  }

  /** A turn other than the two players' names is rejected, whatever else the state holds. */
  lemma RejectsUnknownTurn(fields: map<string, Json>)
    requires "currentTurn" in fields && fields["currentTurn"] != JString("sente") && fields["currentTurn"] != JString("gote")
    ensures !ValidatePersistedGameState(JObject(fields))
  {
  }

  /**
   * The contents of the two arrays are never looked at: replacing the pieces and
   * the history by arrays of any elements (the history of the same length) keeps the verdict.
   */
  lemma ArrayContentsIgnored(fields: map<string, Json>, pieces: seq<Json>, history: seq<Json>)
    requires "history" in fields && fields["history"].JArray? && |history| == |fields["history"].items|
    requires "pieces" in fields && fields["pieces"].JArray?
    ensures ValidatePersistedGameState(JObject(fields["pieces" := JArray(pieces)]["history" := JArray(history)])) ==
      ValidatePersistedGameState(JObject(fields))
  {
    var g := fields["pieces" := JArray(pieces)]["history" := JArray(history)];
    assert forall k :: k in g <==> k in fields;
  }

  /** A saved state in the documented shape, with a given cursor over a history of `len` entries. */
  function Sample(index: real, len: nat): Json {
    JObject(map[
      "pieces" := JArray([]),
      "capturedPieces" := JObject(map["sente" := JObject(map[]), "gote" := JObject(map[])]),
      "currentTurn" := JString("sente"),
      "history" := JArray(seq(len, i => JNull)),
      "currentIndex" := JNumber(index),
      "version" := JString("1.0.0"),
      "timestamp" := JNumber(0.0)])
  }

  /**
   * The cursor bound is inclusive: a cursor equal to the history length is
   * accepted, one past it or below zero is not.
   */
  lemma CursorBoundIsInclusive(len: nat)
    ensures ValidatePersistedGameState(Sample(len as real, len))
    ensures !ValidatePersistedGameState(Sample(len as real + 1.0, len))
    ensures !ValidatePersistedGameState(Sample(-1.0, len))
  {
    assert WellShaped(Sample(len as real, len));
  }
}
