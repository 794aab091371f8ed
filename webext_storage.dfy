/**
 * The `storage.local`-style API of the webext-storage component: one JSON
 * object per extension, stored in the `moz_extension_data` table under the
 * extension's guid. `set` merges shallowly into the stored object, `get`
 * selects keys from it and `clear` deletes it.
 *
 * The table is a map from guid to the JSON value its `data` column encodes;
 * serialization to and from text, and SQL errors, are not modelled.
 */
module WebextStorage {
  import opened Wrappers

  /** A JSON value, with integer numbers. */
  datatype Json =
    | Null
    | Bool(b: bool)
    | Number(n: int)
    | Str(s: string)
    | Array(items: seq<Json>)
    | Object(fields: map<string, Json>)

  type JsonMap = map<string, Json>

  type Guid = string

  /** What `set` reports: the object stored before (if any) and the object stored after. */
  datatype StorageChange = StorageChange(oldValue: Option<Json>, newValue: Option<Json>)

  /** The object a `set` argument contributes: an object's own fields, nothing for any other value. */
  function AsMap(val: Json): (m: JsonMap)
    ensures val.Object? ==> m == val.fields
    ensures !val.Object? ==> m == map[]
  {
    if val.Object? then val.fields else map[]
  }

  /**
   * The object `set` stores: the new fields over the existing ones, without
   * recursing into nested objects; the new fields alone when nothing was stored.
   */
  function Merge(existing: Option<JsonMap>, val: Json): (m: JsonMap)
    ensures existing.None? ==> m == AsMap(val)
    ensures existing.Some? ==> m.Keys == existing.value.Keys + AsMap(val).Keys
    ensures forall k :: k in AsMap(val) ==> k in m && m[k] == AsMap(val)[k]
    ensures existing.Some? ==> forall k :: k in existing.value && k !in AsMap(val) ==> m[k] == existing.value[k]
  {
    match existing
    case None => AsMap(val)
    case Some(e) => e + AsMap(val)
  }

  /** A non-object argument leaves the stored object as it was, or stores `{}` when there was none. */
  lemma MergeNonObject(existing: Option<JsonMap>, val: Json)
    requires !val.Object?
    ensures Merge(existing, val) == if existing.Some? then existing.value else map[]
  {
  }

  /**
   * The value `get` returns for a stored object and a key argument: the whole
   * object for `null`; for a string, the object restricted to that key; for an
   * array, the object restricted to the string keys it lists (other elements
   * are ignored); `null` for any other kind of key argument.
   */
  function Select(existing: JsonMap, key: Json): (r: Json)
    ensures key.Null? ==> r == Object(existing)
    ensures key.Str? ==> r.Object? && r.fields.Keys == existing.Keys * {key.s}
    ensures key.Array? ==> r.Object? && (forall k :: k in r.fields <==> k in existing && Str(k) in key.items)
    ensures r.Object? ==> forall k :: k in r.fields ==> k in existing && r.fields[k] == existing[k]
    ensures !(key.Null? || key.Str? || key.Array?) ==> r == Null
  {
    match key
    case Null => Object(existing)
    case Str(s) => Object(if s in existing then map[s := existing[s]] else map[])
    case Array(keys) => Object(map k | k in existing && Str(k) in keys :: existing[k])
    case _ => Null
  }

  /** A string key selects what a one-element array of it selects. */
  lemma SelectStringAsArray(existing: JsonMap, s: string)
    ensures Select(existing, Str(s)) == Select(existing, Array([Str(s)]))
  {
    var a := Select(existing, Str(s)).fields;
    var b := Select(existing, Array([Str(s)])).fields;
    assert forall k :: k in b <==> k in existing && k == s;
    assert a.Keys == b.Keys;
  }

  class ExtensionData {
    /** The `moz_extension_data` table: each guid's stored value. */
    var rows: map<Guid, Json>

    constructor ()
      ensures rows == map[]
    {
      rows := map[];
    }

    /** `get_from_db`: the stored object; a missing row, or a stored value that is not an object, reads as none. */
    function GetFromDb(guid: Guid): (r: Option<JsonMap>)
      reads this
      ensures r.Some? <==> guid in rows && rows[guid].Object?
      ensures r.Some? ==> rows[guid] == Object(r.value)
    {
      if guid in rows && rows[guid].Object? then Some(rows[guid].fields) else None
    }

    /** `save_to_db`: insert or replace the row. */
    method SaveToDb(guid: Guid, val: Json)
      modifies this
      ensures rows == old(rows)[guid := val]
    {
      rows := rows[guid := val];
    }

    /** `remove_from_db`: delete the row, if any. */
    method RemoveFromDb(guid: Guid)
      modifies this
      ensures rows == old(rows) - {guid}
    {
      rows := rows - {guid};
    }

    /**
     * `set`: merge the fields of `val` into the stored object one by one, save
     * the result, and report the previous object and the saved one.
     */
    method Set(guid: Guid, val: Json) returns (change: StorageChange)
      modifies this
      ensures rows == old(rows)[guid := Object(Merge(old(GetFromDb(guid)), val))]
      ensures GetFromDb(guid) == Some(Merge(old(GetFromDb(guid)), val))
      ensures change.oldValue == if old(GetFromDb(guid)).Some? then Some(Object(old(GetFromDb(guid)).value)) else None
      ensures change.newValue == Some(rows[guid])
    {
      var existing := GetFromDb(guid);
      var oldValue := existing;
      var newMap: JsonMap;
      match existing {
        case Some(e) =>
          var added := AsMap(val);
          var pending := added.Keys;
          newMap := e;
          while pending != {}
            invariant pending <= added.Keys
            invariant newMap.Keys == e.Keys + (added.Keys - pending)
            invariant forall k :: k in newMap ==> newMap[k] == if k in added && k !in pending then added[k] else e[k]
            decreases pending
          {
            var k :| k in pending;
            newMap := newMap[k := added[k]];
            pending := pending - {k};
          }
          assert newMap == e + added;
        case None =>
          newMap := AsMap(val);
      }
      var newValue := Object(newMap);
      SaveToDb(guid, newValue);
      change := StorageChange(if oldValue.Some? then Some(Object(oldValue.value)) else None, Some(newValue));
    }

    /**
     * `get`: `null` when nothing is stored for the guid, whatever the key
     * argument; otherwise the selection the key argument makes. Nothing is
     * written.
     */
    method Get(guid: Guid, key: Json) returns (r: Json)
      ensures GetFromDb(guid).None? ==> r == Null
      ensures GetFromDb(guid).Some? ==> r == Select(GetFromDb(guid).value, key)
    {
      var maybeExisting := GetFromDb(guid);
      if maybeExisting.None? {
        return Null;
      }
      var existing := maybeExisting.value;
      ghost var stored := existing;
      match key {
        case Null =>
          r := Object(existing);
        case Str(s) =>
          var result: JsonMap := map[];
          if s in existing {
            result := result[s := existing[s]];
            existing := existing - {s};
          }
          r := Object(result);
        case Array(keys) =>
          var result: JsonMap := map[];
          var i := 0;
          while i < |keys|
            invariant 0 <= i <= |keys|
            invariant forall k :: k in result <==> k in stored && Str(k) in keys[..i]
            invariant forall k :: k in result ==> result[k] == stored[k]
            invariant forall k :: k in existing <==> k in stored && Str(k) !in keys[..i]
            invariant forall k :: k in existing ==> existing[k] == stored[k]
          {
            assert keys[..i + 1] == keys[..i] + [keys[i]];
            match keys[i] {
              case Str(s) =>
                if s in existing {
                  result := result[s := existing[s]];
                  existing := existing - {s};
                }
              case _ =>
            }
            i := i + 1;
          }
          assert keys[..i] == keys;
          assert result.Keys == Select(stored, key).fields.Keys;
          r := Object(result);
        case _ =>
          r := Null;
      }
    }

    /** `clear`: the guid's row is gone, so a later `get` returns `null`; other rows are untouched. */
    method Clear(guid: Guid)
      modifies this
      ensures rows == old(rows) - {guid}
      ensures GetFromDb(guid).None?
    {
      RemoveFromDb(guid);
    }
  }

  /**
   * The sequence of calls the component's own unit test makes, with its
   * expected results: a `get` before any `set` is `null`; a first `set` reports no
   * old value; a second `set` merges and reports the first object; `clear`
   * returns `get` to `null`.
   */
  method SimpleScenario(data: ExtensionData) returns (before: Json, first: StorageChange, afterFirst: Json,
                                                      second: StorageChange, afterSecond: Json, afterClear: Json)
    requires "x" !in data.rows
    modifies data
    ensures before == Null
    ensures first == StorageChange(None, Some(Object(map["foo" := Str("bar")])))
    ensures afterFirst == Object(map["foo" := Str("bar")])
    ensures second == StorageChange(Some(Object(map["foo" := Str("bar")])),
                                    Some(Object(map["foo" := Str("new"), "other" := Str("also new")])))
    ensures afterSecond == Object(map["foo" := Str("new"), "other" := Str("also new")])
    ensures afterClear == Null
  {
    var fooBar := map["foo" := Str("bar")];
    var fooNew := map["foo" := Str("new"), "other" := Str("also new")];
    before := data.Get("x", Null);
    first := data.Set("x", Object(fooBar));
    afterFirst := data.Get("x", Null);
    second := data.Set("x", Object(fooNew));
    assert fooBar + fooNew == fooNew;
    afterSecond := data.Get("x", Null);
    data.Clear("x");
    afterClear := data.Get("x", Null);
  }
}
