/**
 * Type resolver: the Pegasus type of a field path of a timeseries aspect.
 * The aspect's schema is an oracle of finite maps: its direct timeseries
 * fields, and its field collections with their key name and member fields.
 */
module Schema {
  import opened Types
  import opened Naming

  /** A `TimeseriesFieldCollectionSpec`: the collection's own type, its key name, and its member fields. */
  datatype FieldCollection = FieldCollection(schemaType: DataType, key: string, members: map<string, DataType>)

  /** The timeseries part of an `AspectSpec`. */
  datatype AspectSchema = AspectSchema(fields: map<string, DataType>, collections: map<string, FieldCollection>)

  /** All '.'-separated parts of a string, empty parts included. */
  function SplitOnDots(s: string): (parts: seq<string>)
    ensures |parts| >= 1
    ensures forall k :: 0 <= k < |parts| ==> '.' !in parts[k]
    decreases |s|
  {
    if s == [] then [""]
    else
      var rest := SplitOnDots(s[1..]);
      if s[0] == '.' then [""] + rest else [[s[0]] + rest[0]] + rest[1..]
  }

  function JoinWithDots(parts: seq<string>): string
    requires |parts| >= 1
    decreases |parts|
  {
    if |parts| == 1 then parts[0] else parts[0] + "." + JoinWithDots(parts[1..])
  }

  /** Splitting a dot-free head off a string. */
  lemma {:induction false} SplitDotFreePrefix(a: string, t: string)
    requires '.' !in a
    ensures SplitOnDots(a + t) == [a + SplitOnDots(t)[0]] + SplitOnDots(t)[1..]
    decreases |a|
  {
    var st := SplitOnDots(t);
    if a == [] {
      assert a + t == t && a + st[0] == st[0];
      assert st == [st[0]] + st[1..];
    } else {
      assert (a + t)[0] == a[0] && (a + t)[1..] == a[1..] + t;
      SplitDotFreePrefix(a[1..], t);
      var rest := SplitOnDots(a[1..] + t);
      assert rest == [a[1..] + st[0]] + st[1..];
      assert SplitOnDots(a + t) == [[a[0]] + rest[0]] + rest[1..];
      assert [a[0]] + (a[1..] + st[0]) == a + st[0];
    }
  }

  /** Splitting undoes joining dot-free parts. */
  lemma {:induction false} SplitJoin(parts: seq<string>)
    requires |parts| >= 1
    requires forall k :: 0 <= k < |parts| ==> '.' !in parts[k]
    ensures SplitOnDots(JoinWithDots(parts)) == parts
    decreases |parts|
  {
    if |parts| == 1 {
      SplitDotFreePrefix(parts[0], "");
      assert parts[0] + "" == parts[0];
    } else {
      var rest := JoinWithDots(parts[1..]);
      SplitJoin(parts[1..]);
      assert parts[0] + "." + rest == parts[0] + ("." + rest);
      SplitDotFreePrefix(parts[0], "." + rest);
      assert ("." + rest)[0] == '.' && ("." + rest)[1..] == rest;
      assert SplitOnDots("." + rest) == [""] + parts[1..];
      assert parts[0] + "" == parts[0];
      assert parts == [parts[0]] + parts[1..];
    }
  }

  /** Joining undoes splitting. */
  lemma {:induction false} JoinSplit(s: string)
    ensures JoinWithDots(SplitOnDots(s)) == s
    decreases |s|
  {
    if s != [] {
      JoinSplit(s[1..]);
      var rest := SplitOnDots(s[1..]);
      if s[0] != '.' && |rest| > 1 {
        assert JoinWithDots(rest) == rest[0] + "." + JoinWithDots(rest[1..]);
      }
    }
  }

  function DropTrailingEmpty(parts: seq<string>): (r: seq<string>)
    ensures |r| <= |parts| && r == parts[..|r|]
    ensures r != [] ==> r[|r| - 1] != ""
    ensures forall k :: |r| <= k < |parts| ==> parts[k] == ""
    decreases |parts|
  {
    if parts != [] && parts[|parts| - 1] == "" then DropTrailingEmpty(parts[..|parts| - 1]) else parts
  }

  /**
   * Java's `fieldPath.split("\\.")`: the whole string when it has no dot,
   * otherwise its parts with the trailing empty ones removed.
   */
  function SplitFieldPath(path: string): seq<string> {
    if '.' !in path then [path] else DropTrailingEmpty(SplitOnDots(path))
  }

  /** `getTimeseriesFieldType`. */
  function GetTimeseriesFieldType(schema: AspectSchema, fieldPath: string): (r: Result<DataType>)
    ensures fieldPath == FieldTimestamp ==> r == Ok(Long)
    ensures r.Err? ==> r.error == UnknownField(fieldPath)
  {
    if fieldPath == FieldTimestamp then Ok(Long)
    else
      var parts := SplitFieldPath(fieldPath);
      if |parts| == 1 && parts[0] in schema.fields then
        Ok(schema.fields[parts[0]])
      else if |parts| == 1 && parts[0] in schema.collections then
        Ok(schema.collections[parts[0]].schemaType)
      else if |parts| == 2 && parts[0] in schema.collections && schema.collections[parts[0]].key == parts[1] then
        Ok(String)
      else if |parts| == 2 && parts[0] in schema.collections && parts[1] in schema.collections[parts[0]].members then
        Ok(schema.collections[parts[0]].members[parts[1]])
      else
        Err(UnknownField(fieldPath))
  }

  lemma TimestampIsDotFree()
    ensures '.' !in FieldTimestamp
  {
  }

  /** A one-segment path is looked up among the direct fields first, then among the collections. */
  lemma {:induction false} ResolveDirect(schema: AspectSchema, name: string)
    requires '.' !in name && name != FieldTimestamp
    ensures GetTimeseriesFieldType(schema, name) ==
      if name in schema.fields then Ok(schema.fields[name])
      else if name in schema.collections then Ok(schema.collections[name].schemaType)
      else Err(UnknownField(name))
  {
  }

  /**
   * A path `C.K` with dot-free parts and a non-empty member: the key of
   * collection C resolves to STRING, a member field to its own type; any
   * other such path fails.
   */
  lemma ResolveMember(schema: AspectSchema, c: string, k: string)
    requires '.' !in c && '.' !in k && k != ""
    ensures GetTimeseriesFieldType(schema, c + "." + k) ==
      if c in schema.collections && schema.collections[c].key == k then Ok(String)
      else if c in schema.collections && k in schema.collections[c].members then Ok(schema.collections[c].members[k])
      else Err(UnknownField(c + "." + k))
  {
    var path := c + "." + k;
    assert path[|c|] == '.';
    SplitJoin([c, k]);
    assert JoinWithDots([c, k]) == path;
    TimestampIsDotFree();
    assert path != FieldTimestamp;
  }

  /** A path of three or more dot-free segments, the last non-empty, never resolves. */
  lemma ResolveDeepFails(schema: AspectSchema, parts: seq<string>)
    requires |parts| >= 3
    requires forall k :: 0 <= k < |parts| ==> '.' !in parts[k]
    requires parts[|parts| - 1] != ""
    ensures GetTimeseriesFieldType(schema, JoinWithDots(parts)).Err?
  {
    SplitFieldPathJoin(parts);
  }

  /** A dotted path whose last segment is non-empty splits back into its segments. */
  lemma SplitFieldPathJoin(parts: seq<string>)
    requires |parts| >= 2
    requires forall k :: 0 <= k < |parts| ==> '.' !in parts[k]
    requires parts[|parts| - 1] != ""
    ensures SplitFieldPath(JoinWithDots(parts)) == parts
    ensures JoinWithDots(parts) != FieldTimestamp
  {
    var path := JoinWithDots(parts);
    SplitJoin(parts);
    assert path == parts[0] + "." + JoinWithDots(parts[1..]);
    assert path[|parts[0]|] == '.';
    TimestampIsDotFree();
  }

  /**
   * A trailing dot is ignored by the split, so `p.` resolves like `p`
   * (for a non-empty dot-free `p` other than the timestamp field).
   */
  lemma ResolveTrailingDot(schema: AspectSchema, p: string)
    requires '.' !in p && p != "" && p != FieldTimestamp
    ensures GetTimeseriesFieldType(schema, p + ".") ==
      if GetTimeseriesFieldType(schema, p).Ok? then GetTimeseriesFieldType(schema, p)
      else Err(UnknownField(p + "."))
  {
    SplitJoin([p, ""]);
    assert JoinWithDots([p, ""]) == p + ".";
    assert (p + ".")[|p|] == '.';
    assert [p, ""][..1] == [p];
    assert DropTrailingEmpty([p, ""]) == [p];
    assert SplitFieldPath(p + ".") == [p];
    TimestampIsDotFree();
    assert p + "." != FieldTimestamp;
  }
}
