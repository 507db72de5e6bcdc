/** The field codec of the JSON helper: decoding one text or one record slot,
    encoding whole maps for storage, the four types kept as strings, and the
    composition of join-column names. */
module FieldCodec {
  import opened Model

  /** The types whose values are always stored and read back as their string form. */
  const TextualStorageClasses: set<Class> := {UuidClass, BigDecimalClass, UrlClass, BigIntegerClass}

  /** isReturnAsString: decided by the canonical name alone. */
  function IsReturnAsString(cls: Class): (r: bool)
    ensures r <==> cls in TextualStorageClasses
  {
    || cls.canonicalName == "java.util.UUID"
    || cls.canonicalName == "java.math.BigDecimal"
    || cls.canonicalName == "java.net.URL"
    || cls.canonicalName == "java.math.BigInteger"
  }

  /** fromJSON: a null text and the literal "null" read as null without
      consulting Gson; any other text is whatever Gson makes of it. */
  function FromJson(gson: Gson, json: Option<string>, cls: Class): (r: Result<Value, Error>)
    ensures json == None || json == Some("null") ==> r == Ok(Null)
    ensures r.Err? <==> json.Some? && json.value != "null" && gson.fromJson(json.value, cls).Malformed?
    ensures r.Err? ==> r.error == ParseFailure
    ensures json.Some? && json.value != "null" && gson.fromJson(json.value, cls).Parsed? ==>
              r == Ok(gson.fromJson(json.value, cls).value)
  {
    if json.None? || json.value == "null" then Ok(Null)
    else
      match gson.fromJson(json.value, cls)
      case Parsed(v) => Ok(v)
      case Malformed => Err(ParseFailure)
  }

  /** The new content of a slot that held `raw`: the cast to String, then fromJSON. */
  function DecodeValue(gson: Gson, cls: Class, raw: Value): (r: Result<Value, Error>)
    ensures r.Err? <==> raw.Obj? || (raw.Str? && FromJson(gson, Some(raw.text), cls).Err?)
    ensures r.Err? && raw.Obj? ==> r.error == ClassCast
    ensures raw == Null || raw == Str("null") ==> r == Ok(Null)
    ensures raw.Str? && r.Ok? ==> r.value == FromJson(gson, Some(raw.text), cls).value
  {
    if raw.Obj? then Err(ClassCast)
    else FromJson(gson, if raw.Str? then Some(raw.text) else None, cls)
  }

  /** `t'` differs from `t` at most in the keys of `touched`. */
  ghost predicate AgreesOutside(t: Record, t': Record, touched: set<string>)
  {
    forall k :: k !in touched ==> (k in t' <==> k in t) && (k in t ==> t'[k] == t[k])
  }

  /** getObjectFromJsonOn as a function of the record: only `column` changes,
      and it is written even when it was missing (it then holds null). */
  function DecodeSlot(gson: Gson, cls: Class, column: string, t: Record): (r: Result<Record, Error>)
    ensures r.Err? <==> DecodeValue(gson, cls, Get(t, column)).Err?
    ensures r.Ok? ==> r.value.Keys == t.Keys + {column}
    ensures r.Ok? ==> AgreesOutside(t, r.value, {column})
    ensures r.Ok? ==> r.value[column] == DecodeValue(gson, cls, Get(t, column)).value
  {
    match DecodeValue(gson, cls, Get(t, column))
    case Ok(v) => Ok(t[column := v])
    case Err(e) => Err(e)
  }

  /** getObjectFromJsonOn: decodes the slot `columnName` of `tuple` in place.
      An exception leaves the record as it was. */
  method GetObjectFromJsonOn(gson: Gson, cls: Class, columnName: string, tuple: Tuple) returns (thrown: Option<Error>)
    modifies tuple
    ensures match DecodeSlot(gson, cls, columnName, old(tuple.entries))
            case Ok(t) => thrown == None && tuple.entries == t
            case Err(e) => thrown == Some(e) && tuple.entries == old(tuple.entries)
  {
    var raw := Get(tuple.entries, columnName);
    if raw.Obj? {
      return Some(ClassCast);
    }
    var decoded := FromJson(gson, if raw.Str? then Some(raw.text) else None, cls);
    if decoded.Err? {
      return Some(decoded.error);
    }
    tuple.entries := tuple.entries[columnName := decoded.value];
    thrown := None;
  }

  ghost predicate InjectiveOn(f: Value -> string, s: set<Value>)
  {
    forall a, b :: a in s && b in s && f(a) == f(b) ==> a == b
  }

  /** convertKeyAndValueToJsonOn: a fresh map from each encoded key to its
      encoded value. Keys that encode alike collapse to one entry, carrying
      the encoding of one of their values. */
  method ConvertKeyAndValueToJsonOn(gson: Gson, m: map<Value, Value>) returns (jsoned: map<string, string>)
    ensures jsoned.Keys == Image(gson.toJson, m.Keys)
    ensures forall j :: j in jsoned ==> exists k :: CameFrom(gson.toJson, m, jsoned, j, k)
    ensures InjectiveOn(gson.toJson, m.Keys) ==>
              |jsoned| == |m| && forall k :: k in m ==> jsoned[gson.toJson(k)] == gson.toJson(m[k])
  {
    jsoned := map[];
    var todo := m.Keys;
    // from[j] is the key whose entry `j` came from
    ghost var from: map<string, Value> := map[];
    while todo != {}
      invariant todo <= m.Keys
      invariant EncodedSoFar(gson.toJson, m, m.Keys - todo, jsoned, from)
      decreases todo
    {
      var k :| k in todo;
      EncodedStep(gson.toJson, m, m.Keys - todo, jsoned, from, k);
      assert m.Keys - todo + {k} == m.Keys - (todo - {k});
      jsoned := jsoned[gson.toJson(k) := gson.toJson(m[k])];
      from := from[gson.toJson(k) := k];
      todo := todo - {k};
    }
    assert m.Keys - todo == m.Keys;
    EncodedEntriesFacts(gson.toJson, m, jsoned, from);
  }

  /** Entry `j` of the encoded map is the encoding of entry `k` of `m`. */
  ghost predicate CameFrom(f: Value -> string, m: map<Value, Value>, jsoned: map<string, string>, j: string, k: Value)
  {
    k in m && j in jsoned && f(k) == j && jsoned[j] == f(m[k])
  }

  /** After the entries of `done` have been put: `from` names, for each
      encoded key, the entry it came from. */
  ghost predicate EncodedSoFar(f: Value -> string, m: map<Value, Value>, done: set<Value>, jsoned: map<string, string>, from: map<string, Value>)
  {
    && done <= m.Keys
    && jsoned.Keys == from.Keys == Image(f, done)
    && forall j :: j in from ==> from[j] in done && f(from[j]) == j && jsoned[j] == f(m[from[j]])
  }

  lemma EncodedStep(f: Value -> string, m: map<Value, Value>, done: set<Value>, jsoned: map<string, string>, from: map<string, Value>, k: Value)
    requires EncodedSoFar(f, m, done, jsoned, from) && k in m
    ensures EncodedSoFar(f, m, done + {k}, jsoned[f(k) := f(m[k])], from[f(k) := k])
  {
    ImageAdd(f, done, k);
  }

  /** What the loop of convertKeyAndValueToJsonOn leaves, restated for the caller. */
  lemma EncodedEntriesFacts(f: Value -> string, m: map<Value, Value>, jsoned: map<string, string>, from: map<string, Value>)
    requires EncodedSoFar(f, m, m.Keys, jsoned, from)
    ensures forall j :: j in jsoned ==> exists k :: CameFrom(f, m, jsoned, j, k)
    ensures InjectiveOn(f, m.Keys) ==> |jsoned| == |m| && forall k :: k in m ==> jsoned[f(k)] == f(m[k])
  {
    forall j | j in jsoned
      ensures exists k :: CameFrom(f, m, jsoned, j, k)
    {
      assert CameFrom(f, m, jsoned, j, from[j]);
    }
    if InjectiveOn(f, m.Keys) {
      InjectiveImageSize(f, m.Keys);
      assert |jsoned| == |jsoned.Keys|;
      forall k | k in m
        ensures jsoned[f(k)] == f(m[k])
      {
        assert f(k) in Image(f, m.Keys);
        assert from[f(k)] == k;
      }
    }
  }

  ghost function Image(f: Value -> string, s: set<Value>): set<string>
  {
    set k | k in s :: f(k)
  }

  lemma ImageAdd(f: Value -> string, s: set<Value>, x: Value)
    ensures Image(f, s + {x}) == Image(f, s) + {f(x)}
  {
  }

  lemma {:induction false} InjectiveImageSize(f: Value -> string, s: set<Value>)
    requires InjectiveOn(f, s)
    ensures |Image(f, s)| == |s|
    decreases s
  {
    if s != {} {
      var x :| x in s;
      var rest := s - {x};
      assert InjectiveOn(f, rest);
      InjectiveImageSize(f, rest);
      assert Image(f, s) == Image(f, rest) + {f(x)};
      assert f(x) !in Image(f, rest);
    }
  }

  /** convertJsonAsNeededOn: a fresh map holding the encoding of the
      snapshot's value for every listed column (null for a missing one). */
  method ConvertJsonAsNeededOn(gson: Gson, columnNames: set<string>, snapshot: Record) returns (jsoned: map<string, string>)
    ensures jsoned.Keys == columnNames
    ensures forall c :: c in columnNames ==> jsoned[c] == gson.toJson(Get(snapshot, c))
  {
    jsoned := map[];
    var todo := columnNames;
    while todo != {}
      invariant todo <= columnNames
      invariant jsoned.Keys == columnNames - todo
      invariant forall c :: c in jsoned ==> jsoned[c] == gson.toJson(Get(snapshot, c))
      decreases todo
    {
      var c :| c in todo;
      jsoned := jsoned[c := gson.toJson(Get(snapshot, c))];
      todo := todo - {c};
    }
  }

  /** Gson's own round trip for one value, as the helper relies on it:
      null is written as the literal "null", and nothing else is. */
  ghost predicate RoundTrips(gson: Gson, v: Value)
  {
    if v == Null then gson.toJson(Null) == "null"
    else gson.toJson(v) != "null" && gson.fromJson(gson.toJson(v), ClassOf(v)) == Parsed(v)
  }

  /** A map of texts as stored in the datastore and read back as a record. */
  function StoredRecord(stored: map<string, string>): (t: Record)
    ensures t.Keys == stored.Keys
    ensures forall c :: c in stored ==> t[c] == Str(stored[c])
  {
    map c | c in stored :: Str(stored[c])
  }

  /** Writing a snapshot with convertJsonAsNeededOn and reading a column back
      with getObjectFromJsonOn at the value's own class gives back the
      snapshot's value, provided Gson round-trips it; null needs nothing of
      Gson's decoder. */
  lemma WriteThenReadRestoresValue(gson: Gson, columnNames: set<string>, snapshot: Record, stored: map<string, string>, c: string)
    requires stored.Keys == columnNames
    requires forall c' :: c' in columnNames ==> stored[c'] == gson.toJson(Get(snapshot, c'))
    requires c in columnNames && RoundTrips(gson, Get(snapshot, c))
    ensures var v := Get(snapshot, c);
            var cls := if v == Null then StringClass else ClassOf(v);
            DecodeSlot(gson, cls, c, StoredRecord(stored)) == Ok(StoredRecord(stored)[c := v])
  {
  }

  /** createKeys, as a function: each key prefixed by the field name and the
      separator. Its keys are exactly the prefixed input keys, each mapped to
      the class it had, and no two input keys collapse into one. */
  function PrefixedKeys(fieldName: string, m: ColumnMap, separator: string): (r: ColumnMap)
    ensures r.Keys == set k | k in m :: fieldName + separator + k
    ensures forall k :: k in m ==> r[fieldName + separator + k] == m[k]
    ensures |r| == |m|
  {
    var p := fieldName + separator;
    PrefixIsInjective(p);
    PrefixImageSize(p, m.Keys);
    var r := map k | k in m :: p + k := m[k];
    assert r.Keys == set k | k in m :: p + k;
    assert |r| == |r.Keys|;
    r
  }

  lemma PrefixIsInjective(p: string)
    ensures forall a: string, b: string :: p + a == p + b ==> a == b
  {
    forall a: string, b: string | p + a == p + b
      ensures a == b
    {
      assert a == (p + a)[|p|..];
      assert b == (p + b)[|p|..];
    }
  }

  lemma {:induction false} PrefixImageSize(p: string, s: set<string>)
    ensures |set k | k in s :: p + k| == |s|
    decreases s
  {
    if s != {} {
      var x :| x in s;
      PrefixImageSize(p, s - {x});
      PrefixIsInjective(p);
      assert (set k | k in s :: p + k) == (set k | k in s - {x} :: p + k) + {p + x};
      assert p + x !in (set k | k in s - {x} :: p + k);
    }
  }

  /** createKeys: fills a fresh map, one prefixed entry per input entry. */
  method CreateKeys(fieldName: string, m: ColumnMap, separator: string) returns (keyMap: ColumnMap)
    ensures keyMap == PrefixedKeys(fieldName, m, separator)
  {
    PrefixIsInjective(fieldName + separator);
    keyMap := map[];
    var todo := m.Keys;
    while todo != {}
      invariant todo <= m.Keys
      invariant keyMap.Keys == set k | k in m.Keys - todo :: fieldName + separator + k
      invariant forall k :: k in m.Keys - todo ==> keyMap[fieldName + separator + k] == m[k]
      decreases todo
    {
      var k :| k in todo;
      keyMap := keyMap[fieldName + separator + k := m[k]];
      todo := todo - {k};
    }
  }
}
