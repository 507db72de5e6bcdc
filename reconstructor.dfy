/** The record reconstruction of the JSON helper (convertFromJsonOn): for each
    declared field of an entity, decide which slots of the flat record read
    from the datastore to decode, and with which class, and decode them in
    place.

    The functions below give the outcome of each step (the record as it
    stands and the exception thrown, if any); the methods perform the steps
    on a Tuple and are proved to produce exactly those outcomes. */
module RecordReconstructor {
  import opened Model
  import opened FieldCodec

  /** The record after a step, and the exception that ended it, if any. */
  datatype Outcome = Outcome(tuple: Record, thrown: Option<Error>)

  /** The inner loop of the id fallback as it is written (it tests the
      outer iterator and advances the inner one), or as evidently intended
      (it iterates the id map). */
  datatype Variant = AsWritten | Corrected

  function SlotOutcome(r: Result<Record, Error>, t: Record): (o: Outcome)
    ensures r.Ok? ==> o == Outcome(r.value, None)
    ensures r.Err? ==> o == Outcome(t, Some(r.error))
  {
    match r
    case Ok(t') => Outcome(t', None)
    case Err(e) => Outcome(t, Some(e))
  }

  /** Decodes each listed column with its class, in order, stopping at the
      first exception; when `onlyPresent`, a column whose value is null is
      passed over. Only listed columns change, no slot is removed, and only
      a decoding exception can escape. */
  function DecodeEach(gson: Gson, t: Record, cols: seq<(string, Class)>, onlyPresent: bool): (o: Outcome)
    ensures AgreesOutside(t, o.tuple, ColumnsOf(cols))
    ensures t.Keys <= o.tuple.Keys
    ensures o.thrown != Some(NoSuchElement)
    ensures o.thrown == None && !onlyPresent ==> ColumnsOf(cols) <= o.tuple.Keys
    decreases |cols|
  {
    if cols == [] then Outcome(t, None)
    else
      var column := cols[0].0;
      assert ColumnsOf(cols) == {column} + ColumnsOf(cols[1..]);
      if onlyPresent && Get(t, column) == Null then DecodeEach(gson, t, cols[1..], onlyPresent)
      else
        match DecodeSlot(gson, cols[0].1, column, t)
        case Err(e) => Outcome(t, Some(e))
        case Ok(t') => DecodeEach(gson, t', cols[1..], onlyPresent)
  }

  /** The entries of a column map, every class replaced by String. */
  function AsStrings(cols: seq<(string, Class)>): (r: seq<(string, Class)>)
    ensures |r| == |cols| && ColumnsOf(r) == ColumnsOf(cols)
    ensures forall i :: 0 <= i < |r| ==> r[i] == (cols[i].0, StringClass)
  {
    var r := seq(|cols|, i requires 0 <= i < |cols| => (cols[i].0, StringClass));
    assert forall k :: k in ColumnsOf(cols) ==> k in ColumnsOf(r) by {
      forall k | k in ColumnsOf(cols) ensures k in ColumnsOf(r) {
        var i :| 0 <= i < |cols| && cols[i].0 == k;
        assert r[i].0 == k;
      }
    }
    r
  }

  /** The record keys of an embedded field's declared sub-fields, read as String. */
  function SubFieldColumns(fieldName: string, subFields: seq<string>): (r: seq<(string, Class)>)
    ensures |r| == |subFields|
    ensures forall i :: 0 <= i < |r| ==> r[i] == (fieldName + "." + subFields[i], StringClass)
  {
    seq(|subFields|, i requires 0 <= i < |subFields| => (fieldName + "." + subFields[i], StringClass))
  }

  /** The class a present field's slot is decoded with: String for the four
      textual types whether or not the type is an entity, otherwise the
      value's runtime class for an entity and the declared type for the rest. */
  function PresentTarget(finder: Finder, f: Field, obj: Value): (r: Class)
    requires obj != Null
    ensures IsReturnAsString(f.fieldType) ==> r == StringClass
    ensures !IsReturnAsString(f.fieldType) && finder.isEntityAnnotated(f.fieldType) ==> r == ClassOf(obj)
    ensures !IsReturnAsString(f.fieldType) && !finder.isEntityAnnotated(f.fieldType) ==> r == f.fieldType
  {
    if finder.isEntityAnnotated(f.fieldType) then
      if IsReturnAsString(f.fieldType) then StringClass else ClassOf(obj)
    else
      if IsReturnAsString(f.fieldType) then StringClass else f.fieldType
  }

  /** The columns of an absent association: its join columns, or, when it
      has none, its id columns prefixed by the field name and "_". */
  function AssociationColumns(finder: Finder, f: Field): (r: ColumnMap)
    ensures var joins := finder.findAllJoinColumnNamesFrom(f.fieldType, "", true);
            var ids := finder.findAllIdsFrom(f.fieldType, "", true);
            if |joins| == 0 then r.Keys == (set k | k in ids :: f.name + "_" + k) && |r| == |ids|
            else r == joins
  {
    var joins := finder.findAllJoinColumnNamesFrom(f.fieldType, "", true);
    if |joins| == 0 then PrefixedKeys(f.name, finder.findAllIdsFrom(f.fieldType, "", true), "_")
    else joins
  }

  function IdColumns(finder: Finder, fieldType: Class): ColumnMap
  {
    finder.findAllIdsFrom(fieldType, "", true)
  }

  /** The fallback for an absent column of a plain field: decode the present
      id columns of the field's type. As written, the loop runs only while
      the OUTER iterator has a next entry: if it has none, nothing happens;
      otherwise the id entries are all consumed and the next call to next()
      throws. */
  function IdFallback(env: Env, t: Record, fieldType: Class, outerHasNext: bool, variant: Variant): (o: Outcome)
    ensures AgreesOutside(t, o.tuple, ColumnsOf(env.iterate(IdColumns(env.finder, fieldType))))
    ensures t.Keys <= o.tuple.Keys
    ensures variant == Corrected ==> o.thrown != Some(NoSuchElement)
  {
    var ids := IdColumns(env.finder, fieldType);
    if |ids| == 0 then Outcome(t, None)
    else
      match variant
      case AsWritten =>
        if !outerHasNext then Outcome(t, None)
        else
          var o := DecodeEach(env.gson, t, env.iterate(ids), true);
          if o.thrown.Some? then o else Outcome(o.tuple, Some(NoSuchElement))
      case Corrected =>
        DecodeEach(env.gson, t, env.iterate(ids), true)
  }

  /** The loop over the column map of a plain field whose own slot is null. */
  function PlainColumns(env: Env, t: Record, fieldType: Class, cols: seq<(string, Class)>, variant: Variant): (o: Outcome)
    ensures AgreesOutside(t, o.tuple, ColumnsOf(cols) + ColumnsOf(env.iterate(IdColumns(env.finder, fieldType))))
    ensures t.Keys <= o.tuple.Keys
    ensures variant == Corrected ==> o.thrown != Some(NoSuchElement)
    decreases |cols|
  {
    if cols == [] then Outcome(t, None)
    else
      var column := cols[0].0;
      assert ColumnsOf(cols) == {column} + ColumnsOf(cols[1..]);
      var step := PlainColumnStep(env, t, fieldType, column, |cols| > 1, variant);
      if step.thrown.Some? then step
      else PlainColumns(env, step.tuple, fieldType, cols[1..], variant)
  }

  /** One column of a plain field's column map: as String for the four
      textual types, with the field's type when the slot is present, and
      otherwise the id fallback. */
  function PlainColumnStep(env: Env, t: Record, fieldType: Class, column: string, outerHasNext: bool, variant: Variant): (o: Outcome)
    ensures AgreesOutside(t, o.tuple, {column} + ColumnsOf(env.iterate(IdColumns(env.finder, fieldType))))
    ensures t.Keys <= o.tuple.Keys
    ensures variant == Corrected ==> o.thrown != Some(NoSuchElement)
  {
    if IsReturnAsString(fieldType) then SlotOutcome(DecodeSlot(env.gson, StringClass, column, t), t)
    else if Get(t, column) != Null then SlotOutcome(DecodeSlot(env.gson, fieldType, column, t), t)
    else IdFallback(env, t, fieldType, outerHasNext, variant)
  }

  /** An absent embedded field: its present sub-field slots as String, then
      every column of its column map and of its join-column map with the
      class the map gives. */
  function EmbeddedStep(env: Env, t: Record, f: Field): (o: Outcome)
    ensures t.Keys <= o.tuple.Keys
    ensures o.thrown != Some(NoSuchElement)
  {
    var ft := f.fieldType;
    var subs := DecodeEach(env.gson, t, SubFieldColumns(f.name, env.finder.declaredFieldNames(ft)), true);
    if subs.thrown.Some? then subs
    else
      var columns := DecodeEach(env.gson, subs.tuple, env.iterate(env.finder.findAllColumnNamesFrom(ft, "", false)), false);
      if columns.thrown.Some? then columns
      else DecodeEach(env.gson, columns.tuple, env.iterate(env.finder.findAllJoinColumnNamesFrom(ft, "", false)), false)
  }

  /** One iteration of convertFromJsonOn's loop over the fields. It removes
      no slot, and only the id fallback as written can exhaust an iterator. */
  function FieldStep(env: Env, t: Record, f: Field, variant: Variant): (o: Outcome)
    ensures t.Keys <= o.tuple.Keys
    ensures variant == Corrected ==> o.thrown != Some(NoSuchElement)
  {
    if f.isTransient then Outcome(t, None)
    else
      var obj := Get(t, f.name);
      if obj != Null then
        SlotOutcome(DecodeSlot(env.gson, PresentTarget(env.finder, f, obj), f.name, t), t)
      else if env.finder.isEntityAnnotated(f.fieldType) then
        DecodeEach(env.gson, t, AsStrings(env.iterate(AssociationColumns(env.finder, f))), true)
      else if env.finder.isEmbeddableAnnotated(f.fieldType) then
        EmbeddedStep(env, t, f)
      else
        PlainColumns(env, t, f.fieldType,
                     env.iterate(env.finder.findAllColumnNamesFrom(f.declaringClass, f.name, true)), variant)
  }

  /** convertFromJsonOn: the fields in order, stopping at the first
      exception. Every slot of the record read from the datastore is still
      there afterwards, whether or not an exception ended the walk. */
  function Reconstruct(env: Env, t: Record, fields: seq<Field>, variant: Variant): (o: Outcome)
    ensures t.Keys <= o.tuple.Keys
    decreases |fields|
  {
    if fields == [] then Outcome(t, None)
    else
      var o := FieldStep(env, t, fields[0], variant);
      if o.thrown.Some? then o else Reconstruct(env, o.tuple, fields[1..], variant)
  }

  // ---------------------------------------------------------------------
  // What one step does, and what it leaves alone.

  lemma AgreesOutsideTrans(t0: Record, t1: Record, t2: Record, a: set<string>, b: set<string>)
    requires AgreesOutside(t0, t1, a) && AgreesOutside(t1, t2, b)
    ensures AgreesOutside(t0, t2, a + b)
  {
  }

  lemma {:induction false} DistinctSuffix(cols: seq<(string, Class)>)
    requires DistinctColumns(cols) && cols != []
    ensures DistinctColumns(cols[1..]) && cols[0].0 !in ColumnsOf(cols[1..])
  {
    forall j | 0 <= j < |cols[1..]|
      ensures cols[1..][j].0 != cols[0].0
    {
      assert cols[1..][j] == cols[j + 1];
    }
  }

  /** After a run of DecodeEach that threw nothing, over distinct columns:
      a skipped column is as it was, and every other column holds its old
      value decoded with the column's class. */
  lemma {:induction false} DecodeEachEffect(gson: Gson, t: Record, cols: seq<(string, Class)>, onlyPresent: bool, i: nat)
    requires DistinctColumns(cols) && i < |cols|
    requires DecodeEach(gson, t, cols, onlyPresent).thrown == None
    ensures var k := cols[i].0;
            var o := DecodeEach(gson, t, cols, onlyPresent);
            if onlyPresent && Get(t, k) == Null then (k in o.tuple <==> k in t) && (k in t ==> o.tuple[k] == t[k])
            else k in o.tuple && DecodeValue(gson, cols[i].1, Get(t, k)) == Ok(o.tuple[k])
    decreases |cols|
  {
    DistinctSuffix(cols);
    var k0 := cols[0].0;
    if onlyPresent && Get(t, k0) == Null {
      if i > 0 {
        DecodeEachEffect(gson, t, cols[1..], onlyPresent, i - 1);
      }
    } else {
      var t' := DecodeSlot(gson, cols[0].1, k0, t).value;
      if i > 0 {
        assert cols[1..][i - 1] == cols[i];
        DecodeEachEffect(gson, t', cols[1..], onlyPresent, i - 1);
        assert Get(t', cols[i].0) == Get(t, cols[i].0);
      }
    }
  }

  /** DecodeEach over the entries of a column map, seen from the map. */
  lemma DecodeMapEffect(gson: Gson, t: Record, m: ColumnMap, es: seq<(string, Class)>, onlyPresent: bool, c: string)
    requires Enumerates(es, m) && c in m
    requires DecodeEach(gson, t, es, onlyPresent).thrown == None
    ensures var o := DecodeEach(gson, t, es, onlyPresent);
            if onlyPresent && Get(t, c) == Null then (c in o.tuple <==> c in t) && (c in t ==> o.tuple[c] == t[c])
            else c in o.tuple && DecodeValue(gson, m[c], Get(t, c)) == Ok(o.tuple[c])
  {
    assert c in ColumnsOf(es);
    var i :| 0 <= i < |es| && es[i].0 == c;
    DecodeEachEffect(gson, t, es, onlyPresent, i);
  }

  /** Decoding all fields when every field is transient changes nothing. */
  lemma {:induction false} TransientFieldsChangeNothing(env: Env, t: Record, fields: seq<Field>, variant: Variant)
    requires forall i :: 0 <= i < |fields| ==> fields[i].isTransient
    ensures Reconstruct(env, t, fields, variant) == Outcome(t, None)
    decreases |fields|
  {
    if fields != [] {
      TransientFieldsChangeNothing(env, t, fields[1..], variant);
    }
  }

  /** A field whose own slot is present is decoded at that slot and nowhere
      else: as String for the four textual types, otherwise with the
      value's runtime class for an entity type, otherwise with the declared
      type. */
  lemma PresentFieldDecodesItsOwnSlot(env: Env, t: Record, f: Field, variant: Variant)
    requires !f.isTransient && Get(t, f.name) != Null
    ensures var obj := t[f.name];
            var ft := f.fieldType;
            var target := if IsReturnAsString(ft) then StringClass
                          else if env.finder.isEntityAnnotated(ft) then ClassOf(obj)
                          else ft;
            var o := FieldStep(env, t, f, variant);
            && AgreesOutside(t, o.tuple, {f.name})
            && (o.thrown == None <==> DecodeValue(env.gson, target, obj).Ok?)
            && (o.thrown == None ==> DecodeValue(env.gson, target, obj) == Ok(o.tuple[f.name]))
  {
  }

  /** A present entity-typed slot that decodes at all was a String and is
      decoded as a String: its runtime class can only be String. */
  lemma PresentEntityFieldReadAsString(env: Env, t: Record, f: Field, variant: Variant)
    requires !f.isTransient && Get(t, f.name) != Null && env.finder.isEntityAnnotated(f.fieldType)
    requires FieldStep(env, t, f, variant).thrown == None
    ensures t[f.name].Str?
    ensures f.name in FieldStep(env, t, f, variant).tuple
    ensures FromJson(env.gson, Some(t[f.name].text), StringClass) == Ok(FieldStep(env, t, f, variant).tuple[f.name])
  {
  }

  /** The record keys of an embedded field's declared sub-fields. */
  function SubFieldKeys(fieldName: string, subFields: seq<string>): set<string>
  {
    set s | s in subFields :: fieldName + "." + s
  }

  lemma SubFieldColumnsKeys(fieldName: string, subFields: seq<string>)
    ensures ColumnsOf(SubFieldColumns(fieldName, subFields)) == SubFieldKeys(fieldName, subFields)
  {
    var cols := SubFieldColumns(fieldName, subFields);
    forall k | k in SubFieldKeys(fieldName, subFields)
      ensures k in ColumnsOf(cols)
    {
      var s :| s in subFields && k == fieldName + "." + s;
      var i :| 0 <= i < |subFields| && subFields[i] == s;
      assert cols[i].0 == k;
    }
  }

  /** The slots one field's step may touch, by branch. */
  function Touched(finder: Finder, t: Record, f: Field): set<string>
  {
    var ft := f.fieldType;
    if f.isTransient then {}
    else if Get(t, f.name) != Null then {f.name}
    else if finder.isEntityAnnotated(ft) then AssociationColumns(finder, f).Keys
    else if finder.isEmbeddableAnnotated(ft) then
      SubFieldKeys(f.name, finder.declaredFieldNames(ft))
        + finder.findAllColumnNamesFrom(ft, "", false).Keys
        + finder.findAllJoinColumnNamesFrom(ft, "", false).Keys
    else finder.findAllColumnNamesFrom(f.declaringClass, f.name, true).Keys + IdColumns(finder, ft).Keys
  }

  /** A field's step changes no slot outside the ones its branch selects:
      a transient field none, a present field its own, an association its
      join (or prefixed id) columns, an embedded field its sub-field, column
      and join-column slots, a plain field its columns and its type's ids. */
  lemma FieldStepFrame(env: Env, t: Record, f: Field, variant: Variant)
    requires IterationSound(env)
    ensures AgreesOutside(t, FieldStep(env, t, f, variant).tuple, Touched(env.finder, t, f))
  {
    var ft := f.fieldType;
    if !f.isTransient && Get(t, f.name) == Null {
      if env.finder.isEntityAnnotated(ft) {
        assert Enumerates(env.iterate(AssociationColumns(env.finder, f)), AssociationColumns(env.finder, f));
      } else if env.finder.isEmbeddableAnnotated(ft) {
        var cm := env.finder.findAllColumnNamesFrom(ft, "", false);
        var jm := env.finder.findAllJoinColumnNamesFrom(ft, "", false);
        assert Enumerates(env.iterate(cm), cm);
        assert Enumerates(env.iterate(jm), jm);
        SubFieldColumnsKeys(f.name, env.finder.declaredFieldNames(ft));
        var subs := DecodeEach(env.gson, t, SubFieldColumns(f.name, env.finder.declaredFieldNames(ft)), true);
        if subs.thrown.None? {
          var columns := DecodeEach(env.gson, subs.tuple, env.iterate(cm), false);
          AgreesOutsideTrans(t, subs.tuple, columns.tuple, SubFieldKeys(f.name, env.finder.declaredFieldNames(ft)), cm.Keys);
          if columns.thrown.None? {
            var joins := DecodeEach(env.gson, columns.tuple, env.iterate(jm), false);
            AgreesOutsideTrans(t, columns.tuple, joins.tuple, SubFieldKeys(f.name, env.finder.declaredFieldNames(ft)) + cm.Keys, jm.Keys);
          }
        }
      } else {
        var cm := env.finder.findAllColumnNamesFrom(f.declaringClass, f.name, true);
        assert Enumerates(env.iterate(cm), cm);
        assert Enumerates(env.iterate(IdColumns(env.finder, ft)), IdColumns(env.finder, ft));
      }
    }
  }

  /** The slots a field's step may select, whatever the record holds: none
      for a transient field, otherwise its own slot and the slots of its
      category's branch. */
  function MaySelect(finder: Finder, f: Field): set<string>
  {
    var ft := f.fieldType;
    if f.isTransient then {}
    else
      {f.name} +
      (if finder.isEntityAnnotated(ft) then AssociationColumns(finder, f).Keys
       else if finder.isEmbeddableAnnotated(ft) then
         SubFieldKeys(f.name, finder.declaredFieldNames(ft))
           + finder.findAllColumnNamesFrom(ft, "", false).Keys
           + finder.findAllJoinColumnNamesFrom(ft, "", false).Keys
       else finder.findAllColumnNamesFrom(f.declaringClass, f.name, true).Keys + IdColumns(finder, ft).Keys)
  }

  /** The slots any of the fields may select. */
  function Selected(finder: Finder, fields: seq<Field>): set<string>
    decreases |fields|
  {
    if fields == [] then {} else MaySelect(finder, fields[0]) + Selected(finder, fields[1..])
  }

  /** The whole walk of convertFromJsonOn changes no slot that none of the
      fields may select, whether it completes or an exception ends it. */
  lemma {:induction false} ReconstructFrame(env: Env, t: Record, fields: seq<Field>, variant: Variant)
    requires IterationSound(env)
    ensures AgreesOutside(t, Reconstruct(env, t, fields, variant).tuple, Selected(env.finder, fields))
    decreases |fields|
  {
    if fields != [] {
      var f := fields[0];
      var o := FieldStep(env, t, f, variant);
      FieldStepFrame(env, t, f, variant);
      assert Touched(env.finder, t, f) <= MaySelect(env.finder, f);
      if o.thrown.None? {
        ReconstructFrame(env, o.tuple, fields[1..], variant);
        AgreesOutsideTrans(t, o.tuple, Reconstruct(env, o.tuple, fields[1..], variant).tuple,
                           Touched(env.finder, t, f), Selected(env.finder, fields[1..]));
      }
    }
  }

  /** An absent association reads exactly its association columns that are
      present, each as a String, and leaves the absent ones as they were. */
  lemma AssociationReadsPresentColumnsAsStrings(env: Env, t: Record, f: Field, variant: Variant, c: string)
    requires IterationSound(env)
    requires !f.isTransient && Get(t, f.name) == Null && env.finder.isEntityAnnotated(f.fieldType)
    requires FieldStep(env, t, f, variant).thrown == None
    requires c in AssociationColumns(env.finder, f)
    ensures var o := FieldStep(env, t, f, variant);
            if Get(t, c) == Null then (c in o.tuple <==> c in t) && (c in t ==> o.tuple[c] == t[c])
            else t[c].Str? && c in o.tuple && FromJson(env.gson, Some(t[c].text), StringClass) == Ok(o.tuple[c])
  {
    var m := AssociationColumns(env.finder, f);
    var es := env.iterate(m);
    assert Enumerates(es, m);
    assert c in ColumnsOf(es);
    var i :| 0 <= i < |es| && es[i].0 == c;
    var strs := AsStrings(es);
    assert DistinctColumns(strs) by {
      forall a, b | 0 <= a < b < |strs| ensures strs[a].0 != strs[b].0 {
        assert strs[a].0 == es[a].0 && strs[b].0 == es[b].0;
      }
    }
    DecodeEachEffect(env.gson, t, strs, true, i);
  }

  /** The slots of an embedded field's three loops are distinct. */
  ghost predicate EmbeddedSlotsDisjoint(finder: Finder, f: Field)
  {
    var ft := f.fieldType;
    var subs := finder.declaredFieldNames(ft);
    var sk := SubFieldKeys(f.name, subs);
    var ck := finder.findAllColumnNamesFrom(ft, "", false).Keys;
    var jk := finder.findAllJoinColumnNamesFrom(ft, "", false).Keys;
    && (forall i, j :: 0 <= i < j < |subs| ==> subs[i] != subs[j])
    && sk !! ck && sk !! jk && ck !! jk
  }

  /** An absent embedded field, when its sub-field, column and join-column
      slots are distinct: each present sub-field slot is read as a String,
      each null one is left as it was, and every column and join column is read with the class its map
      gives (a missing one becoming null). */
  lemma EmbeddedReadsSubFieldsAndColumns(env: Env, t: Record, f: Field, variant: Variant)
    requires IterationSound(env) && EmbeddedSlotsDisjoint(env.finder, f)
    requires !f.isTransient && Get(t, f.name) == Null
    requires !env.finder.isEntityAnnotated(f.fieldType) && env.finder.isEmbeddableAnnotated(f.fieldType)
    requires FieldStep(env, t, f, variant).thrown == None
    ensures var ft := f.fieldType;
            var o := FieldStep(env, t, f, variant);
            var cm := env.finder.findAllColumnNamesFrom(ft, "", false);
            var jm := env.finder.findAllJoinColumnNamesFrom(ft, "", false);
            && (forall s :: s in env.finder.declaredFieldNames(ft) && Get(t, f.name + "." + s) != Null ==>
                  f.name + "." + s in o.tuple &&
                  DecodeValue(env.gson, StringClass, t[f.name + "." + s]) == Ok(o.tuple[f.name + "." + s]))
            && (forall s :: s in env.finder.declaredFieldNames(ft) && Get(t, f.name + "." + s) == Null ==>
                  (f.name + "." + s in o.tuple <==> f.name + "." + s in t) &&
                  (f.name + "." + s in t ==> o.tuple[f.name + "." + s] == t[f.name + "." + s]))
            && (forall c :: c in cm ==> c in o.tuple && DecodeValue(env.gson, cm[c], Get(t, c)) == Ok(o.tuple[c]))
            && (forall c :: c in jm ==> c in o.tuple && DecodeValue(env.gson, jm[c], Get(t, c)) == Ok(o.tuple[c]))
  {
    var ft := f.fieldType;
    var names := env.finder.declaredFieldNames(ft);
    var cm := env.finder.findAllColumnNamesFrom(ft, "", false);
    var jm := env.finder.findAllJoinColumnNamesFrom(ft, "", false);
    var sc := SubFieldColumns(f.name, names);
    assert FieldStep(env, t, f, variant) == EmbeddedStep(env, t, f);
    SubFieldColumnsKeys(f.name, names);
    assert Enumerates(env.iterate(cm), cm) && Enumerates(env.iterate(jm), jm);
    assert DistinctColumns(sc) by {
      PrefixIsInjective(f.name + ".");
      forall a, b | 0 <= a < b < |sc| ensures sc[a].0 != sc[b].0 {
        assert sc[a].0 == f.name + "." + names[a] && sc[b].0 == f.name + "." + names[b];
      }
    }
    var o := EmbeddedPhases(env.gson, t, sc, env.iterate(cm), cm, env.iterate(jm), jm);
    forall s | s in names && Get(t, f.name + "." + s) != Null
      ensures f.name + "." + s in o.tuple && DecodeValue(env.gson, StringClass, t[f.name + "." + s]) == Ok(o.tuple[f.name + "." + s])
    {
      var i :| 0 <= i < |names| && names[i] == s;
      assert sc[i] == (f.name + "." + s, StringClass);
    }
    forall s | s in names && Get(t, f.name + "." + s) == Null
      ensures (f.name + "." + s in o.tuple <==> f.name + "." + s in t)
      ensures f.name + "." + s in t ==> o.tuple[f.name + "." + s] == t[f.name + "." + s]
    {
      var i :| 0 <= i < |names| && names[i] == s;
      assert sc[i] == (f.name + "." + s, StringClass);
    }
  }

  /** The three loops of the embedded branch over distinct slots, each
      completing: every slot ends up decoded from its original value, except
      a null sub-field slot, which is left as it was. */
  lemma EmbeddedPhases(gson: Gson, t: Record, sc: seq<(string, Class)>,
                       ce: seq<(string, Class)>, cm: ColumnMap, je: seq<(string, Class)>, jm: ColumnMap)
    returns (o: Outcome)
    requires DistinctColumns(sc) && Enumerates(ce, cm) && Enumerates(je, jm)
    requires ColumnsOf(sc) !! cm.Keys && ColumnsOf(sc) !! jm.Keys && cm.Keys !! jm.Keys
    requires var s1 := DecodeEach(gson, t, sc, true);
             var s2 := DecodeEach(gson, s1.tuple, ce, false);
             s1.thrown == None && s2.thrown == None && DecodeEach(gson, s2.tuple, je, false).thrown == None
    ensures o == DecodeEach(gson, DecodeEach(gson, DecodeEach(gson, t, sc, true).tuple, ce, false).tuple, je, false)
    ensures forall i :: 0 <= i < |sc| && Get(t, sc[i].0) != Null ==>
              sc[i].0 in o.tuple && DecodeValue(gson, sc[i].1, t[sc[i].0]) == Ok(o.tuple[sc[i].0])
    ensures forall i :: 0 <= i < |sc| && Get(t, sc[i].0) == Null ==>
              (sc[i].0 in o.tuple <==> sc[i].0 in t) && (sc[i].0 in t ==> o.tuple[sc[i].0] == t[sc[i].0])
    ensures forall c :: c in cm ==> c in o.tuple && DecodeValue(gson, cm[c], Get(t, c)) == Ok(o.tuple[c])
    ensures forall c :: c in jm ==> c in o.tuple && DecodeValue(gson, jm[c], Get(t, c)) == Ok(o.tuple[c])
  {
    var s1 := DecodeEach(gson, t, sc, true);
    var s2 := DecodeEach(gson, s1.tuple, ce, false);
    o := DecodeEach(gson, s2.tuple, je, false);
    forall i | 0 <= i < |sc|
      ensures Get(t, sc[i].0) != Null ==>
                sc[i].0 in o.tuple && DecodeValue(gson, sc[i].1, t[sc[i].0]) == Ok(o.tuple[sc[i].0])
      ensures Get(t, sc[i].0) == Null ==>
                (sc[i].0 in o.tuple <==> sc[i].0 in t) && (sc[i].0 in t ==> o.tuple[sc[i].0] == t[sc[i].0])
    {
      DecodeEachEffect(gson, t, sc, true, i);
      assert sc[i].0 in ColumnsOf(sc);
    }
    forall c | c in cm
      ensures c in o.tuple && DecodeValue(gson, cm[c], Get(t, c)) == Ok(o.tuple[c])
    {
      DecodeMapEffect(gson, s1.tuple, cm, ce, false, c);
    }
    forall c | c in jm
      ensures c in o.tuple && DecodeValue(gson, jm[c], Get(t, c)) == Ok(o.tuple[c])
    {
      DecodeMapEffect(gson, s2.tuple, jm, je, false, c);
    }
  }

  // ---------------------------------------------------------------------
  // The plain-field branch.

  /** A field of one of the four textual types never takes the id fallback:
      its column loop is the decoding loop with every class replaced by String. */
  lemma {:induction false} TextualPlainColumnsAreStrings(env: Env, t: Record, fieldType: Class, cols: seq<(string, Class)>, variant: Variant)
    requires IsReturnAsString(fieldType)
    ensures PlainColumns(env, t, fieldType, cols, variant) == DecodeEach(env.gson, t, AsStrings(cols), false)
    decreases |cols|
  {
    if cols != [] {
      PlainColumnsUnfold(env, t, fieldType, cols, variant);
      var a := AsStrings(cols);
      assert a[0] == (cols[0].0, StringClass);
      assert a[1..] == AsStrings(cols[1..]);
      var step := PlainColumnStep(env, t, fieldType, cols[0].0, |cols| > 1, variant);
      if step.thrown.None? {
        TextualPlainColumnsAreStrings(env, step.tuple, fieldType, cols[1..], variant);
      }
    }
  }

  /** For a textual field type every column is read as String, a missing
      one becoming null. */
  lemma TextualPlainColumnsReadAsStrings(env: Env, t: Record, fieldType: Class, cols: seq<(string, Class)>, variant: Variant, i: nat)
    requires IsReturnAsString(fieldType) && DistinctColumns(cols) && i < |cols|
    requires PlainColumns(env, t, fieldType, cols, variant).thrown == None
    ensures var c := cols[i].0;
            var o := PlainColumns(env, t, fieldType, cols, variant);
            c in o.tuple && DecodeValue(env.gson, StringClass, Get(t, c)) == Ok(o.tuple[c])
  {
    TextualPlainColumnsAreStrings(env, t, fieldType, cols, variant);
    var a := AsStrings(cols);
    assert DistinctColumns(a) by {
      forall x, y | 0 <= x < y < |a| ensures a[x].0 != a[y].0 {
        assert a[x].0 == cols[x].0 && a[y].0 == cols[y].0;
      }
    }
    DecodeEachEffect(env.gson, t, a, false, i);
  }

  /** For any other field type, a column present in the record is read with
      the field's declared type, provided the field's columns are not also
      id columns of its type (which the fallback would decode). */
  lemma PresentPlainColumnReadWithDeclaredType(env: Env, t: Record, fieldType: Class, cols: seq<(string, Class)>, variant: Variant, i: nat)
    requires IterationSound(env)
    requires !IsReturnAsString(fieldType) && DistinctColumns(cols)
    requires ColumnsOf(cols) !! IdColumns(env.finder, fieldType).Keys
    requires i < |cols| && Get(t, cols[i].0) != Null
    requires PlainColumns(env, t, fieldType, cols, variant).thrown == None
    ensures var c := cols[i].0;
            var o := PlainColumns(env, t, fieldType, cols, variant);
            c in o.tuple && DecodeValue(env.gson, fieldType, t[c]) == Ok(o.tuple[c])
  {
    var ids := IdColumns(env.finder, fieldType);
    assert Enumerates(env.iterate(ids), ids);
    PresentColumnDecoded(env, t, fieldType, cols, variant, i);
  }

  /** The induction behind PresentPlainColumnReadWithDeclaredType, with the
      id columns given as the fallback iterates them. */
  lemma {:induction false} PresentColumnDecoded(env: Env, t: Record, fieldType: Class, cols: seq<(string, Class)>, variant: Variant, i: nat)
    requires !IsReturnAsString(fieldType) && DistinctColumns(cols)
    requires ColumnsOf(cols) !! ColumnsOf(env.iterate(IdColumns(env.finder, fieldType)))
    requires i < |cols| && Get(t, cols[i].0) != Null
    requires PlainColumns(env, t, fieldType, cols, variant).thrown == None
    ensures var c := cols[i].0;
            var o := PlainColumns(env, t, fieldType, cols, variant);
            c in o.tuple && DecodeValue(env.gson, fieldType, t[c]) == Ok(o.tuple[c])
    decreases |cols|
  {
    DistinctSuffix(cols);
    PlainColumnsUnfold(env, t, fieldType, cols, variant);
    var idCols := ColumnsOf(env.iterate(IdColumns(env.finder, fieldType)));
    assert ColumnsOf(cols) == {cols[0].0} + ColumnsOf(cols[1..]);
    var step := PlainColumnStep(env, t, fieldType, cols[0].0, |cols| > 1, variant);
    var c := cols[i].0;
    if i == 0 {
      FirstPresentColumnDecoded(env, t, fieldType, cols, variant);
    } else {
      assert cols[1..][i - 1] == cols[i];
      assert c in ColumnsOf(cols[1..]) && c != cols[0].0 && c !in idCols;
      assert step.thrown == None;
      assert PlainColumns(env, t, fieldType, cols, variant) == PlainColumns(env, step.tuple, fieldType, cols[1..], variant);
      assert Get(step.tuple, c) == Get(t, c);
      assert ColumnsOf(cols[1..]) !! idCols;
      PresentColumnDecoded(env, step.tuple, fieldType, cols[1..], variant, i - 1);
    }
  }

  /** The base case of PresentColumnDecoded: the first column is decoded by
      the first step, and the rest of the loop does not touch it. */
  lemma FirstPresentColumnDecoded(env: Env, t: Record, fieldType: Class, cols: seq<(string, Class)>, variant: Variant)
    requires !IsReturnAsString(fieldType) && cols != [] && cols[0].0 !in ColumnsOf(cols[1..])
    requires cols[0].0 !in ColumnsOf(env.iterate(IdColumns(env.finder, fieldType)))
    requires Get(t, cols[0].0) != Null
    requires PlainColumns(env, t, fieldType, cols, variant).thrown == None
    ensures var c := cols[0].0;
            var o := PlainColumns(env, t, fieldType, cols, variant);
            c in o.tuple && DecodeValue(env.gson, fieldType, t[c]) == Ok(o.tuple[c])
  {
    PlainColumnsUnfold(env, t, fieldType, cols, variant);
    var step := PlainColumnStep(env, t, fieldType, cols[0].0, |cols| > 1, variant);
    assert step == SlotOutcome(DecodeSlot(env.gson, fieldType, cols[0].0, t), t);
  }

  /** As written, the id fallback does nothing when the outer iterator has
      no next entry, and otherwise always ends in an exception. */
  lemma AsWrittenFallbackNoOpOrThrows(env: Env, t: Record, fieldType: Class, outerHasNext: bool)
    ensures var o := IdFallback(env, t, fieldType, outerHasNext, AsWritten);
            && (!outerHasNext ==> o == Outcome(t, None))
            && (outerHasNext && |IdColumns(env.finder, fieldType)| > 0 ==> o.thrown.Some?)
  {
  }

  // ---------------------------------------------------------------------
  // The id fallback: as written, and as evidently intended.

  /** As written, a plain field with two null columns and an id-bearing type
      always ends in an exception, whatever else the record holds: the first
      null column met is not the last one iterated, so the inner loop runs
      until the id iterator is exhausted. */
  lemma {:induction false} AsWrittenTwoNullColumnsThrow(env: Env, t: Record, fieldType: Class, cols: seq<(string, Class)>, i: nat, j: nat)
    requires DistinctColumns(cols)
    requires !IsReturnAsString(fieldType) && |IdColumns(env.finder, fieldType)| > 0
    requires i < j < |cols| && Get(t, cols[i].0) == Null && Get(t, cols[j].0) == Null
    ensures PlainColumns(env, t, fieldType, cols, AsWritten).thrown.Some?
    decreases |cols|
  {
    DistinctSuffix(cols);
    if Get(t, cols[0].0) != Null {
      var step := PlainColumnStep(env, t, fieldType, cols[0].0, |cols| > 1, AsWritten);
      if step.thrown.None? {
        assert cols[1..][i - 1] == cols[i] && cols[1..][j - 1] == cols[j];
        assert cols[i].0 != cols[0].0 && cols[j].0 != cols[0].0;
        AsWrittenTwoNullColumnsThrow(env, step.tuple, fieldType, cols[1..], i - 1, j - 1);
      }
    }
  }

  const WitnessLong := Class("java.lang.Long")
  const WitnessColumns: ColumnMap := map["home_street" := WitnessLong, "home_zip" := WitnessLong]
  const WitnessIds: ColumnMap := map["id" := WitnessLong]

  /** A codec that keeps texts as they are, and metadata for one plain
      field "home" of a type with two columns and a one-column id. */
  function WitnessEnv(): Env
  {
    Env(Gson(v => "null", (s, c) => Parsed(Str(s))),
        Finder(c => false, c => false, c => [],
               (c, p, r) => WitnessColumns, (c, p, r) => map[], (c, p, r) => WitnessIds),
        m => if "id" in m then [("id", WitnessLong)] else [("home_street", WitnessLong), ("home_zip", WitnessLong)])
  }

  const WitnessField := Field("home", Class("Address"), Class("Person"), false)

  lemma WitnessMetadata()
    ensures WitnessEnv().iterate(WitnessColumns) == [("home_street", WitnessLong), ("home_zip", WitnessLong)]
    ensures WitnessEnv().iterate(WitnessIds) == [("id", WitnessLong)]
    ensures Enumerates(WitnessEnv().iterate(WitnessColumns), WitnessColumns)
    ensures Enumerates(WitnessEnv().iterate(WitnessIds), WitnessIds)
    ensures !IsReturnAsString(Class("Address"))
  {
    var es := [("home_street", WitnessLong), ("home_zip", WitnessLong)];
    var idEs := [("id", WitnessLong)];
    assert "id" !in WitnessColumns && "id" in WitnessIds;
    assert ColumnsOf(es) == WitnessColumns.Keys by {
      assert es[0].0 == "home_street" && es[1].0 == "home_zip";
    }
    assert ColumnsOf(idEs) == WitnessIds.Keys by {
      assert idEs[0].0 == "id";
    }
  }

  /** With no slot present, the fallback finds no id to decode. */
  lemma WitnessFallback(variant: Variant, outerHasNext: bool)
    ensures IdFallback(WitnessEnv(), map[], Class("Address"), outerHasNext, variant)
            == if variant == AsWritten && outerHasNext then Outcome(map[], Some(NoSuchElement)) else Outcome(map[], None)
  {
    WitnessMetadata();
    var idEs := [("id", WitnessLong)];
    assert DecodeEach(WitnessEnv().gson, map[], idEs[1..], true) == Outcome(map[], None);
    assert DecodeEach(WitnessEnv().gson, map[], idEs, true) == Outcome(map[], None);
  }

  lemma WitnessPlainColumns(variant: Variant)
    ensures PlainColumns(WitnessEnv(), map[], Class("Address"), WitnessEnv().iterate(WitnessColumns), variant)
            == if variant == AsWritten then Outcome(map[], Some(NoSuchElement)) else Outcome(map[], None)
  {
    WitnessMetadata();
    var env := WitnessEnv();
    var es := [("home_street", WitnessLong), ("home_zip", WitnessLong)];
    var ft := Class("Address");
    WitnessFallback(variant, true);
    assert PlainColumnStep(env, map[], ft, "home_street", true, variant) == IdFallback(env, map[], ft, true, variant);
    PlainColumnsUnfold(env, map[], ft, es, variant);
    if variant == Corrected {
      WitnessFallback(variant, false);
      assert PlainColumnStep(env, map[], ft, "home_zip", false, variant) == IdFallback(env, map[], ft, false, variant);
      PlainColumnsUnfold(env, map[], ft, es[1..], variant);
      assert es[1..][1..] == [];
    }
  }

  /** A concrete case: an empty record and that field. As written the
      reconstruction throws NoSuchElement; corrected, it completes and
      leaves the record empty. */
  lemma IdLoopDefectWitness()
    ensures Enumerates(WitnessEnv().iterate(WitnessColumns), WitnessColumns)
    ensures Enumerates(WitnessEnv().iterate(WitnessIds), WitnessIds)
    ensures Reconstruct(WitnessEnv(), map[], [WitnessField], AsWritten) == Outcome(map[], Some(NoSuchElement))
    ensures Reconstruct(WitnessEnv(), map[], [WitnessField], Corrected) == Outcome(map[], None)
  {
    WitnessMetadata();
    WitnessFieldStep(AsWritten);
    WitnessFieldStep(Corrected);
    assert [WitnessField][1..] == [];
  }

  /** The field "home" of the witness is absent and plain. */
  lemma WitnessFieldStep(variant: Variant)
    ensures FieldStep(WitnessEnv(), map[], WitnessField, variant)
            == if variant == AsWritten then Outcome(map[], Some(NoSuchElement)) else Outcome(map[], None)
  {
    WitnessPlainColumns(variant);
    var env := WitnessEnv();
    assert FieldStep(env, map[], WitnessField, variant) == PlainColumns(env, map[], Class("Address"), env.iterate(WitnessColumns), variant);
  }

  /** Corrected, the id fallback decodes exactly the present id columns,
      each with the class the id map gives. */
  lemma CorrectedFallbackReadsPresentIds(env: Env, t: Record, fieldType: Class, outerHasNext: bool, c: string)
    requires IterationSound(env)
    requires IdFallback(env, t, fieldType, outerHasNext, Corrected).thrown == None
    requires c in IdColumns(env.finder, fieldType)
    ensures var ids := IdColumns(env.finder, fieldType);
            var o := IdFallback(env, t, fieldType, outerHasNext, Corrected);
            if Get(t, c) == Null then (c in o.tuple <==> c in t) && (c in t ==> o.tuple[c] == t[c])
            else c in o.tuple && DecodeValue(env.gson, ids[c], t[c]) == Ok(o.tuple[c])
  {
    var ids := IdColumns(env.finder, fieldType);
    assert Enumerates(env.iterate(ids), ids);
    DecodeMapEffect(env.gson, t, ids, env.iterate(ids), true, c);
  }

  /** Corrected, no reconstruction throws NoSuchElement: only decoding
      failures can end it early. */
  lemma {:induction false} CorrectedNeverExhaustsIterator(env: Env, t: Record, fields: seq<Field>)
    ensures Reconstruct(env, t, fields, Corrected).thrown != Some(NoSuchElement)
    decreases |fields|
  {
    if fields != [] {
      var o := FieldStep(env, t, fields[0], Corrected);
      if o.thrown.None? {
        CorrectedNeverExhaustsIterator(env, o.tuple, fields[1..]);
      }
    }
  }

  // ---------------------------------------------------------------------
  // The helper's loops, performed in place.

  /** One of the helper's loops over a column list, decoding in place. */
  method DecodeEachOn(gson: Gson, cols: seq<(string, Class)>, onlyPresent: bool, tuple: Tuple) returns (thrown: Option<Error>)
    modifies tuple
    ensures Outcome(tuple.entries, thrown) == DecodeEach(gson, old(tuple.entries), cols, onlyPresent)
  {
    var i := 0;
    while i < |cols|
      invariant 0 <= i <= |cols|
      invariant DecodeEach(gson, tuple.entries, cols[i..], onlyPresent) == DecodeEach(gson, old(tuple.entries), cols, onlyPresent)
    {
      assert cols[i..][1..] == cols[i + 1..];
      var column := cols[i].0;
      if !onlyPresent || Get(tuple.entries, column) != Null {
        thrown := GetObjectFromJsonOn(gson, cols[i].1, column, tuple);
        if thrown.Some? {
          return;
        }
      }
      i := i + 1;
    }
    thrown := None;
  }

  /** The id fallback of the plain-field branch, performed in place. */
  method IdFallbackOn(env: Env, fieldType: Class, outerHasNext: bool, variant: Variant, tuple: Tuple) returns (thrown: Option<Error>)
    modifies tuple
    ensures Outcome(tuple.entries, thrown) == IdFallback(env, old(tuple.entries), fieldType, outerHasNext, variant)
  {
    thrown := None;
    var ids := env.finder.findAllIdsFrom(fieldType, "", true);
    if |ids| != 0 {
      var entries := env.iterate(ids);
      if variant == Corrected {
        thrown := DecodeEachOn(env.gson, entries, true, tuple);
      } else {
        // The condition is the outer iterator's; only the inner one advances.
        var j := 0;
        while outerHasNext
          invariant 0 <= j <= |entries| && thrown == None
          invariant !outerHasNext ==> tuple.entries == old(tuple.entries)
          invariant DecodeEach(env.gson, tuple.entries, entries[j..], true) == DecodeEach(env.gson, old(tuple.entries), entries, true)
          decreases |entries| - j
        {
          if j == |entries| {
            thrown := Some(NoSuchElement);
            return;
          }
          assert entries[j..][1..] == entries[j + 1..];
          var key := entries[j].0;
          if Get(tuple.entries, key) != Null {
            thrown := GetObjectFromJsonOn(env.gson, entries[j].1, key, tuple);
            if thrown.Some? {
              return;
            }
          }
          j := j + 1;
        }
      }
    }
  }

  /** The plain-field branch's loop over the field's column map, in place. */
  method PlainColumnsOn(env: Env, fieldType: Class, cols: seq<(string, Class)>, variant: Variant, tuple: Tuple) returns (thrown: Option<Error>)
    modifies tuple
    ensures Outcome(tuple.entries, thrown) == PlainColumns(env, old(tuple.entries), fieldType, cols, variant)
  {
    var i := 0;
    while i < |cols|
      invariant 0 <= i <= |cols|
      invariant PlainColumns(env, tuple.entries, fieldType, cols[i..], variant) == PlainColumns(env, old(tuple.entries), fieldType, cols, variant)
    {
      ghost var before := tuple.entries;
      var columnName := cols[i].0;
      thrown := PlainColumnStepOn(env, fieldType, columnName, i + 1 < |cols|, variant, tuple);
      PlainColumnsUnfold(env, before, fieldType, cols[i..], variant);
      assert cols[i..][1..] == cols[i + 1..];
      if thrown.Some? {
        return;
      }
      i := i + 1;
    }
    thrown := None;
  }

  /** The first step of the column loop, then the rest of it. */
  lemma PlainColumnsUnfold(env: Env, t: Record, fieldType: Class, cols: seq<(string, Class)>, variant: Variant)
    requires cols != []
    ensures var step := PlainColumnStep(env, t, fieldType, cols[0].0, |cols| > 1, variant);
            PlainColumns(env, t, fieldType, cols, variant)
              == if step.thrown.Some? then step else PlainColumns(env, step.tuple, fieldType, cols[1..], variant)
  {
  }

  /** One iteration of the plain-field branch's loop, in place. */
  method PlainColumnStepOn(env: Env, fieldType: Class, columnName: string, outerHasNext: bool, variant: Variant, tuple: Tuple) returns (thrown: Option<Error>)
    modifies tuple
    ensures Outcome(tuple.entries, thrown) == PlainColumnStep(env, old(tuple.entries), fieldType, columnName, outerHasNext, variant)
  {
    if IsReturnAsString(fieldType) {
      thrown := GetObjectFromJsonOn(env.gson, StringClass, columnName, tuple);
    } else if Get(tuple.entries, columnName) != Null {
      thrown := GetObjectFromJsonOn(env.gson, fieldType, columnName, tuple);
    } else {
      thrown := IdFallbackOn(env, fieldType, outerHasNext, variant, tuple);
    }
  }

  /** convertFromJsonOn: decodes the record in place, field by field, and
      returns the very record it was given; an exception ends the walk and
      leaves the record as far as it got. */
  method ConvertFromJsonOn(env: Env, tuple: Tuple, fields: seq<Field>, variant: Variant) returns (result: Result<Tuple, Error>)
    modifies tuple
    ensures var o := Reconstruct(env, old(tuple.entries), fields, variant);
            && tuple.entries == o.tuple
            && (o.thrown.None? ==> result == Ok(tuple))
            && (o.thrown.Some? ==> result == Err(o.thrown.value))
  {
    var i := 0;
    while i < |fields|
      invariant 0 <= i <= |fields|
      invariant Reconstruct(env, tuple.entries, fields[i..], variant) == Reconstruct(env, old(tuple.entries), fields, variant)
    {
      assert fields[i..][1..] == fields[i + 1..];
      var thrown := FieldStepOn(env, fields[i], variant, tuple);
      if thrown.Some? {
        return Err(thrown.value);
      }
      i := i + 1;
    }
    return Ok(tuple);
  }

  /** One iteration of convertFromJsonOn's loop over the fields, in place. */
  method FieldStepOn(env: Env, field: Field, variant: Variant, tuple: Tuple) returns (thrown: Option<Error>)
    modifies tuple
    ensures Outcome(tuple.entries, thrown) == FieldStep(env, old(tuple.entries), field, variant)
  {
    thrown := None;
    if !field.isTransient {
      var obj := Get(tuple.entries, field.name);
      var ft := field.fieldType;
      if obj != Null {
        if env.finder.isEntityAnnotated(ft) {
          if IsReturnAsString(ft) {
            thrown := GetObjectFromJsonOn(env.gson, StringClass, field.name, tuple);
          } else {
            thrown := GetObjectFromJsonOn(env.gson, ClassOf(obj), field.name, tuple);
          }
        } else {
          if IsReturnAsString(ft) {
            thrown := GetObjectFromJsonOn(env.gson, StringClass, field.name, tuple);
          } else {
            thrown := GetObjectFromJsonOn(env.gson, ft, field.name, tuple);
          }
        }
      } else if env.finder.isEntityAnnotated(ft) {
        var columns := env.finder.findAllJoinColumnNamesFrom(ft, "", true);
        if |columns| == 0 {
          columns := CreateKeys(field.name, env.finder.findAllIdsFrom(ft, "", true), "_");
        }
        thrown := DecodeEachOn(env.gson, AsStrings(env.iterate(columns)), true, tuple);
      } else if env.finder.isEmbeddableAnnotated(ft) {
        thrown := DecodeEachOn(env.gson, SubFieldColumns(field.name, env.finder.declaredFieldNames(ft)), true, tuple);
        if thrown.None? {
          thrown := DecodeEachOn(env.gson, env.iterate(env.finder.findAllColumnNamesFrom(ft, "", false)), false, tuple);
        }
        if thrown.None? {
          thrown := DecodeEachOn(env.gson, env.iterate(env.finder.findAllJoinColumnNamesFrom(ft, "", false)), false, tuple);
        }
      } else {
        var columns := env.finder.findAllColumnNamesFrom(field.declaringClass, field.name, true);
        thrown := PlainColumnsOn(env, ft, env.iterate(columns), variant, tuple);
      }
    }
  }
}
