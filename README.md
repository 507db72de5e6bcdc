# JSON helper of the Voldemort dialect, in Dafny

Hibernate OGM's Voldemort dialect stores an entity as a flat map from column
names to values. Values of non-trivial types are stored as JSON text. The
`JSONHelper` class does the conversion in both directions:

- `toJSON` and `fromJSON` turn one value into JSON text and back, through a
  Gson instance. A `null` text and the literal `"null"` both read as null.
- `convertKeyAndValueToJsonOn` and `convertJsonAsNeededOn` build the maps
  that are written to the datastore.
- `getObjectFromJsonOn` decodes one slot of a record in place.
- `convertFromJsonOn` walks the declared fields of an entity. For each
  field it picks the record slots to decode, and the class to decode each
  one with. The choice depends on the field's category:
  - a field whose own slot is present;
  - an association to another entity;
  - an embedded value;
  - a plain field spread over several columns, with a fallback to the id
    columns of its type.
- `createKeys` builds join-column names (`field_id`).
- `isReturnAsString` names four types: UUID, BigDecimal, URL and BigInteger.
  A present field of one of these types is read back as a String, and so is
  every column of a plain field of one of these types. The embedded column
  loops and the id fallback decode with the class their column map gives,
  which may be one of the four.

The model has three modules:

- `Model` (`model.dfy`) holds the values a slot can hold, the errors that
  escape, and the collaborators. Gson, the annotation finder and the
  iteration order of a hash map are datatypes of functions that every
  operation receives. A record is a `map<string, Value>`. `Tuple` is the
  mutable map the helper updates in place.
- `FieldCodec` (`codec.dfy`) covers decoding one text or one slot, the two
  encoders, `isReturnAsString` and `createKeys`.
- `RecordReconstructor` (`reconstructor.dfy`) covers `convertFromJsonOn`.
  Functions give the outcome of each step: the record as it stands, plus
  the exception that ended the walk, if any. Methods perform the same
  loops on a `Tuple` and are proved to yield exactly those outcomes.
  Lemmas state what each branch reads, with which class, and what it leaves
  alone.

The id fallback at line 283 of the source tests the wrong iterator (see
"## Findings"). Its reconstruction therefore comes in two variants, passed
as a parameter: `AsWritten` follows the source, and `Corrected` iterates the
id map as evidently intended.

Where the code and the helper's documented intent differ, the model follows
the code:

- `getObjectFromJsonOn` on a missing slot is not a no-op. It puts null
  under that key, so the key becomes present.
- The embedded branch decodes every column of the column map and of the
  join-column map, whether or not the slot is present. A missing one
  becomes a null entry.
- A slot holding an object that is not a `String` fails the cast and
  throws `ClassCastException`. Under `Corrected`, a second absent column
  makes the fallback decode an id slot a second time. This throws when the
  first decoding left an object that is neither a String nor null. An id
  that decoded to a String is decoded again without a cast failure.
- An empty text is not special-cased by `fromJSON`. It goes to Gson like any
  other text other than `"null"`.

## Model

Source paths are relative to the repository root; every row cites
`hibernate-ogm-voldemort/src/main/java/org/hibernate/ogm/helper/JSONHelper.java`.

| member | source | states |
|---|---|---|
| FieldCodec.IsReturnAsString | hibernate-ogm-voldemort/src/main/java/org/hibernate/ogm/helper/JSONHelper.java:310-320 | true exactly for the classes UUID, BigDecimal, URL and BigInteger, identified by canonical name |
| FieldCodec.FromJson | hibernate-ogm-voldemort/src/main/java/org/hibernate/ogm/helper/JSONHelper.java:127-133 | a null text and `"null"` read as null without consulting Gson; the call fails exactly when the text is neither and Gson rejects it, and then always with a parse failure; otherwise the result is the object Gson produces |
| FieldCodec.DecodeValue | hibernate-ogm-voldemort/src/main/java/org/hibernate/ogm/helper/JSONHelper.java:167 | decoding a slot fails exactly when it holds a non-String (ClassCast) or Gson rejects its text; null and `"null"` decode to null |
| FieldCodec.DecodeSlot | hibernate-ogm-voldemort/src/main/java/org/hibernate/ogm/helper/JSONHelper.java:164-172 | fails exactly when the slot's value fails to decode; on success the keys are the old keys plus the column, every other slot is unchanged, and the column holds the decoded value |
| FieldCodec.GetObjectFromJsonOn | hibernate-ogm-voldemort/src/main/java/org/hibernate/ogm/helper/JSONHelper.java:164-172 | in place: on success the record becomes DecodeSlot's record; on an exception it is left as it was and the exception is returned |
| FieldCodec.ConvertKeyAndValueToJsonOn | hibernate-ogm-voldemort/src/main/java/org/hibernate/ogm/helper/JSONHelper.java:143-151 | the keys are exactly the encodings of the input keys; each entry is the encoding of some input entry; when encoding is injective on the keys, the size is unchanged and every key's encoding maps to its value's encoding |
| FieldCodec.InjectiveImageSize | hibernate-ogm-voldemort/src/main/java/org/hibernate/ogm/helper/JSONHelper.java:145-148 | keys that encode differently give as many encoded keys as input keys |
| FieldCodec.ConvertJsonAsNeededOn | hibernate-ogm-voldemort/src/main/java/org/hibernate/ogm/helper/JSONHelper.java:182-190 | the keys are exactly the listed columns, each mapped to the encoding of the snapshot's value (null for a missing one) |
| FieldCodec.WriteThenReadRestoresValue | hibernate-ogm-voldemort/src/main/java/org/hibernate/ogm/helper/JSONHelper.java:164-190 | reading a column back from what convertJsonAsNeededOn stored, at the value's own class, gives the snapshot's value, for every value Gson round-trips (null included) |
| FieldCodec.PrefixIsInjective | hibernate-ogm-voldemort/src/main/java/org/hibernate/ogm/helper/JSONHelper.java:305 | two keys with the same prefix put before them are the same key, so createKeys loses no entry |
| FieldCodec.PrefixedKeys | hibernate-ogm-voldemort/src/main/java/org/hibernate/ogm/helper/JSONHelper.java:300-308 | the keys of createKeys' result are exactly the prefixed input keys, each with its input class, and there are as many as in the input |
| FieldCodec.PrefixImageSize | hibernate-ogm-voldemort/src/main/java/org/hibernate/ogm/helper/JSONHelper.java:303-306 | prefixing keeps the number of keys |
| FieldCodec.CreateKeys | hibernate-ogm-voldemort/src/main/java/org/hibernate/ogm/helper/JSONHelper.java:300-308 | the loop's result is PrefixedKeys, so it has the properties PrefixedKeys states |
| RecordReconstructor.DecodeEach | hibernate-ogm-voldemort/src/main/java/org/hibernate/ogm/helper/JSONHelper.java:255-258 | a decoding loop changes only the listed columns, removes no slot and never throws NoSuchElement; when it completes and visits every column, every listed column is present |
| RecordReconstructor.AssociationColumns | hibernate-ogm-voldemort/src/main/java/org/hibernate/ogm/helper/JSONHelper.java:233-236 | the join columns when there are any; otherwise the id columns prefixed by the field name and `_`, as many as there are ids |
| RecordReconstructor.PresentTarget | hibernate-ogm-voldemort/src/main/java/org/hibernate/ogm/helper/JSONHelper.java:212-226 | a present slot is decoded as String for the four textual types, whether or not the type is an entity; otherwise with the value's runtime class for an entity type, and with the declared type for any other type |
| RecordReconstructor.IdFallback | hibernate-ogm-voldemort/src/main/java/org/hibernate/ogm/helper/JSONHelper.java:280-289 | the fallback changes only the id columns of the field's type and removes no slot; the corrected loop never throws NoSuchElement |
| RecordReconstructor.AsWrittenFallbackNoOpOrThrows | hibernate-ogm-voldemort/src/main/java/org/hibernate/ogm/helper/JSONHelper.java:280-289 | as written, the fallback does nothing when the outer iterator has no next entry, and otherwise always ends in an exception when the type has ids |
| RecordReconstructor.PlainColumnStep | hibernate-ogm-voldemort/src/main/java/org/hibernate/ogm/helper/JSONHelper.java:270-291 | one column of a plain field changes only that column and the ids of the field's type, and removes no slot; corrected, it never throws NoSuchElement |
| RecordReconstructor.PlainColumns | hibernate-ogm-voldemort/src/main/java/org/hibernate/ogm/helper/JSONHelper.java:267-292 | the plain-field loop changes only its columns and the ids of the field's type, and removes no slot; corrected, it never throws NoSuchElement |
| RecordReconstructor.TextualPlainColumnsAreStrings | hibernate-ogm-voldemort/src/main/java/org/hibernate/ogm/helper/JSONHelper.java:269-273 | for a field of one of the four textual types, the loop never takes the id fallback: it is the decoding loop over the same columns with every class String |
| RecordReconstructor.TextualPlainColumnsReadAsStrings | hibernate-ogm-voldemort/src/main/java/org/hibernate/ogm/helper/JSONHelper.java:269-273 | for such a field, when the loop completes, every column is present and holds its original value decoded as String |
| RecordReconstructor.PresentPlainColumnReadWithDeclaredType | hibernate-ogm-voldemort/src/main/java/org/hibernate/ogm/helper/JSONHelper.java:274-278 | for any other field type, when the loop completes, a column present in the record holds its value decoded with the field's declared type |
| RecordReconstructor.DecodeEachEffect | hibernate-ogm-voldemort/src/main/java/org/hibernate/ogm/helper/JSONHelper.java:238-263 | after a completed decoding loop over distinct columns, a skipped null column keeps its presence and its value, and every other column holds its original value decoded with its class |
| RecordReconstructor.DecodeMapEffect | hibernate-ogm-voldemort/src/main/java/org/hibernate/ogm/helper/JSONHelper.java:255-262 | the same, for a loop over a column map's entry set: each column is decoded with the class the map gives it |
| RecordReconstructor.TransientFieldsChangeNothing | hibernate-ogm-voldemort/src/main/java/org/hibernate/ogm/helper/JSONHelper.java:205-208 | when every field is transient, the record is returned unchanged and nothing is thrown |
| RecordReconstructor.PresentFieldDecodesItsOwnSlot | hibernate-ogm-voldemort/src/main/java/org/hibernate/ogm/helper/JSONHelper.java:210-228 | a present field changes only its own slot. The slot is decoded as String for the four textual types, with the value's runtime class for an entity type, and with the declared type otherwise. The step fails exactly when that decoding fails |
| RecordReconstructor.PresentEntityFieldReadAsString | hibernate-ogm-voldemort/src/main/java/org/hibernate/ogm/helper/JSONHelper.java:212-218 | a present entity-typed slot that decodes held a String and is decoded as String |
| RecordReconstructor.SubFieldColumnsKeys | hibernate-ogm-voldemort/src/main/java/org/hibernate/ogm/helper/JSONHelper.java:248-249 | the embedded sub-field loop visits exactly the keys `field.sub` |
| RecordReconstructor.FieldStep | hibernate-ogm-voldemort/src/main/java/org/hibernate/ogm/helper/JSONHelper.java:205-294 | one field's step removes no slot from the record; corrected, it never throws NoSuchElement |
| RecordReconstructor.FieldStepFrame | hibernate-ogm-voldemort/src/main/java/org/hibernate/ogm/helper/JSONHelper.java:205-294 | one field's step changes no slot outside its branch's slots: none for a transient field, its own for a present one, the association columns, the embedded sub-field, column and join-column slots, or a plain field's columns and its type's ids |
| RecordReconstructor.AssociationReadsPresentColumnsAsStrings | hibernate-ogm-voldemort/src/main/java/org/hibernate/ogm/helper/JSONHelper.java:230-244 | an absent association leaves its null columns as they were (present or missing, with the same value); each present one held a String and now holds that text decoded as String |
| RecordReconstructor.EmbeddedStep | hibernate-ogm-voldemort/src/main/java/org/hibernate/ogm/helper/JSONHelper.java:246-263 | the embedded branch removes no slot and never throws NoSuchElement |
| RecordReconstructor.EmbeddedReadsSubFieldsAndColumns | hibernate-ogm-voldemort/src/main/java/org/hibernate/ogm/helper/JSONHelper.java:246-263 | an absent embedded field decodes each present sub-field slot as String and leaves each null one as it was. It decodes every column of its column map and of its join-column map with the map's class, a missing one becoming null |
| RecordReconstructor.EmbeddedPhases | hibernate-ogm-voldemort/src/main/java/org/hibernate/ogm/helper/JSONHelper.java:248-263 | three consecutive decoding loops over disjoint slots leave each slot decoded from its original value, except a null sub-field slot, which stays as it was |
| RecordReconstructor.AsWrittenTwoNullColumnsThrow | hibernate-ogm-voldemort/src/main/java/org/hibernate/ogm/helper/JSONHelper.java:269-289 | as written, the column loop of a plain field of a non-textual type that has ids (the loop a field whose own slot is null reaches) always ends in an exception when two of its columns are null in the record |
| RecordReconstructor.WitnessMetadata | hibernate-ogm-voldemort/src/main/java/org/hibernate/ogm/helper/JSONHelper.java:267-280 | the witness metadata iterates each of its maps soundly, and the witness type is not textual |
| RecordReconstructor.WitnessFallback | hibernate-ogm-voldemort/src/main/java/org/hibernate/ogm/helper/JSONHelper.java:280-289 | on the empty witness record, the fallback throws NoSuchElement as written when the outer iterator has a next entry, and otherwise does nothing |
| RecordReconstructor.WitnessPlainColumns | hibernate-ogm-voldemort/src/main/java/org/hibernate/ogm/helper/JSONHelper.java:269-292 | on the empty witness record, the column loop throws NoSuchElement as written and completes when corrected |
| RecordReconstructor.WitnessFieldStep | hibernate-ogm-voldemort/src/main/java/org/hibernate/ogm/helper/JSONHelper.java:265-292 | the witness field takes the plain branch with the same outcome |
| RecordReconstructor.IdLoopDefectWitness | hibernate-ogm-voldemort/src/main/java/org/hibernate/ogm/helper/JSONHelper.java:283-284 | a concrete empty record and two-column field: as written, convertFromJsonOn throws NoSuchElement; corrected, it completes and leaves the record empty |
| RecordReconstructor.CorrectedFallbackReadsPresentIds | hibernate-ogm-voldemort/src/main/java/org/hibernate/ogm/helper/JSONHelper.java:280-288 | the corrected fallback leaves null id columns as they were (present or missing, with the same value), and decodes each present one with the id map's class |
| RecordReconstructor.CorrectedNeverExhaustsIterator | hibernate-ogm-voldemort/src/main/java/org/hibernate/ogm/helper/JSONHelper.java:202-298 | corrected, no reconstruction throws NoSuchElement: only a decoding failure can end it early |
| RecordReconstructor.DecodeEachOn | hibernate-ogm-voldemort/src/main/java/org/hibernate/ogm/helper/JSONHelper.java:238-263 | in place: the record and the exception are DecodeEach's outcome |
| RecordReconstructor.IdFallbackOn | hibernate-ogm-voldemort/src/main/java/org/hibernate/ogm/helper/JSONHelper.java:280-289 | in place, with the loop tested on the outer iterator as written: the outcome is IdFallback's |
| RecordReconstructor.PlainColumnsOn | hibernate-ogm-voldemort/src/main/java/org/hibernate/ogm/helper/JSONHelper.java:267-292 | in place: the outcome is PlainColumns' |
| RecordReconstructor.PlainColumnStepOn | hibernate-ogm-voldemort/src/main/java/org/hibernate/ogm/helper/JSONHelper.java:270-291 | in place: the outcome is PlainColumnStep's |
| RecordReconstructor.FieldStepOn | hibernate-ogm-voldemort/src/main/java/org/hibernate/ogm/helper/JSONHelper.java:205-295 | in place, branch by branch as in the source: the outcome is FieldStep's |
| RecordReconstructor.ConvertFromJsonOn | hibernate-ogm-voldemort/src/main/java/org/hibernate/ogm/helper/JSONHelper.java:202-298 | in place: the record ends as Reconstruct gives it. On success the very same record object is returned; otherwise the exception that ended the walk is returned, with the record as far as it got |
| RecordReconstructor.Reconstruct | hibernate-ogm-voldemort/src/main/java/org/hibernate/ogm/helper/JSONHelper.java:202-298 | the walk over the fields removes no slot of the record read from the datastore, whether it completes or an exception ends it |
| RecordReconstructor.ReconstructFrame | hibernate-ogm-voldemort/src/main/java/org/hibernate/ogm/helper/JSONHelper.java:202-298 | the whole walk changes no slot that none of the fields may select (its own slot, and the association, embedded or plain-column and id slots of its category), whether it completes or an exception ends it |

## Left out

- `toJSON` (line 112-114) has no member of its own. It is `Gson.toJson`, a function that every encoding operation receives.
- The Gson type adapters of lines 61-103 are not modelled. They are a serializer and a deserializer for `Date` and for `Calendar`, a serializer for `GregorianCalendar`, and a serializer for `UUID`. Gson is a pair of uninterpreted functions, and `RoundTrips` states the only thing the model assumes of them.
- The annotation finder and reflection (`getDeclaredFields`, `getModifiers`, `getType`, `getDeclaringClass`) are external collaborators, given as the functions of `Finder` and the fields of `Field`.
- The iteration order of a `HashMap`'s key set or entry set is given by `Env.iterate`. The set loops in `ConvertKeyAndValueToJsonOn`, `ConvertJsonAsNeededOn` and `CreateKeys` pick any remaining key.
- The `log.info` calls (lines 231, 247, 266, 282) are omitted.
- The `EntityKey` parameter of `convertFromJsonOn` is never read by the source, so it is omitted.
- An exception is returned as a value (`Option<Error>`, `Result`) rather than thrown. The single error `ParseFailure` stands for two exceptions: the bare `JsonParseException` that `fromJSON` lets escape (lines 127-133, no catch), and the `RuntimeException` that wraps it in `getObjectFromJsonOn` (line 170). The model does not tell them apart.
- Every failure of Gson's decoder is `Malformed`, and becomes `ParseFailure`. The source catches only `JsonParseException`. Any other exception escapes unwrapped, for example a `NumberFormatException` from `getAsLong()` in the `Date` deserializer (line 70). The model does not tell the two apart.
- A Java object whose class is `String` is always `Value.Str`. The value `Obj(StringClass, n)` can be written, but it stands for no Java object. DecodeValue treats it as a non-String and gives `ClassCast`.
- A class without a canonical name (`getCanonicalName()` returning null, which makes `isReturnAsString` throw) is not modelled. Every `Class` has a name.
- FieldCodec.FromJson: the contract does not say when the result is null for texts other than `"null"`. Gson itself may return null, for an empty text for example, and that behaviour belongs to the Gson function.
- FieldCodec.ConvertKeyAndValueToJsonOn: when two keys have the same encoding, the entry that is kept depends on iteration order. The contract says only that it comes from one of them.
- RecordReconstructor.EmbeddedReadsSubFieldsAndColumns: the lemma assumes that the sub-field, column and join-column slots are disjoint (`EmbeddedSlotsDisjoint`). When they overlap, a slot is decoded twice and only `FieldStepFrame` applies.
- RecordReconstructor.PresentPlainColumnReadWithDeclaredType: the lemma assumes that the field's columns are not id columns of its type. Otherwise an earlier null column's fallback may decode the column first, and the column is then decoded a second time.
- RecordReconstructor.AssociationReadsPresentColumnsAsStrings, RecordReconstructor.EmbeddedReadsSubFieldsAndColumns, RecordReconstructor.FieldStepFrame, RecordReconstructor.ReconstructFrame, RecordReconstructor.PresentPlainColumnReadWithDeclaredType and RecordReconstructor.CorrectedFallbackReadsPresentIds: these assume that iteration visits each entry of a map exactly once (`IterationSound`), as `HashMap` does.
- The Voldemort dialect that calls the helper, its datastore provider and its update actions are not part of this model.

## Findings

| source | as written | input that shows it | evidently intended | confidence | as-written member | corrected member |
|---|---|---|---|---|---|---|
| hibernate-ogm-voldemort/src/main/java/org/hibernate/ogm/helper/JSONHelper.java:283 | the id-fallback loop tests `itr.hasNext()` (the outer column iterator, which it never advances) but takes entries with `it.next()` (the id iterator) | an empty record and a plain field of a non-textual type with two columns and a one-column id: the first column is absent and the outer iterator has a next entry, so the inner loop consumes the id and then calls `next()` on an exhausted iterator, and `NoSuchElementException` escapes | the loop iterates the id map while `it.hasNext()` holds | not executed | RecordReconstructor.IdLoopDefectWitness | RecordReconstructor.CorrectedNeverExhaustsIterator |

`RecordReconstructor.AsWrittenTwoNullColumnsThrow` generalises the as-written case. Take a plain field of a type that is not one of the four textual types and that has at least one id column. When the field's own slot is null, the field takes the column loop (lines 206, 211, 230 and 246 send a transient, entity-annotated or embeddable-annotated field, or one whose slot is present, elsewhere). If two of its columns are null in the record, that column loop throws. A field whose own slot holds a value takes the present branch instead, and its columns are not read. `RecordReconstructor.AsWrittenFallbackNoOpOrThrows` gives the fallback's as-written outcome for every input.

`RecordReconstructor.CorrectedFallbackReadsPresentIds` states what the corrected loop reads. The reconstruction functions and methods take the variant as a parameter, and the corrected variant is the one the lemmas about the fallback's reads are proved for.
