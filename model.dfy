/** The values, collaborators and record the JSON helper works on.

    The helper itself holds a Gson instance and an AnnotationFinder; both are
    library code whose behaviour is not part of this model, so they appear
    here as datatypes of functions that every operation receives. */
module Model {

  datatype Option<T> = None | Some(value: T)

  datatype Result<T, E> = Ok(value: T) | Err(error: E)

  /** A Java class, identified by its canonical name. */
  datatype Class = Class(canonicalName: string)

  const StringClass := Class("java.lang.String")
  const UuidClass := Class("java.util.UUID")
  const BigDecimalClass := Class("java.math.BigDecimal")
  const UrlClass := Class("java.net.URL")
  const BigIntegerClass := Class("java.math.BigInteger")

  /** What a record slot (a Java Object) can hold: null, a String, or any
      other object, known only by its runtime class and an identity. */
  datatype Value = Null | Str(text: string) | Obj(runtimeClass: Class, identity: nat)

  /** obj.getClass() */
  function ClassOf(v: Value): Class
    requires v != Null
  {
    match v
    case Str(_) => StringClass
    case Obj(c, _) => c
  }

  /** The exceptions that escape the helper. */
  datatype Error =
    | ParseFailure   // Gson's JsonParseException: bare from fromJSON, wrapped in a RuntimeException by getObjectFromJsonOn
    | ClassCast      // a slot that does not hold a String, cast to String
    | NoSuchElement  // Iterator.next() on an exhausted iterator

  /** What Gson's fromJson does with one text: an object (possibly null), or a parse exception. */
  datatype Parse = Parsed(value: Value) | Malformed

  /** The Gson instance with its registered type adapters, as two functions. */
  datatype Gson = Gson(toJson: Value -> string, fromJson: (string, Class) -> Parse)

  /** A column map of the annotation finder: column name to the class stored there. */
  type ColumnMap = map<string, Class>

  /** The annotation finder's metadata queries, and reflection's getDeclaredFields. */
  datatype Finder = Finder(
    isEntityAnnotated: Class -> bool,
    isEmbeddableAnnotated: Class -> bool,
    declaredFieldNames: Class -> seq<string>,
    findAllColumnNamesFrom: (Class, string, bool) -> ColumnMap,
    findAllJoinColumnNamesFrom: (Class, string, bool) -> ColumnMap,
    findAllIdsFrom: (Class, string, bool) -> ColumnMap)

  /** Everything the record reconstruction consults: the codec, the metadata,
      and the order in which a hash map's entry set is iterated. */
  datatype Env = Env(gson: Gson, finder: Finder, iterate: ColumnMap -> seq<(string, Class)>)

  /** A reflected java.lang.reflect.Field. */
  datatype Field = Field(name: string, fieldType: Class, declaringClass: Class, isTransient: bool)

  /** The contents of a Map<String, Object>. */
  type Record = map<string, Value>

  /** Map.get: null for a missing key. */
  function Get(t: Record, k: string): (v: Value)
    ensures v != Null ==> k in t && t[k] == v
  {
    if k in t then t[k] else Null
  }

  /** The names of the columns an entry sequence lists. */
  function ColumnsOf(cols: seq<(string, Class)>): set<string>
  {
    set i | 0 <= i < |cols| :: cols[i].0
  }

  ghost predicate DistinctColumns(cols: seq<(string, Class)>)
  {
    forall i, j :: 0 <= i < j < |cols| ==> cols[i].0 != cols[j].0
  }

  /** `es` lists every entry of `m` exactly once. */
  ghost predicate Enumerates(es: seq<(string, Class)>, m: ColumnMap)
  {
    && DistinctColumns(es)
    && ColumnsOf(es) == m.Keys
    && forall i :: 0 <= i < |es| ==> es[i].0 in m && m[es[i].0] == es[i].1
  }

  /** Iterating a hash map's entry set visits each entry once. */
  ghost predicate IterationSound(env: Env)
  {
    forall m :: Enumerates(env.iterate(m), m)
  }

  /** A Map<String, Object> that the helper updates in place. */
  class Tuple {
    var entries: Record

    constructor (entries: Record)
      ensures this.entries == entries
    {
      this.entries := entries;
    }
  }
}
