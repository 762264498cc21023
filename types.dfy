/** The table-format type model: primitive types, nested struct/list/map types whose fields carry a
    stable integer ID, a name and a required flag, and the promotion relation between primitives. */
module Types {
  import opened Text

  datatype PrimitiveType =
    | Boolean
    | Integer
    | Long
    | Float
    | Double
    | Date
    | Time
    | Timestamp(withZone: bool)
    | StringType
    | Uuid
    | Fixed(length: nat)
    | Binary
    | Decimal(precision: nat, scale: nat)

  /** A type is a primitive or a nested type; a list has one element field, a map a key field and a
      value field, a struct an ordered sequence of fields. */
  datatype Type =
    | Primitive(prim: PrimitiveType)
    | Struct(fields: seq<NestedField>)
    | List(element: NestedField)
    | Map(key: NestedField, value: NestedField)

  datatype NestedField = NestedField(id: int, name: string, required: bool, typ: Type)

  /** A schema is the sequence of top-level columns of an implicit root struct. */
  datatype Schema = Schema(columns: seq<NestedField>)

  function AsStruct(s: Schema): Type { Struct(s.columns) }

  function Required(id: int, name: string, t: Type): NestedField { NestedField(id, name, true, t) }

  function Optional(id: int, name: string, t: Type): NestedField { NestedField(id, name, false, t) }

  /** A list type whose element field has the given ID; its name is always "element". */
  function ListOf(elementId: int, elementRequired: bool, t: Type): Type
  {
    List(NestedField(elementId, "element", elementRequired, t))
  }

  /** A map type; the key field is always required, the value field as given. */
  function MapOf(keyId: int, valueId: int, k: Type, v: Type, valueRequired: bool): Type
  {
    Map(NestedField(keyId, "key", true, k), NestedField(valueId, "value", valueRequired, v))
  }

  /** How a primitive type prints in diagnostics. */
  function PrimitiveName(p: PrimitiveType): string
  {
    match p
    case Boolean => "boolean"
    case Integer => "int"
    case Long => "long"
    case Float => "float"
    case Double => "double"
    case Date => "date"
    case Time => "time"
    case Timestamp(withZone) => if withZone then "timestamptz" else "timestamp"
    case StringType => "string"
    case Uuid => "uuid"
    case Fixed(length) => "fixed[" + NatToString(length) + "]"
    case Binary => "binary"
    case Decimal(precision, scale) => "decimal(" + NatToString(precision) + ", " + NatToString(scale) + ")"
  }

  /** The name a diagnostic uses for a type: a primitive's own name, or the nested kind. */
  function KindName(t: Type): string
  {
    match t
    case Primitive(p) => PrimitiveName(p)
    case Struct(_) => "struct"
    case List(_) => "list"
    case Map(_, _) => "map"
  }

  /** Whether values of primitive type `from` may be read as `to` without loss: identity,
      int to long, float to double, and a decimal to a decimal of the same scale and no smaller
      precision. Nothing else. */
  predicate IsPromotionAllowed(from: PrimitiveType, to: PrimitiveType)
  {
    || from == to
    || (from == Integer && to == Long)
    || (from == Float && to == Double)
    || (from.Decimal? && to.Decimal? && from.scale == to.scale && from.precision <= to.precision)
  }

  /** Promotion is a partial order: reflexive, antisymmetric and transitive, so no two distinct
      types promote to each other. */
  lemma PromotionIsPartialOrder(a: PrimitiveType, b: PrimitiveType, c: PrimitiveType)
    ensures IsPromotionAllowed(a, a)
    ensures IsPromotionAllowed(a, b) && IsPromotionAllowed(b, a) ==> a == b
    ensures IsPromotionAllowed(a, b) && IsPromotionAllowed(b, c) ==> IsPromotionAllowed(a, c)
  {
  }

  // Termination measure for the mutually recursive walks over types and field sequences.

  function Sum(s: seq<nat>): nat
  {
    if s == [] then 0 else s[0] + Sum(s[1..])
  }

  function Size(t: Type): nat
  {
    match t
    case Primitive(_) => 1
    case Struct(fs) => 1 + Sum(seq(|fs|, i requires 0 <= i < |fs| => Size(fs[i].typ)))
    case List(e) => 1 + Size(e.typ)
    case Map(k, v) => 1 + Size(k.typ) + Size(v.typ)
  }

  function FieldsSize(fs: seq<NestedField>): nat
  {
    Sum(seq(|fs|, i requires 0 <= i < |fs| => Size(fs[i].typ)))
  }

  lemma FieldsSizeCons(fs: seq<NestedField>)
    requires fs != []
    ensures FieldsSize(fs) == Size(fs[0].typ) + FieldsSize(fs[1..])
  {
    var s := seq(|fs|, i requires 0 <= i < |fs| => Size(fs[i].typ));
    assert s[1..] == seq(|fs[1..]|, i requires 0 <= i < |fs[1..]| => Size(fs[1..][i].typ));
  }

  lemma StructSize(fs: seq<NestedField>)
    ensures Size(Struct(fs)) == 1 + FieldsSize(fs)
  {
  }

  /** Field IDs are unique within every struct of the type. */
  predicate WellFormed(t: Type)
    decreases Size(t), 0
  {
    match t
    case Primitive(_) => true
    case Struct(fs) => StructSize(fs); UniqueIds(fs) && FieldsWellFormed(fs)
    case List(e) => WellFormed(e.typ)
    case Map(k, v) => WellFormed(k.typ) && WellFormed(v.typ)
  }

  predicate FieldsWellFormed(fs: seq<NestedField>)
    decreases FieldsSize(fs), 1
  {
    if fs == [] then true
    else
      FieldsSizeCons(fs);
      WellFormed(fs[0].typ) && FieldsWellFormed(fs[1..])
  }

  predicate UniqueIds(fs: seq<NestedField>)
  {
    forall i, j :: 0 <= i < j < |fs| ==> fs[i].id != fs[j].id
  }
}
