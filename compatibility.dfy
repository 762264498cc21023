/** The schema compatibility checker: a read schema is walked against a write schema, fields are
    matched by ID, and every incompatibility found is reported as one diagnostic. In write mode the
    relative order of matched struct fields is checked as well; in read mode it is not. */
module CheckCompatibility {
  import opened Results
  import opened Text
  import opened Types

  /** What is wrong at one place of the read schema. The first three are about a struct field and
      render after the field's own name; the others are about the type held at a path. */
  datatype Issue =
    | RequiredButMissing
    | RequiredButOptional
    | OutOfOrder(before: string)
    | ElementsOptional
    | ValuesOptional
    | CannotPromote(from: PrimitiveType, to: PrimitiveType)
    | CannotReadAs(written: string, readAs: string)

  predicate FieldLevel(i: Issue)
  {
    i.RequiredButMissing? || i.RequiredButOptional? || i.OutOfOrder?
  }

  /** A diagnostic: the names of the read fields leading to the problem, and the problem. */
  datatype Diagnostic = Diagnostic(path: seq<string>, issue: Issue)

  function Phrase(i: Issue): string
  {
    match i
    case RequiredButMissing => "is required, but is missing"
    case RequiredButOptional => "should be required, but is optional"
    case OutOfOrder(before) => "is out of order, before " + before
    case ElementsOptional => "elements should be required, but are optional"
    case ValuesOptional => "values should be required, but are optional"
    case CannotPromote(a, b) => PrimitiveName(a) + " " + ("cannot be promoted to " + PrimitiveName(b))
    case CannotReadAs(w, r) => w + " " + ("cannot be read as a " + r)
  }

  /** The message of a diagnostic: the dotted path, then the phrase; a type-level problem is set off
      from its path by a colon ("a.b: int cannot be promoted to float"), a field-level one by a space
      ("a.b is required, but is missing"). */
  function Render(d: Diagnostic): (m: string)
    ensures Contains(m, Phrase(d.issue))
  {
    var head := Join(d.path, ".") + (if FieldLevel(d.issue) then " " else ": ");
    ContainsMiddle(head, Phrase(d.issue), "");
    assert head + Phrase(d.issue) + "" == head + Phrase(d.issue);
    head + Phrase(d.issue)
  }

  function RenderAll(ds: seq<Diagnostic>): (ms: seq<string>)
    ensures |ms| == |ds| && forall i :: 0 <= i < |ds| ==> ms[i] == Render(ds[i])
  {
    seq(|ds|, i requires 0 <= i < |ds| => Render(ds[i]))
  }

  /** The position of the first field with the given ID (`StructType.field(id)` and the ordinal map
      of the ordering check). */
  function IndexById(fs: seq<NestedField>, id: int): (r: Option<nat>)
    ensures r.Some? ==> r.value < |fs| && fs[r.value].id == id
    ensures r.Some? ==> forall j :: 0 <= j < r.value ==> fs[j].id != id
    ensures r.None? <==> forall j :: 0 <= j < |fs| ==> fs[j].id != id
  {
    if fs == [] then None
    else if fs[0].id == id then Some(0)
    else match IndexById(fs[1..], id)
      case None => None
      case Some(k) => Some(k + 1)
  }

  function FieldById(fs: seq<NestedField>, id: int): Option<NestedField>
  {
    match IndexById(fs, id)
    case None => None
    case Some(k) => Some(fs[k])
  }

  /** The diagnostics of a nested position, seen from the enclosing field `name`. */
  function Under(name: string, ds: seq<Diagnostic>): (r: seq<Diagnostic>)
    ensures |r| == |ds|
    ensures forall i :: 0 <= i < |ds| ==> r[i] == Diagnostic([name] + ds[i].path, ds[i].issue)
  {
    if ds == [] then [] else [Diagnostic([name] + ds[0].path, ds[0].issue)] + Under(name, ds[1..])
  }

  /** The errors found when data of type `write` is read as type `read`. */
  function TypeErrors(read: Type, write: Type, checkOrdering: bool): seq<Diagnostic>
    decreases Size(read), 0
  {
    match read
    case Primitive(rp) =>
      if !write.Primitive? then [Diagnostic([], CannotReadAs(KindName(write), KindName(read)))]
      else if IsPromotionAllowed(write.prim, rp) then []
      else [Diagnostic([], CannotPromote(write.prim, rp))]
    case Struct(rfs) =>
      if !write.Struct? then [Diagnostic([], CannotReadAs(KindName(write), KindName(read)))]
      else
        StructSize(rfs);
        FieldsErrors(rfs, write.fields, checkOrdering)
        + (if checkOrdering then OrderErrors(rfs, write.fields, -1) else [])
    case List(re) =>
      if !write.List? then [Diagnostic([], CannotReadAs(KindName(write), KindName(read)))]
      else
        (if re.required && !write.element.required then [Diagnostic([], ElementsOptional)] else [])
        + TypeErrors(re.typ, write.element.typ, checkOrdering)
    case Map(rk, rv) =>
      if !write.Map? then [Diagnostic([], CannotReadAs(KindName(write), KindName(read)))]
      else
        (if rv.required && !write.value.required then [Diagnostic([], ValuesOptional)] else [])
        + TypeErrors(rk.typ, write.key.typ, checkOrdering)
        + TypeErrors(rv.typ, write.value.typ, checkOrdering)
  }

  /** The errors of one read struct field against the fields of the write struct. */
  function FieldErrors(rf: NestedField, wfs: seq<NestedField>, checkOrdering: bool): seq<Diagnostic>
    decreases Size(rf.typ), 1
  {
    match FieldById(wfs, rf.id)
    case None =>
      if rf.required then [Diagnostic([rf.name], RequiredButMissing)] else []
    case Some(wf) =>
      (if rf.required && !wf.required then [Diagnostic([rf.name], RequiredButOptional)] else [])
      + Under(rf.name, TypeErrors(rf.typ, wf.typ, checkOrdering))
  }

  /** The errors of all read struct fields, in read order. */
  function FieldsErrors(rfs: seq<NestedField>, wfs: seq<NestedField>, checkOrdering: bool): seq<Diagnostic>
    decreases FieldsSize(rfs), 2
  {
    if rfs == [] then []
    else
      FieldsSizeCons(rfs);
      FieldErrors(rfs[0], wfs, checkOrdering) + FieldsErrors(rfs[1..], wfs, checkOrdering)
  }

  /** The ordering check of write mode: walking the read fields in order, a matched field whose
      write position is not after the last matched one is out of order, before the write field at
      that last position. `last` is -1 before the first match. */
  function OrderErrors(rfs: seq<NestedField>, wfs: seq<NestedField>, last: int): seq<Diagnostic>
    requires -1 <= last < |wfs|
  {
    if rfs == [] then []
    else
      match IndexById(wfs, rfs[0].id)
      case None => OrderErrors(rfs[1..], wfs, last)
      case Some(k) =>
        (if last >= k then [Diagnostic([rfs[0].name], OutOfOrder(wfs[last].name))] else [])
        + OrderErrors(rfs[1..], wfs, k)
  }

  function SchemaErrors(readSchema: Schema, writeSchema: Schema, checkOrdering: bool): seq<Diagnostic>
  {
    TypeErrors(AsStruct(readSchema), AsStruct(writeSchema), checkOrdering)
  }

  /** Can records written with `writeSchema` be written into a table declared as `readSchema`? */
  function WriteCompatibilityErrors(readSchema: Schema, writeSchema: Schema): seq<string>
  {
    RenderAll(SchemaErrors(readSchema, writeSchema, true))
  }

  /** Can data written with `writeSchema` be read back as `readSchema`? */
  function ReadCompatibilityErrors(readSchema: Schema, writeSchema: Schema): seq<string>
  {
    RenderAll(SchemaErrors(readSchema, writeSchema, false))
  }
}
