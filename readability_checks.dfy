/** The behaviour the readability tests pin down, stated for all the types, names and primitive
    pairs that each test samples. Each lemma gives the exact diagnostics, and the phrase the test
    looks for in the rendered message. */
module ReadabilityChecks {
  import opened Text
  import opened Types
  import opened CheckCompatibility
  import opened CompatibilityProperties
  import opened Results

  /** The errors of a one-field struct against a one-field struct with the same ID. */
  lemma SingleFieldStruct(rf: NestedField, wf: NestedField, checkOrdering: bool)
    requires rf.id == wf.id
    ensures TypeErrors(Struct([rf]), Struct([wf]), checkOrdering)
         == (if rf.required && !wf.required then [Diagnostic([rf.name], RequiredButOptional)] else [])
            + Under(rf.name, TypeErrors(rf.typ, wf.typ, checkOrdering))
  {
    assert IndexById([wf], rf.id) == Some(0);
    assert FieldById([wf], rf.id) == Some(wf);
    assert [rf][1..] == [];
    var fe := FieldErrors(rf, [wf], checkOrdering);
    assert FieldsErrors([rf], [wf], checkOrdering) == fe + FieldsErrors([], [wf], checkOrdering);
    assert FieldsErrors([rf], [wf], checkOrdering) == fe;
    assert OrderErrors([rf], [wf], -1) == [] + OrderErrors([], [wf], 0);
    assert OrderErrors([rf], [wf], -1) == [];
  }

  /** The errors of a one-field struct whose field ID the write struct does not have. */
  lemma SingleFieldMissing(rf: NestedField, wfs: seq<NestedField>, checkOrdering: bool)
    requires forall j :: 0 <= j < |wfs| ==> wfs[j].id != rf.id
    ensures TypeErrors(Struct([rf]), Struct(wfs), checkOrdering)
         == if rf.required then [Diagnostic([rf.name], RequiredButMissing)] else []
  {
    assert IndexById(wfs, rf.id).None?;
    assert FieldById(wfs, rf.id).None?;
    assert [rf][1..] == [];
    var fe := FieldErrors(rf, wfs, checkOrdering);
    assert FieldsErrors([rf], wfs, checkOrdering) == fe + FieldsErrors([], wfs, checkOrdering);
    assert FieldsErrors([rf], wfs, checkOrdering) == fe;
    assert OrderErrors([rf], wfs, -1) == OrderErrors([], wfs, -1);
  }

  /** The errors of a one-field struct against a one-field struct with the same ID, given the at
      most one error of the field's type: the optionality error first, then that error under the
      field's name. */
  lemma ColumnErrors(rf: NestedField, wf: NestedField, checkOrdering: bool, inner: seq<Diagnostic>)
    requires rf.id == wf.id && TypeErrors(rf.typ, wf.typ, checkOrdering) == inner && |inner| <= 1
    ensures TypeErrors(Struct([rf]), Struct([wf]), checkOrdering)
         == (if rf.required && !wf.required then [Diagnostic([rf.name], RequiredButOptional)] else [])
            + (if inner == [] then [] else [Diagnostic([rf.name] + inner[0].path, inner[0].issue)])
  {
    SingleFieldStruct(rf, wf, checkOrdering);
    if inner != [] {
      assert Under(rf.name, inner) == [Diagnostic([rf.name] + inner[0].path, inner[0].issue)];
    }
  }

  /** A single diagnostic renders to a single message holding any part of its phrase. */
  lemma RenderedOne(ds: seq<Diagnostic>, t: string)
    requires |ds| == 1 && Contains(Phrase(ds[0].issue), t)
    ensures |RenderAll(ds)| == 1 && Contains(RenderAll(ds)[0], t)
  {
    ContainsTransitive(Render(ds[0]), Phrase(ds[0].issue), t);
  }

  /** A single diagnostic renders to a single message holding its phrase. */
  lemma RenderedExact(ds: seq<Diagnostic>)
    requires |ds| == 1
    ensures |RenderAll(ds)| == 1 && Contains(RenderAll(ds)[0], Phrase(ds[0].issue))
  {
  }

  /** The primitive types the tests iterate over. */
  const TestPrimitives: seq<PrimitiveType> := [
    Boolean, Integer, Long, Float, Double, Date, Time, Timestamp(false), Timestamp(true),
    StringType, Uuid, Fixed(3), Fixed(4), Binary, Decimal(9, 2), Decimal(11, 2), Decimal(9, 3)]

  /** For every ordered pair of primitives: no error when promotion is allowed, otherwise exactly
      one promotion error at the column. */
  lemma PrimitiveTypes(from: PrimitiveType, to: PrimitiveType)
    ensures var read := Schema([Required(1, "to_field", Primitive(to))]);
            var write := Schema([Required(1, "from_field", Primitive(from))]);
            && (IsPromotionAllowed(from, to) ==> WriteCompatibilityErrors(read, write) == [])
            && (!IsPromotionAllowed(from, to) ==>
                  && SchemaErrors(read, write, true) == [Diagnostic(["to_field"], CannotPromote(from, to))]
                  && |WriteCompatibilityErrors(read, write)| == 1
                  && Contains(WriteCompatibilityErrors(read, write)[0], "cannot be promoted to " + PrimitiveName(to)))
  {
    var rf := Required(1, "to_field", Primitive(to));
    var wf := Required(1, "from_field", Primitive(from));
    ColumnErrors(rf, wf, true, TypeErrors(rf.typ, wf.typ, true));
    if !IsPromotionAllowed(from, to) {
      assert ["to_field"] + [] == ["to_field"];
      PromotionPhrase(from, to);
      RenderedOne(SchemaErrors(Schema([rf]), Schema([wf]), true), "cannot be promoted to " + PrimitiveName(to));
    }
  }

  /** The primitive pairs the tests settle directly, and that every sampled primitive reads as itself. */
  lemma PromotionSamples()
    ensures IsPromotionAllowed(Integer, Integer)
    ensures !IsPromotionAllowed(Integer, Float)
    ensures !IsPromotionAllowed(Integer, Double)
    ensures !IsPromotionAllowed(Integer, StringType)
    ensures forall i :: 0 <= i < |TestPrimitives| ==> IsPromotionAllowed(TestPrimitives[i], TestPrimitives[i])
  {
  }

  /** A write primitive where the read column is a struct, a list or a map (holding that primitive
      as its field, its element, its value or its key): one "cannot be read as" error at the column. */
  lemma PrimitiveReadAsNested(from: PrimitiveType, read: Type)
    requires || read == Struct([Required(2, "from", Primitive(from))])
             || read == ListOf(2, true, Primitive(from))
             || read == MapOf(2, 3, Primitive(StringType), Primitive(from), true)
             || read == MapOf(2, 3, Primitive(from), Primitive(StringType), true)
    ensures var r := Schema([Required(1, "nested_field", read)]);
            var w := Schema([Required(1, "from_field", Primitive(from))]);
            && SchemaErrors(r, w, true) == [Diagnostic(["nested_field"], CannotReadAs(PrimitiveName(from), KindName(read)))]
            && |WriteCompatibilityErrors(r, w)| == 1
            && Contains(WriteCompatibilityErrors(r, w)[0], "cannot be read as a " + KindName(read))
  {
    var rf := Required(1, "nested_field", read);
    var wf := Required(1, "from_field", Primitive(from));
    var d := Diagnostic([], CannotReadAs(PrimitiveName(from), KindName(read)));
    assert TypeErrors(read, Primitive(from), true) == [d];
    ColumnErrors(rf, wf, true, [d]);
    assert ["nested_field"] + [] == ["nested_field"];
    ContainsSuffix(PrimitiveName(from) + " ", "cannot be read as a " + KindName(read));
    RenderedOne(SchemaErrors(Schema([rf]), Schema([wf]), true), "cannot be read as a " + KindName(read));
  }

  /** A required read column whose ID is optional in the write schema: exactly one error, whatever
      the column's (well-formed) type and whatever the two names. */
  lemma RequiredSchemaField(t: Type, readName: string, writeName: string)
    requires WellFormed(t)
    ensures var r := Schema([Required(1, readName, t)]);
            var w := Schema([Optional(1, writeName, t)]);
            && SchemaErrors(r, w, true) == [Diagnostic([readName], RequiredButOptional)]
            && |WriteCompatibilityErrors(r, w)| == 1
            && Contains(WriteCompatibilityErrors(r, w)[0], "should be required, but is optional")
  {
    SelfCompatible(t, true);
    ColumnErrors(Required(1, readName, t), Optional(1, writeName, t), true, []);
    RenderedExact(SchemaErrors(Schema([Required(1, readName, t)]), Schema([Optional(1, writeName, t)]), true));
  }

  /** A required read column whose ID the write schema lacks: exactly one "missing" error, whatever
      else the write schema holds. */
  lemma MissingSchemaField(readField: NestedField, write: Schema)
    requires readField.required
    requires forall j :: 0 <= j < |write.columns| ==> write.columns[j].id != readField.id
    ensures && SchemaErrors(Schema([readField]), write, true) == [Diagnostic([readField.name], RequiredButMissing)]
            && |WriteCompatibilityErrors(Schema([readField]), write)| == 1
            && Contains(WriteCompatibilityErrors(Schema([readField]), write)[0], "is required, but is missing")
  {
    SingleFieldMissing(readField, write.columns, true);
    RenderedExact(SchemaErrors(Schema([readField]), write, true));
  }

  /** The same inside a struct column: one error, with the path through the struct. */
  lemma RequiredStructField(t: Type, readName: string, writeName: string)
    requires WellFormed(t)
    ensures var r := Schema([Required(0, "nested", Struct([Required(1, readName, t)]))]);
            var w := Schema([Required(0, "nested", Struct([Optional(1, writeName, t)]))]);
            && SchemaErrors(r, w, true) == [Diagnostic(["nested", readName], RequiredButOptional)]
            && |WriteCompatibilityErrors(r, w)| == 1
            && Contains(WriteCompatibilityErrors(r, w)[0], "should be required, but is optional")
  {
    OptionalStructField(t, readName, writeName);
    RenderedExact([Diagnostic(["nested", readName], RequiredButOptional)]);
  }

  lemma OptionalStructField(t: Type, readName: string, writeName: string)
    requires WellFormed(t)
    ensures SchemaErrors(Schema([Required(0, "nested", Struct([Required(1, readName, t)]))]),
                         Schema([Required(0, "nested", Struct([Optional(1, writeName, t)]))]), true)
         == [Diagnostic(["nested", readName], RequiredButOptional)]
  {
    var rf := Required(1, readName, t);
    var wf := Optional(1, writeName, t);
    SelfCompatible(t, true);
    ColumnErrors(rf, wf, true, []);
    var d := Diagnostic([readName], RequiredButOptional);
    ColumnErrors(Required(0, "nested", Struct([rf])), Required(0, "nested", Struct([wf])), true, [d]);
    assert ["nested"] + [readName] == ["nested", readName];
  }

  /** A nested read field whose ID the write struct lacks: one "missing" error when it is required,
      none when it is optional. */
  lemma MissingStructField(readField: NestedField, writeFields: seq<NestedField>)
    requires forall j :: 0 <= j < |writeFields| ==> writeFields[j].id != readField.id
    ensures var r := Schema([Required(0, "nested", Struct([readField]))]);
            var w := Schema([Required(0, "nested", Struct(writeFields))]);
            && (readField.required ==>
                  && SchemaErrors(r, w, true) == [Diagnostic(["nested", readField.name], RequiredButMissing)]
                  && |WriteCompatibilityErrors(r, w)| == 1
                  && Contains(WriteCompatibilityErrors(r, w)[0], "is required, but is missing"))
            && (!readField.required ==> WriteCompatibilityErrors(r, w) == [])
  {
    SingleFieldMissing(readField, writeFields, true);
    var outerRead := Required(0, "nested", Struct([readField]));
    var outerWrite := Required(0, "nested", Struct(writeFields));
    ColumnErrors(outerRead, outerWrite, true, TypeErrors(outerRead.typ, outerWrite.typ, true));
    if readField.required {
      assert ["nested"] + [readField.name] == ["nested", readField.name];
      RenderedExact(SchemaErrors(Schema([outerRead]), Schema([outerWrite]), true));
    }
  }

  /** The contained part of a promotion phrase that the tests look for. */
  lemma PromotionPhrase(from: PrimitiveType, to: PrimitiveType)
    ensures Contains(Phrase(CannotPromote(from, to)), "cannot be promoted to " + PrimitiveName(to))
  {
    ContainsSuffix(PrimitiveName(from) + " ", "cannot be promoted to " + PrimitiveName(to));
  }

  /** A one-field struct whose field holds a primitive that cannot be promoted: the optionality
      error if any, then the promotion error, under the field. */
  lemma FieldPromotion(from: PrimitiveType, to: PrimitiveType, rf: NestedField, wf: NestedField)
    requires !IsPromotionAllowed(from, to)
    requires rf == Required(1, "to_field", Primitive(to))
    requires wf == Required(1, "from_field", Primitive(from)) || wf == Optional(1, "from_field", Primitive(from))
    ensures TypeErrors(Struct([rf]), Struct([wf]), true)
         == (if wf.required then [] else [Diagnostic(["to_field"], RequiredButOptional)])
            + [Diagnostic(["to_field"], CannotPromote(from, to))]
  {
    var p := Diagnostic([], CannotPromote(from, to));
    assert TypeErrors(rf.typ, wf.typ, true) == [p];
    ColumnErrors(rf, wf, true, [p]);
    assert ["to_field"] + [] == ["to_field"];
  }

  /** A one-field struct column whose field holds a primitive that cannot be promoted: the promotion
      error, under the column and the field. */
  lemma NestedPromotion(from: PrimitiveType, to: PrimitiveType, rf: NestedField, wf: NestedField)
    requires !IsPromotionAllowed(from, to)
    requires rf == Required(1, "to_field", Primitive(to))
    requires wf == Required(1, "from_field", Primitive(from)) || wf == Optional(1, "from_field", Primitive(from))
    ensures SchemaErrors(Schema([Required(0, "nested", Struct([rf]))]), Schema([Required(0, "nested", Struct([wf]))]), true)
         == (if wf.required then [] else [Diagnostic(["nested", "to_field"], RequiredButOptional)])
            + [Diagnostic(["nested", "to_field"], CannotPromote(from, to))]
  {
    var optionality := if wf.required then [] else [Diagnostic(["to_field"], RequiredButOptional)];
    var q := Diagnostic(["to_field"], CannotPromote(from, to));
    FieldPromotion(from, to, rf, wf);
    SingleFieldStruct(Required(0, "nested", Struct([rf])), Required(0, "nested", Struct([wf])), true);
    UnderConcat("nested", optionality, [q]);
    assert ["nested"] + ["to_field"] == ["nested", "to_field"];
  }

  /** A nested field whose primitive cannot be promoted: exactly one promotion error. */
  lemma IncompatibleStructField(from: PrimitiveType, to: PrimitiveType)
    requires !IsPromotionAllowed(from, to)
    ensures var r := Schema([Required(0, "nested", Struct([Required(1, "to_field", Primitive(to))]))]);
            var w := Schema([Required(0, "nested", Struct([Required(1, "from_field", Primitive(from))]))]);
            && SchemaErrors(r, w, true) == [Diagnostic(["nested", "to_field"], CannotPromote(from, to))]
            && |WriteCompatibilityErrors(r, w)| == 1
            && Contains(WriteCompatibilityErrors(r, w)[0], "cannot be promoted to " + PrimitiveName(to))
  {
    var rf := Required(1, "to_field", Primitive(to));
    var wf := Required(1, "from_field", Primitive(from));
    NestedPromotion(from, to, rf, wf);
    PromotionPhrase(from, to);
    RenderedOne(SchemaErrors(Schema([Required(0, "nested", Struct([rf]))]), Schema([Required(0, "nested", Struct([wf]))]), true),
                "cannot be promoted to " + PrimitiveName(to));
  }

  /** An optional field read as required whose type also cannot be promoted: both errors, the
      optionality error first. */
  lemma MultipleErrors(from: PrimitiveType, to: PrimitiveType)
    requires !IsPromotionAllowed(from, to)
    ensures var r := Schema([Required(0, "nested", Struct([Required(1, "to_field", Primitive(to))]))]);
            var w := Schema([Required(0, "nested", Struct([Optional(1, "from_field", Primitive(from))]))]);
            && SchemaErrors(r, w, true) == [Diagnostic(["nested", "to_field"], RequiredButOptional),
                                             Diagnostic(["nested", "to_field"], CannotPromote(from, to))]
            && |WriteCompatibilityErrors(r, w)| == 2
            && Contains(WriteCompatibilityErrors(r, w)[0], "should be required, but is optional")
            && Contains(WriteCompatibilityErrors(r, w)[1], "cannot be promoted to " + PrimitiveName(to))
  {
    var rf := Required(1, "to_field", Primitive(to));
    var wf := Optional(1, "from_field", Primitive(from));
    NestedPromotion(from, to, rf, wf);
    PromotionPhrase(from, to);
    var ds := SchemaErrors(Schema([Required(0, "nested", Struct([rf]))]), Schema([Required(0, "nested", Struct([wf]))]), true);
    ContainsTransitive(Render(ds[1]), Phrase(ds[1].issue), "cannot be promoted to " + PrimitiveName(to));
  }

  /** A struct written where a primitive is read: one error naming both kinds; the struct's own
      fields are not examined. */
  lemma IncompatibleStructAndPrimitive(writeFields: seq<NestedField>, to: PrimitiveType)
    ensures var r := Schema([Required(0, "nested", Primitive(to))]);
            var w := Schema([Required(0, "nested", Struct(writeFields))]);
            && SchemaErrors(r, w, true) == [Diagnostic(["nested"], CannotReadAs("struct", PrimitiveName(to)))]
            && |WriteCompatibilityErrors(r, w)| == 1
            && Contains(WriteCompatibilityErrors(r, w)[0], "cannot be read as a " + PrimitiveName(to))
            && Contains(WriteCompatibilityErrors(r, w)[0], "struct" + " " + ("cannot be read as a " + PrimitiveName(to)))
  {
    StructColumnAsPrimitive(writeFields, to);
    var t := "cannot be read as a " + PrimitiveName(to);
    var d := Diagnostic(["nested"], CannotReadAs("struct", PrimitiveName(to)));
    ContainsSuffix("struct" + " ", t);
    RenderedOne([d], t);
    RenderedExact([d]);
  }

  lemma StructColumnAsPrimitive(writeFields: seq<NestedField>, to: PrimitiveType)
    ensures SchemaErrors(Schema([Required(0, "nested", Primitive(to))]), Schema([Required(0, "nested", Struct(writeFields))]), true)
         == [Diagnostic(["nested"], CannotReadAs("struct", PrimitiveName(to)))]
  {
    var rf := Required(0, "nested", Primitive(to));
    var wf := Required(0, "nested", Struct(writeFields));
    var d := Diagnostic([], CannotReadAs("struct", PrimitiveName(to)));
    assert TypeErrors(rf.typ, wf.typ, true) == [d];
    ColumnErrors(rf, wf, true, [d]);
    assert ["nested"] + [] == ["nested"];
  }

  /** A required map value read from an optional one: exactly the values error, whatever the
      (well-formed) key and value types. */
  lemma RequiredMapValue(k: Type, v: Type)
    requires WellFormed(k) && WellFormed(v)
    ensures var r := Schema([Required(0, "map_field", MapOf(1, 2, k, v, true))]);
            var w := Schema([Required(0, "map_field", MapOf(1, 2, k, v, false))]);
            && SchemaErrors(r, w, true) == [Diagnostic(["map_field"], ValuesOptional)]
            && |WriteCompatibilityErrors(r, w)| == 1
            && Contains(WriteCompatibilityErrors(r, w)[0], "values should be required, but are optional")
  {
    var rf := Required(0, "map_field", MapOf(1, 2, k, v, true));
    var wf := Required(0, "map_field", MapOf(1, 2, k, v, false));
    SelfCompatible(k, true);
    SelfCompatible(v, true);
    assert TypeErrors(rf.typ, wf.typ, true) == [Diagnostic([], ValuesOptional)];
    ColumnErrors(rf, wf, true, [Diagnostic([], ValuesOptional)]);
    assert ["map_field"] + [] == ["map_field"];
    RenderedExact(SchemaErrors(Schema([rf]), Schema([wf]), true));
  }

  /** Map keys are checked by recursion: an unpromotable key type gives one promotion error. */
  lemma IncompatibleMapKey(from: PrimitiveType, to: PrimitiveType, v: Type)
    requires !IsPromotionAllowed(from, to) && WellFormed(v)
    ensures var r := Schema([Required(0, "map_field", MapOf(1, 2, Primitive(to), v, false))]);
            var w := Schema([Required(0, "map_field", MapOf(1, 2, Primitive(from), v, false))]);
            && SchemaErrors(r, w, true) == [Diagnostic(["map_field"], CannotPromote(from, to))]
            && |WriteCompatibilityErrors(r, w)| == 1
            && Contains(WriteCompatibilityErrors(r, w)[0], "cannot be promoted to " + PrimitiveName(to))
  {
    var rf := Required(0, "map_field", MapOf(1, 2, Primitive(to), v, false));
    var wf := Required(0, "map_field", MapOf(1, 2, Primitive(from), v, false));
    var d := Diagnostic([], CannotPromote(from, to));
    SelfCompatible(v, true);
    assert TypeErrors(Primitive(to), Primitive(from), true) == [d];
    assert TypeErrors(rf.typ, wf.typ, true) == [] + [d] + [];
    ColumnErrors(rf, wf, true, [d]);
    assert ["map_field"] + [] == ["map_field"];
    PromotionPhrase(from, to);
    RenderedOne(SchemaErrors(Schema([rf]), Schema([wf]), true), "cannot be promoted to " + PrimitiveName(to));
  }

  /** Map values are checked by recursion: an unpromotable value type gives one promotion error. */
  lemma IncompatibleMapValue(k: Type, from: PrimitiveType, to: PrimitiveType)
    requires !IsPromotionAllowed(from, to) && WellFormed(k)
    ensures var r := Schema([Required(0, "map_field", MapOf(1, 2, k, Primitive(to), false))]);
            var w := Schema([Required(0, "map_field", MapOf(1, 2, k, Primitive(from), false))]);
            && SchemaErrors(r, w, true) == [Diagnostic(["map_field"], CannotPromote(from, to))]
            && |WriteCompatibilityErrors(r, w)| == 1
            && Contains(WriteCompatibilityErrors(r, w)[0], "cannot be promoted to " + PrimitiveName(to))
  {
    var rf := Required(0, "map_field", MapOf(1, 2, k, Primitive(to), false));
    var wf := Required(0, "map_field", MapOf(1, 2, k, Primitive(from), false));
    var d := Diagnostic([], CannotPromote(from, to));
    SelfCompatible(k, true);
    assert TypeErrors(Primitive(to), Primitive(from), true) == [d];
    assert TypeErrors(rf.typ, wf.typ, true) == [] + [] + [d];
    ColumnErrors(rf, wf, true, [d]);
    assert ["map_field"] + [] == ["map_field"];
    PromotionPhrase(from, to);
    RenderedOne(SchemaErrors(Schema([rf]), Schema([wf]), true), "cannot be promoted to " + PrimitiveName(to));
  }

  /** A map or a list written where a primitive is read: one error naming both kinds. */
  lemma IncompatibleNestedAndPrimitive(write: Type, to: PrimitiveType)
    requires write.Map? || write.List?
    ensures var r := Schema([Required(0, "field", Primitive(to))]);
            var w := Schema([Required(0, "field", write)]);
            && SchemaErrors(r, w, true) == [Diagnostic(["field"], CannotReadAs(KindName(write), PrimitiveName(to)))]
            && |WriteCompatibilityErrors(r, w)| == 1
            && Contains(WriteCompatibilityErrors(r, w)[0], "cannot be read as a " + PrimitiveName(to))
            && Contains(WriteCompatibilityErrors(r, w)[0],
                        (if write.Map? then "map" else "list") + " " + ("cannot be read as a " + PrimitiveName(to)))
  {
    var rf := Required(0, "field", Primitive(to));
    var wf := Required(0, "field", write);
    var d := Diagnostic([], CannotReadAs(KindName(write), PrimitiveName(to)));
    assert TypeErrors(rf.typ, wf.typ, true) == [d];
    ColumnErrors(rf, wf, true, [d]);
    assert ["field"] + [] == ["field"];
    ContainsSuffix(KindName(write) + " ", "cannot be read as a " + PrimitiveName(to));
    RenderedOne(SchemaErrors(Schema([rf]), Schema([wf]), true), "cannot be read as a " + PrimitiveName(to));
    RenderedExact(SchemaErrors(Schema([rf]), Schema([wf]), true));
  }

  /** A required list element read from an optional one: exactly the elements error. */
  lemma RequiredListElement(t: Type)
    requires WellFormed(t)
    ensures var r := Schema([Required(0, "list_field", ListOf(1, true, t))]);
            var w := Schema([Required(0, "list_field", ListOf(1, false, t))]);
            && SchemaErrors(r, w, true) == [Diagnostic(["list_field"], ElementsOptional)]
            && |WriteCompatibilityErrors(r, w)| == 1
            && Contains(WriteCompatibilityErrors(r, w)[0], "elements should be required, but are optional")
  {
    var rf := Required(0, "list_field", ListOf(1, true, t));
    var wf := Required(0, "list_field", ListOf(1, false, t));
    SelfCompatible(t, true);
    assert TypeErrors(rf.typ, wf.typ, true) == [Diagnostic([], ElementsOptional)];
    ColumnErrors(rf, wf, true, [Diagnostic([], ElementsOptional)]);
    assert ["list_field"] + [] == ["list_field"];
    RenderedExact(SchemaErrors(Schema([rf]), Schema([wf]), true));
  }

  /** List elements are checked by recursion: an unpromotable element type gives one error. */
  lemma IncompatibleListElement(from: PrimitiveType, to: PrimitiveType)
    requires !IsPromotionAllowed(from, to)
    ensures var r := Schema([Required(0, "list_field", ListOf(1, false, Primitive(to)))]);
            var w := Schema([Required(0, "list_field", ListOf(1, false, Primitive(from)))]);
            && SchemaErrors(r, w, true) == [Diagnostic(["list_field"], CannotPromote(from, to))]
            && |WriteCompatibilityErrors(r, w)| == 1
            && Contains(WriteCompatibilityErrors(r, w)[0], "cannot be promoted to " + PrimitiveName(to))
  {
    var rf := Required(0, "list_field", ListOf(1, false, Primitive(to)));
    var wf := Required(0, "list_field", ListOf(1, false, Primitive(from)));
    var d := Diagnostic([], CannotPromote(from, to));
    assert TypeErrors(Primitive(to), Primitive(from), true) == [d];
    assert TypeErrors(rf.typ, wf.typ, true) == [] + [d];
    ColumnErrors(rf, wf, true, [d]);
    assert ["list_field"] + [] == ["list_field"];
    PromotionPhrase(from, to);
    RenderedOne(SchemaErrors(Schema([rf]), Schema([wf]), true), "cannot be promoted to " + PrimitiveName(to));
  }

  /** The field and order errors of two fields written in swapped order. */
  lemma SwappedFields(a: NestedField, b: NestedField, checkOrdering: bool)
    requires a.id != b.id && WellFormed(a.typ) && WellFormed(b.typ)
    ensures FieldsErrors([a, b], [b, a], checkOrdering) == []
    ensures OrderErrors([a, b], [b, a], -1) == [Diagnostic([b.name], OutOfOrder(a.name))]
  {
    SelfCompatible(a.typ, checkOrdering);
    SelfCompatible(b.typ, checkOrdering);
    var rfs := [a, b];
    var wfs := [b, a];
    assert IndexById(wfs, a.id) == Some(1);
    assert IndexById(wfs, b.id) == Some(0);
    assert FieldById(wfs, a.id) == Some(a);
    assert FieldById(wfs, b.id) == Some(b);
    assert rfs[1..] == [b] && [b][1..] == [];
    assert FieldErrors(a, wfs, checkOrdering) == [];
    assert FieldErrors(b, wfs, checkOrdering) == [];
    assert FieldsErrors([b], wfs, checkOrdering) == FieldErrors(b, wfs, checkOrdering) + FieldsErrors([], wfs, checkOrdering);
    assert FieldsErrors(rfs, wfs, checkOrdering) == FieldErrors(a, wfs, checkOrdering) + FieldsErrors([b], wfs, checkOrdering);
    assert OrderErrors([b], wfs, 1) == [Diagnostic([b.name], OutOfOrder(a.name))] + OrderErrors([], wfs, 0);
    assert OrderErrors(rfs, wfs, -1) == [] + OrderErrors([b], wfs, 1);
  }

  /** Two required struct fields written in swapped order: write mode reports the second read field
      as out of order before the first; read mode accepts the pair. */
  lemma StructReordering(a: NestedField, b: NestedField)
    requires a.id != b.id && WellFormed(a.typ) && WellFormed(b.typ)
    ensures var r := Schema([Required(0, "nested", Struct([a, b]))]);
            var w := Schema([Required(0, "nested", Struct([b, a]))]);
            && SchemaErrors(r, w, true) == [Diagnostic(["nested", b.name], OutOfOrder(a.name))]
            && |WriteCompatibilityErrors(r, w)| == 1
            && Contains(WriteCompatibilityErrors(r, w)[0], "is out of order, before " + a.name)
            && Contains(WriteCompatibilityErrors(r, w)[0], b.name + " " + ("is out of order, before " + a.name))
            && ReadCompatibilityErrors(r, w) == []
  {
    ReorderedColumn(a, b, true);
    ReorderedColumn(a, b, false);
    RenderedExact(SchemaErrors(Schema([Required(0, "nested", Struct([a, b]))]), Schema([Required(0, "nested", Struct([b, a]))]), true));
    RenderedFieldName("nested", b.name, OutOfOrder(a.name));
  }

  /** The message of a field-level problem two levels down names the inner field right before the
      phrase. */
  lemma RenderedFieldName(outer: string, name: string, i: Issue)
    requires FieldLevel(i)
    ensures Contains(Render(Diagnostic([outer, name], i)), name + " " + Phrase(i))
  {
    var dot := outer + ".";
    var p := Phrase(i);
    assert [outer, name][1..] == [name];
    assert Join([outer, name], ".") == dot + name;
    assert Render(Diagnostic([outer, name], i)) == dot + name + " " + p;
    Regroup(dot, name, " ", p);
    ContainsSuffix(dot, name + " " + p);
  }

  lemma Regroup(w: string, x: string, y: string, z: string)
    ensures w + x + y + z == w + (x + y + z)
  {
  }

  /** The diagnostics of a struct column whose two fields are swapped, in either mode. */
  lemma ReorderedColumn(a: NestedField, b: NestedField, checkOrdering: bool)
    requires a.id != b.id && WellFormed(a.typ) && WellFormed(b.typ)
    ensures SchemaErrors(Schema([Required(0, "nested", Struct([a, b]))]), Schema([Required(0, "nested", Struct([b, a]))]), checkOrdering)
         == if checkOrdering then [Diagnostic(["nested", b.name], OutOfOrder(a.name))] else []
  {
    SwappedFields(a, b, checkOrdering);
    var d := Diagnostic([b.name], OutOfOrder(a.name));
    var inner := if checkOrdering then [d] else [];
    assert TypeErrors(Struct([a, b]), Struct([b, a]), checkOrdering) == [] + inner;
    ColumnErrors(Required(0, "nested", Struct([a, b])), Required(0, "nested", Struct([b, a])), checkOrdering, inner);
    assert ["nested"] + [b.name] == ["nested", b.name];
  }
}
