/** General properties of the compatibility checker: how the two modes relate, that a well-formed
    type is compatible with itself, that errors of sibling fields accumulate, that fields are matched
    by ID and not by name, and what a shape mismatch or a primitive pair yields. */
module CompatibilityProperties {
  import opened Results
  import opened Types
  import opened CheckCompatibility

  /** The diagnostics of `ds` other than out-of-order ones, in their order. */
  function WithoutOrderIssues(ds: seq<Diagnostic>): (r: seq<Diagnostic>)
    ensures forall d :: d in r ==> d in ds && !d.issue.OutOfOrder?
    ensures forall d :: d in ds && !d.issue.OutOfOrder? ==> d in r
  {
    if ds == [] then []
    else (if ds[0].issue.OutOfOrder? then [] else [ds[0]]) + WithoutOrderIssues(ds[1..])
  }

  lemma {:induction false} WithoutOrderIssuesConcat(a: seq<Diagnostic>, b: seq<Diagnostic>)
    ensures WithoutOrderIssues(a + b) == WithoutOrderIssues(a) + WithoutOrderIssues(b)
  {
    if a != [] {
      var head := if a[0].issue.OutOfOrder? then [] else [a[0]];
      calc {
        WithoutOrderIssues(a + b);
        { assert (a + b)[0] == a[0]; assert (a + b)[1..] == a[1..] + b; }
        head + WithoutOrderIssues(a[1..] + b);
        { WithoutOrderIssuesConcat(a[1..], b); }
        head + (WithoutOrderIssues(a[1..]) + WithoutOrderIssues(b));
      }
    } else {
      assert a + b == b;
    }
  }

  lemma {:induction false} WithoutOrderIssuesUnder(name: string, ds: seq<Diagnostic>)
    ensures WithoutOrderIssues(Under(name, ds)) == Under(name, WithoutOrderIssues(ds))
  {
    if ds != [] {
      var u := Under(name, ds);
      assert u[1..] == Under(name, ds[1..]);
      WithoutOrderIssuesUnder(name, ds[1..]);
      var head := if ds[0].issue.OutOfOrder? then [] else [ds[0]];
      UnderConcat(name, head, WithoutOrderIssues(ds[1..]));
    }
  }

  lemma UnderConcat(name: string, a: seq<Diagnostic>, b: seq<Diagnostic>)
    ensures Under(name, a + b) == Under(name, a) + Under(name, b)
  {
  }

  lemma {:induction false} OrderErrorsAreOrderIssues(rfs: seq<NestedField>, wfs: seq<NestedField>, last: int)
    requires -1 <= last < |wfs|
    ensures WithoutOrderIssues(OrderErrors(rfs, wfs, last)) == []
    ensures forall d :: d in OrderErrors(rfs, wfs, last) ==> d.issue.OutOfOrder?
  {
    if rfs != [] {
      match IndexById(wfs, rfs[0].id)
      case None => OrderErrorsAreOrderIssues(rfs[1..], wfs, last);
      case Some(k) =>
        OrderErrorsAreOrderIssues(rfs[1..], wfs, k);
        var head := if last >= k then [Diagnostic([rfs[0].name], OutOfOrder(wfs[last].name))] else [];
        WithoutOrderIssuesConcat(head, OrderErrors(rfs[1..], wfs, k));
    }
  }

  /** Read mode reports exactly what write mode reports, less the out-of-order diagnostics: the two
      checks differ in the ordering rule and in nothing else. */
  lemma {:induction false} ReadModeIgnoresOrder(read: Type, write: Type)
    ensures TypeErrors(read, write, false) == WithoutOrderIssues(TypeErrors(read, write, true))
    decreases Size(read), 0
  {
    match read
    case Primitive(_) =>
    case Struct(rfs) =>
      if write.Struct? {
        StructSize(rfs);
        FieldsReadModeIgnoresOrder(rfs, write.fields);
        OrderErrorsAreOrderIssues(rfs, write.fields, -1);
        WithoutOrderIssuesConcat(FieldsErrors(rfs, write.fields, true), OrderErrors(rfs, write.fields, -1));
      }
    case List(re) =>
      if write.List? {
        ReadModeIgnoresOrder(re.typ, write.element.typ);
        var head := if re.required && !write.element.required then [Diagnostic([], ElementsOptional)] else [];
        WithoutOrderIssuesConcat(head, TypeErrors(re.typ, write.element.typ, true));
      }
    case Map(rk, rv) =>
      if write.Map? {
        ReadModeIgnoresOrder(rk.typ, write.key.typ);
        ReadModeIgnoresOrder(rv.typ, write.value.typ);
        var head := if rv.required && !write.value.required then [Diagnostic([], ValuesOptional)] else [];
        var ks := TypeErrors(rk.typ, write.key.typ, true);
        var vs := TypeErrors(rv.typ, write.value.typ, true);
        WithoutOrderIssuesConcat(head + ks, vs);
        WithoutOrderIssuesConcat(head, ks);
      }
  }

  lemma {:induction false} FieldReadModeIgnoresOrder(rf: NestedField, wfs: seq<NestedField>)
    ensures FieldErrors(rf, wfs, false) == WithoutOrderIssues(FieldErrors(rf, wfs, true))
    decreases Size(rf.typ), 1
  {
    match FieldById(wfs, rf.id)
    case None =>
    case Some(wf) =>
      ReadModeIgnoresOrder(rf.typ, wf.typ);
      WithoutOrderIssuesUnder(rf.name, TypeErrors(rf.typ, wf.typ, true));
      var head := if rf.required && !wf.required then [Diagnostic([rf.name], RequiredButOptional)] else [];
      WithoutOrderIssuesConcat(head, Under(rf.name, TypeErrors(rf.typ, wf.typ, true)));
  }

  lemma {:induction false} FieldsReadModeIgnoresOrder(rfs: seq<NestedField>, wfs: seq<NestedField>)
    ensures FieldsErrors(rfs, wfs, false) == WithoutOrderIssues(FieldsErrors(rfs, wfs, true))
    decreases FieldsSize(rfs), 2
  {
    if rfs != [] {
      FieldsSizeCons(rfs);
      FieldReadModeIgnoresOrder(rfs[0], wfs);
      FieldsReadModeIgnoresOrder(rfs[1..], wfs);
      WithoutOrderIssuesConcat(FieldErrors(rfs[0], wfs, true), FieldsErrors(rfs[1..], wfs, true));
    }
  }

  /** Read compatibility never reports an out-of-order field. */
  lemma ReadModeNeverOutOfOrder(readSchema: Schema, writeSchema: Schema)
    ensures forall d :: d in SchemaErrors(readSchema, writeSchema, false) ==> !d.issue.OutOfOrder?
  {
    ReadModeIgnoresOrder(AsStruct(readSchema), AsStruct(writeSchema));
  }

  /** With unique IDs, the first field with the ID of field `i` is field `i`. */
  lemma IndexByIdUnique(fs: seq<NestedField>, i: nat)
    requires UniqueIds(fs) && i < |fs|
    ensures IndexById(fs, fs[i].id) == Some(i)
  {
  }

  lemma {:induction false} OrderErrorsInOrder(fs: seq<NestedField>, k: nat)
    requires UniqueIds(fs) && k <= |fs|
    ensures OrderErrors(fs[k..], fs, k - 1) == []
    decreases |fs| - k
  {
    if k < |fs| {
      IndexByIdUnique(fs, k);
      assert fs[k..][0] == fs[k];
      assert fs[k..][1..] == fs[k + 1..];
      OrderErrorsInOrder(fs, k + 1);
    }
  }

  /** A well-formed type is compatible with itself, in both modes. */
  lemma {:induction false} SelfCompatible(t: Type, checkOrdering: bool)
    requires WellFormed(t)
    ensures TypeErrors(t, t, checkOrdering) == []
    decreases Size(t), 0
  {
    match t
    case Primitive(_) =>
    case Struct(fs) =>
      StructSize(fs);
      forall i | 0 <= i < |fs| ensures FieldById(fs, fs[i].id) == Some(fs[i]) {
        IndexByIdUnique(fs, i);
      }
      FieldsSelfCompatible(fs, fs, checkOrdering);
      OrderErrorsInOrder(fs, 0);
      assert fs[0..] == fs;
    case List(e) =>
      SelfCompatible(e.typ, checkOrdering);
    case Map(k, v) =>
      SelfCompatible(k.typ, checkOrdering);
      SelfCompatible(v.typ, checkOrdering);
  }

  lemma {:induction false} FieldsSelfCompatible(rfs: seq<NestedField>, wfs: seq<NestedField>, checkOrdering: bool)
    requires FieldsWellFormed(rfs)
    requires forall i :: 0 <= i < |rfs| ==> FieldById(wfs, rfs[i].id) == Some(rfs[i])
    ensures FieldsErrors(rfs, wfs, checkOrdering) == []
    decreases FieldsSize(rfs), 2
  {
    if rfs != [] {
      FieldsSizeCons(rfs);
      SelfCompatible(rfs[0].typ, checkOrdering);
      assert FieldErrors(rfs[0], wfs, checkOrdering) == [];
      FieldsSelfCompatible(rfs[1..], wfs, checkOrdering);
    }
  }

  /** Errors of sibling fields accumulate in field order, without short-circuiting. */
  lemma {:induction false} FieldsErrorsConcat(a: seq<NestedField>, b: seq<NestedField>, wfs: seq<NestedField>, checkOrdering: bool)
    ensures FieldsErrors(a + b, wfs, checkOrdering)
         == FieldsErrors(a, wfs, checkOrdering) + FieldsErrors(b, wfs, checkOrdering)
  {
    if a != [] {
      calc {
        FieldsErrors(a + b, wfs, checkOrdering);
        { assert (a + b)[0] == a[0]; assert (a + b)[1..] == a[1..] + b; }
        FieldErrors(a[0], wfs, checkOrdering) + FieldsErrors(a[1..] + b, wfs, checkOrdering);
        { FieldsErrorsConcat(a[1..], b, wfs, checkOrdering); }
        FieldErrors(a[0], wfs, checkOrdering) + (FieldsErrors(a[1..], wfs, checkOrdering) + FieldsErrors(b, wfs, checkOrdering));
      }
    } else {
      assert a + b == b;
    }
  }

  /** Every read field contributes its own errors: the errors of the read fields are the
      concatenation of the errors of each one. */
  lemma {:induction false} FieldsErrorsEach(rfs: seq<NestedField>, wfs: seq<NestedField>, checkOrdering: bool, i: nat)
    requires i < |rfs|
    ensures FieldsErrors(rfs, wfs, checkOrdering)
         == FieldsErrors(rfs[..i], wfs, checkOrdering) + FieldErrors(rfs[i], wfs, checkOrdering)
            + FieldsErrors(rfs[i + 1..], wfs, checkOrdering)
  {
    assert rfs == rfs[..i] + ([rfs[i]] + rfs[i + 1..]);
    FieldsErrorsConcat(rfs[..i], [rfs[i]] + rfs[i + 1..], wfs, checkOrdering);
    assert ([rfs[i]] + rfs[i + 1..])[1..] == rfs[i + 1..];
  }

  /** The write fields differ at most in their names. */
  predicate SameButNames(fs: seq<NestedField>, gs: seq<NestedField>)
  {
    |fs| == |gs| &&
    forall j :: 0 <= j < |fs| ==>
      fs[j].id == gs[j].id && fs[j].required == gs[j].required && fs[j].typ == gs[j].typ
  }

  lemma {:induction false} IndexByIdIgnoresNames(fs: seq<NestedField>, gs: seq<NestedField>, id: int)
    requires SameButNames(fs, gs)
    ensures IndexById(fs, id) == IndexById(gs, id)
  {
    if fs != [] {
      assert SameButNames(fs[1..], gs[1..]);
      IndexByIdIgnoresNames(fs[1..], gs[1..], id);
    }
  }

  /** Fields are matched by ID: the names of the write fields do not change a field's errors. */
  lemma FieldMatchedById(rf: NestedField, fs: seq<NestedField>, gs: seq<NestedField>, checkOrdering: bool)
    requires SameButNames(fs, gs)
    ensures FieldErrors(rf, fs, checkOrdering) == FieldErrors(rf, gs, checkOrdering)
  {
    IndexByIdIgnoresNames(fs, gs, rf.id);
  }

  lemma {:induction false} FieldsMatchedById(rfs: seq<NestedField>, fs: seq<NestedField>, gs: seq<NestedField>, checkOrdering: bool)
    requires SameButNames(fs, gs)
    ensures FieldsErrors(rfs, fs, checkOrdering) == FieldsErrors(rfs, gs, checkOrdering)
  {
    if rfs != [] {
      FieldMatchedById(rfs[0], fs, gs, checkOrdering);
      FieldsMatchedById(rfs[1..], fs, gs, checkOrdering);
    }
  }

  /** In read mode, renaming the fields of the write struct changes nothing. */
  lemma ReadModeMatchedById(rfs: seq<NestedField>, fs: seq<NestedField>, gs: seq<NestedField>)
    requires SameButNames(fs, gs)
    ensures TypeErrors(Struct(rfs), Struct(fs), false) == TypeErrors(Struct(rfs), Struct(gs), false)
  {
    FieldsMatchedById(rfs, fs, gs, false);
  }

  predicate SameShape(a: Type, b: Type)
  {
    || (a.Primitive? && b.Primitive?)
    || (a.Struct? && b.Struct?)
    || (a.List? && b.List?)
    || (a.Map? && b.Map?)
  }

  /** Types of different shapes yield exactly one diagnostic, and nothing below it is examined. */
  lemma ShapeMismatch(read: Type, write: Type, checkOrdering: bool)
    requires !SameShape(read, write)
    ensures TypeErrors(read, write, checkOrdering)
         == [Diagnostic([], CannotReadAs(KindName(write), KindName(read)))]
  {
  }

  /** Primitive against primitive: no error exactly when promotion is allowed, otherwise the one
      promotion diagnostic. */
  lemma PrimitivePair(from: PrimitiveType, to: PrimitiveType, checkOrdering: bool)
    ensures TypeErrors(Primitive(to), Primitive(from), checkOrdering)
         == if IsPromotionAllowed(from, to) then [] else [Diagnostic([], CannotPromote(from, to))]
  {
  }
}
