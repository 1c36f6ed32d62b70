/**
 Types of the Leaf language: sizes, field offsets, and how the scalars inside a
 variable tile its bytes.
 */
module Types {
  import opened Words

  datatype Field = Field(name: string, ty: Type)

  /** A pointer keeps only the size of what it points to. */
  datatype Type =
    | IntT
    | CharT
    | PointerT(elemSize: nat)
    | StructT(fields: seq<Field>)
    | ArrayT(elem: Type, count: nat)

  function SizeOf(t: Type): nat
    decreases t, 1
  {
    match t
    case IntT => 2
    case CharT => 1
    case PointerT(_) => 2
    case StructT(fields) => FieldsSize(fields)
    case ArrayT(elem, count) => SizeOf(elem) * count
  }

  function FieldsSize(fields: seq<Field>): nat
    decreases fields, 0
  {
    if fields == [] then 0 else SizeOf(fields[0].ty) + FieldsSize(fields[1..])
  }

  function ElementSize(t: Type): nat {
    match t
    case PointerT(n) => n
    case ArrayT(elem, _) => SizeOf(elem)
    case _ => SizeOf(t)
  }

  /** The first field of that name. */
  function FindField(fields: seq<Field>, name: string): Option<Type> {
    if fields == [] then None
    else if fields[0].name == name then Some(fields[0].ty)
    else FindField(fields[1..], name)
  }

  /** The sizes of the fields before the first one of that name. */
  function FieldOffset(fields: seq<Field>, name: string): nat {
    if fields == [] || fields[0].name == name then 0
    else SizeOf(fields[0].ty) + FieldOffset(fields[1..], name)
  }

  // The loops of the compiler --------------------------------------------------------

  lemma {:induction false} FieldsSizeSnoc(fields: seq<Field>, i: nat)
    requires i < |fields|
    ensures FieldsSize(fields[..i + 1]) == FieldsSize(fields[..i]) + SizeOf(fields[i].ty)
  {
    if i == 0 {
      assert fields[..1] == [fields[0]] && fields[..1][1..] == [];
    } else {
      assert fields[..i + 1][1..] == fields[1..][..i] && fields[..i][1..] == fields[1..][..i - 1];
      FieldsSizeSnoc(fields[1..], i - 1);
    }
  }

  method TypeSize(t: Type) returns (size: nat)
    ensures size == SizeOf(t)
    decreases t
  {
    match t
    case IntT => size := 2;
    case CharT => size := 1;
    case PointerT(_) => size := 2;
    case StructT(fields) =>
      size := 0;
      for i := 0 to |fields|
        invariant size == FieldsSize(fields[..i])
      {
        var n := TypeSize(fields[i].ty);
        FieldsSizeSnoc(fields, i);
        size := size + n;
      }
      assert fields[..|fields|] == fields;
    case ArrayT(elem, count) =>
      var n := TypeSize(elem);
      size := n * count;
  }

  method StructFindField(fields: seq<Field>, name: string) returns (ty: Option<Type>)
    ensures ty == FindField(fields, name)
  {
    for i := 0 to |fields|
      invariant FindField(fields, name) == FindField(fields[i..], name)
    {
      if fields[i].name == name {
        return Some(fields[i].ty);
      }
      assert fields[i..][1..] == fields[i + 1..];
    }
    return None;
  }

  method StructFieldOffset(fields: seq<Field>, name: string) returns (offset: nat)
    ensures offset == FieldOffset(fields, name)
  {
    offset := 0;
    for i := 0 to |fields|
      invariant FieldOffset(fields, name) == offset + FieldOffset(fields[i..], name)
    {
      if fields[i].name == name {
        return;
      }
      var n := TypeSize(fields[i].ty);
      assert fields[i..][1..] == fields[i + 1..];
      offset := offset + n;
    }
  }

  // Parts of a variable --------------------------------------------------------------

  datatype Sel = FieldSel(name: string) | ElemSel(i: nat)

  datatype Part = Part(offset: nat, ty: Type)

  function Shift(start: nat, p: Option<Part>): Option<Part> {
    match p
    case Some(q) => Some(Part(start + q.offset, q.ty))
    case None => None
  }

  /** Where the part that a chain of selections names lies in a variable of type `t`. */
  function Locate(t: Type, path: seq<Sel>): Option<Part>
    decreases |path|
  {
    if path == [] then Some(Part(0, t))
    else
      match (t, path[0])
      case (StructT(fields), FieldSel(name)) =>
        (match FindField(fields, name)
         case Some(ty) => Shift(FieldOffset(fields, name), Locate(ty, path[1..]))
         case None => None)
      case (ArrayT(elem, count), ElemSel(i)) =>
        if i < count then Shift(i * SizeOf(elem), Locate(elem, path[1..])) else None
      case _ => None
  }

  lemma LocateField(fields: seq<Field>, name: string, rest: seq<Sel>, p: Part)
    requires Locate(StructT(fields), [FieldSel(name)] + rest) == Some(p)
    ensures FindField(fields, name).Some?
    ensures Locate(FindField(fields, name).value, rest) == Some(Part(p.offset - FieldOffset(fields, name), p.ty))
  {
    assert ([FieldSel(name)] + rest)[1..] == rest;
  }

  lemma LocateElem(elem: Type, count: nat, i: nat, rest: seq<Sel>, p: Part)
    requires Locate(ArrayT(elem, count), [ElemSel(i)] + rest) == Some(p)
    ensures i < count && Locate(elem, rest) == Some(Part(p.offset - i * SizeOf(elem), p.ty))
  {
    assert ([ElemSel(i)] + rest)[1..] == rest;
  }

  predicate Scalar(t: Type) {
    t.IntT? || t.CharT? || t.PointerT?
  }

  /** The path names a scalar and byte d of the variable belongs to it. */
  predicate Holds(t: Type, path: seq<Sel>, d: nat) {
    match Locate(t, path)
    case Some(p) => Scalar(p.ty) && p.offset <= d < p.offset + SizeOf(p.ty)
    case None => false
  }

  /** No struct has two fields of the same name. */
  predicate WellNamed(t: Type)
    decreases t, 1
  {
    match t
    case StructT(fields) => WellNamedFields(fields)
    case ArrayT(elem, _) => WellNamed(elem)
    case _ => true
  }

  predicate WellNamedFields(fields: seq<Field>)
    decreases fields, 0
  {
    fields == [] ||
    (WellNamed(fields[0].ty) && FindField(fields[1..], fields[0].name).None? && WellNamedFields(fields[1..]))
  }

  lemma {:induction false} FieldInside(fields: seq<Field>, name: string)
    requires FindField(fields, name).Some?
    ensures FieldOffset(fields, name) + SizeOf(FindField(fields, name).value) <= FieldsSize(fields)
  {
    if fields[0].name != name {
      FieldInside(fields[1..], name);
    }
  }

  lemma {:induction false} FieldsApart(fields: seq<Field>, a: string, b: string)
    requires FindField(fields, a).Some? && FindField(fields, b).Some? && a != b
    ensures var oa, ob := FieldOffset(fields, a), FieldOffset(fields, b);
            oa + SizeOf(FindField(fields, a).value) <= ob || ob + SizeOf(FindField(fields, b).value) <= oa
  {
    if fields[0].name != a && fields[0].name != b {
      FieldsApart(fields[1..], a, b);
    }
  }

  lemma MulOrder(i: nat, j: nat, n: nat)
    requires i < j
    ensures i * n + n <= j * n
  {
    assert j * n == (i + 1) * n + (j - i - 1) * n;
  }

  /** A part lies inside its variable. */
  lemma {:induction false} PartInside(t: Type, path: seq<Sel>)
    requires Locate(t, path).Some?
    ensures var p := Locate(t, path).value; p.offset + SizeOf(p.ty) <= SizeOf(t)
    decreases |path|
  {
    if path != [] {
      match t
      case StructT(fields) =>
        PartInside(FindField(fields, path[0].name).value, path[1..]);
        FieldInside(fields, path[0].name);
      case ArrayT(elem, count) =>
        PartInside(elem, path[1..]);
        MulOrder(path[0].i, count, SizeOf(elem));
    }
  }

  lemma {:induction false} FieldOf(fields: seq<Field>, d: nat) returns (i: nat)
    requires WellNamedFields(fields) && d < FieldsSize(fields)
    ensures i < |fields| && FindField(fields, fields[i].name) == Some(fields[i].ty) && WellNamed(fields[i].ty)
    ensures FieldOffset(fields, fields[i].name) <= d < FieldOffset(fields, fields[i].name) + SizeOf(fields[i].ty)
  {
    var n := SizeOf(fields[0].ty);
    if d < n {
      i := 0;
    } else {
      i := FieldOf(fields[1..], d - n);
      assert FindField(fields[1..], fields[i + 1].name).Some?;
      i := i + 1;
    }
  }

  lemma DivIndex(d: nat, n: nat, count: nat) returns (i: nat)
    requires d < n * count
    ensures i < count && i * n <= d < i * n + n
  {
    i := d / n;
    assert d == n * (d / n) + d % n;
    MulAtLeast(count, i, n);
  }

  lemma MulAtLeast(i: nat, j: nat, n: nat)
    ensures i <= j ==> n * i <= n * j
  {
    if i <= j {
      assert n * j == n * i + n * (j - i);
    }
  }

  /** Every byte of a variable belongs to a scalar that some path names. */
  lemma {:induction false} ScalarAt(t: Type, d: nat) returns (path: seq<Sel>)
    requires WellNamed(t) && d < SizeOf(t)
    ensures Holds(t, path, d)
    decreases t
  {
    match t
    case StructT(fields) =>
      var i := FieldOf(fields, d);
      assert fields[i] in fields;
      var rest := ScalarAt(fields[i].ty, d - FieldOffset(fields, fields[i].name));
      path := [FieldSel(fields[i].name)] + rest;
      assert path[1..] == rest;
    case ArrayT(elem, count) =>
      var i := DivIndex(d, SizeOf(elem), count);
      var rest := ScalarAt(elem, d - i * SizeOf(elem));
      path := [ElemSel(i)] + rest;
      assert path[1..] == rest;
    case _ => path := [];
  }

  lemma FieldsSame(fields: seq<Field>, a: string, b: string, x: nat, y: nat, d: nat)
    requires FindField(fields, a).Some? && FindField(fields, b).Some?
    requires x < SizeOf(FindField(fields, a).value) && y < SizeOf(FindField(fields, b).value)
    requires d == FieldOffset(fields, a) + x && d == FieldOffset(fields, b) + y
    ensures a == b
  {
    if a != b {
      FieldsApart(fields, a, b);
    }
  }

  lemma ElemsSame(i: nat, j: nat, n: nat, x: nat, y: nat)
    requires x < n && y < n && i * n + x == j * n + y
    ensures i == j
  {
    if i < j { MulOrder(i, j, n); } else if j < i { MulOrder(j, i, n); }
  }

  /** The byte lies in the part the first selection names. */
  lemma HoldsField(fields: seq<Field>, p: seq<Sel>, d: nat)
    requires Holds(StructT(fields), p, d)
    ensures p != [] && p[0].FieldSel? && FindField(fields, p[0].name).Some?
    ensures var ty, at := FindField(fields, p[0].name).value, FieldOffset(fields, p[0].name);
            at <= d < at + SizeOf(ty) && Holds(ty, p[1..], d - at)
  {
    PartInside(FindField(fields, p[0].name).value, p[1..]);
  }

  lemma HoldsElem(elem: Type, count: nat, p: seq<Sel>, d: nat)
    requires Holds(ArrayT(elem, count), p, d)
    ensures p != [] && p[0].ElemSel?
    ensures var at := p[0].i * SizeOf(elem); at <= d < at + SizeOf(elem) && Holds(elem, p[1..], d - at)
  {
    PartInside(elem, p[1..]);
  }

  lemma HoldsScalar(t: Type, p: seq<Sel>, d: nat)
    requires Holds(t, p, d) && Scalar(t)
    ensures p == []
  {
  }

  /** No byte belongs to two scalars. */
  lemma {:induction false} ScalarUnique(t: Type, p: seq<Sel>, q: seq<Sel>, d: nat)
    requires Holds(t, p, d) && Holds(t, q, d)
    ensures p == q
    decreases |p|
  {
    hide Holds, SizeOf, FindField, FieldOffset;
    match t
    case StructT(fields) =>
      HoldsField(fields, p, d);
      HoldsField(fields, q, d);
      var a, b := FieldOffset(fields, p[0].name), FieldOffset(fields, q[0].name);
      FieldsSame(fields, p[0].name, q[0].name, d - a, d - b, d);
      ScalarUnique(FindField(fields, p[0].name).value, p[1..], q[1..], d - a);
      assert p == [p[0]] + p[1..] && q == [q[0]] + q[1..];
    case ArrayT(elem, count) =>
      HoldsElem(elem, count, p, d);
      HoldsElem(elem, count, q, d);
      var n := SizeOf(elem);
      ElemsSame(p[0].i, q[0].i, n, d - p[0].i * n, d - q[0].i * n);
      ScalarUnique(elem, p[1..], q[1..], d - p[0].i * n);
      assert p == [p[0]] + p[1..] && q == [q[0]] + q[1..];
    case _ =>
      HoldsScalar(t, p, d);
      HoldsScalar(t, q, d);
  }
}
