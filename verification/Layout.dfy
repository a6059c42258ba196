/** C layout as numbers: sizes, alignments and offsets of `#[repr(c)]` structs, and the paths
  of fields through them (System V AMD64 psABI, section 3.1.2). */
module Layout {
  import opened Wrappers

  /** A field's type, as far as the layout reads it. */
  datatype FieldType = Pointer | Named(name: string) | OtherType

  datatype FieldDecl = FieldDecl(name: string, ty: FieldType)

  datatype Repr = Repr(c: bool, packed: bool, align: Option<nat>)

  datatype StructDecl = StructDecl(repr: Repr, generic: bool, fields: seq<FieldDecl>)

  datatype Item = StructItem | EnumItem | OtherItem

  datatype RawModule = RawModule(structs: map<string, StructDecl>, items: map<string, Item>)

  const MAX_ALIGN := 0x1000_0000
  const MAX_DEPTH := 64

  predicate IsPowerOfTwo(n: nat) {
    n == 1 || (n > 1 && n % 2 == 0 && IsPowerOfTwo(n / 2))
  }

  predicate AdmissibleAlign(n: nat) {
    IsPowerOfTwo(n) && n <= MAX_ALIGN
  }

  /** Attribute reading keeps admissible alignments only, and a declared struct is an item. */
  predicate WellFormed(m: RawModule) {
    forall name :: name in m.structs ==>
      && name in m.items
      && (m.structs[name].repr.align.Some? ==> AdmissibleAlign(m.structs[name].repr.align.value))
  }

  type Module = m: RawModule | WellFormed(m) witness RawModule(map[], map[])

  datatype Placed = Placed(name: string, offset: nat)

  datatype Layout = Layout(size: nat, align: nat, fields: seq<Placed>)

  datatype NoLayout = Native | Unknown

  function Scalar(name: string): (r: Option<nat>)
    ensures r.Some? ==> r.value in {1, 2, 4, 8}
  {
    if name in ["i8", "u8", "byte", "bool"] then Some(1)
    else if name in ["i16", "u16"] then Some(2)
    else if name in ["i32", "u32", "f32", "char"] then Some(4)
    else if name in ["i64", "u64", "int", "uint", "f64"] then Some(8)
    else None
  }

  function RoundUp(n: nat, align: nat): nat
    requires align > 0
  {
    (n + align - 1) / align * align
  }

  const VA_LIST := Layout(24, 8, [Placed("gp_offset", 0), Placed("fp_offset", 4),
                                  Placed("overflow_arg_area", 8), Placed("reg_save_area", 16)])

  function Larger(a: nat, b: nat): nat {
    if a < b then b else a
  }

  // -- the layouts ----------------------------------------------------------------------------

  function LayoutNamed(m: Module, name: string, depth: nat): (r: Result<Layout, NoLayout>)
    ensures r.Ok? ==> r.value.align > 0
    decreases if depth <= MAX_DEPTH then MAX_DEPTH + 1 - depth else 0, 3
  {
    if Scalar(name).Some? then Ok(Layout(Scalar(name).value, Scalar(name).value, []))
    else if name == "VaList" && name !in m.items then Ok(VA_LIST)
    else if name == "str" then Err(Native)
    else if name in m.structs then
      var decl := m.structs[name];
      if !decl.repr.c || decl.generic || depth > MAX_DEPTH then Err(Native) else StructLayout(m, decl, depth)
    else if name in m.items && m.items[name] != OtherItem then Err(Native)
    else Err(Unknown)
  }

  function FieldLayout(m: Module, ty: FieldType, depth: nat): (r: Result<Layout, NoLayout>)
    requires depth <= MAX_DEPTH
    ensures r.Ok? ==> r.value.align > 0
    decreases MAX_DEPTH + 1 - depth, 0
  {
    match ty
    case Pointer => Ok(Layout(8, 8, []))
    case Named(name) =>
      var inner := LayoutNamed(m, name, depth + 1);
      if inner.Ok? then inner else Err(Native)
    case OtherType => Err(Native)
  }

  /** The alignment a field is placed at. */
  function FieldAlign(packed: bool, inner: Layout): nat {
    if packed then 1 else inner.align
  }

  /** Places the fields still to come after `offset`. */
  function PlaceFields(m: Module, packed: bool, fields: seq<FieldDecl>, depth: nat,
                       offset: nat, strictest: nat, placed: seq<Placed>): (r: Result<Layout, NoLayout>)
    requires depth <= MAX_DEPTH && strictest > 0
    ensures r.Ok? ==> r.value.align > 0
    decreases MAX_DEPTH + 1 - depth, 1, |fields|
  {
    if fields == [] then Ok(Layout(offset, strictest, placed))
    else
      match FieldLayout(m, fields[0].ty, depth)
      case Err(e) => Err(e)
      case Ok(inner) =>
        var at := RoundUp(offset, FieldAlign(packed, inner));
        PlaceFields(m, packed, fields[1..], depth, at + inner.size, Larger(strictest, FieldAlign(packed, inner)),
                    placed + [Placed(fields[0].name, at)])
  }

  function StructLayout(m: Module, decl: StructDecl, depth: nat): (r: Result<Layout, NoLayout>)
    requires depth <= MAX_DEPTH
    ensures r.Ok? ==> r.value.align > 0
    decreases MAX_DEPTH + 1 - depth, 2
  {
    match PlaceFields(m, decl.repr.packed, decl.fields, depth, 0, 1, [])
    case Err(e) => Err(e)
    case Ok(body) =>
      var align := Larger(body.align, decl.repr.align.GetOr(0));
      Ok(Layout(RoundUp(body.size, align), align, body.fields))
  }

  // -- field paths ------------------------------------------------------------------------------

  datatype PathFault = NoCLayout | NotAStruct | NoField | NotAnInteger | EmptyPath

  datatype FieldAt = FieldAt(offset: nat, size: nat, signed: bool, structAlign: nat)

  predicate IsSigned(name: string) {
    name in ["i8", "i16", "i32", "i64", "int"]
  }

  predicate IsInteger(name: string) {
    IsSigned(name) || name in ["u8", "u16", "u32", "u64", "uint"]
  }

  /** The first field of this name. */
  function IndexOf(fields: seq<Placed>, name: string): (r: Option<nat>)
    ensures r.Some? ==> r.value < |fields| && fields[r.value].name == name
    ensures r.Some? ==> forall k :: 0 <= k < r.value ==> fields[k].name != name
    ensures r.None? ==> forall k :: 0 <= k < |fields| ==> fields[k].name != name
  {
    if fields == [] then None
    else if fields[0].name == name then Some(0)
    else
      match IndexOf(fields[1..], name)
      case Some(k) => Some(k + 1)
      case None => None
  }

  function DeclIndex(fields: seq<FieldDecl>, name: string): (r: Option<nat>)
    ensures r.Some? ==> r.value < |fields| && fields[r.value].name == name
    ensures r.Some? ==> forall k :: 0 <= k < r.value ==> fields[k].name != name
    ensures r.None? ==> forall k :: 0 <= k < |fields| ==> fields[k].name != name
  {
    if fields == [] then None
    else if fields[0].name == name then Some(0)
    else
      match DeclIndex(fields[1..], name)
      case Some(k) => Some(k + 1)
      case None => None
  }

  /** Where one field of the struct `current` is, and its type. */
  function StepInto(m: Module, current: string, field: string): (r: Result<(nat, FieldType), PathFault>)
  {
    if current !in m.structs then Err(NotAStruct)
    else
      match LayoutNamed(m, current, 0)
      case Err(_) => Err(NoCLayout)
      case Ok(layout) =>
        match (IndexOf(layout.fields, field), DeclIndex(m.structs[current].fields, field))
        case (Some(k), Some(j)) => Ok((layout.fields[k].offset, m.structs[current].fields[j].ty))
        case _ => Err(NoField)
  }

  /** The leaf of `path` from the struct `current`: its offset there, its size and its sign. */
  function LeafAt(m: Module, current: string, path: seq<string>): (r: Result<(nat, nat, bool), PathFault>)
    decreases |path|
  {
    if path == [] then Err(EmptyPath)
    else
      match StepInto(m, current, path[0])
      case Err(e) => Err(e)
      case Ok((at, ty)) =>
        if !ty.Named? then Err(NotAnInteger)
        else if |path| > 1 then
          match LeafAt(m, ty.name, path[1..])
          case Err(e) => Err(e)
          case Ok((offset, size, signed)) => Ok((at + offset, size, signed))
        else if !IsInteger(ty.name) then Err(NotAnInteger)
        else Ok((at, Scalar(ty.name).GetOr(0), IsSigned(ty.name)))
  }

  function FieldPath(m: Module, name: string, path: seq<string>): (r: Result<FieldAt, PathFault>)
  {
    match LayoutNamed(m, name, 0)
    case Err(_) => Err(NoCLayout)
    case Ok(top) =>
      match LeafAt(m, name, path)
      case Err(e) => Err(e)
      case Ok((offset, size, signed)) => Ok(FieldAt(offset, size, signed, top.align))
  }
}
