/** The two loops of the layout: one places a struct's fields, one follows a field path. */
module LayoutLoops {
  import opened Wrappers
  import opened Layout

  /** Lays a struct out, field by field. */
  method LayStruct(m: Module, decl: StructDecl, depth: nat) returns (r: Result<Layout, NoLayout>)
    requires depth <= MAX_DEPTH
    ensures r == StructLayout(m, decl, depth)
  {
    hide FieldLayout, RoundUp;
    var offset: nat, strictest: nat := 0, 1;
    var placed: seq<Placed> := [];
    var k := 0;
    while k < |decl.fields|
      invariant 0 <= k <= |decl.fields| && strictest > 0
      invariant PlaceFields(m, decl.repr.packed, decl.fields[k..], depth, offset, strictest, placed)
             == PlaceFields(m, decl.repr.packed, decl.fields, depth, 0, 1, [])
    {
      assert decl.fields[k..][1..] == decl.fields[k + 1..];
      match FieldLayout(m, decl.fields[k].ty, depth) {
        case Err(e) => return Err(e);
        case Ok(inner) =>
          var align := if decl.repr.packed then 1 else inner.align;
          offset := RoundUp(offset, align);
          placed := placed + [Placed(decl.fields[k].name, offset)];
          offset := offset + inner.size;
          strictest := if strictest < align then align else strictest;
      }
      k := k + 1;
    }
    var align := match decl.repr.align case Some(n) => Larger(strictest, n) case None => strictest;
    assert decl.fields[k..] == [];
    r := Ok(Layout(RoundUp(offset, align), align, placed));
  }

  /** `offset` more than what the rest of the path comes to. */
  function Beyond(offset: nat, rest: Result<(nat, nat, bool), PathFault>): Result<(nat, nat, bool), PathFault> {
    match rest
    case Ok((at, size, signed)) => Ok((offset + at, size, signed))
    case Err(e) => Err(e)
  }

  /** Follows a field path from the struct `name`. */
  method FollowPath(m: Module, name: string, path: seq<string>) returns (r: Result<FieldAt, PathFault>)
    ensures r == FieldPath(m, name, path)
  {
    hide LayoutNamed, StepInto;
    var top := LayoutNamed(m, name, 0);
    if top.Err? {
      return Err(NoCLayout);
    }
    var offset: nat, current, k := 0, name, 0;
    while k < |path|
      invariant 0 <= k <= |path|
      invariant Beyond(offset, LeafAt(m, current, path[k..])) == LeafAt(m, name, path)
    {
      assert path[k..][1..] == path[k + 1..];
      match StepInto(m, current, path[k]) {
        case Err(e) => return Err(e);
        case Ok((at, ty)) =>
          offset := offset + at;
          if !ty.Named? {
            return Err(NotAnInteger);
          }
          if k + 1 == |path| {
            if !IsInteger(ty.name) {
              return Err(NotAnInteger);
            }
            return Ok(FieldAt(offset, Scalar(ty.name).GetOr(0), IsSigned(ty.name), top.value.align));
          }
          current := ty.name;
      }
      k := k + 1;
    }
    r := Err(EmptyPath);
  }
}
