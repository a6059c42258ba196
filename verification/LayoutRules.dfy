/** The layout rules written out, packed structs apart from the others, and what meets them: of
  every name the layout given, or the refusal, and of every path the leaf or the fault. */
module LayoutRules {
  import opened Wrappers
  import opened Layout
  import opened LayoutLaws

  // -- scalars ----------------------------------------------------------------------------------

  /** How many bits `n` bytes are. */
  function BitsOf(n: nat): string {
    if n == 1 then "8" else if n == 2 then "16" else if n == 4 then "32" else "64"
  }

  /** A sized integer or float is named by its bits; the other scalars have names of their own. */
  predicate ScalarTakes(name: string, n: nat) {
    || (n in {1, 2, 4, 8} && (name == "i" + BitsOf(n) || name == "u" + BitsOf(n)))
    || (n in {4, 8} && name == "f" + BitsOf(n))
    || (n == 1 && (name == "byte" || name == "bool"))
    || (n == 4 && name == "char")
    || (n == 8 && (name == "int" || name == "uint"))
  }

  lemma ScalarsAreNamedByBits(name: string, n: nat)
    ensures Scalar(name) == Some(n) <==> ScalarTakes(name, n)
  {
    assert "i" + "8" == "i8" && "i" + "16" == "i16" && "i" + "32" == "i32" && "i" + "64" == "i64";
    assert "u" + "8" == "u8" && "u" + "16" == "u16" && "u" + "32" == "u32" && "u" + "64" == "u64";
    assert "f" + "32" == "f32" && "f" + "64" == "f64";
  }

  /** Integers are the scalars that are no byte, bool, char or float, and those that begin with `i`
    are signed. */
  lemma IntegersAreSigned(name: string)
    ensures IsInteger(name) <==> Scalar(name).Some? && name !in ["byte", "bool", "char", "f32", "f64"]
    ensures IsSigned(name) <==> IsInteger(name) && name[0] == 'i'
  {
  }

  // -- one struct ---------------------------------------------------------------------------------

  function SizeOf(m: Module, decl: StructDecl, depth: nat, k: nat): nat
    requires depth <= MAX_DEPTH && k < |decl.fields| && FieldLayout(m, decl.fields[k].ty, depth).Ok?
  {
    FieldLayout(m, decl.fields[k].ty, depth).value.size
  }

  function AlignOf(m: Module, decl: StructDecl, depth: nat, k: nat): (n: nat)
    requires depth <= MAX_DEPTH && k < |decl.fields| && FieldLayout(m, decl.fields[k].ty, depth).Ok?
    ensures n > 0
  {
    FieldLayout(m, decl.fields[k].ty, depth).value.align
  }

  /** The sizes of the fields before field `k`, added up. */
  ghost function SizesBefore(m: Module, decl: StructDecl, depth: nat, k: nat): nat
    requires depth <= MAX_DEPTH && AllLaid(m, decl.fields, depth) && k <= |decl.fields|
  {
    if k == 0 then 0 else SizesBefore(m, decl, depth, k - 1) + SizeOf(m, decl, depth, k - 1)
  }

  /** Where the fields before field `k` end. */
  ghost function EndOf(m: Module, decl: StructDecl, depth: nat, l: Layout, k: nat): nat
    requires depth <= MAX_DEPTH && AllLaid(m, decl.fields, depth) && k <= |decl.fields| == |l.fields|
  {
    if k == 0 then 0 else l.fields[k - 1].offset + SizeOf(m, decl, depth, k - 1)
  }

  /** Something asks for alignment `n`: one does always, the struct's own attribute does, and, where
    the struct is not packed, each field does. */
  ghost predicate AsksFor(m: Module, decl: StructDecl, depth: nat, n: nat)
    requires depth <= MAX_DEPTH && AllLaid(m, decl.fields, depth)
  {
    || n == 1 || decl.repr.align == Some(n)
    || (!decl.repr.packed && exists k :: 0 <= k < |decl.fields| && AlignOf(m, decl, depth, k) == n)
  }

  ghost predicate FieldMeetsRule(m: Module, decl: StructDecl, depth: nat, l: Layout, k: nat)
    requires depth <= MAX_DEPTH && AllLaid(m, decl.fields, depth) && k < |decl.fields| == |l.fields|
  {
    && l.fields[k].name == decl.fields[k].name
    && if decl.repr.packed then l.fields[k].offset == SizesBefore(m, decl, depth, k)
       else Least(l.fields[k].offset, EndOf(m, decl, depth, l, k), AlignOf(m, decl, depth, k))
  }

  /** The rules: every field has a layout; the fields stand in order, in a packed struct each where
    the sizes before it add up to, in another each at the least multiple of its alignment past the
    field before; the alignment is the greatest that is asked for; and the size is the least
    multiple of it that holds them all. */
  ghost predicate MeetsRules(m: Module, decl: StructDecl, depth: nat, l: Layout)
    requires depth <= MAX_DEPTH
  {
    && AllLaid(m, decl.fields, depth) && |l.fields| == |decl.fields|
    && (forall k :: 0 <= k < |decl.fields| ==> FieldMeetsRule(m, decl, depth, l, k))
    && l.align > 0 && AsksFor(m, decl, depth, l.align) && (forall n: nat :: AsksFor(m, decl, depth, n) ==> n <= l.align)
    && Least(l.size, if decl.repr.packed then SizesBefore(m, decl, depth, |decl.fields|)
                     else EndOf(m, decl, depth, l, |decl.fields|), l.align)
  }

  lemma LeastOfOne(at: nat, from: nat)
    requires Least(at, from, 1)
    ensures at == from
  {
    assert from % 1 == 0;
  }

  lemma PlacedByRule(m: Module, decl: StructDecl, depth: nat, l: Layout, k: nat)
    requires depth <= MAX_DEPTH && IsCLayout(m, decl, depth, l) && k < |decl.fields|
    ensures l.fields[k].name == decl.fields[k].name
    ensures Least(l.fields[k].offset, EndOf(m, decl, depth, l, k), if decl.repr.packed then 1 else AlignOf(m, decl, depth, k))
  {
    hide FieldLayout, Least, StrictestOf;
    assert PlacedLeast(m, decl.repr.packed, decl.fields, depth, 0, l.fields);
    var f := l.fields[k];
    assert f.name == decl.fields[k].name;
  }

  /** Packed fields end where the sizes add up to. */
  lemma {:induction false} PackedEnds(m: Module, decl: StructDecl, depth: nat, l: Layout, k: nat)
    requires depth <= MAX_DEPTH && IsCLayout(m, decl, depth, l) && decl.repr.packed && k <= |decl.fields|
    ensures EndOf(m, decl, depth, l, k) == SizesBefore(m, decl, depth, k)
  {
    hide FieldLayout, Least, StrictestOf, PlacedLeast;
    if k > 0 {
      PackedEnds(m, decl, depth, l, k - 1);
      PlacedByRule(m, decl, depth, l, k - 1);
      LeastOfOne(l.fields[k - 1].offset, EndOf(m, decl, depth, l, k - 1));
    }
  }

  lemma FieldMeets(m: Module, decl: StructDecl, depth: nat, l: Layout, k: nat)
    requires depth <= MAX_DEPTH && IsCLayout(m, decl, depth, l) && k < |decl.fields|
    ensures FieldMeetsRule(m, decl, depth, l, k)
  {
    hide FieldLayout, Least, StrictestOf, PlacedLeast;
    PlacedByRule(m, decl, depth, l, k);
    if decl.repr.packed {
      PackedEnds(m, decl, depth, l, k);
      LeastOfOne(l.fields[k].offset, EndOf(m, decl, depth, l, k));
    }
  }

  lemma AlignIsAsked(m: Module, decl: StructDecl, depth: nat, l: Layout)
    requires depth <= MAX_DEPTH && IsCLayout(m, decl, depth, l)
    ensures AsksFor(m, decl, depth, l.align) && forall n: nat :: AsksFor(m, decl, depth, n) ==> n <= l.align
  {
    hide FieldLayout, Least, PlacedLeast, IsPowerOfTwo;
    var packed := decl.repr.packed;
    if decl.repr.align == Some(l.align)
       && exists below: nat :: below <= l.align && Strictest(m, packed, decl.fields, depth, 1, below) {
      var below: nat :| below <= l.align && Strictest(m, packed, decl.fields, depth, 1, below);
      NoneAsksForMore(m, decl, depth, below);
    } else {
      NoneAsksForMore(m, decl, depth, l.align);
    }
  }

  lemma NoneAsksForMore(m: Module, decl: StructDecl, depth: nat, below: nat)
    requires depth <= MAX_DEPTH && AllLaid(m, decl.fields, depth) && Strictest(m, decl.repr.packed, decl.fields, depth, 1, below)
    ensures AsksFor(m, decl, depth, below)
    ensures forall n: nat :: AsksFor(m, decl, depth, n) ==> n <= below || decl.repr.align == Some(n)
  {
    hide FieldLayout;
    forall k | 0 <= k < |decl.fields| && !decl.repr.packed
      ensures AlignOf(m, decl, depth, k) == FieldAlign(false, FieldLayout(m, decl.fields[k].ty, depth).value) <= below
    {
    }
    if below != 1 {
      var k :| 0 <= k < |decl.fields|
               && below == FieldAlign(decl.repr.packed, FieldLayout(m, decl.fields[k].ty, depth).value);
      if !decl.repr.packed {
        assert AlignOf(m, decl, depth, k) == below;
      }
    }
  }

  lemma LayoutMeetsRules(m: Module, decl: StructDecl, depth: nat)
    requires depth <= MAX_DEPTH && StructLayout(m, decl, depth).Ok?
    requires decl.repr.align.Some? ==> AdmissibleAlign(decl.repr.align.value)
    ensures MeetsRules(m, decl, depth, StructLayout(m, decl, depth).value)
  {
    hide FieldLayout, Least, PlacedLeast, FieldMeetsRule, AsksFor, StructLayout, IsPowerOfTwo, StrictestOf;
    StructHasCLayout(m, decl, depth);
    var l := StructLayout(m, decl, depth).value;
    AlignIsAsked(m, decl, depth, l);
    forall k | 0 <= k < |decl.fields| ensures FieldMeetsRule(m, decl, depth, l, k) {
      FieldMeets(m, decl, depth, l, k);
    }
    if decl.repr.packed {
      PackedEnds(m, decl, depth, l, |decl.fields|);
    }
    SameEnd(m, decl, depth, l);
  }

  lemma SameEnd(m: Module, decl: StructDecl, depth: nat, l: Layout)
    requires depth <= MAX_DEPTH && AllLaid(m, decl.fields, depth) && |decl.fields| == |l.fields|
    ensures EndOf(m, decl, depth, l, |l.fields|) == EndBefore(m, decl, depth, l, |l.fields|)
  {
    hide FieldLayout;
  }

  lemma LeastIsUnique(a: nat, b: nat, from: nat, align: nat)
    requires align > 0 && Least(a, from, align) && Least(b, from, align)
    ensures a == b
  {
  }

  lemma {:induction false} SameFields(m: Module, decl: StructDecl, depth: nat, a: Layout, b: Layout, k: nat)
    requires depth <= MAX_DEPTH && MeetsRules(m, decl, depth, a) && MeetsRules(m, decl, depth, b) && k <= |decl.fields|
    ensures a.fields[..k] == b.fields[..k]
  {
    hide FieldLayout, Least, AsksFor;
    if k > 0 {
      SameFields(m, decl, depth, a, b, k - 1);
      var i := k - 1;
      assert FieldMeetsRule(m, decl, depth, a, i) && FieldMeetsRule(m, decl, depth, b, i);
      if i > 0 {
        assert a.fields[..i][i - 1] == b.fields[..i][i - 1];
      }
      if !decl.repr.packed {
        LeastIsUnique(a.fields[i].offset, b.fields[i].offset, EndOf(m, decl, depth, a, i), AlignOf(m, decl, depth, i));
      }
      assert a.fields[..k] == a.fields[..i] + [a.fields[i]] && b.fields[..k] == b.fields[..i] + [b.fields[i]];
    }
  }

  /** At most one layout meets the rules. */
  lemma RulesDecide(m: Module, decl: StructDecl, depth: nat, a: Layout, b: Layout)
    requires depth <= MAX_DEPTH && MeetsRules(m, decl, depth, a) && MeetsRules(m, decl, depth, b)
    ensures a == b
  {
    hide FieldLayout, Least, AsksFor, FieldMeetsRule;
    SameFields(m, decl, depth, a, b, |decl.fields|);
    assert a.fields == a.fields[..|decl.fields|] && b.fields == b.fields[..|decl.fields|];
    LeastIsUnique(a.size, b.size, if decl.repr.packed then SizesBefore(m, decl, depth, |decl.fields|)
                                  else EndOf(m, decl, depth, a, |decl.fields|), a.align);
  }

  lemma {:induction false} LaidIsPlaced(m: Module, packed: bool, fields: seq<FieldDecl>, depth: nat,
                                        offset: nat, strictest: nat, placed: seq<Placed>)
    requires depth <= MAX_DEPTH && strictest > 0 && AllLaid(m, fields, depth)
    ensures PlaceFields(m, packed, fields, depth, offset, strictest, placed).Ok?
    decreases |fields|
  {
    hide FieldLayout, RoundUp;
    if fields != [] {
      var inner := FieldLayout(m, fields[0].ty, depth).value;
      var align := FieldAlign(packed, inner);
      var at := RoundUp(offset, align);
      forall j | 0 <= j < |fields[1..]| ensures FieldLayout(m, fields[1..][j].ty, depth).Ok? {
        assert fields[1..][j] == fields[j + 1];
      }
      LaidIsPlaced(m, packed, fields[1..], depth, at + inner.size, Larger(strictest, align),
                   placed + [Placed(fields[0].name, at)]);
    }
  }

  /** A struct has the layout that meets the rules, and none if and only if a field has none. */
  lemma StructsMeetTheRules(m: Module, decl: StructDecl, depth: nat, l: Layout)
    requires depth <= MAX_DEPTH && (decl.repr.align.Some? ==> AdmissibleAlign(decl.repr.align.value))
    ensures StructLayout(m, decl, depth) == Ok(l) <==> MeetsRules(m, decl, depth, l)
    ensures StructLayout(m, decl, depth).Err? <==> !AllLaid(m, decl.fields, depth)
  {
    hide FieldLayout, MeetsRules;
    if AllLaid(m, decl.fields, depth) {
      LaidIsPlaced(m, decl.repr.packed, decl.fields, depth, 0, 1, []);
    }
    if StructLayout(m, decl, depth).Ok? {
      LayoutMeetsRules(m, decl, depth);
      RulesNeedLayouts(m, decl, depth, StructLayout(m, decl, depth).value);
      if MeetsRules(m, decl, depth, l) {
        RulesDecide(m, decl, depth, l, StructLayout(m, decl, depth).value);
      }
    } else if MeetsRules(m, decl, depth, l) {
      RulesNeedLayouts(m, decl, depth, l);
    }
  }

  lemma RulesNeedLayouts(m: Module, decl: StructDecl, depth: nat, l: Layout)
    requires depth <= MAX_DEPTH && MeetsRules(m, decl, depth, l)
    ensures AllLaid(m, decl.fields, depth)
  {
    hide FieldLayout;
  }

  /** In a packed struct each field begins where the sizes of those before it add up to, and the
    alignment is the one declared, or one. */
  lemma PackedFieldsTouch(m: Module, decl: StructDecl, depth: nat, k: nat)
    requires depth <= MAX_DEPTH && decl.repr.packed && (decl.repr.align.Some? ==> AdmissibleAlign(decl.repr.align.value))
    requires StructLayout(m, decl, depth).Ok? && k < |decl.fields|
    ensures AllLaid(m, decl.fields, depth)
    ensures var l := StructLayout(m, decl, depth).value;
            && k < |l.fields| && l.fields[k].offset == SizesBefore(m, decl, depth, k)
            && l.align == decl.repr.align.GetOr(1)
            && Least(l.size, SizesBefore(m, decl, depth, |decl.fields|), l.align)
  {
    hide FieldLayout, Least, StructLayout, SizesBefore;
    LayoutMeetsRules(m, decl, depth);
    var l := StructLayout(m, decl, depth).value;
    assert FieldMeetsRule(m, decl, depth, l, k);
    assert AsksFor(m, decl, depth, 1);
    assert decl.repr.align.Some? ==> AsksFor(m, decl, depth, decl.repr.align.value);
  }

  // -- names ------------------------------------------------------------------------------------------

  /** A struct that is laid out by the rules: it says so, has no parameters and nests no deeper than
    the limit. */
  predicate IsCStruct(m: Module, name: string, depth: nat) {
    name in m.structs && m.structs[name].repr.c && !m.structs[name].generic && depth <= 64
  }

  /** The layout a name has: a scalar's, that of the built-in `VaList` where nothing else is called
    so, or a struct's by the rules. */
  ghost predicate NameHas(m: Module, name: string, depth: nat, l: Layout) {
    if exists n :: ScalarTakes(name, n) then l.fields == [] && l.size == l.align && ScalarTakes(name, l.size)
    else if name == "VaList" && name !in m.items
    then l == Layout(24, 8, [Placed("gp_offset", 0), Placed("fp_offset", 4), Placed("overflow_arg_area", 8),
                             Placed("reg_save_area", 16)])
    else name != "str" && IsCStruct(m, name, depth) && MeetsRules(m, m.structs[name], depth, l)
  }

  lemma NoScalar(name: string)
    ensures (exists n :: ScalarTakes(name, n)) <==> Scalar(name).Some?
  {
    hide ScalarTakes, Scalar;
    if n :| ScalarTakes(name, n) {
      ScalarsAreNamedByBits(name, n);
    }
    if Scalar(name).Some? {
      ScalarsAreNamedByBits(name, Scalar(name).value);
    }
  }

  /** Every name has the layout it should, and no other; a name without one is unknown if it is
    neither `str`, nor a struct, nor an enumeration, and else its layout is the native one. */
  lemma NamesHaveTheirLayouts(m: Module, name: string, depth: nat, l: Layout)
    ensures LayoutNamed(m, name, depth) == Ok(l) <==> NameHas(m, name, depth, l)
    ensures LayoutNamed(m, name, depth) == Err(Unknown)
       <==> !(exists n :: ScalarTakes(name, n)) && !(name == "VaList" && name !in m.items) && name != "str"
            && name !in m.structs && !(name in m.items && (m.items[name].StructItem? || m.items[name].EnumItem?))
  {
    hide StructLayout, MeetsRules, ScalarTakes, Scalar;
    NoScalar(name);
    if Scalar(name).Some? {
      ScalarsAreNamedByBits(name, Scalar(name).value);
      ScalarsAreNamedByBits(name, l.size);
    } else if IsCStruct(m, name, depth) {
      StructsMeetTheRules(m, m.structs[name], depth, l);
      StructRefusal(m, m.structs[name], depth);
    }
  }

  /** A struct is never refused as unknown. */
  lemma StructRefusal(m: Module, decl: StructDecl, depth: nat)
    requires depth <= MAX_DEPTH
    ensures StructLayout(m, decl, depth) != Err(Unknown)
  {
    PlacingRefusal(m, decl.repr.packed, decl.fields, depth, 0, 1, []);
  }

  lemma {:induction false} PlacingRefusal(m: Module, packed: bool, fields: seq<FieldDecl>, depth: nat,
                                          offset: nat, strictest: nat, placed: seq<Placed>)
    requires depth <= MAX_DEPTH && strictest > 0
    ensures PlaceFields(m, packed, fields, depth, offset, strictest, placed) != Err(Unknown)
    decreases |fields|
  {
    hide LayoutNamed, RoundUp;
    if fields != [] && FieldLayout(m, fields[0].ty, depth).Ok? {
      var inner := FieldLayout(m, fields[0].ty, depth).value;
      var align := FieldAlign(packed, inner);
      var at := RoundUp(offset, align);
      PlacingRefusal(m, packed, fields[1..], depth, at + inner.size, Larger(strictest, align),
                     placed + [Placed(fields[0].name, at)]);
    }
  }

  /** A pointer takes eight bytes, a name what the name has one level down, and nothing else has a
    layout; a field is refused as native whatever its type was. */
  lemma FieldsHaveTheirLayouts(m: Module, ty: FieldType, depth: nat, l: Layout)
    requires depth <= MAX_DEPTH
    ensures FieldLayout(m, ty, depth) == Ok(l)
       <==> (ty.Pointer? && l == Layout(8, 8, [])) || (ty.Named? && NameHas(m, ty.name, depth + 1, l))
    ensures FieldLayout(m, ty, depth).Err? ==> FieldLayout(m, ty, depth) == Err(Native)
  {
    hide NameHas, LayoutNamed;
    if ty.Named? {
      NamesHaveTheirLayouts(m, ty.name, depth + 1, l);
    }
  }

  // -- paths ---------------------------------------------------------------------------------------------

  /** The first field of that name in a declared struct with a layout, and where it is. */
  ghost predicate IsField(m: Module, current: string, field: string, k: nat, l: Layout) {
    && current in m.structs && NameHas(m, current, 0, l)
    && k < |l.fields| && k < |m.structs[current].fields|
    && m.structs[current].fields[k].name == field
    && forall j :: 0 <= j < k ==> m.structs[current].fields[j].name != field
  }

  /** The path leads, field by field, to a field of the type named `leaf`, and `offset` is what the
    offsets on the way add up to. */
  ghost predicate LeadsTo(m: Module, current: string, path: seq<string>, offset: nat, leaf: string)
    decreases |path|
  {
    path != []
    && exists k: nat, l: Layout ::
         && IsField(m, current, path[0], k, l) && l.fields[k].offset <= offset
         && m.structs[current].fields[k].ty.Named?
         && var next := m.structs[current].fields[k].ty.name;
            if |path| == 1 then offset == l.fields[k].offset && leaf == next
            else LeadsTo(m, next, path[1..], offset - l.fields[k].offset, leaf)
  }

  /** An integer's name, its size and its sign. */
  predicate IsLeaf(name: string, size: nat, signed: bool) {
    && ScalarTakes(name, size) && name !in ["byte", "bool", "char", "f32", "f64"]
    && |name| > 0 && (signed <==> name[0] == 'i')
  }

  lemma StepTells(m: Module, current: string, field: string, k: nat, l: Layout)
    ensures IsField(m, current, field, k, l) ==>
              StepInto(m, current, field) == Ok((l.fields[k].offset, m.structs[current].fields[k].ty))
  {
    hide MeetsRules, LayoutNamed;
    NamesHaveTheirLayouts(m, current, 0, l);
    if IsField(m, current, field, k, l) {
      StructNamed(m, current, l) by { hide NameHas; }
      StructHasCLayout(m, m.structs[current], 0);
      SameIndex(m, m.structs[current], l, field);
      var j := DeclIndex(m.structs[current].fields, field);
      assert j == Some(k);
    }
  }

  lemma StepIsTold(m: Module, current: string, field: string) returns (k: nat, l: Layout)
    requires StepInto(m, current, field).Ok?
    ensures IsField(m, current, field, k, l)
    ensures StepInto(m, current, field) == Ok((l.fields[k].offset, m.structs[current].fields[k].ty))
  {
    hide NameHas, LayoutNamed;
    k := StepIsField(m, current, field);
    l := LayoutNamed(m, current, 0).value;
    NamesHaveTheirLayouts(m, current, 0, l);
    k := DeclIndex(m.structs[current].fields, field).value;
    StructHasCLayout(m, m.structs[current], 0);
    SameIndex(m, m.structs[current], l, field);
  }

  /** The leaf found is the one the path leads to. */
  lemma {:induction false} LeafIsLedTo(m: Module, current: string, path: seq<string>, leaf: (nat, nat, bool))
    ensures LeafAt(m, current, path) == Ok(leaf)
       <==> exists name :: LeadsTo(m, current, path, leaf.0, name) && IsLeaf(name, leaf.1, leaf.2)
    decreases |path|
  {
    hide StepInto, IsField, IsLeaf, Scalar, IsInteger, IsSigned;
    if LeafAt(m, current, path) == Ok(leaf) {
      LeafLeads(m, current, path, leaf);
    }
    if name :| LeadsTo(m, current, path, leaf.0, name) && IsLeaf(name, leaf.1, leaf.2) {
      LedToLeaf(m, current, path, leaf, name);
    }
  }

  lemma LeafIsTold(name: string, size: nat, signed: bool)
    ensures IsLeaf(name, size, signed) <==> IsInteger(name) && Scalar(name).GetOr(0) == size && (signed <==> IsSigned(name))
  {
    hide ScalarTakes;
    ScalarsAreNamedByBits(name, size);
  }

  lemma {:induction false} LeafLeads(m: Module, current: string, path: seq<string>, leaf: (nat, nat, bool))
    requires LeafAt(m, current, path) == Ok(leaf)
    ensures exists name :: LeadsTo(m, current, path, leaf.0, name) && IsLeaf(name, leaf.1, leaf.2)
    decreases |path|
  {
    hide StepInto, IsField, IsLeaf, Scalar, IsInteger, IsSigned;
    var k, l := StepIsTold(m, current, path[0]);
    FieldIsThere(m, current, path[0], k, l);
    var ty := m.structs[current].fields[k].ty;
    if |path| == 1 {
      LeafIsTold(ty.name, leaf.1, leaf.2);
      assert LeadsTo(m, current, path, leaf.0, ty.name);
    } else {
      var at := l.fields[k].offset;
      LeafLeads(m, ty.name, path[1..], (leaf.0 - at, leaf.1, leaf.2));
      var name :| LeadsTo(m, ty.name, path[1..], leaf.0 - at, name) && IsLeaf(name, leaf.1, leaf.2);
      assert LeadsTo(m, current, path, leaf.0, name);
    }
  }

  lemma FieldIsThere(m: Module, current: string, field: string, k: nat, l: Layout)
    requires IsField(m, current, field, k, l)
    ensures current in m.structs && k < |l.fields| && k < |m.structs[current].fields|
  {
    hide NameHas;
  }

  lemma {:induction false} LedToLeaf(m: Module, current: string, path: seq<string>, leaf: (nat, nat, bool), name: string)
    requires LeadsTo(m, current, path, leaf.0, name) && IsLeaf(name, leaf.1, leaf.2)
    ensures LeafAt(m, current, path) == Ok(leaf)
    decreases |path|
  {
    hide StepInto, NameHas, IsLeaf, Scalar, IsInteger, IsSigned, IndexOf, DeclIndex;
    var k: nat, l: Layout :| && IsField(m, current, path[0], k, l) && l.fields[k].offset <= leaf.0
                && m.structs[current].fields[k].ty.Named?
                && var next := m.structs[current].fields[k].ty.name;
                   if |path| == 1 then leaf.0 == l.fields[k].offset && name == next
                   else LeadsTo(m, next, path[1..], leaf.0 - l.fields[k].offset, name);
    StepTells(m, current, path[0], k, l);
    if |path| == 1 {
      LeafIsTold(name, leaf.1, leaf.2);
    } else {
      LedToLeaf(m, m.structs[current].fields[k].ty.name, path[1..], (leaf.0 - l.fields[k].offset, leaf.1, leaf.2), name);
    }
  }

  /** A path is answered if and only if it leads to an integer of a struct with a layout, and by that
    integer's offset, size and sign and the struct's alignment. */
  lemma PathsAreFollowed(m: Module, name: string, path: seq<string>, f: FieldAt)
    ensures FieldPath(m, name, path) == Ok(f)
       <==> && (exists l :: NameHas(m, name, 0, l) && l.align == f.structAlign)
            && exists leaf :: LeadsTo(m, name, path, f.offset, leaf) && IsLeaf(leaf, f.size, f.signed)
  {
    hide LayoutNamed, LeafAt, NameHas, LeadsTo, IsLeaf;
    LeafIsLedTo(m, name, path, (f.offset, f.size, f.signed));
    forall l ensures LayoutNamed(m, name, 0) == Ok(l) <==> NameHas(m, name, 0, l) {
      NamesHaveTheirLayouts(m, name, 0, l);
    }
  }
}
