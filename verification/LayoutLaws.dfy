/** What the C layout promises of every struct it lays out, and of paths through nested ones. */
module LayoutLaws {
  import opened Wrappers
  import opened Layout

  // -- divisibility ---------------------------------------------------------------------------

  lemma MultipleOf(q: nat, n: nat)
    requires n > 0
    ensures (q * n) % n == 0
  {
    var d, r := (q * n) / n, (q * n) % n;
    assert q * n == d * n + r && (d + 1) * n == d * n + n;
    if d < q {
      MonotoneTimes(d + 1, q, n);
    } else {
      MonotoneTimes(q, d, n);
    }
  }

  lemma Quotient(a: nat, n: nat) returns (q: nat)
    requires n > 0 && a % n == 0
    ensures a == q * n
  {
    q := a / n;
  }

  lemma SumDivides(a: nat, b: nat, n: nat)
    requires n > 0 && a % n == 0 && b % n == 0
    ensures (a + b) % n == 0
  {
    var p := Quotient(a, n);
    var q := Quotient(b, n);
    assert a + b == (p + q) * n;
    MultipleOf(p + q, n);
  }

  lemma DividesThrough(a: nat, b: nat, c: nat)
    requires a > 0 && b > 0 && b % a == 0 && c % b == 0
    ensures c % a == 0
  {
    var p := Quotient(b, a);
    var q := Quotient(c, b);
    assert c == q * (p * a) == (q * p) * a;
    MultipleOf(q * p, a);
  }

  /** `RoundUp` is the least multiple of `align` from `n` on. */
  lemma RoundUpIsLeast(n: nat, align: nat, x: nat)
    requires align > 0
    ensures n <= RoundUp(n, align) < n + align && RoundUp(n, align) % align == 0
    ensures n <= x && x % align == 0 ==> RoundUp(n, align) <= x
  {
    var q := (n + align - 1) / align;
    assert n + align - 1 == q * align + (n + align - 1) % align;
    MultipleOf(q, align);
    if n <= x && x % align == 0 {
      var p := Quotient(x, align);
      if p < q {
        assert p + 1 <= q;
        MonotoneTimes(p + 1, q, align);
        assert (p + 1) * align == x + align;
      } else {
        MonotoneTimes(q, p, align);
      }
    }
  }

  lemma MonotoneTimes(p: nat, q: nat, n: nat)
    requires p <= q
    ensures p * n <= q * n
  {
  }

  lemma {:induction false} PowersDivide(a: nat, b: nat)
    requires IsPowerOfTwo(a) && IsPowerOfTwo(b) && a <= b
    ensures b % a == 0
    decreases b
  {
    if a > 1 {
      PowersDivide(a / 2, b / 2);
      var q := Quotient(b / 2, a / 2);
      assert b == 2 * (b / 2) && a == 2 * (a / 2);
      assert b == q * a;
      MultipleOf(q, a);
    }
  }

  lemma LargerPower(a: nat, b: nat)
    requires IsPowerOfTwo(a) && IsPowerOfTwo(b)
    ensures IsPowerOfTwo(Larger(a, b)) && Larger(a, b) % a == 0 && Larger(a, b) % b == 0
  {
    if a < b {
      PowersDivide(a, b);
      PowersDivide(b, b);
    } else {
      PowersDivide(b, a);
      PowersDivide(a, a);
    }
  }

  // -- every layout -----------------------------------------------------------------------------

  /** The alignment is a power of two and divides the size. */
  predicate Regular(l: Layout) {
    IsPowerOfTwo(l.align) && l.align > 0 && l.size % l.align == 0
  }

  lemma {:induction false} LayoutIsRegular(m: Module, name: string, depth: nat)
    requires LayoutNamed(m, name, depth).Ok?
    ensures Regular(LayoutNamed(m, name, depth).value)
    decreases if depth <= MAX_DEPTH then MAX_DEPTH + 1 - depth else 0, 3
  {
    SmallPowers();
    if Scalar(name).None? && !(name == "VaList" && name !in m.items) {
      StructIsRegular(m, m.structs[name], depth);
    }
  }

  lemma SmallPowers()
    ensures IsPowerOfTwo(1) && IsPowerOfTwo(2) && IsPowerOfTwo(4) && IsPowerOfTwo(8)
  {
    assert IsPowerOfTwo(2);
    assert IsPowerOfTwo(4);
  }

  lemma {:induction false} FieldIsRegular(m: Module, ty: FieldType, depth: nat)
    requires depth <= MAX_DEPTH && FieldLayout(m, ty, depth).Ok?
    ensures Regular(FieldLayout(m, ty, depth).value)
    decreases MAX_DEPTH + 1 - depth, 0
  {
    SmallPowers();
    if ty.Named? {
      LayoutIsRegular(m, ty.name, depth + 1);
    }
  }

  lemma {:induction false} StrictestIsPower(m: Module, packed: bool, fields: seq<FieldDecl>, depth: nat,
                                            offset: nat, strictest: nat, placed: seq<Placed>)
    requires depth <= MAX_DEPTH && IsPowerOfTwo(strictest)
    requires PlaceFields(m, packed, fields, depth, offset, strictest, placed).Ok?
    ensures var l := PlaceFields(m, packed, fields, depth, offset, strictest, placed).value;
            IsPowerOfTwo(l.align) && l.align % strictest == 0
    decreases MAX_DEPTH + 1 - depth, 1, |fields|
  {
    if fields == [] {
      LargerPower(strictest, strictest);
    } else {
      FieldIsRegular(m, fields[0].ty, depth);
      SmallPowers();
      var inner := FieldLayout(m, fields[0].ty, depth).value;
      var align := FieldAlign(packed, inner);
      LargerPower(strictest, align);
      var at := RoundUp(offset, align);
      StrictestIsPower(m, packed, fields[1..], depth, at + inner.size, Larger(strictest, align),
                       placed + [Placed(fields[0].name, at)]);
      DividesThrough(strictest, Larger(strictest, align),
                     PlaceFields(m, packed, fields, depth, offset, strictest, placed).value.align);
    }
  }

  lemma {:induction false} StructIsRegular(m: Module, decl: StructDecl, depth: nat)
    requires depth <= MAX_DEPTH && StructLayout(m, decl, depth).Ok?
    requires decl.repr.align.Some? ==> AdmissibleAlign(decl.repr.align.value)
    ensures Regular(StructLayout(m, decl, depth).value)
    decreases MAX_DEPTH + 1 - depth, 2
  {
    SmallPowers();
    StrictestIsPower(m, decl.repr.packed, decl.fields, depth, 0, 1, []);
    var body := PlaceFields(m, decl.repr.packed, decl.fields, depth, 0, 1, []).value;
    if decl.repr.align.Some? {
      LargerPower(body.align, decl.repr.align.value);
    }
    var l := StructLayout(m, decl, depth).value;
    RoundUpIsLeast(body.size, l.align, 0);
  }

  // -- depth ----------------------------------------------------------------------------------------

  /** The depth argument can only make a layout fail, never change it. */
  lemma {:induction false} DepthOnlyRefuses(m: Module, name: string, deep: nat, shallow: nat)
    requires shallow <= deep && LayoutNamed(m, name, deep).Ok?
    ensures LayoutNamed(m, name, shallow) == LayoutNamed(m, name, deep)
    decreases if deep <= MAX_DEPTH then MAX_DEPTH + 1 - deep else 0, 3
  {
    if Scalar(name).None? && !(name == "VaList" && name !in m.items) {
      var decl := m.structs[name];
      PlacingOnlyRefuses(m, decl.repr.packed, decl.fields, deep, shallow, 0, 1, []);
    }
  }

  lemma {:induction false} PlacingOnlyRefuses(m: Module, packed: bool, fields: seq<FieldDecl>, deep: nat, shallow: nat,
                                              offset: nat, strictest: nat, placed: seq<Placed>)
    requires shallow <= deep <= MAX_DEPTH && strictest > 0
    requires PlaceFields(m, packed, fields, deep, offset, strictest, placed).Ok?
    ensures PlaceFields(m, packed, fields, shallow, offset, strictest, placed)
         == PlaceFields(m, packed, fields, deep, offset, strictest, placed)
    decreases MAX_DEPTH + 1 - deep, 1, |fields|
  {
    if fields != [] {
      if fields[0].ty.Named? {
        DepthOnlyRefuses(m, fields[0].ty.name, deep + 1, shallow + 1);
      }
      var inner := FieldLayout(m, fields[0].ty, deep).value;
      var align := FieldAlign(packed, inner);
      var at := RoundUp(offset, align);
      PlacingOnlyRefuses(m, packed, fields[1..], deep, shallow, at + inner.size, Larger(strictest, align),
                         placed + [Placed(fields[0].name, at)]);
    }
  }

  // -- one struct --------------------------------------------------------------------------------------

  /** Where field `k` may begin: past the field before it. */
  function EndBefore(m: Module, decl: StructDecl, depth: nat, l: Layout, k: nat): nat
    requires depth <= MAX_DEPTH && k <= |l.fields| == |decl.fields|
    requires forall j :: 0 <= j < |decl.fields| ==> FieldLayout(m, decl.fields[j].ty, depth).Ok?
  {
    if k == 0 then 0 else l.fields[k - 1].offset + FieldLayout(m, decl.fields[k - 1].ty, depth).value.size
  }

  /** `at` is the least multiple of `align` not before `from`. */
  predicate Least(at: nat, from: nat, align: nat)
    requires align > 0
  {
    from <= at && at % align == 0 && forall x: nat :: from <= x && x % align == 0 ==> at <= x
  }

  ghost predicate AllLaid(m: Module, fields: seq<FieldDecl>, depth: nat)
    requires depth <= MAX_DEPTH
  {
    forall j :: 0 <= j < |fields| ==> FieldLayout(m, fields[j].ty, depth).Ok?
  }

  ghost predicate PlacedLeast(m: Module, packed: bool, fields: seq<FieldDecl>, depth: nat, start: nat, placed: seq<Placed>)
    requires depth <= MAX_DEPTH && AllLaid(m, fields, depth) && |placed| == |fields|
  {
    forall k :: 0 <= k < |fields| ==>
      && placed[k].name == fields[k].name
      && Least(placed[k].offset,
               if k == 0 then start else placed[k - 1].offset + FieldLayout(m, fields[k - 1].ty, depth).value.size,
               FieldAlign(packed, FieldLayout(m, fields[k].ty, depth).value))
  }

  lemma {:induction false} PlacingKeeps(m: Module, packed: bool, fields: seq<FieldDecl>, depth: nat,
                                        offset: nat, strictest: nat, placed: seq<Placed>)
    requires depth <= MAX_DEPTH && strictest > 0
    requires PlaceFields(m, packed, fields, depth, offset, strictest, placed).Ok?
    ensures AllLaid(m, fields, depth)
    ensures var l := PlaceFields(m, packed, fields, depth, offset, strictest, placed).value;
            |l.fields| == |placed| + |fields| && l.fields[..|placed|] == placed
    decreases |fields|
  {
    hide FieldLayout, RoundUp;
    if fields != [] {
      var inner := FieldLayout(m, fields[0].ty, depth).value;
      var align := FieldAlign(packed, inner);
      var at := RoundUp(offset, align);
      var more := placed + [Placed(fields[0].name, at)];
      PlacingKeeps(m, packed, fields[1..], depth, at + inner.size, Larger(strictest, align), more);
      var l := PlaceFields(m, packed, fields, depth, offset, strictest, placed).value;
      assert l.fields[..|more|][..|placed|] == placed;
      AllLaidFirst(m, fields, depth);
    }
  }

  lemma AllLaidFirst(m: Module, fields: seq<FieldDecl>, depth: nat)
    requires depth <= MAX_DEPTH && fields != [] && FieldLayout(m, fields[0].ty, depth).Ok?
    requires AllLaid(m, fields[1..], depth)
    ensures AllLaid(m, fields, depth)
  {
    hide FieldLayout;
    forall j | 0 <= j < |fields| ensures FieldLayout(m, fields[j].ty, depth).Ok? {
      if j > 0 {
        assert fields[j] == fields[1..][j - 1];
      }
    }
  }

  lemma {:induction false} PlacingIsLeast(m: Module, packed: bool, fields: seq<FieldDecl>, depth: nat,
                                          offset: nat, strictest: nat, placed: seq<Placed>)
    requires depth <= MAX_DEPTH && strictest > 0
    requires PlaceFields(m, packed, fields, depth, offset, strictest, placed).Ok?
    ensures AllLaid(m, fields, depth)
    ensures var l := PlaceFields(m, packed, fields, depth, offset, strictest, placed).value;
            |l.fields| == |placed| + |fields| && PlacedLeast(m, packed, fields, depth, offset, l.fields[|placed|..])
    decreases |fields|
  {
    hide FieldLayout, RoundUp, Least, PlacedLeast, AllLaid;
    PlacingKeeps(m, packed, fields, depth, offset, strictest, placed);
    var l := PlaceFields(m, packed, fields, depth, offset, strictest, placed).value;
    if fields == [] {
      NothingPlaced(m, packed, depth, offset);
      assert l.fields[|placed|..] == [] && fields == [];
    } else {
      var inner := FieldLayout(m, fields[0].ty, depth).value;
      var align := FieldAlign(packed, inner);
      var at := RoundUp(offset, align);
      RoundsToLeast(offset, align);
      var more := placed + [Placed(fields[0].name, at)];
      PlacingKeeps(m, packed, fields[1..], depth, at + inner.size, Larger(strictest, align), more);
      PlacingIsLeast(m, packed, fields[1..], depth, at + inner.size, Larger(strictest, align), more);
      assert l.fields[|placed|] == l.fields[..|more|][|placed|];
      assert l.fields[|placed|..][1..] == l.fields[|more|..];
      FirstThenRest(m, packed, fields, depth, offset, l.fields[|placed|..], at);
    }
  }

  lemma {:induction false} PlacingEnds(m: Module, packed: bool, fields: seq<FieldDecl>, depth: nat,
                                       offset: nat, strictest: nat, placed: seq<Placed>)
    requires depth <= MAX_DEPTH && strictest > 0
    requires PlaceFields(m, packed, fields, depth, offset, strictest, placed).Ok?
    ensures AllLaid(m, fields, depth)
    ensures var l := PlaceFields(m, packed, fields, depth, offset, strictest, placed).value;
            && |l.fields| == |placed| + |fields|
            && l.size == (if fields == [] then offset
                          else l.fields[|l.fields| - 1].offset
                               + FieldLayout(m, fields[|fields| - 1].ty, depth).value.size)
    decreases |fields|
  {
    hide FieldLayout, RoundUp;
    PlacingKeeps(m, packed, fields, depth, offset, strictest, placed);
    if fields != [] {
      var inner := FieldLayout(m, fields[0].ty, depth).value;
      var align := FieldAlign(packed, inner);
      var at := RoundUp(offset, align);
      var more := placed + [Placed(fields[0].name, at)];
      PlacingKeeps(m, packed, fields[1..], depth, at + inner.size, Larger(strictest, align), more);
      PlacingEnds(m, packed, fields[1..], depth, at + inner.size, Larger(strictest, align), more);
      var l := PlaceFields(m, packed, fields, depth, offset, strictest, placed).value;
      if |fields| == 1 {
        assert l.fields[..|more|][|placed|] == more[|placed|];
      } else {
        assert fields[1..][|fields| - 2] == fields[|fields| - 1];
      }
    }
  }

  /** The alignment is one of the fields', or what it was, and none is stricter. */
  ghost predicate Strictest(m: Module, packed: bool, fields: seq<FieldDecl>, depth: nat, before: nat, align: nat)
    requires depth <= MAX_DEPTH && AllLaid(m, fields, depth)
  {
    && before <= align
    && (forall k :: 0 <= k < |fields| ==> FieldAlign(packed, FieldLayout(m, fields[k].ty, depth).value) <= align)
    && (align == before
        || exists k :: 0 <= k < |fields| && align == FieldAlign(packed, FieldLayout(m, fields[k].ty, depth).value))
  }

  lemma {:induction false} PlacingAligns(m: Module, packed: bool, fields: seq<FieldDecl>, depth: nat,
                                         offset: nat, strictest: nat, placed: seq<Placed>)
    requires depth <= MAX_DEPTH && strictest > 0
    requires PlaceFields(m, packed, fields, depth, offset, strictest, placed).Ok?
    ensures AllLaid(m, fields, depth)
    ensures Strictest(m, packed, fields, depth, strictest,
                      PlaceFields(m, packed, fields, depth, offset, strictest, placed).value.align)
    decreases |fields|
  {
    hide FieldLayout, RoundUp, Strictest;
    PlacingKeeps(m, packed, fields, depth, offset, strictest, placed);
    if fields == [] {
      NoneStricter(m, packed, depth, strictest);
    } else {
      var inner := FieldLayout(m, fields[0].ty, depth).value;
      var align := FieldAlign(packed, inner);
      var at := RoundUp(offset, align);
      PlacingAligns(m, packed, fields[1..], depth, at + inner.size, Larger(strictest, align),
                    placed + [Placed(fields[0].name, at)]);
      StrictestFirst(m, packed, fields, depth, strictest,
                     PlaceFields(m, packed, fields, depth, offset, strictest, placed).value.align);
    }
  }

  lemma NoneStricter(m: Module, packed: bool, depth: nat, before: nat)
    requires depth <= MAX_DEPTH
    ensures Strictest(m, packed, [], depth, before, before)
  {
  }

  lemma StrictestFirst(m: Module, packed: bool, fields: seq<FieldDecl>, depth: nat, before: nat, align: nat)
    requires depth <= MAX_DEPTH && fields != [] && AllLaid(m, fields, depth) && AllLaid(m, fields[1..], depth)
    requires Strictest(m, packed, fields[1..], depth,
                       Larger(before, FieldAlign(packed, FieldLayout(m, fields[0].ty, depth).value)), align)
    ensures Strictest(m, packed, fields, depth, before, align)
  {
    hide FieldLayout;
    forall k | 0 <= k < |fields| ensures FieldAlign(packed, FieldLayout(m, fields[k].ty, depth).value) <= align {
      if k > 0 {
        assert fields[1..][k - 1] == fields[k];
      }
    }
    var first := FieldAlign(packed, FieldLayout(m, fields[0].ty, depth).value);
    if align != before && align != first {
      var k :| 0 <= k < |fields[1..]| && align == FieldAlign(packed, FieldLayout(m, fields[1..][k].ty, depth).value);
      var next := k + 1;
      assert fields[next] == fields[1..][k];
    }
  }

  lemma NothingPlaced(m: Module, packed: bool, depth: nat, start: nat)
    requires depth <= MAX_DEPTH
    ensures PlacedLeast(m, packed, [], depth, start, [])
  {
  }

  lemma RoundsToLeast(n: nat, align: nat)
    requires align > 0
    ensures Least(RoundUp(n, align), n, align)
  {
    forall x: nat ensures n <= x && x % align == 0 ==> RoundUp(n, align) <= x {
      RoundUpIsLeast(n, align, x);
    }
    RoundUpIsLeast(n, align, 0);
  }

  lemma FirstThenRest(m: Module, packed: bool, fields: seq<FieldDecl>, depth: nat, start: nat, placed: seq<Placed>, at: nat)
    requires depth <= MAX_DEPTH && fields != [] && FieldLayout(m, fields[0].ty, depth).Ok?
    requires AllLaid(m, fields[1..], depth) && |placed| == |fields| && placed[0] == Placed(fields[0].name, at)
    requires Least(at, start, FieldAlign(packed, FieldLayout(m, fields[0].ty, depth).value))
    requires PlacedLeast(m, packed, fields[1..], depth, at + FieldLayout(m, fields[0].ty, depth).value.size, placed[1..])
    ensures AllLaid(m, fields, depth) && PlacedLeast(m, packed, fields, depth, start, placed)
  {
    hide FieldLayout, Least;
    forall j | 0 <= j < |fields| ensures FieldLayout(m, fields[j].ty, depth).Ok? {
      if j > 0 {
        assert fields[j] == fields[1..][j - 1];
      }
    }
    forall k | 0 <= k < |fields| ensures PlacedAt(m, packed, fields, depth, start, placed, k) {
      if k > 0 {
        RestIsPlaced(m, packed, fields, depth, start, placed, at, k);
      }
    }
    EachIsPlaced(m, packed, fields, depth, start, placed);
  }

  ghost predicate PlacedAt(m: Module, packed: bool, fields: seq<FieldDecl>, depth: nat, start: nat, placed: seq<Placed>,
                           k: nat)
    requires depth <= MAX_DEPTH && AllLaid(m, fields, depth) && k < |placed| == |fields|
  {
    && placed[k].name == fields[k].name
    && Least(placed[k].offset,
             if k == 0 then start else placed[k - 1].offset + FieldLayout(m, fields[k - 1].ty, depth).value.size,
             FieldAlign(packed, FieldLayout(m, fields[k].ty, depth).value))
  }

  lemma EachIsPlaced(m: Module, packed: bool, fields: seq<FieldDecl>, depth: nat, start: nat, placed: seq<Placed>)
    requires depth <= MAX_DEPTH && AllLaid(m, fields, depth) && |placed| == |fields|
    requires forall k :: 0 <= k < |fields| ==> PlacedAt(m, packed, fields, depth, start, placed, k)
    ensures PlacedLeast(m, packed, fields, depth, start, placed)
  {
    hide FieldLayout, Least;
    forall k | 0 <= k < |fields|
      ensures placed[k].name == fields[k].name
      ensures Least(placed[k].offset,
                    if k == 0 then start else placed[k - 1].offset + FieldLayout(m, fields[k - 1].ty, depth).value.size,
                    FieldAlign(packed, FieldLayout(m, fields[k].ty, depth).value))
    {
      assert PlacedAt(m, packed, fields, depth, start, placed, k);
    }
  }

  lemma RestIsPlaced(m: Module, packed: bool, fields: seq<FieldDecl>, depth: nat, start: nat, placed: seq<Placed>,
                     at: nat, k: nat)
    requires 0 < k < |placed| == |fields| && placed[0] == Placed(fields[0].name, at)
    requires depth <= MAX_DEPTH && AllLaid(m, fields, depth) && AllLaid(m, fields[1..], depth)
    requires PlacedLeast(m, packed, fields[1..], depth, at + FieldLayout(m, fields[0].ty, depth).value.size, placed[1..])
    ensures PlacedAt(m, packed, fields, depth, start, placed, k)
  {
    hide FieldLayout, Least;
    var j := k - 1;
    OneIsPlaced(m, packed, fields[1..], depth, at + FieldLayout(m, fields[0].ty, depth).value.size, placed[1..], j);
    assert placed[1..][j] == placed[k] && fields[1..][j] == fields[k];
    if j > 0 {
      assert placed[1..][j - 1] == placed[j] && fields[1..][j - 1] == fields[j];
    }
  }

  lemma OneIsPlaced(m: Module, packed: bool, fields: seq<FieldDecl>, depth: nat, start: nat, placed: seq<Placed>, k: nat)
    requires depth <= MAX_DEPTH && AllLaid(m, fields, depth) && k < |placed| == |fields|
    requires PlacedLeast(m, packed, fields, depth, start, placed)
    ensures PlacedAt(m, packed, fields, depth, start, placed, k)
  {
    hide FieldLayout, Least;
    assert placed[k].name == fields[k].name;
  }

  /** No field's alignment is stricter, and it is one of theirs, the struct's own, or one. */
  ghost predicate StrictestOf(m: Module, decl: StructDecl, depth: nat, align: nat)
    requires depth <= MAX_DEPTH && AllLaid(m, decl.fields, depth)
  {
    || (decl.repr.align == Some(align)
        && exists below: nat :: below <= align && Strictest(m, decl.repr.packed, decl.fields, depth, 1, below))
    || Strictest(m, decl.repr.packed, decl.fields, depth, 1, align)
  }

  /** Everything the clause says of one struct: its fields in order, each at the least
    admissible offset past the one before, none overlapping and all inside; the alignment
    the strictest of theirs and its own; the size the least multiple of it. */
  ghost predicate IsCLayout(m: Module, decl: StructDecl, depth: nat, l: Layout)
    requires depth <= MAX_DEPTH
  {
    var fields := decl.fields;
    && AllLaid(m, fields, depth) && |l.fields| == |fields|
    && PlacedLeast(m, decl.repr.packed, fields, depth, 0, l.fields)
    && IsPowerOfTwo(l.align) && l.align > 0
    && (decl.repr.align.Some? ==> decl.repr.align.value <= l.align)
    && StrictestOf(m, decl, depth, l.align)
    && Least(l.size, EndBefore(m, decl, depth, l, |fields|), l.align)
  }

  lemma StructHasCLayout(m: Module, decl: StructDecl, depth: nat)
    requires depth <= MAX_DEPTH && StructLayout(m, decl, depth).Ok?
    requires decl.repr.align.Some? ==> AdmissibleAlign(decl.repr.align.value)
    ensures IsCLayout(m, decl, depth, StructLayout(m, decl, depth).value)
  {
    hide FieldLayout, RoundUp, Least, PlacedLeast, Strictest, IsPowerOfTwo;
    SmallPowers();
    PlacingIsLeast(m, decl.repr.packed, decl.fields, depth, 0, 1, []);
    PlacingEnds(m, decl.repr.packed, decl.fields, depth, 0, 1, []);
    PlacingAligns(m, decl.repr.packed, decl.fields, depth, 0, 1, []);
    StructIsRegular(m, decl, depth);
    var body := PlaceFields(m, decl.repr.packed, decl.fields, depth, 0, 1, []).value;
    var l := StructLayout(m, decl, depth).value;
    assert body.fields[0..] == body.fields;
    RoundsToLeast(body.size, l.align);
    assert Strictest(m, decl.repr.packed, decl.fields, depth, 1, body.align);
    assert StrictestOf(m, decl, depth, l.align);
    assert body.size == EndBefore(m, decl, depth, l, |decl.fields|);
  }

  lemma EndsLater(m: Module, decl: StructDecl, depth: nat, l: Layout, j: nat, k: nat)
    requires depth <= MAX_DEPTH && IsCLayout(m, decl, depth, l) && j < k <= |decl.fields|
    ensures l.fields[j].offset + FieldLayout(m, decl.fields[j].ty, depth).value.size <= EndBefore(m, decl, depth, l, k)
    decreases k
  {
    hide FieldLayout;
    if j < k - 1 {
      var i := k - 1;
      EndsLater(m, decl, depth, l, j, i);
      assert Least(l.fields[i].offset, EndBefore(m, decl, depth, l, i),
                   FieldAlign(decl.repr.packed, FieldLayout(m, decl.fields[i].ty, depth).value));
    }
  }

  lemma FieldsAreApart(m: Module, decl: StructDecl, depth: nat, l: Layout, j: nat, k: nat)
    requires depth <= MAX_DEPTH && IsCLayout(m, decl, depth, l) && j < k < |decl.fields|
    ensures l.fields[j].offset + FieldLayout(m, decl.fields[j].ty, depth).value.size <= l.fields[k].offset
  {
    hide FieldLayout;
    EndsLater(m, decl, depth, l, j, k);
    assert Least(l.fields[k].offset, EndBefore(m, decl, depth, l, k),
                 FieldAlign(decl.repr.packed, FieldLayout(m, decl.fields[k].ty, depth).value));
  }

  lemma FieldIsAligned(m: Module, decl: StructDecl, depth: nat, l: Layout, j: nat)
    requires depth <= MAX_DEPTH && IsCLayout(m, decl, depth, l) && j < |decl.fields| && !decl.repr.packed
    ensures var a := FieldLayout(m, decl.fields[j].ty, depth).value;
            l.fields[j].offset % a.align == 0 && l.align % a.align == 0
  {
    hide FieldLayout;
    FieldIsRegular(m, decl.fields[j].ty, depth);
    var a := FieldLayout(m, decl.fields[j].ty, depth).value;
    assert FieldAlign(decl.repr.packed, a) == a.align && a.align <= l.align;
    assert Least(l.fields[j].offset, EndBefore(m, decl, depth, l, j), FieldAlign(decl.repr.packed, a));
    PowersDivide(a.align, l.align);
  }

  /** Fields of one struct lie inside it, do not overlap, and are aligned unless it is packed. */
  lemma FieldsAreDisjoint(m: Module, decl: StructDecl, depth: nat, j: nat, k: nat)
    requires depth <= MAX_DEPTH && StructLayout(m, decl, depth).Ok? && j < |decl.fields| && k < |decl.fields|
    requires decl.repr.align.Some? ==> AdmissibleAlign(decl.repr.align.value)
    ensures AllLaid(m, decl.fields, depth) && |StructLayout(m, decl, depth).value.fields| == |decl.fields|
    ensures var l := StructLayout(m, decl, depth).value;
            var a := FieldLayout(m, decl.fields[j].ty, depth).value;
            && l.fields[j].offset + a.size <= l.size && l.size % l.align == 0
            && (j < k ==> l.fields[j].offset + a.size <= l.fields[k].offset)
            && (!decl.repr.packed ==> l.fields[j].offset % a.align == 0 && l.align % a.align == 0)
  {
    hide FieldLayout, StructLayout, PlacedLeast;
    StructHasCLayout(m, decl, depth);
    var l := StructLayout(m, decl, depth).value;
    EndsLater(m, decl, depth, l, j, |decl.fields|);
    if j < k {
      FieldsAreApart(m, decl, depth, l, j, k);
    }
    if !decl.repr.packed {
      FieldIsAligned(m, decl, depth, l, j);
    }
  }

  // -- paths ----------------------------------------------------------------------------------------------

  /** One step of a path: a field of a struct laid out at depth 0. */
  lemma StepIsField(m: Module, current: string, field: string) returns (k: nat)
    requires StepInto(m, current, field).Ok?
    ensures current in m.structs && LayoutNamed(m, current, 0).Ok?
    ensures var decl := m.structs[current];
            var l := LayoutNamed(m, current, 0).value;
            && k < |decl.fields| == |l.fields| && decl.fields[k].name == field
            && StepInto(m, current, field) == Ok((l.fields[k].offset, decl.fields[k].ty))
            && StructLayout(m, decl, 0) == Ok(l)
            && (decl.repr.align.Some? ==> AdmissibleAlign(decl.repr.align.value))
  {
    hide StructLayout, FieldLayout;
    var l := LayoutNamed(m, current, 0).value;
    k := IndexOf(l.fields, field).value;
    StructNamed(m, current, l);
    StructHasCLayout(m, m.structs[current], 0);
    SameIndex(m, m.structs[current], l, field);
  }

  /** A name with fields is a struct: the scalars have none, and a `VaList` is none. */
  lemma StructNamed(m: Module, current: string, l: Layout)
    requires current in m.structs && LayoutNamed(m, current, 0) == Ok(l) && l.fields != []
    ensures StructLayout(m, m.structs[current], 0) == Ok(l)
    ensures m.structs[current].repr.align.Some? ==> AdmissibleAlign(m.structs[current].repr.align.value)
  {
    hide StructLayout;
  }

  lemma SameIndex(m: Module, decl: StructDecl, l: Layout, field: string)
    requires IsCLayout(m, decl, 0, l)
    ensures IndexOf(l.fields, field) == DeclIndex(decl.fields, field)
  {
    hide FieldLayout, Least;
    forall k | 0 <= k < |decl.fields| ensures l.fields[k].name == decl.fields[k].name {
    }
    var a, b := IndexOf(l.fields, field), DeclIndex(decl.fields, field);
    if a.Some? && b.Some? {
      assert l.fields[a.value].name == field && decl.fields[b.value].name == field;
    }
  }

  /** A path's leaf lies inside the struct it starts from. */
  lemma {:induction false} LeafIsInside(m: Module, current: string, path: seq<string>)
    requires LeafAt(m, current, path).Ok?
    ensures LayoutNamed(m, current, 0).Ok?
    ensures var (offset, size, _) := LeafAt(m, current, path).value;
            offset + size <= LayoutNamed(m, current, 0).value.size
    decreases |path|
  {
    hide StructLayout;
    var k := StepIsField(m, current, path[0]);
    FieldsAreDisjoint(m, m.structs[current], 0, k, k);
    LeafInField(m, current, path, k);
  }

  /** A path's leaf lies inside the first field on the path. */
  lemma {:induction false} LeafInField(m: Module, current: string, path: seq<string>, k: nat)
    requires LeafAt(m, current, path).Ok? && current in m.structs && LayoutNamed(m, current, 0).Ok?
    requires k < |m.structs[current].fields| == |LayoutNamed(m, current, 0).value.fields|
    requires StepInto(m, current, path[0])
          == Ok((LayoutNamed(m, current, 0).value.fields[k].offset, m.structs[current].fields[k].ty))
    requires FieldLayout(m, m.structs[current].fields[k].ty, 0).Ok?
    ensures var (offset, size, _) := LeafAt(m, current, path).value;
            var at := LayoutNamed(m, current, 0).value.fields[k].offset;
            at <= offset && offset + size <= at + FieldLayout(m, m.structs[current].fields[k].ty, 0).value.size
    decreases |path|, 0
  {
    hide StructLayout, StepInto;
    var ty := m.structs[current].fields[k].ty;
    if |path| > 1 {
      LeafIsInside(m, ty.name, path[1..]);
      DepthOnlyRefuses(m, ty.name, 1, 0);
    } else {
      IntegerIsScalar(ty.name);
    }
  }

  lemma IntegerIsScalar(name: string)
    requires IsInteger(name)
    ensures Scalar(name).Some?
  {
  }

  function Range(leaf: (nat, nat, bool)): (nat, nat) {
    (leaf.0, leaf.0 + leaf.1)
  }

  /** Two leaves whose paths first differ at the same struct occupy disjoint bytes. */
  lemma {:induction false} LeavesAreDisjoint(m: Module, current: string, common: seq<string>, p: seq<string>, q: seq<string>)
    requires p != [] && q != [] && p[0] != q[0]
    requires LeafAt(m, current, common + p).Ok? && LeafAt(m, current, common + q).Ok?
    ensures var a, b := Range(LeafAt(m, current, common + p).value), Range(LeafAt(m, current, common + q).value);
            a.1 <= b.0 || b.1 <= a.0
    decreases |common|
  {
    hide StructLayout, StepInto;
    if common == [] {
      assert common + p == p && common + q == q;
      FirstFieldsDiffer(m, current, p, q);
    } else {
      assert (common + p)[1..] == common[1..] + p && (common + q)[1..] == common[1..] + q;
      LeavesAreDisjoint(m, StepInto(m, current, common[0]).value.1.name, common[1..], p, q);
    }
  }

  lemma FirstFieldsDiffer(m: Module, current: string, p: seq<string>, q: seq<string>)
    requires p != [] && q != [] && p[0] != q[0] && LeafAt(m, current, p).Ok? && LeafAt(m, current, q).Ok?
    ensures var a, b := Range(LeafAt(m, current, p).value), Range(LeafAt(m, current, q).value);
            a.1 <= b.0 || b.1 <= a.0
  {
    hide StructLayout, StepInto, LeafAt, FieldLayout, LayoutNamed;
    LeafSteps(m, current, p);
    LeafSteps(m, current, q);
    var j := StepIsField(m, current, p[0]);
    var k := StepIsField(m, current, q[0]);
    assert j != k;
    FieldsAreDisjoint(m, m.structs[current], 0, j, k);
    FieldsAreDisjoint(m, m.structs[current], 0, k, j);
    LeafInField(m, current, p, j);
    LeafInField(m, current, q, k);
  }

  lemma LeafSteps(m: Module, current: string, path: seq<string>)
    requires LeafAt(m, current, path).Ok?
    ensures path != [] && StepInto(m, current, path[0]).Ok?
  {
  }

  /** No struct on the path is packed. */
  predicate Unpacked(m: Module, current: string, path: seq<string>)
    requires LeafAt(m, current, path).Ok?
    decreases |path|
  {
    && current in m.structs && !m.structs[current].repr.packed
    && (|path| > 1 ==> Unpacked(m, StepInto(m, current, path[0]).value.1.name, path[1..]))
  }

  /** Through unpacked structs a leaf is naturally aligned, in the struct and in memory that
    is aligned for the struct. */
  lemma {:induction false} LeafIsAligned(m: Module, current: string, path: seq<string>)
    requires LeafAt(m, current, path).Ok? && Unpacked(m, current, path)
    ensures LayoutNamed(m, current, 0).Ok?
    ensures var (offset, size, _) := LeafAt(m, current, path).value;
            size > 0 && offset % size == 0 && LayoutNamed(m, current, 0).value.align % size == 0
    decreases |path|
  {
    hide StructLayout, StepInto, FieldLayout;
    LeafSteps(m, current, path);
    var k := StepIsField(m, current, path[0]);
    var decl := m.structs[current];
    var l := LayoutNamed(m, current, 0).value;
    StructHasCLayout(m, decl, 0);
    FieldIsAligned(m, decl, 0, l, k);
    var at, ty := l.fields[k].offset, decl.fields[k].ty;
    var (offset, size, _) := LeafAt(m, current, path).value;
    NamedFieldLayout(m, ty);
    if |path| > 1 {
      LeafIsAligned(m, ty.name, path[1..]);
      var inner := LayoutNamed(m, ty.name, 0).value;
      DividesThrough(size, inner.align, at);
      DividesThrough(size, inner.align, l.align);
      SumDivides(at, offset - at, size);
    } else {
      IntegerIsScalar(ty.name);
    }
  }

  lemma NamedFieldLayout(m: Module, ty: FieldType)
    requires ty.Named? && FieldLayout(m, ty, 0).Ok?
    ensures LayoutNamed(m, ty.name, 0) == FieldLayout(m, ty, 0)
    ensures Scalar(ty.name).Some? ==>
              FieldLayout(m, ty, 0).value.align == Scalar(ty.name).value == FieldLayout(m, ty, 0).value.size
  {
    DepthOnlyRefuses(m, ty.name, 1, 0);
  }

  /** A field path answers with a leaf inside the named struct, aligned as the struct is when
    nothing on the way is packed, and with the struct's own alignment. */
  lemma FieldPathIsSound(m: Module, name: string, path: seq<string>)
    requires FieldPath(m, name, path).Ok?
    ensures LayoutNamed(m, name, 0).Ok? && LeafAt(m, name, path).Ok?
    ensures var f := FieldPath(m, name, path).value;
            && f.structAlign == LayoutNamed(m, name, 0).value.align
            && f.offset + f.size <= LayoutNamed(m, name, 0).value.size
            && (Unpacked(m, name, path) ==> f.size > 0 && f.offset % f.size == 0 && f.structAlign % f.size == 0)
  {
    hide LayoutNamed, LeafAt;
    LeafIsInside(m, name, path);
    if Unpacked(m, name, path) {
      LeafIsAligned(m, name, path);
    }
  }
}
