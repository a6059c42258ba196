/** The spec parser's moving index and the byte cap's loop. */
module FmtLoops {
  import opened Wrappers
  import opened FmtSpec
  import opened FmtLaws

  lemma SuffixOfSuffix(s: string, at: nat, n: nat)
    requires at + n <= |s|
    ensures s[at..][n..] == s[at + n..]
  {
  }

  /** What precedes an index, in bytes. */
  lemma BytesBefore(s: string, at: nat)
    requires at <= |s|
    ensures ByteLen(s) == ByteLen(s[..at]) + ByteLen(s[at..])
  {
    BytesAppend(s[..at], s[at..]);
    assert s[..at] + s[at..] == s;
  }

  lemma OneMoreDigit(s: string, from: nat, at: nat)
    requires from <= at < |s| && IsDigit(s[at])
    ensures s[from..at] + DigitsOf(s[at..]) == s[from..at + 1] + DigitsOf(s[at + 1..])
  {
    SuffixOfSuffix(s, at, 1);
    var front, rest := s[from..at], DigitsOf(s[at + 1..]);
    OneMore(s, from, at);
    assert DigitsOf(s[at..]) == [s[at]] + rest;
    hide DigitsOf;
    assert front + ([s[at]] + rest) == (front + [s[at]]) + rest;
  }

  lemma OneMore(s: string, from: nat, at: nat)
    requires from <= at < |s|
    ensures s[from..at + 1] == s[from..at] + [s[at]]
  {
  }

  lemma NoMoreDigits(s: string, from: nat, at: nat)
    requires from <= at <= |s| && (at < |s| ==> !IsDigit(s[at]))
    ensures s[from..at] + DigitsOf(s[at..]) == s[from..at]
  {
  }

  method SkipDigits(s: string, from: nat) returns (at: nat)
    requires from <= |s|
    ensures from <= at <= |s| && s[from..at] == DigitsOf(s[from..])
  {
    hide DigitsOf;
    at := from;
    assert s[from..from] + DigitsOf(s[from..]) == DigitsOf(s[from..]);
    while at < |s| && IsDigit(s[at])
      invariant from <= at <= |s|
      invariant DigitsOf(s[from..]) == s[from..at] + DigitsOf(s[at..])
    {
      OneMoreDigit(s, from, at);
      at := at + 1;
    }
    NoMoreDigits(s, from, at);
  }

  /** Parses a spec, left to right. */
  method ParseSpec(s: string) returns (r: Result<Spec, SpecError>)
    ensures r == Parse(s)
  {
    hide ByteLen, CharBytes, KindOf, DigitsOf, ParseTail;
    var spec := DEFAULT_SPEC;
    var at := 0;
    if |s| >= 2 && IsAlign(s[1]) {
      if IsAlign(s[0]) {
        return Err(AlignAsFill(s[0]));
      }
      if CharBytes(s[0]) != 1 {
        return Err(MultiByteFill(s[0]));
      }
      spec := spec.(fill := Some(s[0]), align := Some(ToAlign(s[1])));
      at := 2;
    } else if s != "" && IsAlign(s[0]) {
      spec := spec.(align := Some(ToAlign(s[0])));
      at := 1;
    }
    ghost var head := Head(spec.fill, spec.align, s[at..]);
    assert s[0..] == s;
    assert ParseHead(s) == Ok(head);
    if at < |s| && s[at] == '+' {
      SuffixOfSuffix(s, at, 1);
      spec := spec.(sign := true);
      at := at + 1;
    }
    if at < |s| && s[at] == '0' {
      if spec.align.Some? {
        return Err(ZeroWithAlign);
      }
      SuffixOfSuffix(s, at, 1);
      spec := spec.(zero := true);
      at := at + 1;
    }
    r := ParseNumbers(s, spec, at, head);
  }

  /** Width, precision and type, from `at` on. */
  method ParseNumbers(s: string, start: Spec, from: nat, ghost head: Head) returns (r: Result<Spec, SpecError>)
    requires from <= |s| && start == Spec(head.fill, head.align, start.sign, start.zero, None, None, None)
    ensures r == ParseTail(s, head, start.sign, start.zero, s[from..])
  {
    hide ByteLen, ParseWidth, ParsePrecision, ParseKind;
    var width, afterWidth := TakeWidth(s, from);
    if width.Err? {
      return Err(width.error);
    }
    var precision, afterPrecision := TakePrecision(s, afterWidth);
    if precision.Err? {
      return Err(precision.error);
    }
    BytesBefore(s, afterPrecision);
    var kind := TakeKind(s, afterPrecision);
    if kind.Err? {
      return Err(kind.error);
    }
    r := Ok(start.(width := width.value, precision := precision.value, kind := kind.value));
  }

  method TakeWidth(s: string, from: nat) returns (r: Result<Option<nat>, SpecError>, at: nat)
    requires from <= |s|
    ensures from <= at <= |s|
    ensures ParseWidth(s[from..]) == match r { case Ok(w) => Ok((w, s[at..])) case Err(e) => Err(e) }
  {
    hide DigitsOf, Num;
    at := SkipDigits(s, from);
    if at == from {
      return Ok(None), at;
    }
    SuffixOfSuffix(s, from, at - from);
    var width := Bounded(s[from..at], "width");
    r := if width.Ok? then Ok(Some(width.value)) else Err(width.error);
  }

  method TakePrecision(s: string, from: nat) returns (r: Result<Option<nat>, SpecError>, at: nat)
    requires from <= |s|
    ensures from <= at <= |s|
    ensures ParsePrecision(s[from..]) == match r { case Ok(p) => Ok((p, s[at..])) case Err(e) => Err(e) }
  {
    hide DigitsOf, Num;
    at := from;
    if !(at < |s| && s[at] == '.') {
      return Ok(None), at;
    }
    SuffixOfSuffix(s, from, 1);
    at := SkipDigits(s, from + 1);
    if at == from + 1 {
      return Err(MissingPrecision), at;
    }
    SuffixOfSuffix(s, from, at - from);
    var precision := Bounded(s[from + 1..at], "precision");
    r := if precision.Ok? then Ok(Some(precision.value)) else Err(precision.error);
  }

  method TakeKind(s: string, at: nat) returns (r: Result<Option<Kind>, SpecError>)
    requires at <= |s|
    ensures r == ParseKind(s[at..], ByteLen(s[..at]))
  {
    hide ByteLen, KindOf;
    if at == |s| {
      return Ok(None);
    }
    var kind := KindOf(s[at]);
    if kind.None? {
      return Err(Unexpected(ByteLen(s[..at]), s[at]));
    }
    if at + 1 < |s| {
      KindIsOneByte(s, at);
      return Err(Unexpected(ByteLen(s[..at + 1]), s[at + 1]));
    }
    r := Ok(kind);
  }

  lemma KindIsOneByte(s: string, at: nat)
    requires at < |s| && KindOf(s[at]).Some?
    ensures ByteLen(s[..at + 1]) == ByteLen(s[..at]) + 1
  {
    assert s[..at + 1][..at] == s[..at];
  }

  /** `end` is the byte offset of a character of `s`, or its end. */
  predicate IsBoundary(s: string, end: nat) {
    exists k :: 0 <= k <= |s| && ByteLen(s[..k]) == end
  }

  lemma {:induction false} BytesGrow(s: string, j: nat, k: nat)
    requires j < k <= |s|
    ensures ByteLen(s[..j]) < ByteLen(s[..k])
    decreases k
  {
    assert s[..k][..k - 1] == s[..k - 1];
    if j < k - 1 {
      BytesGrow(s, j, k - 1);
    }
  }

  /** Steps back from the byte cap to the start of a character, and keeps what precedes it. */
  method TruncateBytes(s: string, cap: nat) returns (r: string)
    ensures r == Truncated(s, cap)
  {
    hide ByteLen;
    var end := if cap < ByteLen(s) then cap else ByteLen(s);
    assert s[..|s|] == s;
    NothingIsBoundary(s);
    forall k | 0 <= k <= |s| ensures ByteLen(s[..k]) <= ByteLen(s) {
      if k < |s| {
        BytesGrow(s, k, |s|);
      }
    }
    while !IsBoundary(s, end)
      invariant 0 <= end <= ByteLen(s) && end <= cap
      invariant forall k :: 0 <= k <= |s| && ByteLen(s[..k]) <= cap ==> ByteLen(s[..k]) <= end
      decreases end
    {
      assert end > 0;
      end := end - 1;
    }
    var k :| 0 <= k <= |s| && ByteLen(s[..k]) == end;
    r := s[..k];
    TruncationIsLongest(s, cap);
    var n := |Truncated(s, cap)|;
    assert Truncated(s, cap) == s[..n];
    if n > k {
      BytesGrow(s, k, n);
    }
  }

  lemma NothingIsBoundary(s: string)
    ensures IsBoundary(s, 0)
  {
    assert s[..0] == "" && ByteLen(s[..0]) == 0;
  }
}
