/** The margin rule and the strip, tied together: the rule is judged on source lines, the strip
  acts on decoded text, and the lines of the one are the lines of the other, save for those that
  an escape begins. */
module LexMargins {
  import opened Wrappers
  import opened LexModel
  import opened LexNesting
  import opened LexLiterals
  import opened LexDedent
  import opened LexWeave
  import opened LexFinish

  // -- lines of a growing text ----------------------------------------------------------------------

  /** The last line of `lines` is continued. */
  function Continued(lines: seq<string>, more: string): seq<string>
    requires lines != []
  {
    lines[..|lines| - 1] + [lines[|lines| - 1] + more]
  }

  lemma {:induction false} NoBreak(s: string)
    requires '\n' !in s
    ensures Lines(s) == [s]
    decreases |s|
  {
    if s != "" {
      NoBreak(s[1..]);
      assert [s[0]] + s[1..] == s;
    }
  }

  lemma {:induction false} LinesGoOn(s: string, more: string)
    requires '\n' !in more
    ensures Lines(s + more) == Continued(Lines(s), more)
    decreases |s|
  {
    if s == "" {
      assert s + more == more;
      NoBreak(more);
    } else {
      assert (s + more)[1..] == s[1..] + more;
      LinesGoOn(s[1..], more);
      var rest := Lines(s[1..]);
      if s[0] == '\n' {
        assert Continued([""] + rest, more) == [""] + Continued(rest, more);
      } else {
        ContinuedFirst(s[0], rest, more);
      }
    }
  }

  lemma ContinuedFirst(c: char, lines: seq<string>, more: string)
    requires lines != []
    ensures Continued([[c] + lines[0]] + lines[1..], more)
         == [[c] + Continued(lines, more)[0]] + Continued(lines, more)[1..]
  {
    if |lines| == 1 {
      assert ([c] + lines[0]) + more == [c] + (lines[0] + more);
    }
  }

  lemma {:induction false} LinesBreak(s: string)
    ensures Lines(s + "\n") == Lines(s) + [""]
    decreases |s|
  {
    if s == "" {
      assert s + "\n" == "\n" && "\n"[1..] == "";
    } else {
      assert (s + "\n")[1..] == s[1..] + "\n";
      LinesBreak(s[1..]);
    }
  }

  lemma {:induction false} WovenGrows(tokens: seq<Token>, pieces: seq<Piece>, a: string, b: string)
    requires forall k :: 0 <= k < |pieces| && pieces[k].Text? ==>
               pieces[k].index < |tokens| && tokens[pieces[k].index].tok.StrText?
    ensures WovenText(tokens, pieces, a + b) == WovenText(tokens, pieces, a) + b
  {
    if pieces != [] {
      WovenGrows(tokens, pieces[1..], a, b);
    }
  }

  lemma {:induction false} HoleIsWoven(tokens: seq<Token>, pieces: seq<Piece>)
    requires forall k :: 0 <= k < |pieces| && pieces[k].Text? ==>
               pieces[k].index < |tokens| && tokens[pieces[k].index].tok.StrText?
    ensures WovenText(tokens, pieces + [Hole], "") == WovenText(tokens, pieces, "") + [HOLE]
  {
    var all := pieces + [Hole];
    if pieces == [] {
      assert all[1..] == [];
    } else {
      assert all[1..] == pieces[1..] + [Hole];
      HoleIsWoven(tokens, pieces[1..]);
    }
  }

  // -- what a decoded line shows of its source line ------------------------------------------------

  /** A line past its opening blanks: it opens with the blanks of the source line at `p`, and
    if the source line is blank so is this one. */
  predicate LineTold(text: string, p: nat, line: string)
    requires p <= |text|
  {
    var run := RunEnd(text, p, IsBlank);
    && run < |text| && text[p..run] <= line
    && (text[run] == '\r' ==> |line| > run - p && line[run - p] == '\r')
    && (text[run] == '\n' ==> line == text[p..run])
  }

  /** The line being read at `pos`. */
  predicate LastTold(text: string, p: nat, line: string, pos: nat)
    requires p <= pos <= |text|
  {
    var run := RunEnd(text, p, IsBlank);
    if pos <= run then line == text[p..pos] else text[run] != '\n' && LineTold(text, p, line)
  }

  /** Each line of a body's text tells the source line it begins, if it begins one; `buried` if the
    last is past its blanks. */
  ghost predicate Told(text: string, at: seq<Option<nat>>, lines: seq<string>, pos: nat, buried: bool) {
    && |at| == |lines| > 0 && pos <= |text|
    && (forall j :: 0 <= j < |at| - 1 && at[j].Some? ==> LineIsOver(text, at[j].value, lines[j], pos))
    && (at[|at| - 1].Some? ==> LineIsRead(text, at[|at| - 1].value, lines[|at| - 1], pos, buried))
  }

  predicate LineIsOver(text: string, p: nat, line: string, pos: nat) {
    p <= |text| && RunEnd(text, p, IsBlank) < pos && LineTold(text, p, line)
  }

  predicate LineIsRead(text: string, p: nat, line: string, pos: nat, buried: bool) {
    p <= pos <= |text| && LastTold(text, p, line, pos) && (buried ==> RunEnd(text, p, IsBlank) < pos)
  }

  /** The line is continued past a character that is neither blank nor a newline. */
  lemma LastGoesOn(text: string, p: nat, line: string, pos: nat, more: string, next: nat)
    requires p <= pos < next <= |text| && LastTold(text, p, line, pos)
    requires !IsBlank(text[pos]) && text[pos] != '\n' && (text[pos] == '\r' ==> more == "\r")
    ensures LastTold(text, p, line + more, next) && RunEnd(text, p, IsBlank) < next
  {
    var run := RunEnd(text, p, IsBlank);
    if pos <= run {
      assert run == pos;
    } else {
      assert text[p..run] <= line <= line + more;
    }
  }

  lemma BlankGoesOn(text: string, p: nat, line: string, pos: nat)
    requires p <= pos < |text| && LastTold(text, p, line, pos) && IsBlank(text[pos])
    ensures LastTold(text, p, line + [text[pos]], pos + 1)
  {
    var run := RunEnd(text, p, IsBlank);
    if pos <= run {
      assert pos != run;
      assert text[p..pos] + [text[pos]] == text[p..pos + 1];
    } else {
      assert text[p..run] <= line <= line + [text[pos]];
    }
  }

  lemma LineEnds(text: string, p: nat, line: string, pos: nat)
    requires p <= pos < |text| && LastTold(text, p, line, pos) && !IsBlank(text[pos])
    requires text[pos] == '\n' || text[pos] == '\\'
    ensures RunEnd(text, p, IsBlank) < pos + 1 && LineTold(text, p, line)
  {
    var run := RunEnd(text, p, IsBlank);
    if pos <= run {
      assert run == pos;
    }
  }

  lemma ToldGoesOn(text: string, at: seq<Option<nat>>, lines: seq<string>, pos: nat, more: string, next: nat)
    requires Told(text, at, lines, pos, false) && pos < next <= |text|
    requires !IsBlank(text[pos]) && text[pos] != '\n' && (text[pos] == '\r' ==> more == "\r")
    ensures Told(text, at, Continued(lines, more), next, true)
  {
    hide LastTold, LineTold;
    var n := |at| - 1;
    if at[n].Some? {
      LastGoesOn(text, at[n].value, lines[n], pos, more, next);
    }
  }

  lemma ToldBlank(text: string, at: seq<Option<nat>>, lines: seq<string>, pos: nat)
    requires Told(text, at, lines, pos, false) && pos < |text| && IsBlank(text[pos])
    ensures Told(text, at, Continued(lines, [text[pos]]), pos + 1, false)
  {
    hide LastTold, LineTold;
    var n := |at| - 1;
    if at[n].Some? {
      BlankGoesOn(text, at[n].value, lines[n], pos);
    }
  }

  /** A line ends at a newline of the source, or at an escape that spells one. */
  lemma ToldBreak(text: string, at: seq<Option<nat>>, lines: seq<string>, pos: nat, next: nat)
    requires Told(text, at, lines, pos, false) && pos < next <= |text| && (text[pos] == '\n' || text[pos] == '\\')
    ensures Told(text, at + [if text[pos] == '\n' then Some(next) else None], lines + [""], next, false)
  {
    hide LineTold;
    var n := |at| - 1;
    if at[n].Some? {
      LineEnds(text, at[n].value, lines[n], pos);
    }
    var more := at + [if text[pos] == '\n' then Some(next) else None];
    assert text[next..next] == "";
    forall j | 0 <= j < |more| - 1 && more[j].Some?
      ensures LineIsOver(text, more[j].value, (lines + [""])[j], next)
    {
      assert more[j] == at[j] && (lines + [""])[j] == lines[j];
    }
  }

  /** Once past its blanks a line is told whatever else is read. */
  lemma ToldLater(text: string, at: seq<Option<nat>>, lines: seq<string>, pos: nat, next: nat, buried: bool)
    requires Told(text, at, lines, pos, true) && pos <= next <= |text|
    ensures Told(text, at, lines, next, buried)
  {
    hide LineTold;
  }

  // -- the frames of a state --------------------------------------------------------------------------

  /** What has been read of a body, with a mark for every interpolation. */
  function FrameText(tokens: seq<Token>, body: Body): string
    requires Woven(tokens, body.pieces)
  {
    WovenText(tokens, body.pieces, body.pending)
  }

  ghost predicate FrameTold(i: Input, tokens: seq<Token>, at: seq<Option<nat>>, body: Body, pos: nat, buried: bool) {
    Woven(tokens, body.pieces) && Told(i.text, at, Lines(FrameText(tokens, body)), pos, buried)
  }

  lemma FreshIsTold(i: Input, tokens: seq<Token>, body: Body, pos: nat)
    requires Fresh(body, pos) && pos <= |i.text|
    ensures FrameTold(i, tokens, [Some(pos)], body, pos, false)
  {
    assert i.text[pos..pos] == "";
    assert Lines("") == [""];
  }

  /** One more character that is no newline. */
  lemma HeldIsTold(i: Input, tokens: seq<Token>, at: seq<Option<nat>>, body: Body, pos: nat, c: char, from: nat, next: nat)
    requires FrameTold(i, tokens, at, body, pos, false) && pos < next <= |i.text| && c != '\n'
    requires if IsBlank(i.text[pos]) then c == i.text[pos] && next == pos + 1
             else i.text[pos] != '\n' && (i.text[pos] == '\r' ==> c == '\r')
    ensures FrameTold(i, tokens, at, Held(body, c, from), next, false)
  {
    hide Told, Woven, Lines;
    var text := FrameText(tokens, body);
    WovenIsText(tokens, body.pieces);
    WovenGrows(tokens, body.pieces, body.pending, [c]);
    LinesGoOn(text, [c]);
    if IsBlank(i.text[pos]) {
      ToldBlank(i.text, at, Lines(text), pos);
    } else {
      ToldGoesOn(i.text, at, Lines(text), pos, [c], next);
      Unburied(i.text, at, Lines(FrameText(tokens, Held(body, c, from))), next);
    }
  }

  lemma Unburied(text: string, at: seq<Option<nat>>, lines: seq<string>, pos: nat)
    requires Told(text, at, lines, pos, true)
    ensures Told(text, at, lines, pos, false)
  {
  }

  lemma SkippedIsTold(i: Input, tokens: seq<Token>, at: seq<Option<nat>>, body: Body, pos: nat, next: nat)
    requires FrameTold(i, tokens, at, body, pos, false) && pos < next <= |i.text|
    requires !IsBlank(i.text[pos]) && i.text[pos] != '\n' && i.text[pos] != '\r'
    ensures FrameTold(i, tokens, at, body, next, false)
  {
    hide Told, Woven, Lines;
    var lines := Lines(FrameText(tokens, body));
    ToldGoesOn(i.text, at, lines, pos, "", next);
    NothingMore(lines);
    Unburied(i.text, at, lines, next);
  }

  lemma NothingMore(lines: seq<string>)
    requires lines != []
    ensures Continued(lines, "") == lines
  {
    assert lines[|lines| - 1] + "" == lines[|lines| - 1];
  }

  /** A newline was held, read from the source or spelt by an escape. */
  lemma BrokenIsTold(i: Input, tokens: seq<Token>, at: seq<Option<nat>>, body: Body, pos: nat, next: nat)
    requires FrameTold(i, tokens, at, body, pos, false) && pos < next <= |i.text|
    requires i.text[pos] == '\n' || i.text[pos] == '\\'
    ensures FrameTold(i, tokens, at + [if i.text[pos] == '\n' then Some(next) else None], Held(body, '\n', pos), next, false)
  {
    hide Told, Woven, Lines;
    var text := FrameText(tokens, body);
    WovenIsText(tokens, body.pieces);
    WovenGrows(tokens, body.pieces, body.pending, "\n");
    LinesBreak(text);
    ToldBreak(i.text, at, Lines(text), pos, next);
  }

  /** Where lines begin is not asked. */
  lemma StartsAreFree(i: Input, tokens: seq<Token>, at: seq<Option<nat>>, body: Body, starts: seq<nat>, pos: nat)
    requires FrameTold(i, tokens, at, body, pos, false)
    ensures FrameTold(i, tokens, at, body.(lineStarts := starts), pos, false)
  {
  }

  // -- steps --------------------------------------------------------------------------------------------

  /** The cursor is at an escape that spells a newline. */
  predicate NewlineEscape(i: Input, st: State) {
    && st.pos + 1 < |i.text| && i.text[st.pos] == '\\'
    && EscapeAt(i.text, st.pos + 1, false).value == Ok('\n')
  }

  /** Where the lines of a literal begin once the cursor has moved on in it: a new line at a newline,
    which begins in the source, or at an escape that spells one, which does not. */
  function Grown(i: Input, st: State, at: seq<Option<nat>>): seq<Option<nat>>
    requires st.pos < |i.text|
  {
    if i.text[st.pos] == '\n' then at + [Some(st.pos + 1)]
    else if NewlineEscape(i, st) then at + [None]
    else at
  }

  lemma HoldTop(st: State, body: Body, c: char, end: nat)
    requires st.ctx != []
    ensures var next := Hold(st, body, c, end);
            && next.tokens == st.tokens && next.pos == end && |next.ctx| == |st.ctx|
            && Top(next.ctx) == Some(Str(Held(body, c, st.pos)))
  {
  }

  lemma SkipTop(st: State, body: Body, code: string, start: nat, end: nat)
    requires st.ctx != []
    ensures var next := WithTop(Fault(st, code, start, end), Str(body)).(pos := end);
            next.tokens == st.tokens && next.pos == end && |next.ctx| == |st.ctx| && Top(next.ctx) == Some(Str(body))
  {
  }

  /** The innermost string after a step that neither ended it nor left it. */
  ghost predicate TopTold(i: Input, st: State, at: seq<Option<nat>>, next: State) {
    && next.tokens == st.tokens && |next.ctx| == |st.ctx|
    && Top(next.ctx).Some? && Top(next.ctx).value.Str?
    && FrameTold(i, next.tokens, at, Top(next.ctx).value.body, next.pos, false)
  }

  lemma EscapeIsTold(i: Input, st: State, at: seq<Option<nat>>, body: Body)
    requires Top(st.ctx) == Some(Str(body)) && st.pos < |i.text| && i.text[st.pos] == '\\'
    requires FrameTold(i, st.tokens, at, body, st.pos, false)
    ensures TopTold(i, st, Grown(i, st, at), EscapeStep(i, st, body))
  {
    hide FrameTold, EscapeAt;
    if st.pos + 1 == |i.text| {
      SkipTop(st, body, "E0102", st.pos, st.pos + 1);
      SkippedIsTold(i, st.tokens, at, body, st.pos, st.pos + 1);
    } else {
      var e := EscapeAt(i.text, st.pos + 1, false);
      SkipTop(st, body, "E0101", st.pos, e.end);
      match e.value
      case Ok(c) =>
        HoldTop(st, body, c, e.end);
        if c == '\n' {
          BrokenIsTold(i, st.tokens, at, body, st.pos, e.end);
        } else {
          HeldIsTold(i, st.tokens, at, body, st.pos, c, st.pos, e.end);
        }
      case Err(_) => SkippedIsTold(i, st.tokens, at, body, st.pos, e.end);
    }
  }

  lemma NewlineIsTold(i: Input, st: State, at: seq<Option<nat>>, body: Body)
    requires Top(st.ctx) == Some(Str(body)) && st.pos < |i.text| && i.text[st.pos] == '\n'
    requires FrameTold(i, st.tokens, at, body, st.pos, false)
    ensures TopTold(i, st, Grown(i, st, at), AtLineStart(Hold(st, body, '\n', st.pos + 1), st.pos + 1))
  {
    hide FrameTold, Held;
    HoldTop(st, body, '\n', st.pos + 1);
    LineStartInherits(Hold(st, body, '\n', st.pos + 1), st.pos + 1);
    BrokenIsTold(i, st.tokens, at, body, st.pos, st.pos + 1);
    var held := Held(body, '\n', st.pos);
    StartsAreFree(i, st.tokens, Grown(i, st, at), held, held.lineStarts + [st.pos + 1], st.pos + 1);
  }

  lemma HoldIsTold(i: Input, st: State, at: seq<Option<nat>>, body: Body, c: char, next: nat)
    requires Top(st.ctx) == Some(Str(body)) && FrameTold(i, st.tokens, at, body, st.pos, false)
    requires st.pos < next <= |i.text| && c != '\n'
    requires if IsBlank(i.text[st.pos]) then c == i.text[st.pos] && next == st.pos + 1
             else i.text[st.pos] != '\n' && (i.text[st.pos] == '\r' ==> c == '\r')
    ensures TopTold(i, st, at, Hold(st, body, c, next))
  {
    hide FrameTold;
    HoldTop(st, body, c, next);
    HeldIsTold(i, st.tokens, at, body, st.pos, c, st.pos, next);
  }

  lemma BraceIsThere(text: string, at: nat, word: string, c: char)
    requires StartsAt(text, at, word) && word == [c, c]
    ensures at + 2 <= |text| && text[at] == c
  {
    assert text[at..at + 2][0] == text[at];
  }

  lemma BodyIsTold(i: Input, st: State, at: seq<Option<nat>>, body: Body)
    requires st.pos < |i.text| && Top(st.ctx) == Some(Str(body)) && body.kind.Multiline?
    requires !ClosesString(i.text, st.pos, body.kind) && !Interpolates(i, st, body)
    requires FrameTold(i, st.tokens, at, body, st.pos, false)
    ensures TopTold(i, st, Grown(i, st, at), BodyStep(i, st, body))
  {
    hide FrameTold, TopTold, StartsAt, ClosesString, Hold, AtLineStart, EscapeStep, EscapeAt;
    var c := i.text[st.pos];
    if StartsAt(i.text, st.pos, "{{") {
      BraceIsThere(i.text, st.pos, "{{", '{');
      HoldIsTold(i, st, at, body, '{', st.pos + 2);
    } else if StartsAt(i.text, st.pos, "}}") {
      BraceIsThere(i.text, st.pos, "}}", '}');
      HoldIsTold(i, st, at, body, '}', st.pos + 2);
    } else if c == '}' {
      StrayIsTold(i, st, at, body);
    } else if c == '\\' {
      EscapeIsTold(i, st, at, body);
    } else if c == '\n' {
      NewlineIsTold(i, st, at, body);
    } else {
      HoldIsTold(i, st, at, body, c, st.pos + 1);
    }
  }

  lemma StrayIsTold(i: Input, st: State, at: seq<Option<nat>>, body: Body)
    requires st.pos < |i.text| && Top(st.ctx) == Some(Str(body)) && i.text[st.pos] == '}'
    requires FrameTold(i, st.tokens, at, body, st.pos, false)
    ensures TopTold(i, st, at, WithTop(Fault(st, "E0111", st.pos, st.pos + 1), Str(body)).(pos := st.pos + 1))
  {
    hide FrameTold;
    SkipTop(st, body, "E0111", st.pos, st.pos + 1);
    SkippedIsTold(i, st.tokens, at, body, st.pos, st.pos + 1);
  }

  // -- interpolations --------------------------------------------------------------------------------------

  /** The body an interpolation leaves behind. */
  function Holed(st: State, body: Body): Body {
    body.(pending := "",
          pieces := body.pieces + (if body.pending == "" then [] else [Text(|st.tokens|)]) + [Hole])
  }

  lemma HoledIsLeft(st: State, body: Body)
    requires st.ctx != [] && body.kind.Multiline?
    ensures var next, n := Interpolate(st, body), |st.ctx| - 1;
            |next.ctx| == n + 2 && next.ctx[n] == Str(Holed(st, body)) && next.pos == st.pos + 1
  {
    assert body.pieces + [] == body.pieces;
  }

  lemma HoledText(st: State, body: Body)
    requires st.ctx != [] && body.kind.Multiline? && Woven(st.tokens, body.pieces)
    requires Woven(Interpolate(st, body).tokens, Holed(st, body).pieces)
    ensures FrameText(Interpolate(st, body).tokens, Holed(st, body)) == FrameText(st.tokens, body) + [HOLE]
  {
    var next := Interpolate(st, body).tokens;
    var pieces := body.pieces;
    WovenIsText(st.tokens, pieces);
    InterpolateTokens(st, body);
    FlushOnlyAdds(st, body, Token(InterpStart, Span(st.pos, st.pos + 1)));
    hide Woven, Interpolate;
    if body.pending == "" {
      assert pieces + [] == pieces;
      HoleIsWoven(next, pieces);
      WovenIgnoresRest(st.tokens, next, pieces, "");
    } else {
      var n := |st.tokens|;
      assert next[n] == Token(StrText(body.pending), Span(body.pendingStart, st.pos));
      HoleIsWoven(next, pieces + [Text(n)]);
      TailIsWoven(next, pieces, n);
      WovenIgnoresRest(st.tokens, next, pieces, body.pending);
    }
  }

  lemma InterpolateIsTold(i: Input, st: State, at: seq<Option<nat>>, body: Body)
    requires st.pos < |i.text| && i.text[st.pos] == '{' && Nested(st) && Remembers(st)
    requires Top(st.ctx) == Some(Str(body)) && body.kind.Multiline? && FrameTold(i, st.tokens, at, body, st.pos, false)
    ensures FrameTold(i, Interpolate(st, body).tokens, at, Holed(st, body), st.pos + 1, true)
  {
    hide Told, Woven, Lines, Nested, Remembers, Interpolate, FrameText, Holed;
    var next, n := Interpolate(st, body), |st.ctx| - 1;
    HoledIsLeft(st, body);
    InterpolateNests(st, body);
    InterpolateRemembers(st, body);
    RememberedIsWoven(next, n);
    HoledText(st, body);
    var text := FrameText(st.tokens, body);
    LinesGoOn(text, [HOLE]);
    ToldGoesOn(i.text, at, Lines(text), st.pos, [HOLE], st.pos + 1);
  }

  // -- literals around the innermost ------------------------------------------------------------------------

  /** The text of a literal that is not the innermost frame cannot be rewritten. */
  lemma OuterIsKept(i: Input, st: State, k: nat)
    requires st.pos < |i.text| && Nested(st) && Remembers(st) && k + 1 < |st.ctx| && st.ctx[k].Str?
    ensures |st.tokens| <= |Step(i, st).tokens|
    ensures var pieces := st.ctx[k].body.pieces;
            forall j :: 0 <= j < |pieces| && pieces[j].Text? ==>
              pieces[j].index < |st.tokens| && Step(i, st).tokens[pieces[j].index] == st.tokens[pieces[j].index]
  {
    hide StackOf, Deepest, PiecesAt, Followed, Step;
    StepStays(i, st);
    var toks, n, pieces := Shapes(st.tokens), |st.ctx| - 1, st.ctx[k].body.pieces;
    assert FrameRemembers(toks, st.ctx[k], k);
    forall j | 0 <= j < |pieces| && pieces[j].Text?
      ensures pieces[j].index < |st.tokens| && Text(pieces[j].index) !in Rewritable(st)
    {
      PiecesAreAround(toks, k, j);
      if Text(pieces[j].index) in Rewritable(st) {
        assert FrameRemembers(toks, st.ctx[n], n);
        var m :| 0 <= m < |PiecesAt(toks, n)| && PiecesAt(toks, n)[m] == Text(pieces[j].index);
        PiecesAreAround(toks, n, m);
      }
    }
  }

  lemma SameText(tokens: seq<Token>, other: seq<Token>, body: Body)
    requires Woven(tokens, body.pieces) && |tokens| <= |other|
    requires forall j :: 0 <= j < |body.pieces| && body.pieces[j].Text? ==>
               body.pieces[j].index < |tokens| && other[body.pieces[j].index] == tokens[body.pieces[j].index]
    ensures Woven(other, body.pieces) && FrameText(other, body) == FrameText(tokens, body)
  {
    hide Followed;
    WovenIgnoresRest(tokens, other, body.pieces, body.pending);
  }

  lemma OuterIsTold(i: Input, st: State, at: seq<Option<nat>>, k: nat, buried: bool)
    requires st.pos < |i.text| && Nested(st) && Remembers(st) && k + 1 < |st.ctx| && st.ctx[k].Str?
    requires FrameTold(i, st.tokens, at, st.ctx[k].body, st.pos, true)
    ensures FrameTold(i, Step(i, st).tokens, at, st.ctx[k].body, Step(i, st).pos, buried)
  {
    hide Told, Nested, Remembers, Lines, Step, Woven, FrameText, WovenText;
    var next, body := Step(i, st), st.ctx[k].body;
    OuterIsKept(i, st, k);
    StepAdvances(i, st);
    SameText(st.tokens, next.tokens, body);
    ToldLater(i.text, at, Lines(FrameText(st.tokens, body)), st.pos, next.pos, buried);
  }

  // -- a literal from its start on ----------------------------------------------------------------------------

  /** The multiline literal that began at `start` is open at depth `d`. */
  predicate IsOpen(st: State, d: nat, start: nat) {
    d < |st.ctx| && st.ctx[d].Str? && st.ctx[d].body.kind.Multiline? && st.ctx[d].body.start == start
  }

  /** The cursor is in the literal that began at `start`, outside its interpolations. */
  predicate OwnLevel(st: State, d: nat, start: nat) {
    |st.ctx| == d + 1 && IsOpen(st, d, start)
  }

  /** Where the literal's lines begin after a step. */
  function NextOrigins(i: Input, st: State, at: seq<Option<nat>>, d: nat, start: nat): seq<Option<nat>> {
    if st.pos < |i.text| && OwnLevel(st, d, start) then Grown(i, st, at) else at
  }

  ghost predicate OpenTold(i: Input, st: State, at: seq<Option<nat>>, d: nat, start: nat) {
    IsOpen(st, d, start) ==> FrameTold(i, st.tokens, at, st.ctx[d].body, st.pos, d + 1 < |st.ctx|)
  }

  /** A step outside string bodies keeps the strings there were, or opens one. */
  lemma CodeTold(i: Input, st: State, at: seq<Option<nat>>, d: nat, start: nat)
    requires st.pos < |i.text| && Nested(st) && Remembers(st) && !TopIs(Layers(st.ctx), Literal)
    requires OpenTold(i, st, at, d, start) && (st.pos < start ==> at == [Some(start)])
    ensures OpenTold(i, Step(i, st), at, d, start)
  {
    hide Nested, Remembers, FrameTold, NormalStep, FormatStep;
    var next := Step(i, st);
    if IsOpen(next, d, start) {
      StepAdvances(i, st);
      CodeFrames(i, st, d);
      if d < |st.ctx| {
        LiteralIsBuried(st, d);
        OuterIsTold(i, st, at, d, d + 1 < |next.ctx|);
      } else {
        FreshIsTold(i, next.tokens, next.ctx[d].body, next.pos);
      }
    }
  }

  lemma LiteralIsBuried(st: State, d: nat)
    requires d < |st.ctx| && st.ctx[d].Str? && !TopIs(Layers(st.ctx), Literal)
    ensures d + 1 < |st.ctx|
  {
    assert Layers(st.ctx)[d] == Literal;
  }

  /** Where a string frame comes from when the cursor was not in a string. */
  lemma CodeFrames(i: Input, st: State, d: nat)
    requires st.pos < |i.text| && Nested(st) && !TopIs(Layers(st.ctx), Literal)
    requires d < |Step(i, st).ctx| && Step(i, st).ctx[d].Str?
    ensures var next := Step(i, st);
            if d < |st.ctx| then next.ctx[d] == st.ctx[d] else d + 1 == |next.ctx| && Fresh(next.ctx[d].body, next.pos)
  {
    hide Nested, NormalStep, OpenPlain, Brief;
    if Top(st.ctx) == Some(Fmt) {
      FormatFrames(i, st);
    } else {
      assert Top(st.ctx).Some? ==> Layers(st.ctx)[|st.ctx| - 1] == LayerOf(Top(st.ctx).value);
      NormalFrames(i, st, d);
    }
  }

  lemma FormatFrames(i: Input, st: State)
    requires st.pos < |i.text| && Top(st.ctx) == Some(Fmt)
    ensures var next := FormatStep(i, st);
            forall k :: 0 <= k < |next.ctx| && next.ctx[k].Str? ==> k < |st.ctx| && next.ctx[k] == st.ctx[k]
  {
  }

  lemma NormalFrames(i: Input, st: State, d: nat)
    requires st.pos < |i.text| && Nested(st) && d < |NormalStep(i, st).ctx| && NormalStep(i, st).ctx[d].Str?
    ensures var next := NormalStep(i, st);
            if d < |st.ctx| then next.ctx[d] == st.ctx[d] else d + 1 == |next.ctx| && Fresh(next.ctx[d].body, next.pos)
  {
    hide Nested, TokenStep, OpenPlain, InsertTerminator, Brief, SamePieces;
    var next := NormalStep(i, st);
    if i.text[st.pos] == '\n' && OpenPlain(st.ctx, st.pos).Some? {
      var span := OpenPlain(st.ctx, st.pos).value;
      var faulty := Fault(st, "E0102", span.start, span.end);
      SameIsLooser(st, faulty);
      UnwindLeaves(faulty);
    } else {
      NormalInherits(i, st);
      assert Inherited(st, next, d);
    }
  }

  lemma InterpolationTold(i: Input, st: State, at: seq<Option<nat>>, body: Body, d: nat, start: nat)
    requires st.pos < |i.text| && Nested(st) && Remembers(st)
    requires Top(st.ctx) == Some(Str(body)) && Interpolates(i, st, body) && OpenTold(i, st, at, d, start)
    ensures OpenTold(i, Step(i, st), NextOrigins(i, st, at, d, start), d, start)
  {
    hide Nested, Remembers, FrameTold, Interpolate, StartsAt, ClosesString, Step, Holed;
    var next, n := Step(i, st), |st.ctx| - 1;
    InterpolatesStep(i, st, body);
    TopRemembers(st, body);
    InterpolateStack(st, body);
    BraceInterpolates(i, st, body);
    if IsOpen(next, d, start) {
      if d < n {
        assert next.ctx[d] == next.ctx[..n][d] == st.ctx[d];
        OuterIsTold(i, st, at, d, true);
      } else {
        assert d == n;
        HoledIsLeft(st, body);
        InterpolateIsTold(i, st, at, body);
      }
    }
  }

  lemma TopRemembers(st: State, body: Body)
    requires Nested(st) && Remembers(st) && Top(st.ctx) == Some(Str(body))
    ensures !body.kind.Multiline? ==> body.pieces == []
  {
    hide StackOf, Deepest, Followed, PiecesAt;
    assert FrameRemembers(Shapes(st.tokens), st.ctx[|st.ctx| - 1], |st.ctx| - 1);
  }

  lemma StringTold(i: Input, st: State, at: seq<Option<nat>>, body: Body, d: nat, start: nat)
    requires st.pos < |i.text| && Nested(st) && Remembers(st)
    requires Top(st.ctx) == Some(Str(body)) && !Interpolates(i, st, body) && OpenTold(i, st, at, d, start)
    ensures OpenTold(i, Step(i, st), NextOrigins(i, st, at, d, start), d, start)
  {
    hide Nested, Remembers, FrameTold, BodyStep, StartsAt, ClosesString, Interpolates, Grown, Ended;
    var next, n := Step(i, st), |st.ctx| - 1;
    BodyIsKept(i, st, body);
    if IsOpen(next, d, start) {
      if d < n {
        assert next.ctx[d] == st.ctx[d];
        OuterIsTold(i, st, at, d, d + 1 < |next.ctx|);
      } else {
        StaysInBody(i, st, body);
        BodyIsTold(i, st, at, body);
      }
    }
  }

  lemma StaysInBody(i: Input, st: State, body: Body)
    requires st.pos < |i.text| && Top(st.ctx) == Some(Str(body)) && body.kind.Multiline?
    requires |BodyStep(i, st, body).ctx| == |st.ctx|
    ensures !ClosesString(i.text, st.pos, body.kind)
  {
    hide Dedented, Flush, StartsAt, TextStep;
    if ClosesString(i.text, st.pos, body.kind) {
      DedentedIsAlike(i, st, body);
      var d := Dedented(i, st, body);
      FlushEnds(d.0, d.1, Token(StrEnd, Span(st.pos, st.pos + 3)));
    }
  }

  lemma StepTold(i: Input, st: State, at: seq<Option<nat>>, d: nat, start: nat)
    requires st.pos < |i.text| && Nested(st) && Remembers(st) && OpenTold(i, st, at, d, start)
    requires st.pos < start ==> at == [Some(start)]
    ensures OpenTold(i, Step(i, st), NextOrigins(i, st, at, d, start), d, start)
  {
    hide Nested, Remembers, OpenTold, Step, Interpolates, Grown;
    if Top(st.ctx).Some? && Top(st.ctx).value.Str? {
      var body := Top(st.ctx).value.body;
      if Interpolates(i, st, body) {
        InterpolationTold(i, st, at, body, d, start);
      } else {
        StringTold(i, st, at, body, d, start);
      }
    } else {
      OutsideStrings(st);
      CodeTold(i, st, at, d, start);
    }
  }

  lemma OutsideStrings(st: State)
    requires Top(st.ctx).Some? ==> !Top(st.ctx).value.Str?
    ensures !TopIs(Layers(st.ctx), Literal)
  {
    assert st.ctx != [] ==> Layers(st.ctx)[|st.ctx| - 1] == LayerOf(Top(st.ctx).value);
  }

  // -- every moment of a run ------------------------------------------------------------------------------------

  /** Where the lines begin, `n` steps into the run, of the literal that began at `start`, at depth
    `d`: the position in the source, or nothing for a line that an escape began. */
  function LineOrigins(i: Input, n: nat, d: nat, start: nat): (at: seq<Option<nat>>)
    ensures at != [] && at[0] == Some(start)
  {
    if n == 0 then [Some(start)]
    else NextOrigins(i, Moment(i, n - 1), LineOrigins(i, n - 1, d, start), d, start)
  }

  /** At every moment the text read so far of an open multiline literal, wherever it is and
    whatever it holds, has the lines that its newlines and escapes began, and each line that
    began in the source opens with the blanks of its source line and is blank if that is. */
  lemma {:induction false} EveryMomentTells(i: Input, n: nat, d: nat, start: nat)
    ensures OpenTold(i, Moment(i, n), LineOrigins(i, n, d, start), d, start)
  {
    hide Step, Nested, Remembers, OpenTold, OwnLevel, Grown;
    if n == 0 {
      NothingIsOpen(i, d, start);
    } else {
      EveryMomentTells(i, n - 1, d, start);
      EveryMomentRemembers(i, n - 1);
      var before := Moment(i, n - 1);
      if before.pos < |i.text| {
        if before.pos < start {
          NotYetOpen(i, n - 1, d, start);
        }
        StepTold(i, before, LineOrigins(i, n - 1, d, start), d, start);
      }
    }
  }

  lemma NothingIsOpen(i: Input, d: nat, start: nat)
    ensures OpenTold(i, Begin(i), [Some(start)], d, start)
  {
  }

  lemma {:induction false} NotYetOpen(i: Input, n: nat, d: nat, start: nat)
    requires Moment(i, n).pos < start
    ensures LineOrigins(i, n, d, start) == [Some(start)]
  {
    hide Moment, Grown, OwnLevel;
    if n > 0 {
      MomentsAdvance(i, n - 1, n);
      NotYetOpen(i, n - 1, d, start);
      if OwnLevel(Moment(i, n - 1), d, start) {
        BeganBehind(i, n - 1, d, start);
      }
    }
  }

  // -- the margin rule ---------------------------------------------------------------------------------------------

  /** The source line at `p` is blank or begins with the margin. */
  predicate SourceFits(text: string, p: nat, margin: string)
    requires p <= |text|
  {
    var run := RunEnd(text, p, IsBlank);
    || run == |text| || text[run] == '\n' || text[run] == '\r'
    || (run - p >= |margin| && text[p..p + |margin|] == margin)
  }

  predicate Ascending(at: seq<nat>, pos: nat) {
    && (forall j, k :: 0 <= j < k < |at| ==> at[j] < at[k])
    && (forall j :: 0 <= j < |at| ==> at[j] <= pos)
  }

  ghost predicate AllFit(text: string, starts: seq<nat>, margin: string, closing: nat)
    requires Ascending(starts, |text|)
  {
    forall j :: 0 <= j < |starts| && starts[j] < closing ==> SourceFits(text, starts[j], margin)
  }

  /** The rule is silent exactly when every source line above the closing one fits. */
  lemma {:induction false} FaultMeansMisfit(text: string, starts: seq<nat>, margin: string, closing: nat)
    requires Ascending(starts, |text|)
    ensures MarginFault(text, starts, margin, closing).None? <==> AllFit(text, starts, margin, closing)
    decreases |starts|
  {
    hide SourceFits;
    if starts != [] {
      FaultMeansMisfit(text, starts[1..], margin, closing);
      FitFirst(text, starts, margin, closing);
      FirstStartDecides(text, starts, margin, closing);
    }
  }

  lemma FitFirst(text: string, starts: seq<nat>, margin: string, closing: nat)
    requires Ascending(starts, |text|) && starts != []
    ensures AllFit(text, starts, margin, closing)
       <==> starts[0] >= closing
            || (SourceFits(text, starts[0], margin) && AllFit(text, starts[1..], margin, closing))
  {
    hide SourceFits;
    var rest := starts[1..];
    if AllFit(text, starts, margin, closing) {
      forall j | 0 <= j < |rest| && rest[j] < closing ensures SourceFits(text, rest[j], margin) {
        var next := j + 1;
        assert rest[j] == starts[next];
      }
    } else if AllFit(text, rest, margin, closing) {
      forall j | 1 <= j < |starts| && starts[j] < closing ensures SourceFits(text, starts[j], margin) {
        var last := j - 1;
        assert starts[j] == rest[last];
      }
    }
  }

  lemma FirstStartDecides(text: string, starts: seq<nat>, margin: string, closing: nat)
    requires starts != [] && starts[0] <= |text|
    ensures MarginFault(text, starts, margin, closing).None?
       <==> starts[0] >= closing
            || (SourceFits(text, starts[0], margin) && MarginFault(text, starts[1..], margin, closing).None?)
  {
  }

  // -- decoded lines ---------------------------------------------------------------------------------------------------

  /** The line is blank, or begins with the margin and loses just that. */
  predicate LosesMargin(line: string, margin: string) {
    BlankLine(line) || (margin <= line && Blanks(line, |margin|) == |margin|)
  }

  lemma BlanksOpen(line: string, run: nat)
    requires run <= |line| && AllBlank(line[..run]) && (run == |line| || line[run] == '\r')
    ensures BlankLine(line)
  {
    var end := RunEnd(line, 0, IsBlank);
    if end < run {
      assert IsBlank(line[..run][end]);
    }
  }

  lemma RunIsBlank(text: string, p: nat, end: nat)
    requires p <= end <= |text| && end <= RunEnd(text, p, IsBlank)
    ensures AllBlank(text[p..end])
  {
  }

  /** A line told loses the margin when its source line fits. */
  lemma ToldFits(text: string, p: nat, line: string, margin: string)
    requires p <= |text| && LineTold(text, p, line) && SourceFits(text, p, margin) && AllBlank(margin)
    ensures LosesMargin(line, margin)
  {
    var run := RunEnd(text, p, IsBlank);
    RunIsBlank(text, p, run);
    assert line[..run - p] == text[p..run];
    if text[run] == '\n' || text[run] == '\r' {
      BlanksOpen(line, run - p);
    } else {
      assert text[p..p + |margin|] <= text[p..run];
      MarginIsWhatGoes(line, margin);
    }
  }

  /** Nothing but blanks stands before the closing delimiter. */
  lemma ClosingRun(text: string, p: nat, pos: nat)
    requires p <= pos <= |text| && AllBlank(text[LineStart(text, pos)..pos])
    ensures p >= LineStart(text, pos) <==> RunEnd(text, p, IsBlank) >= pos
  {
    var line := LineStart(text, pos);
    var last := text[line..pos];
    assert forall k :: line <= k < pos ==> text[k] == last[k - line];
  }

  lemma LineFits(text: string, at: seq<Option<nat>>, lines: seq<string>, pos: nat, margin: string, j: nat)
    requires Told(text, at, lines, pos, false) && j < |at| && at[j].Some?
    requires AllBlank(margin) && margin == text[LineStart(text, pos)..pos]
    requires at[j].value < LineStart(text, pos) ==> SourceFits(text, at[j].value, margin)
    ensures LosesMargin(lines[j], margin)
  {
    hide LineTold, SourceFits, LosesMargin;
    var p := at[j].value;
    assert j < |at| - 1 ==> LineIsOver(text, p, lines[j], pos);
    ClosingRun(text, p, pos);
    if p < LineStart(text, pos) {
      ToldFits(text, p, lines[j], margin);
    } else {
      assert j == |at| - 1;
      RunIsBlank(text, p, pos);
      assert lines[j][..|lines[j]|] == lines[j];
      BlanksOpen(lines[j], |lines[j]|);
      BlankLoses(lines[j], margin);
    }
  }

  lemma BlankLoses(line: string, margin: string)
    requires BlankLine(line)
    ensures LosesMargin(line, margin)
  {
  }

  // -- where lines begin ---------------------------------------------------------------------------------------------

  /** An open string began before the cursor, and so did its lines, one after the other. */
  predicate Behind(body: Body, pos: nat) {
    && body.start <= pos && Ascending(body.lineStarts, pos)
    && forall k :: 0 <= k < |body.lineStarts| ==> body.start <= body.lineStarts[k]
  }

  ghost predicate InOrder(st: State) {
    forall k :: 0 <= k < |st.ctx| && st.ctx[k].Str? ==> Behind(st.ctx[k].body, st.pos)
  }

  lemma StepInOrder(i: Input, st: State)
    requires st.pos < |i.text| && Nested(st) && Remembers(st) && InOrder(st)
    ensures InOrder(Step(i, st))
  {
    hide Nested, Remembers, NormalStep, FormatStep, BodyStep, Interpolates, Ended, Interpolate;
    var next := Step(i, st);
    StepAdvances(i, st);
    if Top(st.ctx).Some? && Top(st.ctx).value.Str? {
      var body := Top(st.ctx).value.body;
      if Interpolates(i, st, body) {
        TopRemembers(st, body);
        InterpolatesStep(i, st, body);
        InterpolateStack(st, body);
        SameButTop(st.ctx, next.ctx);
      } else {
        BodyIsKept(i, st, body);
      }
    } else {
      OutsideStrings(st);
      CodeInOrder(i, st);
    }
  }

  lemma SameButTop(ctx: seq<Frame>, next: seq<Frame>)
    requires |ctx| > 0 && |next| >= |ctx| && next[..|ctx| - 1] == ctx[..|ctx| - 1]
    ensures forall k :: 0 <= k < |ctx| - 1 ==> next[k] == ctx[k]
  {
    forall k | 0 <= k < |ctx| - 1 ensures next[k] == ctx[k] {
      assert next[k] == next[..|ctx| - 1][k];
    }
  }

  lemma CodeInOrder(i: Input, st: State)
    requires st.pos < |i.text| && Nested(st) && InOrder(st) && !TopIs(Layers(st.ctx), Literal)
    ensures InOrder(Step(i, st))
  {
    hide Nested, Step;
    var next := Step(i, st);
    StepAdvances(i, st);
    forall k | 0 <= k < |next.ctx| && next.ctx[k].Str? ensures Behind(next.ctx[k].body, next.pos) {
      CodeFrames(i, st, k);
    }
  }

  lemma {:induction false} EveryMomentInOrder(i: Input, n: nat)
    ensures InOrder(Moment(i, n))
  {
    hide Step, Nested, Remembers, InOrder;
    if n == 0 {
      BeginInOrder(i);
    } else {
      EveryMomentInOrder(i, n - 1);
      EveryMomentRemembers(i, n - 1);
      if Moment(i, n - 1).pos < |i.text| {
        StepInOrder(i, Moment(i, n - 1));
      }
    }
  }

  lemma BeginInOrder(i: Input)
    ensures InOrder(Begin(i))
  {
  }

  lemma {:induction false} MomentsAdvance(i: Input, m: nat, n: nat)
    requires m <= n
    ensures Moment(i, m).pos <= Moment(i, n).pos
    decreases n
  {
    hide Step;
    if m < n {
      MomentsAdvance(i, m, n - 1);
      if Moment(i, n - 1).pos < |i.text| {
        StepAdvances(i, Moment(i, n - 1));
      }
    }
  }

  /** In its first `n` steps the run meets no escape that spells a newline in the literal itself. */
  ghost predicate SpellsNoNewline(i: Input, n: nat, d: nat, start: nat) {
    forall m: nat :: m < n ==> !SpellsNewline(i, Moment(i, m), d, start)
  }

  predicate SpellsNewline(i: Input, st: State, d: nat, start: nat) {
    OwnLevel(st, d, start) && NewlineEscape(i, st)
  }

  /** Escapes that spell newlines are all that begins a line elsewhere than in the source. */
  lemma {:induction false} SpeltMeansEscape(i: Input, n: nat, d: nat, start: nat)
    ensures None !in LineOrigins(i, n, d, start) <==> SpellsNoNewline(i, n, d, start)
  {
    hide Moment, OwnLevel, EscapeAt;
    if n > 0 {
      SpeltMeansEscape(i, n - 1, d, start);
      OneMoreSpelt(i, n, d, start);
    }
  }

  lemma OneMoreSpelt(i: Input, n: nat, d: nat, start: nat)
    requires n > 0
    ensures SpellsNoNewline(i, n, d, start)
       <==> SpellsNoNewline(i, n - 1, d, start) && !SpellsNewline(i, Moment(i, n - 1), d, start)
  {
    hide Moment, SpellsNewline;
  }

  predicate NoBackslash(text: string, start: nat, end: nat) {
    forall k :: start <= k < end && k < |text| ==> text[k] != '\\'
  }

  /** Without a backslash since it began no literal holds an escape of its own. */
  lemma NoBackslashNoNewline(i: Input, n: nat, d: nat, start: nat)
    requires NoBackslash(i.text, start, Moment(i, n).pos)
    ensures SpellsNoNewline(i, n, d, start)
  {
    hide Step, Moment, InOrder;
    forall m: nat | m < n ensures !SpellsNewline(i, Moment(i, m), d, start) {
      var st := Moment(i, m);
      if SpellsNewline(i, st, d, start) {
        BeganBehind(i, m, d, start);
        NextMoment(i, m);
        MomentsAdvance(i, m + 1, n);
        EscapeMoves(i, st, d, start);
      }
    }
  }

  lemma BeganBehind(i: Input, m: nat, d: nat, start: nat)
    requires OwnLevel(Moment(i, m), d, start)
    ensures start <= Moment(i, m).pos
  {
    EveryMomentInOrder(i, m);
    hide Moment, Ascending;
  }

  lemma EscapeMoves(i: Input, st: State, d: nat, start: nat)
    requires OwnLevel(st, d, start) && NewlineEscape(i, st)
    ensures Step(i, st).pos > st.pos
  {
    hide EscapeAt, Hold, CloseString, Abandon, Interpolate, AtLineStart, Advances;
    assert !StartsAt(i.text, st.pos, "{{") && !StartsAt(i.text, st.pos, "}}") && !StartsAt(i.text, st.pos, "\"\"\"");
    HoldTop(st, st.ctx[d].body, '\n', EscapeAt(i.text, st.pos + 1, false).end);
  }

  // -- the lines of a literal's own -------------------------------------------------------------------------------------

  /** What a step adds to the lines noted of a literal that is open after it. */
  lemma StepNotes(i: Input, st: State, d: nat, start: nat)
    requires st.pos < |i.text| && Nested(st) && Remembers(st) && IsOpen(Step(i, st), d, start)
    ensures var starts := Step(i, st).ctx[d].body.lineStarts;
            if IsOpen(st, d, start)
            then starts == st.ctx[d].body.lineStarts
                           + if OwnLevel(st, d, start) && i.text[st.pos] == '\n' then [st.pos + 1] else []
            else st.pos < start && (starts == [] || starts == [start])
  {
    hide Nested, Remembers, NormalStep, FormatStep, BodyStep, Interpolates, Ended, Interpolate;
    var next, n := Step(i, st), |st.ctx| - 1;
    StepAdvances(i, st);
    assert d < |st.ctx| ==> st.ctx[d].Str? ==> st.ctx[d].body.lineStarts + [] == st.ctx[d].body.lineStarts;
    if Top(st.ctx).Some? && Top(st.ctx).value.Str? {
      var body := Top(st.ctx).value.body;
      if Interpolates(i, st, body) {
        TopRemembers(st, body);
        InterpolatesStep(i, st, body);
        InterpolateStack(st, body);
        SameButTop(st.ctx, next.ctx);
        BraceInterpolates(i, st, body);
      } else {
        BodyIsKept(i, st, body);
        if d == n {
          StaysInBody(i, st, body);
          BodyNotes(i, st, body);
        }
      }
    } else {
      OutsideStrings(st);
      CodeFrames(i, st, d);
      if d < |st.ctx| {
        LiteralIsBuried(st, d);
      }
    }
  }

  lemma BraceInterpolates(i: Input, st: State, body: Body)
    requires st.pos < |i.text| && Interpolates(i, st, body)
    ensures i.text[st.pos] == '{'
  {
  }

  lemma BodyNotes(i: Input, st: State, body: Body)
    requires st.pos < |i.text| && Top(st.ctx) == Some(Str(body)) && body.kind.Multiline?
    requires !ClosesString(i.text, st.pos, body.kind) && !Interpolates(i, st, body)
    ensures var next := BodyStep(i, st, body);
            && |next.ctx| == |st.ctx| && Top(next.ctx).value.Str?
            && Top(next.ctx).value.body.lineStarts
               == body.lineStarts + if i.text[st.pos] == '\n' then [st.pos + 1] else []
  {
    hide ClosesString, TextStep, Hold, Interpolates;
    assert body.lineStarts + [] == body.lineStarts;
    if i.text[st.pos] == '\n' {
      NewlineStep(i, st, body);
      HoldTop(st, body, '\n', st.pos + 1);
      LineStartInherits(Hold(st, body, '\n', st.pos + 1), st.pos + 1);
    } else {
      TextNotes(i, st, body);
    }
  }

  lemma TextNotes(i: Input, st: State, body: Body)
    requires st.pos < |i.text| && Top(st.ctx) == Some(Str(body)) && body.kind.Multiline? && i.text[st.pos] != '\n'
    requires !ClosesString(i.text, st.pos, body.kind) && !Interpolates(i, st, body)
    ensures var next := TextStep(i, st, body);
            && |next.ctx| == |st.ctx| && Top(next.ctx).value.Str?
            && Top(next.ctx).value.body.lineStarts == body.lineStarts
  {
    hide ClosesString, StartsAt, EscapeAt, Interpolate, Abandon, AtLineStart;
  }

  /** By step `n` a newline just before `p` was read in the literal itself. */
  ghost predicate NewlineRead(i: Input, n: nat, d: nat, start: nat, p: nat) {
    exists m: nat :: m < n && OwnLevel(Moment(i, m), d, start) && Newline(i, Moment(i, m), p)
  }

  predicate Newline(i: Input, st: State, p: nat) {
    st.pos < |i.text| && i.text[st.pos] == '\n' && p == st.pos + 1
  }

  lemma OneMoreMoment(i: Input, n: nat, d: nat, start: nat, p: nat)
    requires n > 0
    ensures NewlineRead(i, n, d, start, p)
       <==> NewlineRead(i, n - 1, d, start, p)
            || (OwnLevel(Moment(i, n - 1), d, start) && Newline(i, Moment(i, n - 1), p))
  {
    hide Moment, OwnLevel, Newline;
  }

  lemma NothingReadBefore(i: Input, n: nat, d: nat, start: nat, p: nat)
    requires n > 0 && Moment(i, n - 1).pos < start
    ensures !NewlineRead(i, n, d, start, p)
  {
    hide Moment;
    forall m: nat | m < n ensures !OwnLevel(Moment(i, m), d, start) {
      MomentsAdvance(i, m, n - 1);
      if OwnLevel(Moment(i, m), d, start) {
        BeganBehind(i, m, d, start);
      }
    }
  }

  /** At every moment the lines noted of an open multiline literal, after its first, are exactly
    those that follow a newline read in the literal itself. */
  lemma {:induction false} LinesAreNoted(i: Input, n: nat, d: nat, start: nat, p: nat)
    requires IsOpen(Moment(i, n), d, start) && p != start
    ensures p in Moment(i, n).ctx[d].body.lineStarts <==> NewlineRead(i, n, d, start, p)
  {
    hide Step, Nested, Remembers, NewlineRead;
    if n > 0 {
      var before := Moment(i, n - 1);
      OneMoreMoment(i, n, d, start, p);
      if before.pos < |i.text| {
        EveryMomentRemembers(i, n - 1);
        StepNotes(i, before, d, start);
        if IsOpen(before, d, start) {
          LinesAreNoted(i, n - 1, d, start, p);
        } else {
          NothingReadBefore(i, n, d, start, p);
        }
      } else {
        LinesAreNoted(i, n - 1, d, start, p);
      }
    }
  }

  /** The lines of the text that begin in the source are the first and those that follow a newline
    read in the literal itself. */
  lemma {:induction false} OriginsAreRead(i: Input, n: nat, d: nat, start: nat, p: nat)
    ensures Some(p) in LineOrigins(i, n, d, start) <==> p == start || NewlineRead(i, n, d, start, p)
  {
    hide Moment, OwnLevel, NewlineEscape, NewlineRead;
    if n == 0 {
      NothingReadYet(i, d, start, p);
    } else {
      OriginsAreRead(i, n - 1, d, start, p);
      OneMoreMoment(i, n, d, start, p);
    }
  }

  lemma NothingReadYet(i: Input, d: nat, start: nat, p: nat)
    ensures !NewlineRead(i, 0, d, start, p)
  {
  }

  /** Each line begins after the literal does, save the first. */
  lemma {:induction false} LaterLinesAreLater(i: Input, n: nat, d: nat, start: nat, j: nat)
    requires j < |LineOrigins(i, n, d, start)|
    ensures j > 0 && LineOrigins(i, n, d, start)[j].Some? ==> LineOrigins(i, n, d, start)[j].value > start
  {
    hide Moment, OwnLevel, NewlineEscape;
    if n > 0 {
      if j < |LineOrigins(i, n - 1, d, start)| {
        LaterLinesAreLater(i, n - 1, d, start, j);
      } else {
        BeganBehind(i, n - 1, d, start);
      }
    }
  }

  // -- what is reported ------------------------------------------------------------------------------------------------

  function Margin(i: Input, st: State): string
    requires st.pos <= |i.text|
  {
    i.text[LineStart(i.text, st.pos)..st.pos]
  }

  lemma ClosingReports(i: Input, st: State, body: Body)
    requires Closing(i, st, body)
    ensures var fault := MarginFault(i.text, body.lineStarts, Margin(i, st), LineStart(i.text, st.pos));
            Step(i, st).errors == st.errors + if Margin(i, st) != "" && fault.Some? then [fault.value] else []
  {
    hide DedentPieces, DedentChunk, MarginFault, LineStart, AllBlank, ClosesString, TrimBlanks;
    ClosingStep(i, st, body);
    var fault := MarginFault(i.text, body.lineStarts, Margin(i, st), LineStart(i.text, st.pos));
    assert st.errors + [] == st.errors;
  }

  lemma ReportsMisfit(i: Input, n: nat, body: Body)
    requires Closing(i, Moment(i, n), body)
    ensures var st := Moment(i, n);
            && Behind(body, |i.text|)
            && (Step(i, st).errors == st.errors
                <==> AllFit(i.text, body.lineStarts, Margin(i, st), LineStart(i.text, st.pos)))
  {
    hide Moment, Step, MarginFault, AllFit, LineStart, AllBlank, ClosesString;
    var st := Moment(i, n);
    ClosesBehind(i, n, body);
    ClosingReports(i, st, body);
    FaultMeansMisfit(i.text, body.lineStarts, Margin(i, st), LineStart(i.text, st.pos));
    if Margin(i, st) == "" {
      AnyLineFits(i.text, body.lineStarts, LineStart(i.text, st.pos));
    }
  }

  /** A source line of the literal's own begins at `p`: its first, if the opener ended its line, or
    one after a newline that was read in the literal itself. */
  ghost predicate OwnLine(i: Input, n: nat, body: Body, p: nat) {
    if p == body.start then BeganAtLineStart(body)
    else NewlineRead(i, n, Less(|Moment(i, n).ctx|, 1), body.start, p)
  }

  /** Every source line of the literal's own above the closing one is blank or has the margin. */
  ghost predicate OwnLinesFit(i: Input, n: nat, body: Body) {
    forall p: nat :: p < LineStart(i.text, Moment(i, n).pos) && OwnLine(i, n, body, p) ==>
      SourceFits(i.text, p, Margin(i, Moment(i, n)))
  }

  lemma OwnLinesAreNoted(i: Input, n: nat, body: Body, p: nat)
    requires Closing(i, Moment(i, n), body) && Behind(body, |i.text|)
    ensures OwnLine(i, n, body, p) <==> p in body.lineStarts
  {
    hide Moment, NewlineRead;
    var st := Moment(i, n);
    if p == body.start {
      if p in body.lineStarts {
        var k :| 0 <= k < |body.lineStarts| && body.lineStarts[k] == p;
        assert body.start <= body.lineStarts[0];
      }
    } else {
      LinesAreNoted(i, n, |st.ctx| - 1, body.start, p);
    }
  }

  /** A literal that closes under blanks only is reported if and only if a source line of its own,
    above the closing one, is neither blank nor begins with the closing indentation. */
  lemma MarginIsReported(i: Input, n: nat, body: Body)
    requires Closing(i, Moment(i, n), body)
    ensures Step(i, Moment(i, n)).errors == Moment(i, n).errors <==> OwnLinesFit(i, n, body)
  {
    hide Moment, Step, LineStart, OwnLine, SourceFits, Ascending;
    var st := Moment(i, n);
    ReportsMisfit(i, n, body);
    forall p: nat ensures OwnLine(i, n, body, p) <==> p in body.lineStarts {
      OwnLinesAreNoted(i, n, body, p);
    }
  }

  lemma AnyLineFits(text: string, starts: seq<nat>, closing: nat)
    requires Ascending(starts, |text|)
    ensures AllFit(text, starts, "", closing)
  {
    forall j | 0 <= j < |starts| && starts[j] < closing ensures SourceFits(text, starts[j], "") {
      assert text[starts[j]..starts[j]] == "";
    }
  }

  // -- what a closed literal loses ---------------------------------------------------------------------------------------

  lemma {:induction false} TrimCuts(s: string, most: nat) returns (cut: string)
    ensures s == TrimBlanks(s, most) + cut && AllBlank(cut)
    decreases most
  {
    if most > 0 && s != "" && IsBlank(s[|s| - 1]) {
      var less := TrimCuts(s[..|s| - 1], most - 1);
      cut := less + [s[|s| - 1]];
      assert s == s[..|s| - 1] + [s[|s| - 1]];
    } else {
      cut := "";
    }
  }

  /** A line cut short among its last blanks. */
  lemma CutLoses(line: string, cut: string, margin: string)
    requires LosesMargin(line + cut, margin) && AllBlank(cut) && AllBlank(margin)
    ensures LosesMargin(line, margin)
  {
    var whole, run := line + cut, RunEnd(line, 0, IsBlank);
    if run < |line| {
      assert whole[run] == line[run];
      assert RunEnd(whole, 0, IsBlank) == run by {
        var end := RunEnd(whole, 0, IsBlank);
        assert forall k :: 0 <= k < run ==> whole[k] == line[k];
      }
      if margin <= whole {
        MarginInside(line, whole, margin, run);
        MarginIsWhatGoes(line, margin);
      }
    }
  }

  lemma MarginInside(line: string, whole: string, margin: string, run: nat)
    requires line <= whole && margin <= whole && AllBlank(margin) && run < |line| && !IsBlank(line[run])
    ensures margin <= line
  {
    assert forall k :: 0 <= k < |margin| ==> margin[k] == whole[k];
    assert whole[run] == line[run];
  }

  /** Every line that begins at a line start is blank, or loses just the margin. */
  ghost predicate EveryLineLoses(lines: seq<string>, whole: bool, margin: string) {
    forall j :: 0 <= j < |lines| && (j > 0 || whole) ==> LosesMargin(lines[j], margin)
  }

  /** Every such line that begins in the source does. */
  ghost predicate SourceLinesLose(lines: seq<string>, at: seq<Option<nat>>, whole: bool, margin: string) {
    && |at| == |lines|
    && forall j :: 0 <= j < |lines| && (j > 0 || whole) && at[j].Some? ==> LosesMargin(lines[j], margin)
  }

  lemma CutLines(s: string, cut: string, at: seq<Option<nat>>, whole: bool, margin: string)
    requires SourceLinesLose(Lines(s + cut), at, whole, margin) && AllBlank(cut) && AllBlank(margin)
    ensures SourceLinesLose(Lines(s), at, whole, margin)
  {
    hide LosesMargin, Lines;
    LinesGoOn(s, cut);
    var lines, more := Lines(s), Lines(s + cut);
    forall j | 0 <= j < |lines| && (j > 0 || whole) && at[j].Some? ensures LosesMargin(lines[j], margin) {
      assert LosesMargin(more[j], margin);
      if j == |lines| - 1 {
        CutLoses(lines[j], cut, margin);
      }
    }
  }

  /** Where the lines of a literal that closes begin. */
  function OriginsOf(i: Input, n: nat, body: Body): seq<Option<nat>> {
    LineOrigins(i, n, Less(|Moment(i, n).ctx|, 1), body.start)
  }

  lemma OriginIsOwn(i: Input, n: nat, body: Body, j: nat)
    requires j < |OriginsOf(i, n, body)| && OriginsOf(i, n, body)[j].Some? && (j > 0 || BeganAtLineStart(body))
    ensures OwnLine(i, n, body, OriginsOf(i, n, body)[j].value)
  {
    hide Moment, LineOrigins, NewlineRead;
    var d := Less(|Moment(i, n).ctx|, 1);
    LaterLinesAreLater(i, n, d, body.start, j);
    OriginsAreRead(i, n, d, body.start, OriginsOf(i, n, body)[j].value);
  }

  lemma LinesLose(i: Input, n: nat, body: Body)
    requires var st := Moment(i, n);
             FrameTold(i, st.tokens, OriginsOf(i, n, body), body, st.pos, false) && AllBlank(Margin(i, st))
    requires OwnLinesFit(i, n, body)
    ensures var st := Moment(i, n);
            SourceLinesLose(Lines(FrameText(st.tokens, body)), OriginsOf(i, n, body), BeganAtLineStart(body), Margin(i, st))
  {
    hide LosesMargin, SourceFits, LineStart, Woven, Lines, AllBlank, FrameText, Moment, OwnLine, OriginsOf;
    var st := Moment(i, n);
    var lines, at := Lines(FrameText(st.tokens, body)), OriginsOf(i, n, body);
    forall j | 0 <= j < |lines| && (j > 0 || BeganAtLineStart(body)) && at[j].Some?
      ensures LosesMargin(lines[j], Margin(i, st))
    {
      OriginIsOwn(i, n, body, j);
      LineFits(i.text, at, lines, st.pos, Margin(i, st), j);
    }
  }

  /** Wherever a multiline literal closes under blanks only and nothing is reported of it, every
    line of the text it had that begins at a line start in the source is blank or loses exactly
    the closing indentation, no more and no less, whatever the literal and the program hold. */
  lemma ClosedLiteralLosesItsMargin(i: Input, n: nat, body: Body) returns (e: nat)
    requires Closing(i, Moment(i, n), body) && Step(i, Moment(i, n)).errors == Moment(i, n).errors
    ensures var st := Moment(i, n);
            && ClosedAs(i, st, body, Lex(i).tokens, e)
            && SourceLinesLose(Lines(WholeText(st, body, Column(i, st))), OriginsOf(i, n, body),
                               BeganAtLineStart(body), Margin(i, st))
  {
    hide Moment, Lex, Step, SourceLinesLose, Lines, Told, Woven, PiecesAt, OwnLinesFit, LineStart, AllBlank,
         ClosesString, WovenText, Nested, LiteralText, DepthOf, Unindented, LineOrigins;
    var st := Moment(i, n);
    e := ClosedLiteralIsDedented(i, n, body);
    ClosingIsWoven(i, n, body);
    EveryMomentTells(i, n, |st.ctx| - 1, body.start);
    MarginIsReported(i, n, body);
    LinesLose(i, n, body);
    var column := Column(i, st);
    var cut := TrimCuts(body.pending, column);
    WovenIsText(st.tokens, body.pieces);
    WovenGrows(st.tokens, body.pieces, TrimBlanks(body.pending, column), cut);
    CutLines(WholeText(st, body, column), cut, OriginsOf(i, n, body), BeganAtLineStart(body), Margin(i, st));
  }

  /** Without a backslash in the literal, that is every line that begins at a line start. */
  lemma PlainlySpeltLosesItsMargin(i: Input, n: nat, body: Body) returns (e: nat)
    requires Closing(i, Moment(i, n), body) && Step(i, Moment(i, n)).errors == Moment(i, n).errors
    requires NoBackslash(i.text, body.start, Moment(i, n).pos)
    ensures var st := Moment(i, n);
            && ClosedAs(i, st, body, Lex(i).tokens, e)
            && EveryLineLoses(Lines(WholeText(st, body, Column(i, st))), BeganAtLineStart(body), Margin(i, st))
  {
    hide Moment, Lex, Step, Lines, Woven, PiecesAt, WovenText, LiteralText, DepthOf, Unindented, LineOrigins, LosesMargin,
         SpellsNoNewline, Closing, WholeText;
    var st := Moment(i, n);
    e := ClosedLiteralLosesItsMargin(i, n, body);
    NoBackslashNoNewline(i, n, Less(|st.ctx|, 1), body.start);
    SpeltMeansEscape(i, n, Less(|st.ctx|, 1), body.start);
  }

  lemma ClosesBehind(i: Input, n: nat, body: Body)
    requires Closing(i, Moment(i, n), body)
    ensures Behind(body, Moment(i, n).pos)
  {
    hide Moment, Behind, AllBlank, LineStart, ClosesString;
    EveryMomentInOrder(i, n);
    var st := Moment(i, n);
    assert st.ctx[|st.ctx| - 1] == Str(body);
  }

  // -- a newline that is spelt ---------------------------------------------------------------------------------------------

  /** An opener, a line that holds a blank, an escape and a letter, and a closer indented by one. */
  const SPELT := "\"\"\"\n \\nx\n \"\"\""

  lemma HoldsOneMore(st: State, text: string, starts: seq<nat>, c: char, end: nat)
    requires InBody(st, text, starts)
    ensures var next := Hold(st, st.ctx[0].body, c, end);
            InBody(next, text + [c], starts) && next.pos == end
  {
  }

  lemma OrdinaryMoment(i: Input, n: nat, text: string, starts: seq<nat>)
    requires var st := Moment(i, n);
             InBody(st, text, starts) && st.pos < |i.text| && Ordinary(i.text, st.pos)
    ensures var st := Moment(i, n);
            Moment(i, n + 1).pos == st.pos + 1 && InBody(Moment(i, n + 1), text + [i.text[st.pos]], starts)
  {
    hide Moment, Step, Ordinary, Hold;
    var st := Moment(i, n);
    NextMoment(i, n);
    OrdinaryIsHeld(i, st, st.ctx[0].body);
    HoldsOneMore(st, text, starts, i.text[st.pos], st.pos + 1);
  }

  lemma InBodyIsTop(st: State, text: string, starts: seq<nat>)
    requires InBody(st, text, starts)
    ensures |st.ctx| == 1 && st.ctx[0].Str? && st.ctx[0].body.kind.Multiline?
  {
  }

  lemma EscapedMoment(i: Input, n: nat, text: string, starts: seq<nat>)
    requires var st := Moment(i, n);
             InBody(st, text, starts) && st.pos + 1 < |i.text| && i.text[st.pos] == '\\' && i.text[st.pos + 1] == 'n'
    ensures Moment(i, n + 1).pos == Moment(i, n).pos + 2 && InBody(Moment(i, n + 1), text + "\n", starts)
  {
    hide Moment, Hold, InBody, CloseString, Abandon, Interpolate, AtLineStart;
    var st := Moment(i, n);
    NextMoment(i, n);
    InBodyIsTop(st, text, starts);
    assert !StartsAt(i.text, st.pos, "{{") && !StartsAt(i.text, st.pos, "}}") && !StartsAt(i.text, st.pos, QUOTES);
    HoldsOneMore(st, text, starts, '\n', st.pos + 2);
  }

  lemma NewlineMoment(i: Input, n: nat, text: string, starts: seq<nat>)
    requires var st := Moment(i, n);
             InBody(st, text, starts) && st.pos < |i.text| && i.text[st.pos] == '\n'
    ensures var st := Moment(i, n + 1);
            st.pos == Moment(i, n).pos + 1 && InBody(st, text + "\n", starts + [st.pos])
  {
    hide Moment, Step;
    NextMoment(i, n);
    NewlineStep(i, Moment(i, n), Moment(i, n).ctx[0].body);
  }

  lemma SpeltOpens(i: Input)
    requires i.text == SPELT
    ensures Moment(i, 1).pos == 4 && InBody(Moment(i, 1), "", [4])
  {
    hide Step, InBody, Begin;
    var rest := " \\nx\n \"\"\"";
    assert i.text == QUOTES + "\n" + rest;
    OpensMultiline(i, rest);
    BeginIsFirst(i);
    NextMoment(i, 0);
  }

  lemma BeginIsFirst(i: Input)
    ensures Moment(i, 0) == Begin(i) && (i.text == SPELT ==> Begin(i).pos < |i.text|)
  {
  }

  lemma SpeltReads(i: Input)
    requires i.text == SPELT
    ensures Moment(i, 6).pos == 10 && InBody(Moment(i, 6), " \nx\n ", [4, 9])
  {
    hide Moment, Step, InBody;
    SpeltOpens(i);
    OrdinaryMoment(i, 1, "", [4]);
    assert "" + [i.text[4]] == " ";
    EscapedMoment(i, 2, " ", [4]);
    assert " " + "\n" == " \n";
    OrdinaryMoment(i, 3, " \n", [4]);
    assert " \n" + [i.text[7]] == " \nx";
    NewlineMoment(i, 4, " \nx", [4]);
    assert " \nx" + "\n" == " \nx\n" && [4] + [9] == [4, 9];
    OrdinaryMoment(i, 5, " \nx\n", [4, 9]);
    assert " \nx\n" + [i.text[9]] == " \nx\n ";
  }

  lemma SpeltCloses(i: Input, st: State, body: Body)
    requires i.text == SPELT && st.pos == 10 && InBody(st, " \nx\n ", [4, 9]) && Top(st.ctx) == Some(Str(body))
    ensures Closing(i, st, body) && Margin(i, st) == " " && Step(i, st).errors == st.errors
  {
    hide Step, AllBlank, LineStart, ClosesString, Toks;
    assert i.text[9..10] == " " && i.text[8] == '\n';
    SpaceIsBlank();
    ClosingLine(i.text, 9, 10);
    SpeltEnds(i.text);
    ClosingReports(i, st, body);
    SpeltFits(i, st, body);
  }

  lemma SpeltEnds(text: string)
    requires text == SPELT
    ensures ClosesString(text, 10, Multiline)
  {
    assert text[10..13] == QUOTES;
  }

  lemma SpaceIsBlank()
    ensures AllBlank(" ")
  {
  }

  lemma SpeltFits(i: Input, st: State, body: Body)
    requires i.text == SPELT && InBody(st, " \nx\n ", [4, 9]) && Top(st.ctx) == Some(Str(body))
    ensures MarginFault(i.text, body.lineStarts, " ", 9).None?
  {
    var starts := body.lineStarts;
    assert starts == [4, 9] && starts[1..] == [9];
    assert RunEnd(i.text, 4, IsBlank) == 5;
    assert i.text[4..5] == " ";
  }

  lemma SpeltText(tokens: seq<Token>)
    ensures WovenText(tokens, [], " \nx\n") == " \nx\n"
  {
  }

  lemma SpeltShows()
    ensures Lines(" \nx\n") == [" ", "x", ""] && !LosesMargin("x", " ") && TrimBlanks(" \nx\n ", 1) == " \nx\n"
  {
    assert "\n"[1..] == "" && "x\n"[1..] == "\n" && "\nx\n"[1..] == "x\n" && " \nx\n"[1..] == "\nx\n";
    assert Lines("\n") == ["", ""];
    assert ['x'] + "" == "x" && [' '] + "" == " ";
    assert Lines("x\n") == ["x", ""];
    assert Lines("\nx\n") == ["", "x", ""];
    assert " \nx\n "[..4] == " \nx\n";
    assert RunEnd("x", 0, IsBlank) == 0;
  }

  /** An escape that spells a newline begins a line that is stripped and was never judged: here
    nothing is reported, though the second line is not blank and lacks the closing indentation. */
  lemma SpeltNewlineIsUnjudged(u: Unicode) returns (n: nat, body: Body)
    ensures var i := Input(SPELT, u);
            var st := Moment(i, n);
            && Closing(i, st, body) && Step(i, st).errors == st.errors
            && Woven(st.tokens, PiecesAt(Shapes(st.tokens), Less(|st.ctx|, 1)))
            && !EveryLineLoses(Lines(WholeText(st, body, Column(i, st))), BeganAtLineStart(body), Margin(i, st))
  {
    hide Moment, Step, Nested, PiecesAt, Lines, LosesMargin, Woven, Closing, TrimBlanks;
    var i := Input(SPELT, u);
    SpeltReads(i);
    n := 6;
    var st := Moment(i, n);
    body := st.ctx[0].body;
    SpeltCloses(i, st, body);
    ClosingIsWoven(i, n, body);
    SpeltShows();
    SpeltText(st.tokens);
    assert |Margin(i, st)| == Column(i, st) == 1;
    assert body.pending == " \nx\n " && body.pieces == [];
    var lines := Lines(WholeText(st, body, 1));
    assert lines[1] == "x";
  }
}
