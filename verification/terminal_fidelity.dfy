/**
 The terminal filter invents nothing: its output is a subsequence of its input; and the checks on a
 complete sequence, stated by what generates the accepted ones.
 */
module TerminalFidelity {
  import opened Text
  import opened TerminalOutput
  import opened TerminalGrammar

  // ----- Subsequences ----------------------------------------------------------------------------

  // `a` is `b` with some characters left out.
  predicate Within(a: string, b: string) {
    a == "" || (b != "" &&
      if a[|a| - 1] == b[|b| - 1] then Within(a[..|a| - 1], b[..|b| - 1]) else Within(a, b[..|b| - 1]))
  }

  lemma {:induction false} WithinLess(a: string, b: string)
    requires Within(a, b) && a != ""
    ensures Within(a[..|a| - 1], b)
    decreases |b|, 0
  {
    var shorter := a[..|a| - 1];
    if shorter != "" {
      if a[|a| - 1] == b[|b| - 1] {
        WithinMore(shorter, b[..|b| - 1], b[|b| - 1]);
        assert b[..|b| - 1] + [b[|b| - 1]] == b;
      } else {
        WithinLess(a, b[..|b| - 1]);
        WithinMore(shorter, b[..|b| - 1], b[|b| - 1]);
        assert b[..|b| - 1] + [b[|b| - 1]] == b;
      }
    }
  }

  lemma {:induction false} WithinMore(a: string, b: string, c: char)
    requires Within(a, b)
    ensures Within(a, b + [c])
    decreases |b|, 1
  {
    assert (b + [c])[..|b|] == b;
    if a != "" && a[|a| - 1] == c {
      WithinLess(a, b);
    }
  }

  lemma WithinBoth(a: string, b: string, c: char)
    requires Within(a, b)
    ensures Within(a + [c], b + [c])
  {
    assert (a + [c])[..|a|] == a && (b + [c])[..|b|] == b;
  }

  lemma {:induction false} WithinPrefix(a: string, more: string, b: string)
    requires Within(a + more, b)
    ensures Within(a, b)
    decreases |more|
  {
    if more == "" {
      assert a + more == a;
    } else {
      WithinLess(a + more, b);
      assert (a + more)[..|a + more| - 1] == a + more[..|more| - 1];
      WithinPrefix(a, more[..|more| - 1], b);
    }
  }

  // ----- Nothing is invented ---------------------------------------------------------------------------

  // The last character of a string body was an ESC.
  predicate AfterEscape(s: State) {
    s.mode == Str && s.stringEscape
  }

  // What was emitted and what is held back come from what was read; so does an ESC that may open a
  // new sequence.
  ghost predicate FromInput(s: State, out: string, input: string) {
    Within(out + s.pending, input) && (AfterEscape(s) ==> Within(out + [ESC], input))
  }

  // A step emits or keeps at most what was held back and the new character.
  lemma StepShape(s: State, c: char, now: int)
    requires Consistent(s)
    ensures var (s', o) := Step(s, c, now);
      || o + s'.pending in ["", s.pending, [c], s.pending + [c]]
      || (AfterEscape(s) && o + s'.pending in [[ESC, c], [ESC], ""])
    ensures AfterEscape(Step(s, c, now).0) ==> c == ESC && Step(s, c, now).1 == ""
  {
    hide Valid, Final, StringIntroducer, OpenEscape, OpenCsi, OpenString, Control;
    AppendShape(s.(stringEscape := c == ESC), c);
    var (s', o) := Step(s, c, now);
    assert "" + s'.pending == s'.pending && o + "" == o;
    if s.mode == Ground {
    } else if s.mode == Str {
      BeginIsConsistent(now);
      ControlShapeOf(Begin(now), c, now);
      assert [ESC] + [c] == [ESC, c];
    } else {
      ControlShapeOf(s, c, now);
    }
  }

  lemma ControlShapeOf(s: State, c: char, now: int)
    requires Consistent(s) && s.mode in {Escape, Csi}
    ensures var (s', o) := Control(s, c, now); o + s'.pending in ["", s.pending, [c], s.pending + [c]] && !AfterEscape(s')
  {
    hide Valid, Units, Final, StringIntroducer, OpenEscape, OpenCsi, OpenString;
    UnitsNone();
    AppendShape(s, c);
    var (s', o) := Control(s, c, now);
    assert "" + s'.pending == s'.pending && o + "" == o;
  }

  lemma AppendShape(s: State, c: char)
    ensures Append(s, c).pending in [s.pending, "", s.pending + [c]]
    ensures Append(s, c) == s.(pending := Append(s, c).pending, discarded := Append(s, c).discarded)
  {
  }

  lemma KeptIsWithin(s: State, c: char, kept: string, out: string, input: string)
    requires FromInput(s, out, input)
    requires kept in ["", s.pending, [c], s.pending + [c]] || (AfterEscape(s) && kept in [[ESC, c], [ESC], ""])
    ensures Within(out + kept, input + [c])
  {
    hide Within;
    WithinPrefix(out, s.pending, input);
    assert out + "" == out;
    if kept in ["", s.pending] {
      WithinMore(out + kept, input, c);
    } else if kept in [[c], s.pending + [c]] {
      var before := kept[..|kept| - 1];
      assert before in ["", s.pending] && out + kept == out + before + [c];
      WithinBoth(out + before, input, c);
    } else if kept == [ESC] {
      WithinMore(out + [ESC], input, c);
    } else {
      WithinBoth(out + [ESC], input, c);
      assert out + [ESC] + [c] == out + kept;
    }
  }

  lemma StepInventsNothing(s: State, c: char, now: int, out: string, input: string)
    requires Consistent(s) && FromInput(s, out, input)
    ensures FromInput(Step(s, c, now).0, out + Step(s, c, now).1, input + [c])
  {
    hide Consistent, Step, Within;
    StepShape(s, c, now);
    var (s', o) := Step(s, c, now);
    KeptIsWithin(s, c, o + s'.pending, out, input);
    assert out + o + s'.pending == out + (o + s'.pending);
    if AfterEscape(s') {
      assert out + "" == out;
      WithinPrefix(out, s.pending, input);
      WithinBoth(out, input, c);
    }
  }

  lemma {:induction false} FeedInventsNothing(s: State, text: string, now: int, out: string, input: string)
    requires Consistent(s) && FromInput(s, out, input)
    ensures Consistent(Feed(s, text, now).0) && FromInput(Feed(s, text, now).0, out + Feed(s, text, now).1, input + text)
  {
    hide FromInput, Consistent, Step;
    if text == "" {
      assert out + "" == out && input + "" == input;
    } else {
      var init, c := text[..|text| - 1], text[|text| - 1];
      FeedInventsNothing(s, init, now, out, input);
      var (s1, before) := Feed(s, init, now);
      StepInventsNothing(s1, c, now, out + before, input + init);
      StepKeeps(s1, c, now);
      assert input + init + [c] == input + text;
      assert out + before + Step(s1, c, now).1 == out + (before + Step(s1, c, now).1);
    }
  }

  // Whatever arrives, in whatever frames and at whatever times, the output is the input with some
  // characters left out, in order and none twice.
  lemma {:induction false} OutputIsFromInput(frames: seq<Frame>)
    ensures FromInput(PushAll(FRESH, frames).0, PushAll(FRESH, frames).1, Texts(frames))
    ensures Within(PushAll(FRESH, frames).1, Texts(frames))
  {
    if frames != [] {
      var init, last := frames[..|frames| - 1], frames[|frames| - 1];
      OutputIsFromInput(init);
      OutputIsTokens(init);
      var (s1, before) := PushAll(FRESH, init);
      ExpiryInventsNothing(s1, last.now, before, Texts(init));
      FeedInventsNothing(Expire(s1, last.now), last.text, last.now, before, Texts(init));
    }
    var (s, out) := PushAll(FRESH, frames);
    WithinPrefix(out, s.pending, Texts(frames));
  }

  lemma ExpiryInventsNothing(s: State, now: int, out: string, input: string)
    requires Consistent(s) && FromInput(s, out, input)
    ensures Consistent(Expire(s, now)) && FromInput(Expire(s, now), out, input)
  {
    hide Within;
    WithinPrefix(out, s.pending, input);
    assert out + "" == out;
  }

  // ----- The checks on a complete sequence ------------------------------------------------------------------

  // Pairs of a palette index of at most 255 and a color, between "ESC ] 4 ;" and a terminator.
  ghost predicate Palette(s: string, args: seq<string>, terminator: string) {
    && args != [] && |args| % 2 == 0 && (forall a <- args :: ';' !in a)
    && (forall i | 0 <= i < |args| && i % 2 == 0 :: 1 <= |args[i]| <= 3 && AllDigits(args[i]) && DecimalValue(args[i]) <= 255)
    && terminator in [[BEL], [ESC, '\\']]
    && s == [ESC, ']', '4', ';'] + Join(args, ';') + terminator
  }

  ghost predicate PaletteCommand(s: string) {
    exists args: seq<string>, terminator: string :: Palette(s, args, terminator)
  }

  ghost predicate CursorStyle(s: string) {
    exists digit: string :: (digit == "" || (|digit| == 1 && '0' <= digit[0] <= '6')) && s == [ESC, '['] + digit + " q"
  }

  // A complete sequence is refused if and only if it is an operating system command out of form, a
  // palette command out of form, or a cursor style other than 0 to 6.
  lemma ValidExactly(s: string)
    ensures Valid(s) <==>
      && (StartsWith(s, [ESC, ']']) ==> OscRegex(s))
      && (StartsWith(s, [ESC, ']', '4', ';']) ==> PaletteCommand(s))
      && (StartsWith(s, [ESC, '[']) && EndsWith(s, " q") ==> CursorStyle(s))
  {
    OscShapeIsRegex(s);
    if StartsWith(s, [ESC, ']', '4', ';']) {
      assert s[..4][..2] == [ESC, ']'] && StartsWith(s, [ESC, ']']);
      if OscShape(s) {
        PaletteExactly(s);
      }
    }
    hide OscShape, OscRegex, PaletteArguments, PaletteCommand;
    if StartsWith(s, [ESC, '[']) && EndsWith(s, " q") {
      CursorExactly(s);
    }
  }

  lemma CursorExactly(s: string)
    requires StartsWith(s, [ESC, '[']) && EndsWith(s, " q")
    ensures CursorStyle(s) <==> (s == [ESC] + "[ q" || (|s| == 5 && s[..2] == [ESC, '['] && '0' <= s[2] <= '6'))
  {
    if s == [ESC] + "[ q" {
      assert s == [ESC, '['] + "" + " q";
    } else if |s| == 5 && s[..2] == [ESC, '['] && '0' <= s[2] <= '6' {
      assert s == [ESC, '['] + [s[2]] + " q";
    }
    if digit :| (digit == "" || (|digit| == 1 && '0' <= digit[0] <= '6')) && s == [ESC, '['] + digit + " q" {
      if digit == "" {
        assert s == [ESC] + "[ q";
      }
    }
  }

  lemma PaletteExactly(s: string)
    requires StartsWith(s, [ESC, ']', '4', ';']) && OscShape(s)
    ensures PaletteArguments(s) <==> PaletteCommand(s)
  {
    hide OscShape, Terminator, Split, Join, AllDigits, DecimalValue;
    var rest := s[4..];
    var terminator := Terminator(rest);
    var text := rest[..|rest| - |terminator|];
    TerminatorOfRest(s);
    assert s == [ESC, ']', '4', ';'] + text + terminator;
    if PaletteArguments(s) {
      SplitIsExact(text);
      assert Palette(s, Split(text, ';'), terminator);
    }
    if PaletteCommand(s) {
      var args, terminator' :| Palette(s, args, terminator');
      SameTerminator(s, Join(args, ';'), terminator');
      SplitOfJoin(args, ';');
    }
  }

  lemma SplitIsExact(text: string)
    ensures var args := Split(text, ';'); args != [] && (forall a <- args :: ';' !in a) && Join(args, ';') == text
  {
  }

  lemma TerminatorOfRest(s: string)
    requires StartsWith(s, [ESC, ']', '4', ';']) && OscShape(s)
    ensures Terminator(s[4..]) in [[BEL], [ESC, '\\']]
  {
    assert s[3] == ';';
    assert s[|s| - 1] in [BEL, '\\'];
    assert |s| >= 5;
    assert EndsWith(s, [BEL]) ==> EndsWith(s[4..], [BEL]);
    if EndsWith(s, [ESC, '\\']) {
      assert s[|s| - 2] == ESC;
      assert |s| >= 6;
      assert EndsWith(s[4..], [ESC, '\\']);
    }
  }

  lemma SameTerminator(s: string, text: string, terminator: string)
    requires terminator in [[BEL], [ESC, '\\']] && s == [ESC, ']', '4', ';'] + text + terminator
    ensures Terminator(s[4..]) == terminator && s[4..][..|s[4..]| - |terminator|] == text
  {
    var rest := s[4..];
    assert rest == text + terminator;
    assert rest[|rest| - |terminator|..] == terminator;
    assert rest[|rest| - 1] == terminator[|terminator| - 1];
    assert EndsWith(rest, [BEL]) ==> rest[|rest| - 1..][0] == BEL;
  }
}
