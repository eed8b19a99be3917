/**
 What the terminal filter lets through, stated without the automaton, and the properties of
 whole runs: soundness against the grammar, exact fixed points, idempotence, independence of
 frame boundaries, and the bound on what is held back.
 */
module TerminalGrammar {
  import opened TerminalOutput

  // ----- The grammar ----------------------------------------------------------------

  predicate Printable(c: char) {
    c != ESC && c != CAN && c != SUB
  }

  // ESC [ , anything below '@' or above '~', then one character of '@'..'~'.
  ghost predicate CsiSequence(q: string) {
    && |q| >= 3 && q[0] == ESC && q[1] == '['
    && (forall i | 2 <= i < |q| - 1 :: Printable(q[i]) && !('@' <= q[i] <= '~'))
    && '@' <= q[|q| - 1] <= '~'
  }

  // ESC, intermediates, then one character of '0'..'~' that opens no longer form.
  ghost predicate EscapeSequence(q: string) {
    && |q| >= 2 && q[0] == ESC
    && (forall i | 1 <= i < |q| - 1 :: Printable(q[i]) && !('0' <= q[i] <= '~'))
    && '0' <= q[|q| - 1] <= '~'
    && (|q| == 2 ==> q[1] != '[' && q[1] !in {']', 'P', '^', '_'})
  }

  // A string introducer, a body with no ESC inside, and BEL or ESC \ or ESC BEL.
  ghost predicate StringSequence(q: string) {
    && |q| >= 3 && q[0] == ESC && q[1] in {']', 'P', '^', '_'}
    && (forall i | 2 <= i < |q| - 2 :: Printable(q[i]) && q[i] != BEL)
    && (|q| > 3 ==> q[|q| - 2] != CAN && q[|q| - 2] != SUB && q[|q| - 2] != BEL)
    && (q[|q| - 1] == BEL || (|q| > 3 && q[|q| - 2] == ESC && q[|q| - 1] == '\\'))
  }

  // Short enough that no character was appended to a full buffer.
  ghost predicate Fits(q: string)
    requires |q| >= 2
  {
    Units(q[..|q| - (if StringSequence(q) then 2 else 1)]) < PENDING_LIMIT
  }

  ghost predicate ControlShape(q: string) {
    CsiSequence(q) || EscapeSequence(q) || StringSequence(q)
  }

  ghost predicate ControlToken(q: string) {
    ControlShape(q) && Fits(q) && Valid(q)
  }

  ghost predicate Token(q: string) {
    (|q| == 1 && Printable(q[0])) || ControlToken(q)
  }

  ghost function Flatten(tokens: seq<string>): string {
    if tokens == [] then "" else Flatten(tokens[..|tokens| - 1]) + tokens[|tokens| - 1]
  }

  ghost predicate IsTokenSequence(s: string) {
    exists tokens: seq<string> :: (forall q <- tokens :: Token(q)) && s == Flatten(tokens)
  }

  // ----- The automaton's invariant --------------------------------------------------

  ghost predicate OpenEscape(p: string) {
    && |p| >= 1 && p[0] == ESC
    && forall i | 1 <= i < |p| :: Printable(p[i]) && !Final(Escape, p[i])
  }

  ghost predicate OpenCsi(p: string) {
    && |p| >= 2 && p[0] == ESC && p[1] == '['
    && forall i | 2 <= i < |p| :: Printable(p[i]) && !Final(Csi, p[i])
  }

  ghost predicate OpenString(p: string, escaped: bool) {
    && |p| >= 2 && p[0] == ESC && StringIntroducer(p[1])
    && (escaped <==> |p| > 2 && p[|p| - 1] == ESC)
    && (forall i | 2 <= i < |p| - 1 :: Printable(p[i]) && p[i] != BEL)
    && (|p| > 2 ==> p[|p| - 1] != CAN && p[|p| - 1] != SUB && p[|p| - 1] != BEL)
  }

  ghost predicate Held(s: State) {
    match s.mode
    case Ground => s.pending == "" && !s.stringEscape
    case Escape => OpenEscape(s.pending) && !s.stringEscape
    case Csi => OpenCsi(s.pending) && !s.stringEscape
    case Str => OpenString(s.pending, s.stringEscape)
  }

  ghost predicate Consistent(s: State) {
    if s.discarded then s.mode != Ground && s.pending == ""
    else Held(s) && (|s.pending| > 0 ==> Units(s.pending[..|s.pending| - 1]) < PENDING_LIMIT)
  }

  lemma AppendBounds(s: State, c: char)
    requires Consistent(s) && s.mode != Ground
    ensures var a := Append(s, c);
      if a.discarded then a.pending == ""
      else a.pending == s.pending + [c] && Units(s.pending) < PENDING_LIMIT && a.pending[..|s.pending|] == s.pending
  {
  }

  lemma UnitsOne()
    ensures Units([ESC]) == 1
  {
    assert [ESC][..0] == "";
  }

  lemma UnitsNone()
    ensures Units("") == 0
  {
  }

  // Only the second character of a sequence can bring the length to two.
  lemma UnitsAtLeastLength(s: string)
    ensures Units(s) >= |s|
  {
    if s != "" {
      UnitsAtLeastLength(s[..|s| - 1]);
    }
  }

  lemma SecondUnit(p: string, c: char)
    requires OpenEscape(p)
    requires c == '[' || StringIntroducer(c)
    ensures Units(p + [c]) == 2 <==> |p| == 1
  {
    UnitsAppend(p, c);
    UnitsAtLeastLength(p);
    if |p| == 1 {
      assert p == [ESC];
      UnitsOne();
    }
  }

  // A character more of an escape sequence: it goes on, opens a longer form, or ends.
  lemma EscapeGoesOn(p: string, c: char)
    requires OpenEscape(p) && Printable(c)
    ensures var q := p + [c];
      && q[..|q| - 1] == p
      && (!Final(Escape, c) ==> OpenEscape(q))
      && (|p| == 1 && c == '[' ==> OpenCsi(q))
      && (|p| == 1 && StringIntroducer(c) ==> OpenString(q, false))
      && (Final(Escape, c) && (|p| == 1 ==> c != '[' && !StringIntroducer(c)) ==> EscapeSequence(q) && !StringSequence(q))
  {
    var q := p + [c];
    assert forall i | 1 <= i < |p| :: q[i] == p[i];
    assert |p| > 1 ==> q[1] == p[1];
    assert |p| == 1 ==> p == [ESC] && q == [ESC, c];
  }

  // Every step keeps the invariant, and whatever it emits is one token.
  lemma EscapeStep(s: State, c: char, now: int)
    requires Consistent(s) && s.mode == Escape && c != CAN && c != SUB
    ensures var (s', out) := Control(s, c, now); Consistent(s') && (out == "" || Token(out))
  {
    hide Valid, Units;
    if c == ESC {
      BeginIsConsistent(now);
    } else {
      AppendBounds(s, c);
      UnitsNone();
      if !s.discarded {
        EscapeGoesOn(s.pending, c);
        if c == '[' || StringIntroducer(c) {
          SecondUnit(s.pending, c);
        }
      }
      hide OpenEscape, OpenCsi, OpenString, EscapeSequence, CsiSequence, StringSequence, Final, StringIntroducer;
    }
  }

  lemma CsiStep(s: State, c: char, now: int)
    requires Consistent(s) && s.mode == Csi && c != CAN && c != SUB
    ensures var (s', out) := Control(s, c, now); Consistent(s') && (out == "" || Token(out))
  {
    hide Valid, Units;
    if c == ESC {
      BeginIsConsistent(now);
      return;
    }
    var a := Append(s, c);
    AppendBounds(s, c);
    if !a.discarded {
      assert a.pending[..|a.pending| - 1] == s.pending;
    }
  }

  lemma StringStep(s: State, c: char, now: int)
    requires Consistent(s) && s.mode == Str && c != CAN && c != SUB
    ensures var (s', out) := Step(s, c, now); Consistent(s') && (out == "" || Token(out))
  {
    hide Valid, Units, Control;
    if c == BEL || (s.stringEscape && c == '\\') {
      if !s.discarded {
        var q := s.pending + [c];
        assert StringSequence(q);
        assert q[..|q| - 2] == s.pending[..|s.pending| - 1];
      }
    } else if s.stringEscape {
      BeginIsConsistent(now);
      EscapeStep(Begin(now), c, now);
    } else {
      var e := s.(stringEscape := c == ESC);
      var a := Append(e, c);
      if !a.discarded {
        AppendBounds(s, c);
        assert a.pending[..|a.pending| - 1] == s.pending;
      }
    }
  }

  lemma BeginIsConsistent(now: int)
    ensures Consistent(Begin(now))
  {
    assert [ESC][..0] == "";
  }

  lemma StepKeeps(s: State, c: char, now: int)
    requires Consistent(s)
    ensures var (s', out) := Step(s, c, now); Consistent(s') && (out == "" || Token(out))
  {
    hide Valid, Units, Control;
    if c == CAN || c == SUB {
    } else if s.mode == Ground {
      BeginIsConsistent(now);
    } else if s.mode == Str {
      StringStep(s, c, now);
    } else if s.mode == Csi {
      CsiStep(s, c, now);
    } else {
      EscapeStep(s, c, now);
    }
  }

  // ----- Soundness ------------------------------------------------------------------

  lemma FlattenAppend(a: seq<string>, b: seq<string>)
    ensures Flatten(a + b) == Flatten(a) + Flatten(b)
  {
    if b == [] {
      assert a + b == a;
    } else {
      assert (a + b)[..|a + b| - 1] == a + b[..|b| - 1];
      FlattenAppend(a, b[..|b| - 1]);
    }
  }

  lemma TokensConcatenate(a: string, b: string)
    requires IsTokenSequence(a) && IsTokenSequence(b)
    ensures IsTokenSequence(a + b)
  {
    var ta: seq<string> :| (forall q <- ta :: Token(q)) && a == Flatten(ta);
    var tb: seq<string> :| (forall q <- tb :: Token(q)) && b == Flatten(tb);
    FlattenAppend(ta, tb);
    assert a + b == Flatten(ta + tb);
  }

  lemma OneTokenOrNone(q: string)
    requires q == "" || Token(q)
    ensures IsTokenSequence(q)
  {
    if q == "" {
      assert q == Flatten([]);
    } else {
      assert Flatten([q][..0]) == "";
      assert q == Flatten([q]);
    }
  }

  lemma {:induction false} FeedSound(s: State, text: string, now: int)
    requires Consistent(s)
    ensures Consistent(Feed(s, text, now).0) && IsTokenSequence(Feed(s, text, now).1)
  {
    if text == "" {
      OneTokenOrNone("");
    } else {
      FeedSound(s, text[..|text| - 1], now);
      var (s1, before) := Feed(s, text[..|text| - 1], now);
      StepKeeps(s1, text[|text| - 1], now);
      OneTokenOrNone(Step(s1, text[|text| - 1], now).1);
      TokensConcatenate(before, Step(s1, text[|text| - 1], now).1);
    }
  }

  // A history of frames, each pushed at its own time.
  datatype Frame = Frame(text: string, now: int)

  function PushAll(s: State, frames: seq<Frame>): (State, string) {
    if frames == [] then (s, "")
    else
      var (s1, before) := PushAll(s, frames[..|frames| - 1]);
      var last := frames[|frames| - 1];
      var (s2, out) := Push(s1, last.text, last.now);
      (s2, before + out)
  }

  // Whatever arrives, in whatever frames and at whatever times, the output is a sequence of
  // plain characters and complete, valid, bounded control sequences.
  lemma {:induction false} OutputIsTokens(frames: seq<Frame>)
    ensures Consistent(PushAll(FRESH, frames).0) && IsTokenSequence(PushAll(FRESH, frames).1)
  {
    if frames == [] {
      OneTokenOrNone("");
    } else {
      OutputIsTokens(frames[..|frames| - 1]);
      var (s1, before) := PushAll(FRESH, frames[..|frames| - 1]);
      var last := frames[|frames| - 1];
      FeedSound(Expire(s1, last.now), last.text, last.now);
      TokensConcatenate(before, Push(s1, last.text, last.now).1);
    }
  }

  // The text held back never exceeds the limit by more than one code point.
  lemma PendingIsBounded(frames: seq<Frame>)
    ensures Units(PushAll(FRESH, frames).0.pending) <= PENDING_LIMIT + 1
  {
    OutputIsTokens(frames);
    var p := PushAll(FRESH, frames).0.pending;
    if p != "" {
      UnitsAppend(p[..|p| - 1], p[|p| - 1]);
    }
  }

  // ----- Completeness: tokens pass unchanged ------------------------------------------

  lemma {:induction false} FeedAppend(s: State, a: string, b: string, now: int)
    ensures Feed(s, a + b, now).0 == Feed(Feed(s, a, now).0, b, now).0
    ensures Feed(s, a + b, now).1 == Feed(s, a, now).1 + Feed(Feed(s, a, now).0, b, now).1
  {
    hide Step;
    if b == "" {
      assert a + b == a;
    } else {
      assert (a + b)[..|a + b| - 1] == a + b[..|b| - 1];
      FeedAppend(s, a, b[..|b| - 1], now);
    }
  }

  lemma UnitsMonotone(s: string, i: nat, j: nat)
    requires i <= j <= |s|
    ensures Units(s[..i]) <= Units(s[..j])
  {
    if i < j {
      assert s[..j][..j - 1] == s[..j - 1];
      UnitsMonotone(s, i, j - 1);
    }
  }

  ghost function HeldMode(q: string, i: nat): Mode
    requires ControlShape(q)
  {
    if i == 1 || EscapeSequence(q) then Escape else if CsiSequence(q) then Csi else Str
  }

  // The state after the first `i` characters of a sequence: they are held back, or were too many.
  ghost function Holding(q: string, i: nat, now: int): State
    requires ControlShape(q) && 1 <= i < |q|
  {
    var over := Units(q[..i - 1]) >= PENDING_LIMIT;
    State(HeldMode(q, i), if over then "" else q[..i], over, HeldMode(q, i) == Str && i > 2 && q[i - 1] == ESC, now)
  }

  // One more character of a sequence that is not its last is held back with the others.
  lemma HoldOneMore(q: string, i: nat, now: int)
    requires ControlShape(q) && 1 <= i < |q| - 1
    ensures Step(Holding(q, i, now), q[i], now) == (Holding(q, i + 1, now), "")
  {
    hide Valid, Units;
    var c := q[i];
    assert q[..i] + [c] == q[..i + 1];
    UnitsMonotone(q, i - 1, i);
    if i == 1 {
      assert q[..1] == [ESC] && q[..0] == "";
      assert Units("") == 0 && Units([ESC]) == 1 by { UnitsOne(); UnitsNone(); }
      assert Units([ESC, c]) == 1 + Width(c) by {
        UnitsAppend([ESC], c);
        assert [ESC] + [c] == [ESC, c];
      }
      assert q[..2] == [ESC, c];
    } else {
      assert Units(q[..i + 1]) > 2 by { UnitsAtLeastLength(q[..i + 1]); }
    }
  }

  // Feeding the first `i` characters of a sequence emits nothing.
  lemma {:induction false} PrefixIsHeld(g: State, q: string, i: nat, now: int)
    requires g.mode == Ground && Consistent(g) && ControlShape(q) && 1 <= i < |q|
    ensures Feed(g, q[..i], now) == (Holding(q, i, now), "")
  {
    assert q[..i][..i - 1] == q[..i - 1];
    if i == 1 {
      assert q[..1] == [ESC] && q[..1][..0] == "";
      assert Step(g, ESC, now) == (Begin(now), "");
      assert Feed(g, q[..1], now) == (Begin(now), "" + "");
      assert "" + "" == "";
      assert Begin(now) == Holding(q, 1, now);
    } else {
      hide Valid, Units, Step, Holding;
      PrefixIsHeld(g, q, i - 1, now);
      HoldOneMore(q, i - 1, now);
    }
  }

  // The last character releases the whole sequence if it fits and is valid, and otherwise nothing.
  lemma LastCharacterReleases(q: string, now: int)
    requires ControlShape(q)
    ensures Step(Holding(q, |q| - 1, now), q[|q| - 1], now)
      == (State(Ground, "", false, false, now), if Fits(q) && Valid(q) then q else "")
  {
    hide Valid, Units, Control;
    var n := |q| - 1;
    assert q[..n] + [q[n]] == q;
    if StringSequence(q) {
      assert q[..|q| - 2] == q[..n - 1];
    } else {
      LastControlReleases(q, now);
    }
  }

  lemma LastControlReleases(q: string, now: int)
    requires (CsiSequence(q) || EscapeSequence(q)) && !StringSequence(q)
    ensures Control(Holding(q, |q| - 1, now), q[|q| - 1], now)
      == (State(Ground, "", false, false, now), if Fits(q) && Valid(q) then q else "")
  {
    hide Valid, Units, StringSequence;
    var n := |q| - 1;
    assert q[..n] + [q[n]] == q;
    UnitsNone();
    UnitsMonotone(q, n - 1, n);
    UnitsAtLeastLength(q);
    var a := Append(Holding(q, n, now), q[n]);
    assert (!a.discarded <==> Units(q[..n]) < PENDING_LIMIT) && a.pending == if a.discarded then "" else q;
    assert Final(a.mode, q[n]) && q[n] != ESC;
    assert a.mode == Escape && Units(a.pending) == 2 ==> |q| == 2;
    hide Append, Holding, CsiSequence, EscapeSequence;
    assert Clear(a) == State(Ground, "", false, false, now);
  }

  // A complete sequence passes whole or not at all: one that is refused leaves no character behind.
  lemma SequencePassesOrVanishes(g: State, q: string, now: int)
    requires g.mode == Ground && Consistent(g) && ControlShape(q)
    ensures var (g', out) := Feed(g, q, now);
      g'.mode == Ground && Consistent(g') && out == if Fits(q) && Valid(q) then q else ""
  {
    hide Valid, Units, Step, Holding, Fits;
    PrefixIsHeld(g, q, |q| - 1, now);
    LastCharacterReleases(q, now);
    assert "" + "" == "" && "" + q == q;
  }

  lemma TokenPasses(g: State, q: string, now: int)
    requires g.mode == Ground && Consistent(g) && Token(q)
    ensures var (g', out) := Feed(g, q, now); g'.mode == Ground && Consistent(g') && out == q
  {
    hide Valid, Units, Step, Fits;
    if ControlToken(q) {
      SequencePassesOrVanishes(g, q, now);
    } else {
      assert q[..0] == "" && q == [q[0]];
      assert Step(g, q[0], now) == (g, q) by { PlainPasses(g, q[0], now); }
      assert Feed(g, "", now) == (g, "");
      assert "" + q == q;
    }
  }

  lemma PlainPasses(g: State, c: char, now: int)
    requires g.mode == Ground && Printable(c)
    ensures Step(g, c, now) == (g, [c])
  {
  }

  lemma {:induction false} TokensPass(g: State, tokens: seq<string>, now: int)
    requires g.mode == Ground && Consistent(g) && forall q <- tokens :: Token(q)
    ensures var (g', out) := Feed(g, Flatten(tokens), now);
      g'.mode == Ground && Consistent(g') && out == Flatten(tokens)
  {
    if tokens != [] {
      var init, q := tokens[..|tokens| - 1], tokens[|tokens| - 1];
      TokensPass(g, init, now);
      TokenPasses(Feed(g, Flatten(init), now).0, q, now);
      FeedAppend(g, Flatten(init), q, now);
    }
  }

  // The fixed points of the filter are exactly the token sequences.
  lemma FixedPointsAreTokens(s: string, now: int)
    ensures (Push(FRESH, s, now).1 == s && Push(FRESH, s, now).0.mode == Ground) <==> IsTokenSequence(s)
  {
    if IsTokenSequence(s) {
      var tokens: seq<string> :| (forall q <- tokens :: Token(q)) && s == Flatten(tokens);
      TokensPass(FRESH, tokens, now);
    }
    FeedSound(FRESH, s, now);
  }

  // Filtering what the filter produced returns it unchanged and holds nothing back.
  lemma FilteringIsIdempotent(frames: seq<Frame>, now: int)
    ensures var out := PushAll(FRESH, frames).1;
      Push(FRESH, out, now).1 == out && Push(FRESH, out, now).0.mode == Ground
  {
    OutputIsTokens(frames);
    FixedPointsAreTokens(PushAll(FRESH, frames).1, now);
  }

  // ----- Frame boundaries ---------------------------------------------------------------

  // Equal but for the time at which the held sequence began.
  ghost predicate SameButTime(a: State, b: State) {
    a == b.(started := a.started)
  }

  lemma StepIgnoresTime(a: State, b: State, c: char, t: int, u: int)
    requires SameButTime(a, b)
    ensures SameButTime(Step(a, c, t).0, Step(b, c, u).0) && Step(a, c, t).1 == Step(b, c, u).1
  {
    hide Valid, Units, Final, StringIntroducer, Control, Append;
    AppendIgnoresTime(a.(stringEscape := c == ESC), b.(stringEscape := c == ESC), c);
    ControlIgnoresTime(Begin(t), Begin(u), c, t, u);
    ControlIgnoresTime(a, b, c, t, u);
  }

  lemma AppendIgnoresTime(a: State, b: State, c: char)
    requires SameButTime(a, b)
    ensures SameButTime(Append(a, c), Append(b, c))
  {
    hide Units;
  }

  lemma ControlIgnoresTime(a: State, b: State, c: char, t: int, u: int)
    requires SameButTime(a, b)
    ensures SameButTime(Control(a, c, t).0, Control(b, c, u).0) && Control(a, c, t).1 == Control(b, c, u).1
  {
    hide Valid, Units, Final, StringIntroducer, Append;
    AppendIgnoresTime(a, b, c);
  }

  lemma {:induction false} FeedIgnoresTime(a: State, b: State, text: string, t: int, u: int)
    requires SameButTime(a, b)
    ensures SameButTime(Feed(a, text, t).0, Feed(b, text, u).0) && Feed(a, text, t).1 == Feed(b, text, u).1
  {
    if text != "" {
      FeedIgnoresTime(a, b, text[..|text| - 1], t, u);
      StepIgnoresTime(Feed(a, text[..|text| - 1], t).0, Feed(b, text[..|text| - 1], u).0, text[|text| - 1], t, u);
    }
  }

  lemma StepStarts(s: State, c: char, now: int)
    ensures var s' := Step(s, c, now).0; s'.started == s.started || s'.started == now
  {
    hide Valid, Units, Final, StringIntroducer;
  }

  lemma {:induction false} FeedStarts(s: State, text: string, now: int)
    ensures var s' := Feed(s, text, now).0; s'.started == s.started || s'.started == now
  {
    hide Step;
    if text != "" {
      FeedStarts(s, text[..|text| - 1], now);
      StepStarts(Feed(s, text[..|text| - 1], now).0, text[|text| - 1], now);
    }
  }

  ghost function Texts(frames: seq<Frame>): string {
    if frames == [] then "" else Texts(frames[..|frames| - 1]) + frames[|frames| - 1].text
  }

  // No held sequence can outlive the window while these frames arrive.
  ghost predicate WithinWindow(s: State, frames: seq<Frame>, opening: int) {
    && (s.mode != Ground ==> opening <= s.started)
    && forall f <- frames :: opening <= f.now <= opening + WINDOW_MILLIS
  }

  // Cutting the text into frames at any code points gives the output, and the state, of one frame.
  lemma {:induction false} FramingIsInvisible(s: State, frames: seq<Frame>, opening: int, now: int)
    requires WithinWindow(s, frames, opening) && WithinWindow(s, [Frame("", now)], opening)
    ensures PushAll(s, frames).1 == Push(s, Texts(frames), now).1
    ensures SameButTime(PushAll(s, frames).0, Push(s, Texts(frames), now).0)
    ensures PushAll(s, frames).0.started == s.started || opening <= PushAll(s, frames).0.started
  {
    assert Frame("", now) in [Frame("", now)];
    if frames != [] {
      var init, last := frames[..|frames| - 1], frames[|frames| - 1];
      FramingIsInvisible(s, init, opening, now);
      var s1 := PushAll(s, init).0;
      if s.mode == Ground && s1.mode != Ground && s1.started == s.started {
        HeldSinceAFrame(s, init, opening);
      }
      FeedIgnoresTime(s1, Push(s, Texts(init), now).0, last.text, last.now, now);
      FeedStarts(s1, last.text, last.now);
      FeedAppend(s, Texts(init), last.text, now);
    }
  }

  // A sequence held back after some frames began in one of them, or was held before them.
  lemma {:induction false} HeldSinceAFrame(s: State, frames: seq<Frame>, opening: int)
    requires WithinWindow(s, frames, opening)
    ensures PushAll(s, frames).0.mode != Ground ==> opening <= PushAll(s, frames).0.started
  {
    if frames != [] {
      var init, last := frames[..|frames| - 1], frames[|frames| - 1];
      HeldSinceAFrame(s, init, opening);
      FeedHeldSince(Expire(PushAll(s, init).0, last.now), last.text, last.now, opening);
    }
  }

  lemma {:induction false} FeedHeldSince(s: State, text: string, now: int, opening: int)
    requires opening <= now && (s.mode != Ground ==> opening <= s.started)
    ensures Feed(s, text, now).0.mode != Ground ==> opening <= Feed(s, text, now).0.started
  {
    hide Step;
    if text != "" {
      FeedHeldSince(s, text[..|text| - 1], now, opening);
      StepHeldSince(Feed(s, text[..|text| - 1], now).0, text[|text| - 1], now, opening);
    }
  }

  lemma StepHeldSince(s: State, c: char, now: int, opening: int)
    requires opening <= now && (s.mode != Ground ==> opening <= s.started)
    ensures Step(s, c, now).0.mode != Ground ==> opening <= Step(s, c, now).0.started
  {
    hide Valid, Units, Final, StringIntroducer;
  }

  // Past the window the held sequence is dropped: the frame is read as by a fresh filter.
  lemma StaleSequenceIsDropped(frames: seq<Frame>, text: string, now: int)
    requires var s := PushAll(FRESH, frames).0; s.mode == Ground || now - s.started > WINDOW_MILLIS
    ensures var s := PushAll(FRESH, frames).0;
      Push(s, text, now).1 == Push(FRESH, text, now).1 && SameButTime(Push(s, text, now).0, Push(FRESH, text, now).0)
  {
    OutputIsTokens(frames);
    FeedIgnoresTime(Expire(PushAll(FRESH, frames).0, now), FRESH, text, now, now);
  }
}
