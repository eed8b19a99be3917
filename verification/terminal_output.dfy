/**
 The escape-sequence filter that stands in front of the browser terminal
 (internal/webui/static/terminal-output.js).

 `Filter` is the source's class; `Push`, `Feed` and `Step` specify its methods on values.
 The grammar `Token` is written independently of the automaton.  The main results:
 the filter's fixed points are exactly the token sequences, every output is one of them
 (so filtering is idempotent), and cutting the input into frames changes nothing.
 */
module TerminalOutput {
  import opened Text

  const CAN: char := '\U{18}'
  const SUB: char := '\U{1a}'
  const ESC: char := '\U{1b}'
  const BEL: char := '\U{07}'
  const CR: char := '\r'
  const LF: char := '\n'
  const PENDING_LIMIT := 16384
  const WINDOW_MILLIS := 20000

  // ----- JavaScript string length ---------------------------------------------------

  // A code point outside the basic plane takes two UTF-16 units.
  function Width(c: char): nat {
    if c as int >= 0x10000 then 2 else 1
  }

  // The `length` of a JavaScript string.
  function Units(s: string): nat {
    if s == "" then 0 else Units(s[..|s| - 1]) + Width(s[|s| - 1])
  }

  lemma UnitsAppend(s: string, c: char)
    ensures Units(s + [c]) == Units(s) + Width(c)
  {
    assert (s + [c])[..|s|] == s;
  }

  // ----- Valid: the checks on a complete sequence -----------------------------------

  predicate OneLine(s: string) {
    CR !in s && LF !in s
  }

  predicate StartsWith(s: string, prefix: string) {
    |prefix| <= |s| && s[..|prefix|] == prefix
  }

  predicate EndsWith(s: string, suffix: string) {
    |suffix| <= |s| && s[|s| - |suffix|..] == suffix
  }

  // The string terminator at the end of `s`, if there is one.
  function Terminator(s: string): (t: string)
    ensures EndsWith(s, t)
  {
    if EndsWith(s, [BEL]) then [BEL] else if EndsWith(s, [ESC, '\\']) then [ESC, '\\'] else ""
  }

  predicate OscShape(s: string) {
    var t := Terminator(s);
    && t != "" && |s| >= 3 + |t|
    && StartsWith(s, [ESC, ']']) && IsDigit(s[2]) && OneLine(s[3..|s| - |t|])
  }

  predicate PaletteIndex(s: string) {
    1 <= |s| <= 3 && AllDigits(s) && DecimalValue(s) <= 255
  }

  predicate PaletteArguments(s: string)
    requires |s| >= 4
  {
    // The terminator is stripped from what follows "ESC ] 4 ;".
    var rest := s[4..];
    var args := Split(rest[..|rest| - |Terminator(rest)|], ';');
    |args| % 2 == 0 && forall i | 0 <= i < |args| && i % 2 == 0 :: PaletteIndex(args[i])
  }

  predicate Valid(s: string) {
    && (StartsWith(s, [ESC, ']']) ==> OscShape(s))
    && (StartsWith(s, [ESC, ']', '4', ';']) ==> PaletteArguments(s))
    && (StartsWith(s, [ESC, '[']) && EndsWith(s, " q") ==>
          s == [ESC] + "[ q" || (|s| == 5 && s[..2] == [ESC, '['] && '0' <= s[2] <= '6'))
  }

  // The regular expression in the source, with its groups named.
  ghost predicate OscRegex(s: string) {
    exists digits: string, separator: string, body: string, terminator: string ::
      && s == [ESC, ']'] + digits + separator + body + terminator
      && digits != "" && AllDigits(digits)
      && separator in ["", ";"] && OneLine(body) && terminator in [[BEL], [ESC, '\\']]
  }

  lemma OscShapeHasParts(s: string)
    requires OscShape(s)
    ensures OscRegex(s)
  {
    var terminator := Terminator(s);
    var digits, separator, body := [s[2]], "", s[3..|s| - |terminator|];
    assert s == [ESC, ']'] + digits + separator + body + terminator;
    assert separator in ["", ";"] && terminator in [[BEL], [ESC, '\\']];
  }

  lemma PartsHaveOscShape(digits: string, separator: string, body: string, terminator: string)
    requires digits != "" && AllDigits(digits)
    requires separator in ["", ";"] && OneLine(body) && terminator in [[BEL], [ESC, '\\']]
    ensures OscShape([ESC, ']'] + digits + separator + body + terminator)
  {
    var inner := digits[1..] + separator + body;
    var s := [ESC, ']'] + digits + separator + body + terminator;
    assert s == [ESC, ']'] + [digits[0]] + inner + terminator;
    assert |s| == 3 + |inner| + |terminator|;
    assert s[|s| - |terminator|..] == terminator;
    assert s[|s| - 1] == terminator[|terminator| - 1];
    assert EndsWith(s, [BEL]) ==> s[|s| - 1..][0] == BEL;
    assert Terminator(s) == terminator;
    assert s[3..|s| - |terminator|] == inner;
    assert OneLine(digits) && OneLine(separator);
  }

  // The indexed check accepts exactly the language of the regular expression.
  lemma OscShapeIsRegex(s: string)
    ensures OscShape(s) <==> OscRegex(s)
  {
    if OscShape(s) {
      OscShapeHasParts(s);
    } else if OscRegex(s) {
      var digits: string, separator: string, body: string, terminator: string :|
        && s == [ESC, ']'] + digits + separator + body + terminator
        && digits != "" && AllDigits(digits)
        && separator in ["", ";"] && OneLine(body) && terminator in [[BEL], [ESC, '\\']];
      PartsHaveOscShape(digits, separator, body, terminator);
    }
  }

  // ----- The automaton --------------------------------------------------------------

  datatype Mode = Ground | Escape | Csi | Str

  datatype State = State(mode: Mode, pending: string, discarded: bool, stringEscape: bool, started: int)

  const FRESH := State(Ground, "", false, false, 0)

  predicate Final(mode: Mode, c: char) {
    if mode == Csi then '@' <= c <= '~' else '0' <= c <= '~'
  }

  predicate StringIntroducer(c: char) {
    c in "]P^_"
  }

  function Clear(s: State): State {
    State(Ground, "", false, false, s.started)
  }

  function Begin(now: int): State {
    State(Escape, [ESC], false, false, now)
  }

  function Append(s: State, c: char): State {
    if s.discarded then s
    else if Units(s.pending) >= PENDING_LIMIT then s.(discarded := true, pending := "")
    else s.(pending := s.pending + [c])
  }

  // A character in escape or control-sequence mode.
  function Control(s: State, c: char, now: int): (State, string) {
    if c == ESC then (Begin(now), "")
    else
      var a := Append(s, c);
      if a.mode == Escape && Units(a.pending) == 2 && c == '[' then (a.(mode := Csi), "")
      else if a.mode == Escape && Units(a.pending) == 2 && StringIntroducer(c) then (a.(mode := Str), "")
      else if Final(a.mode, c) then
        (Clear(a), if !a.discarded && Valid(a.pending) then a.pending else "")
      else (a, "")
  }

  function Step(s: State, c: char, now: int): (State, string) {
    if c == CAN || c == SUB then (Clear(s), "")
    else if s.mode == Ground then
      if c == ESC then (Begin(now), "") else (s, [c])
    else if s.mode == Str then
      if c == BEL || (s.stringEscape && c == '\\') then
        (Clear(s), if !s.discarded && Valid(s.pending + [c]) then s.pending + [c] else "")
      else if s.stringEscape then Control(Begin(now), c, now)
      else (Append(s.(stringEscape := c == ESC), c), "")
    else Control(s, c, now)
  }

  function Feed(s: State, text: string, now: int): (State, string) {
    if text == "" then (s, "")
    else
      var (s1, before) := Feed(s, text[..|text| - 1], now);
      var (s2, out) := Step(s1, text[|text| - 1], now);
      (s2, before + out)
  }

  function Expire(s: State, now: int): State {
    if s.mode != Ground && now - s.started > WINDOW_MILLIS then Clear(s) else s
  }

  function Push(s: State, text: string, now: int): (State, string) {
    Feed(Expire(s, now), text, now)
  }

  // ----- The class ------------------------------------------------------------------

  class Filter {
    var mode: Mode
    var pending: string
    var discarded: bool
    var stringEscape: bool
    var started: int

    constructor ()
      ensures View() == FRESH
    {
      mode, pending, discarded, stringEscape, started := Ground, "", false, false, 0;
    }

    ghost function View(): State
      reads this
    {
      State(mode, pending, discarded, stringEscape, started)
    }

    method ClearState()
      modifies this
      ensures View() == Clear(old(View()))
    {
      mode, pending, discarded, stringEscape := Ground, "", false, false;
    }

    method AppendChar(c: char)
      modifies this
      ensures View() == Append(old(View()), c)
    {
      if discarded {
        return;
      }
      if Units(pending) >= PENDING_LIMIT {
        discarded := true;
        pending := "";
      } else {
        pending := pending + [c];
      }
    }

    method StartEscape(now: int)
      modifies this
      ensures View() == Begin(now)
    {
      ClearState();
      mode, pending, started := Escape, [ESC], now;
    }

    // One turn of the loop in `push`.
    method Accept(c: char, now: int) returns (output: string)
      modifies this
      ensures (View(), output) == Step(old(View()), c, now)
    {
      output := "";
      if c == CAN || c == SUB {
        ClearState();
        return;
      }
      if mode == Ground {
        if c == ESC {
          mode, pending, discarded, stringEscape, started := Escape, [ESC], false, false, now;
        } else {
          output := [c];
        }
        return;
      }
      if mode == Str {
        if c == BEL || (stringEscape && c == '\\') {
          var sequence := pending + [c];
          if !discarded && Valid(sequence) {
            output := sequence;
          }
          ClearState();
          return;
        }
        if stringEscape {
          StartEscape(now);
        } else {
          stringEscape := c == ESC;
          AppendChar(c);
          return;
        }
      }
      if c == ESC {
        StartEscape(now);
        return;
      }
      AppendChar(c);
      if mode == Escape && Units(pending) == 2 {
        if c == '[' {
          mode := Csi;
          return;
        }
        if StringIntroducer(c) {
          mode := Str;
          return;
        }
      }
      if Final(mode, c) {
        if !discarded && Valid(pending) {
          output := pending;
        }
        ClearState();
      }
    }

    method PushText(text: string, now: int) returns (output: string)
      modifies this
      ensures (View(), output) == Push(old(View()), text, now)
    {
      output := "";
      if mode != Ground && now - started > WINDOW_MILLIS {
        ClearState();
      }
      ghost var entry := View();
      for i := 0 to |text|
        invariant (View(), output) == Feed(entry, text[..i], now)
      {
        var out := Accept(text[i], now);
        output := output + out;
        assert text[..i + 1][..i] == text[..i];
      }
      assert text[..|text|] == text;
    }
  }
}
