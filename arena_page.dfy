/**
 * The battle screen of `script.js`: the fifteen-minute countdown shown as
 * `hh:mm:ss`, and the code editor's Tab key and line-number gutter.
 */
module ArenaPage {
  import opened Decimal

  // ---------------------------------------------------------------------------
  // Countdown
  // ---------------------------------------------------------------------------

  /** `pad(val)`: a leading zero below ten; the number as it is otherwise. */
  function Pad(v: nat): (r: string)
    ensures AllDigits(r) && ParseDecimal(r) == v
    ensures v < 100 ==> |r| == 2
  {
    ParseNatToString(v);
    NatToStringLength(v);
    if v < 10 then
      ParseLeadingZero(NatToString(v));
      "0" + NatToString(v)
    else NatToString(v)
  }

  /** `pad` agrees with the `padStart(2, '0')` of the queue page's clock. */
  lemma PadIsTwoDigits(v: nat)
    ensures Pad(v) == TwoDigits(v)
  {
    NatToStringLength(v);
    var s := NatToString(v);
    if v < 10 {
      assert PadStart(s, 2, '0') == PadStart("0" + s, 2, '0');
    }
  }

  /** The starting value `0 * 3600 + 15 * 60 + 0`: fifteen minutes. */
  const Start: nat := 0 * 3600 + 15 * 60 + 0

  /** Hours, minutes and seconds of a count of seconds, as `initTimer` computes them. */
  function Hours(t: nat): nat { t / 3600 }
  function Minutes(t: nat): nat { (t % 3600) / 60 }
  function Secs(t: nat): nat { t % 60 }

  /** The three fields recombine to the count, and minutes and seconds stay below 60. */
  lemma Decompose(t: nat)
    ensures Minutes(t) < 60 && Secs(t) < 60
    ensures Hours(t) * 3600 + Minutes(t) * 60 + Secs(t) == t
  {
    var a := t % 3600;
    assert t == Hours(t) * 3600 + a;
    assert a == Minutes(t) * 60 + a % 60;
    assert t == (Hours(t) * 60 + Minutes(t)) * 60 + a % 60;
    assert t % 60 == a % 60;
  }

  /** The text the countdown shows: `${pad(h)}:${pad(m)}:${pad(s)}`. */
  function Clock(t: nat): (r: string)
    ensures t < 360000 ==> |r| == 8 && r[2] == ':' && r[5] == ':'
  {
    Decompose(t);
    Pad(Hours(t)) + ":" + Pad(Minutes(t)) + ":" + Pad(Secs(t))
  }

  /** Below a hundred hours the display reads back to the count it shows. */
  lemma ClockRoundTrip(t: nat)
    requires t < 360000
    ensures var r := Clock(t);
      && AllDigits(r[..2]) && AllDigits(r[3..5]) && AllDigits(r[6..])
      && ParseDecimal(r[3..5]) < 60 && ParseDecimal(r[6..]) < 60
      && ParseDecimal(r[..2]) * 3600 + ParseDecimal(r[3..5]) * 60 + ParseDecimal(r[6..]) == t
  {
    Decompose(t);
    var r := Clock(t);
    var h, m, s := Pad(Hours(t)), Pad(Minutes(t)), Pad(Secs(t));
    assert r == h + ":" + m + ":" + s;
    assert r[..2] == h && r[3..5] == m && r[6..] == s;
  }

  /** The last value the countdown shows. */
  lemma ClockZero()
    ensures Clock(0) == "00:00:00"
  {
    PadIsTwoDigits(0);
    var z := Pad(0);
    assert z == "0" + NatToString(0);
    assert NatToString(0) == [DigitChar(0)];
  }

  class Countdown {
    var totalSeconds: nat
    var display: string

    predicate Valid()
      reads this
    {
      totalSeconds <= Start
    }

    /** `initTimer`: fifteen minutes on the clock; the display keeps the markup's text. */
    constructor(initialDisplay: string)
      ensures Valid() && totalSeconds == Start && display == initialDisplay
    {
      totalSeconds := Start;
      display := initialDisplay;
    }

    /**
     * One interval tick: while time remains, one second less, redisplayed;
     * at zero nothing changes, so the count never goes negative.
     */
    method Tick()
      requires Valid()
      modifies this
      ensures Valid()
      ensures old(totalSeconds) > 0 ==> totalSeconds == old(totalSeconds) - 1 && display == Clock(totalSeconds)
      ensures old(totalSeconds) == 0 ==> totalSeconds == 0 && display == old(display)
    {
      if totalSeconds > 0 {
        totalSeconds := totalSeconds - 1;
        var h := totalSeconds / 3600;
        var m := (totalSeconds % 3600) / 60;
        var s := totalSeconds % 60;
        display := Pad(h) + ":" + Pad(m) + ":" + Pad(s);
      }
    }
  }

  // ---------------------------------------------------------------------------
  // Editor
  // ---------------------------------------------------------------------------

  const Indent: string := "    "

  /**
   * The Tab handler's new text: the selection `[start, end)` is replaced by
   * four spaces.
   */
  function TabSplice(value: string, start: nat, end: nat): (r: string)
    requires start <= end <= |value|
    ensures |r| == |value| - (end - start) + 4
    ensures r[..start] == value[..start] && r[start..start + 4] == Indent
    ensures r[start + 4..] == value[end..]
  {
    var r := value[..start] + Indent + value[end..];
    assert r[..start] == value[..start];
    assert r[start..start + 4] == Indent;
    assert r[start + 4..] == value[end..];
    r
  }

  /** Taking the four spaces back out leaves the text with the selection deleted. */
  lemma TabUndo(value: string, start: nat, end: nat)
    requires start <= end <= |value|
    ensures var r := TabSplice(value, start, end);
      r[..start] + r[start + 4..] == value[..start] + value[end..]
    ensures start == end ==>
      var r := TabSplice(value, start, end);
      r[..start] + r[start + 4..] == value
  {
    if start == end {
      assert value[..start] + value[end..] == value;
    }
  }

  /** The number of `'\n'` characters in `s`. */
  function CountNewlines(s: string): nat {
    if s == [] then 0 else CountNewlines(s[..|s| - 1]) + (if s[|s| - 1] == '\n' then 1 else 0)
  }

  lemma {:induction false} CountNewlinesAppend(a: string, b: string)
    ensures CountNewlines(a + b) == CountNewlines(a) + CountNewlines(b)
    decreases |b|
  {
    if b != [] {
      assert (a + b)[..|a + b| - 1] == a + b[..|b| - 1];
      CountNewlinesAppend(a, b[..|b| - 1]);
    } else {
      assert a + b == a;
    }
  }

  /** `'\n'` does not occur in `s`. */
  predicate NoNewline(s: string) {
    forall i :: 0 <= i < |s| ==> s[i] != '\n'
  }

  lemma {:induction false} NoNewlineCount(s: string)
    requires NoNewline(s)
    ensures CountNewlines(s) == 0
  {
    if s != [] {
      NoNewlineCount(s[..|s| - 1]);
    }
  }

  /** The pieces joined back with `'\n'` between them (`Array.prototype.join('\n')`). */
  function JoinLines(lines: seq<string>): string
    requires |lines| >= 1
  {
    if |lines| == 1 then lines[0] else JoinLines(lines[..|lines| - 1]) + "\n" + lines[|lines| - 1]
  }

  /**
   * `split('\n')`: the pieces between newlines, one more than there are
   * newlines (so the empty text is one empty line).
   */
  function Lines(s: string): (r: seq<string>)
    ensures |r| == CountNewlines(s) + 1
    ensures forall i :: 0 <= i < |r| ==> NoNewline(r[i])
  {
    if s == [] then [""]
    else
      var init := Lines(s[..|s| - 1]);
      var c := s[|s| - 1];
      if c == '\n' then
        init + [""]
      else
        var r := init[..|init| - 1] + [init[|init| - 1] + [c]];
        assert r[..|r| - 1] == init[..|init| - 1];
        r
  }

  /** Joining the pieces with `'\n'` gives the text back. */
  lemma {:induction false} JoinLinesLines(s: string)
    ensures JoinLines(Lines(s)) == s
  {
    if s != [] {
      var t, c := s[..|s| - 1], s[|s| - 1];
      assert s == t + [c];
      JoinLinesLines(t);
      var init := Lines(t);
      if c != '\n' {
        var r := Lines(s);
        var last := init[|init| - 1];
        assert r[..|r| - 1] == init[..|init| - 1];
        if |init| == 1 {
          assert JoinLines(r) == last + [c];
        } else {
          assert JoinLines(init) == JoinLines(init[..|init| - 1]) + "\n" + last;
          assert JoinLines(r) == JoinLines(init[..|init| - 1]) + "\n" + (last + [c]);
        }
      }
    }
  }

  /** Splitting text that was joined from newline-free pieces gives the pieces back. */
  lemma {:induction false} LinesJoinLines(lines: seq<string>)
    requires |lines| >= 1
    requires forall i :: 0 <= i < |lines| ==> NoNewline(lines[i])
    ensures Lines(JoinLines(lines)) == lines
    decreases |JoinLines(lines)|
  {
    var last := lines[|lines| - 1];
    if |lines| == 1 {
      LinesNoNewline(last);
      assert lines == [last];
    } else {
      var init := lines[..|lines| - 1];
      assert forall i :: 0 <= i < |init| ==> init[i] == lines[i];
      LinesJoinLines(init);
      assert JoinLines(lines) == JoinLines(init) + "\n" + last;
      LinesAfterNewline(JoinLines(init), last);
      Snoc(lines);
    }
  }

  /** A non-empty sequence is its front followed by its last element. */
  lemma Snoc<T>(s: seq<T>)
    requires |s| >= 1
    ensures s[..|s| - 1] + [s[|s| - 1]] == s
  {
  }

  lemma {:induction false} LinesNoNewline(s: string)
    requires NoNewline(s)
    ensures Lines(s) == [s]
    decreases |s|
  {
    if s != [] {
      LinesNoNewline(s[..|s| - 1]);
      assert s[..|s| - 1] + [s[|s| - 1]] == s;
    }
  }

  /** Appending a newline and a newline-free piece adds that piece as a line. */
  lemma {:induction false} LinesAfterNewline(a: string, b: string)
    requires NoNewline(b)
    ensures Lines(a + "\n" + b) == Lines(a) + [b]
    decreases |b|
  {
    if b == [] {
      assert a + "\n" + b == a + "\n";
      assert (a + "\n")[..|a|] == a;
    } else {
      var b' := b[..|b| - 1];
      var s := a + "\n" + b;
      assert s[..|s| - 1] == a + "\n" + b';
      assert s[|s| - 1] == b[|b| - 1] != '\n';
      LinesAfterNewline(a, b');
      assert b' + [b[|b| - 1]] == b;
    }
  }

  /** `editor.value.split('\n').length`. */
  function LineCount(s: string): nat {
    |Lines(s)|
  }

  /** One gutter entry. */
  function Span(n: nat): string {
    "<span>" + NatToString(n) + "</span>"
  }

  /** The gutter entries, one per line. */
  function Labels(n: nat): (r: seq<string>)
    ensures |r| == n
  {
    if n == 0 then [] else Labels(n - 1) + [Span(n)]
  }

  /** Entry `i` of the gutter labels line `i + 1`, so the lines are numbered `1..n` in order. */
  lemma {:induction false} LabelsAt(n: nat, i: nat)
    requires i < n
    ensures Labels(n)[i] == Span(i + 1)
  {
    if i < n - 1 {
      LabelsAt(n - 1, i);
    }
  }

  /** `join('')` */
  function Concat(parts: seq<string>): string {
    if parts == [] then "" else Concat(parts[..|parts| - 1]) + parts[|parts| - 1]
  }

  /**
   * The gutter markup `updateLineNumbers` writes for a text: it opens with
   * the label of line 1 and closes with the label of the last line.
   */
  function Gutter(text: string): (r: string)
    ensures var n := LineCount(text);
      && |Span(1)| <= |r| && r[..|Span(1)|] == Span(1)
      && |Span(n)| <= |r| && r[|r| - |Span(n)|..] == Span(n)
  {
    var n := LineCount(text);
    LabelsFirst(n);
    Concat(Labels(n))
  }

  /** A non-empty gutter opens with line 1's label and closes with line `n`'s. */
  lemma {:induction false} LabelsFirst(n: nat)
    requires n >= 1
    ensures var r := Concat(Labels(n));
      && |Span(1)| <= |r| && r[..|Span(1)|] == Span(1)
      && |Span(n)| <= |r| && r[|r| - |Span(n)|..] == Span(n)
  {
    var ls := Labels(n);
    assert ls[..n - 1] == Labels(n - 1);
    if n > 1 {
      LabelsFirst(n - 1);
      var p := Concat(Labels(n - 1));
      assert Concat(ls) == p + Span(n);
      assert (p + Span(n))[..|Span(1)|] == p[..|Span(1)|];
    }
  }

  /**
   * Tab loses exactly the line breaks inside the selection: the new text has
   * as many lines as the old one, less the breaks that were selected.
   */
  lemma TabLineCount(value: string, start: nat, end: nat)
    requires start <= end <= |value|
    ensures LineCount(TabSplice(value, start, end)) + CountNewlines(value[start..end]) == LineCount(value)
  {
    var a, sel, b := value[..start], value[start..end], value[end..];
    assert value == a + sel + b;
    assert TabSplice(value, start, end) == a + Indent + b;
    assert NoNewline(Indent);
    NoNewlineCount(Indent);
    CountNewlinesAppend(a, sel);
    CountNewlinesAppend(a + sel, b);
    CountNewlinesAppend(a, Indent);
    CountNewlinesAppend(a + Indent, b);
  }

  /** So replacing a selection without line breaks keeps the number of lines. */
  lemma TabKeepsLineCount(value: string, start: nat, end: nat)
    requires start <= end <= |value|
    requires NoNewline(value[start..end])
    ensures LineCount(TabSplice(value, start, end)) == LineCount(value)
  {
    TabLineCount(value, start, end);
    NoNewlineCount(value[start..end]);
  }

  class Editor {
    var value: string
    var selectionStart: nat
    var selectionEnd: nat
    var gutter: string

    /** A textarea's selection lies inside its text. */
    predicate Valid()
      reads this
    {
      selectionStart <= selectionEnd <= |value|
    }

    /** The gutter shows one entry per line of the current text. */
    predicate GutterInSync()
      reads this
    {
      gutter == Gutter(value)
    }

    /** `initEditor`: the gutter is filled once for the initial text. */
    constructor(text: string)
      ensures Valid() && GutterInSync()
      ensures value == text && selectionStart == selectionEnd == 0
    {
      value := text;
      selectionStart, selectionEnd := 0, 0;
      gutter := Gutter(text);
    }

    /** `updateLineNumbers`, run on every `input` event. */
    method UpdateLineNumbers()
      modifies this
      ensures GutterInSync()
      ensures value == old(value)
      ensures selectionStart == old(selectionStart) && selectionEnd == old(selectionEnd)
    {
      gutter := Gutter(value);
    }

    /**
     * The Tab handler: the selection becomes four spaces and the caret sits
     * after them. Assigning the text fires no `input` event, so the gutter is
     * not refreshed; it stays right when the selection held no line break.
     */
    method OnTab()
      requires Valid()
      modifies this
      ensures Valid()
      ensures value == TabSplice(old(value), old(selectionStart), old(selectionEnd))
      ensures selectionStart == selectionEnd == old(selectionStart) + 4
      ensures gutter == old(gutter)
      ensures old(GutterInSync()) && NoNewline(old(value)[old(selectionStart)..old(selectionEnd)])
        ==> GutterInSync()
    {
      var start := selectionStart;
      var end := selectionEnd;
      if NoNewline(value[start..end]) {
        TabKeepsLineCount(value, start, end);
      }
      value := value[..start] + Indent + value[end..];
      selectionStart := start + 4;
      selectionEnd := start + 4;
    }
  }
}
