/**
 * The verdict logic of the stand-alone judge script `judge.py`: once the
 * remote execution service has answered, its JSON reply is classified as an
 * API error, a compilation error, a wrong answer, an accepted run, or an
 * unknown error, comparing outputs after Python's `str.strip()`.
 */
module Judge {
  import opened Wrappers

  /**
   * The characters `str.strip()` removes: those Python's `str.isspace()`
   * accepts (ASCII whitespace, the four information separators, NEL, NBSP
   * and the Unicode space and line/paragraph separators).
   */
  predicate IsSpace(c: char) {
    var n := c as int;
    n == 0x20 || (0x09 <= n <= 0x0D) || (0x1C <= n <= 0x1F)
    || n == 0x85 || n == 0xA0 || n == 0x1680
    || (0x2000 <= n <= 0x200A) || n == 0x2028 || n == 0x2029
    || n == 0x202F || n == 0x205F || n == 0x3000
  }

  predicate AllSpace(s: string) {
    forall i :: 0 <= i < |s| ==> IsSpace(s[i])
  }

  /** A string with no whitespace at either end: what `strip()` produces. */
  predicate Stripped(t: string) {
    t == [] || (!IsSpace(t[0]) && !IsSpace(t[|t| - 1]))
  }

  /** `lstrip()`: the suffix left after the leading whitespace. */
  function TrimStart(s: string): (r: string)
    ensures |r| <= |s| && r == s[|s| - |r|..]
    ensures AllSpace(s[..|s| - |r|])
    ensures r == [] || !IsSpace(r[0])
  {
    if s != [] && IsSpace(s[0]) then
      var t := s[1..];
      var r := TrimStart(t);
      assert s[..|s| - |r|] == [s[0]] + t[..|t| - |r|];
      r
    else s
  }

  /** `rstrip()`: the prefix left before the trailing whitespace. */
  function TrimEnd(s: string): (r: string)
    ensures |r| <= |s| && r == s[..|r|]
    ensures AllSpace(s[|r|..])
    ensures r == [] || !IsSpace(r[|r| - 1])
  {
    if s != [] && IsSpace(s[|s| - 1]) then
      var t := s[..|s| - 1];
      var r := TrimEnd(t);
      assert s[|r|..] == t[|r|..] + [s[|s| - 1]];
      r
    else s
  }

  /** `str.strip()`. */
  function Strip(s: string): (r: string)
    ensures Stripped(r)
  {
    var u := TrimStart(s);
    var r := TrimEnd(u);
    assert r != [] ==> r[0] == u[0];
    r
  }

  /** `strip()` cuts `s` into leading whitespace, the result, and trailing whitespace. */
  lemma StripSplit(s: string) returns (i: nat, j: nat)
    ensures i <= j <= |s| && Strip(s) == s[i..j]
    ensures AllSpace(s[..i]) && AllSpace(s[j..])
  {
    var u := TrimStart(s);
    var r := TrimEnd(u);
    i := |s| - |u|;
    j := i + |r|;
    assert s[i..j] == u[..|r|];
    assert s[j..] == u[|r|..];
  }

  lemma {:induction false} TrimStartPrefix(p: string, u: string)
    requires AllSpace(p) && (u == [] || !IsSpace(u[0]))
    ensures TrimStart(p + u) == u
  {
    if p != [] {
      assert (p + u)[1..] == p[1..] + u;
      TrimStartPrefix(p[1..], u);
    }
  }

  lemma {:induction false} TrimEndSuffix(u: string, q: string)
    requires AllSpace(q) && (u == [] || !IsSpace(u[|u| - 1]))
    ensures TrimEnd(u + q) == u
  {
    if q != [] {
      assert (u + q)[..|u + q| - 1] == u + q[..|q| - 1];
      TrimEndSuffix(u, q[..|q| - 1]);
    }
  }

  /**
   * `strip()` is exactly "remove surrounding whitespace": a string with no
   * whitespace at its ends, padded with any whitespace, strips back to itself.
   */
  lemma StripPadded(p: string, t: string, q: string)
    requires AllSpace(p) && AllSpace(q) && Stripped(t)
    ensures Strip(p + t + q) == t
  {
    if t == [] {
      assert p + t + q == p + q;
      AllSpaceConcat(p, q);
    } else {
      assert p + t + q == p + (t + q);
      TrimStartPrefix(p, t + q);
      TrimEndSuffix(t, q);
    }
  }

  lemma AllSpaceConcat(a: string, b: string)
    requires AllSpace(a) && AllSpace(b)
    ensures AllSpace(a + b)
  {
    assert forall i :: 0 <= i < |b| ==> (a + b)[|a| + i] == b[i];
  }

  lemma Split3(s: string, i: nat, j: nat)
    requires i <= j <= |s|
    ensures s == s[..i] + s[i..j] + s[j..]
  {
  }

  lemma Regroup(p: string, a: string, t: string, b: string, q: string)
    ensures p + (a + t + b) + q == (p + a) + t + (b + q)
  {
  }

  /** Stripping twice is stripping once. */
  lemma StripIdempotent(s: string)
    ensures Strip(Strip(s)) == Strip(s)
  {
    StripPadded([], Strip(s), []);
    assert [] + Strip(s) + [] == Strip(s);
  }

  /** Extra whitespace around a string does not change what it strips to. */
  lemma StripIgnoresPadding(p: string, s: string, q: string)
    requires AllSpace(p) && AllSpace(q)
    ensures Strip(p + s + q) == Strip(s)
  {
    var i, j := StripSplit(s);
    var a, t, b := s[..i], s[i..j], s[j..];
    Split3(s, i, j);
    AllSpaceConcat(p, a);
    AllSpaceConcat(b, q);
    Regroup(p, a, t, b, q);
    StripPadded(p + a, t, b + q);
  }

  /** The `compile` and `run` stages of the execution service's reply. */
  datatype Stage = Stage(stdout: string, stderr: string)

  /**
   * The reply as far as the judge reads it: each field is present or absent
   * as a key of the JSON object.
   */
  datatype Reply = Reply(message: Option<string>, compile: Option<Stage>, run: Option<Stage>)

  datatype Verdict =
    | ApiError(message: string)
    | CompileError(stderr: string)
    | WrongAnswer(expected: string, got: string)
    | Accepted
    | UnknownError

  /**
   * What the judge prints: the verdict, preceded by the run's standard error
   * when the run produced any.
   */
  datatype Report = Report(runtimeStderr: Option<string>, verdict: Verdict)

  /** A compile stage counts as failed when its standard error is non-empty. */
  predicate CompileFailed(reply: Reply) {
    reply.compile.Some? && reply.compile.value.stderr != ""
  }

  /**
   * The decision chain, given the already stripped expected output: the API
   * error wins, then a compilation error, then the comparison of the stripped
   * run output with the expected one. A non-empty runtime standard error is
   * only echoed, never a verdict of its own.
   */
  function Decide(reply: Reply, expected: string): (r: Report)
    ensures reply.message.Some? ==> r == Report(None, ApiError(reply.message.value))
    ensures reply.message.None? && CompileFailed(reply) ==>
      r == Report(None, CompileError(reply.compile.value.stderr))
    ensures reply.message.None? && !CompileFailed(reply) && reply.run.None? ==>
      r == Report(None, UnknownError)
    ensures reply.message.None? && !CompileFailed(reply) && reply.run.Some? ==>
      && (r.runtimeStderr.Some? <==> reply.run.value.stderr != "")
      && (r.runtimeStderr.Some? ==> r.runtimeStderr.value == reply.run.value.stderr)
      && (r.verdict == Accepted <==> Strip(reply.run.value.stdout) == expected)
      && (r.verdict != Accepted ==>
            r.verdict == WrongAnswer(expected, Strip(reply.run.value.stdout)))
  {
    if reply.message.Some? then
      Report(None, ApiError(reply.message.value))
    else if CompileFailed(reply) then
      Report(None, CompileError(reply.compile.value.stderr))
    else if reply.run.Some? then
      var run := reply.run.value;
      var shown := if run.stderr != "" then Some(run.stderr) else None;
      var output := Strip(run.stdout);
      if output != expected then Report(shown, WrongAnswer(expected, output))
      else Report(shown, Accepted)
    else
      Report(None, UnknownError)
  }

  /**
   * The whole judge: the expected file is stripped when it is read, so a run
   * is compared with both sides stripped, and a wrong answer reports both.
   */
  function Classify(reply: Reply, expectedFile: string): (r: Report)
    ensures reply.message.None? && !CompileFailed(reply) && reply.run.Some? ==>
      && (r.verdict == Accepted <==> Strip(reply.run.value.stdout) == Strip(expectedFile))
      && (r.verdict != Accepted ==>
            r.verdict == WrongAnswer(Strip(expectedFile), Strip(reply.run.value.stdout)))
  {
    Decide(reply, Strip(expectedFile))
  }

  /** The verdict is either accepted or a wrong answer exactly when the service ran the program. */
  lemma JudgedIffRan(reply: Reply, expectedFile: string)
    ensures var v := Classify(reply, expectedFile).verdict;
      (v == Accepted || v.WrongAnswer?) <==>
      (reply.message.None? && !CompileFailed(reply) && reply.run.Some?)
  {
    var r := Decide(reply, Strip(expectedFile));
    assert Classify(reply, expectedFile) == r;
  }

  /**
   * The decision reads the run's output only through `strip()`: two replies
   * that differ only in run output stripping to the same text are judged alike.
   */
  lemma DecideSeesStrippedOutput(r1: Reply, r2: Reply, expected: string)
    requires r1.message == r2.message && r1.compile == r2.compile
    requires r1.run.Some? <==> r2.run.Some?
    requires r1.run.Some? ==> r1.run.value.stderr == r2.run.value.stderr
    requires r1.run.Some? ==> Strip(r1.run.value.stdout) == Strip(r2.run.value.stdout)
    ensures Decide(r1, expected) == Decide(r2, expected)
  {
    var d1, d2 := Decide(r1, expected), Decide(r2, expected);
    if r1.message.None? && !CompileFailed(r1) && r1.run.Some? {
      assert d1.runtimeStderr == d2.runtimeStderr;
      assert d1.verdict == d2.verdict;
    }
  }

  /** Whitespace around the program's output never turns a verdict. */
  lemma VerdictIgnoresOutputPadding(reply: Reply, expectedFile: string, p: string, q: string)
    requires AllSpace(p) && AllSpace(q) && reply.run.Some?
    ensures var run := reply.run.value;
      var padded := reply.(run := Some(run.(stdout := p + run.stdout + q)));
      Classify(padded, expectedFile) == Classify(reply, expectedFile)
  {
    var run := reply.run.value;
    var padded := reply.(run := Some(run.(stdout := p + run.stdout + q)));
    StripIgnoresPadding(p, run.stdout, q);
    DecideSeesStrippedOutput(padded, reply, Strip(expectedFile));
  }

  /** Nor does whitespace around the expected output file. */
  lemma VerdictIgnoresExpectedPadding(reply: Reply, expectedFile: string, p: string, q: string)
    requires AllSpace(p) && AllSpace(q)
    ensures Classify(reply, p + expectedFile + q) == Classify(reply, expectedFile)
  {
    StripIgnoresPadding(p, expectedFile, q);
  }

  /** Standard error from the run is echoed but never changes the verdict. */
  lemma VerdictIgnoresRuntimeStderr(reply: Reply, expectedFile: string, stderr: string)
    requires reply.run.Some?
    ensures var run := reply.run.value;
      var noisy := reply.(run := Some(run.(stderr := stderr)));
      Classify(noisy, expectedFile).verdict == Classify(reply, expectedFile).verdict
  {
    var run := reply.run.value;
    var noisy := reply.(run := Some(run.(stderr := stderr)));
    var expected := Strip(expectedFile);
    var out := Strip(run.stdout);
    assert noisy.run.value.stdout == run.stdout;
    var v1, v2 := Decide(noisy, expected).verdict, Decide(reply, expected).verdict;
    if reply.message.None? && !CompileFailed(reply) {
      assert v1 == Accepted <==> out == expected;
      assert v2 == Accepted <==> out == expected;
    }
  }

  /** A clean run that prints the expected file, give or take whitespace, is accepted. */
  lemma ExpectedOutputAccepted(reply: Reply, expectedFile: string, p: string, q: string)
    requires reply.message.None? && !CompileFailed(reply)
    requires reply.run.Some? && reply.run.value.stdout == p + expectedFile + q
    requires AllSpace(p) && AllSpace(q)
    ensures Classify(reply, expectedFile).verdict == Accepted
  {
    StripIgnoresPadding(p, expectedFile, q);
  }
}
