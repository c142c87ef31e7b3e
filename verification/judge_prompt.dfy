/**
 * The prompt `rank_responses` sends to the judge (backend/main.py): a fixed
 * template holding the competitor count, the question and the transcript.
 * The template is a triple-quoted f-string, so every line after the first
 * keeps the eight spaces of source indentation, and `{{ }}` stand for braces.
 */
module JudgePrompt {
  import opened Numerals

  const Opening: string := "You are judging a competition between "
  const AfterCount: string := " competitors.\n\n        "
  const AfterQuestion: string :=
    "\n\n        Your job is to evaluate each response for clarity and strength of argument, and rank them in order of best to worst."
    + "\n        Respond with JSON, and only JSON, with the following format:"
    + "\n        {\"results\": [\"best competitor number\", \"second best competitor number\", \"third best competitor number\", ...]}"
    + "\n\n        Here are the responses from each competitor:\n\n        "
  const Closing: string :=
    "\n\n        Now respond with the JSON with the ranked order of the competitors, nothing else."
    + " Do not include markdown formatting or code blocks."

  /** The judge prompt for `count` competitors (`len(competitors)`). */
  function Prompt(count: nat, question: string, transcript: string): (p: string)
    ensures |p| == TranscriptStart(count, question) + |transcript| + |Closing|
  {
    Fill(Opening, Decimal(count), AfterCount, question, AfterQuestion, transcript, Closing)
  }

  /** A seven-part concatenation: fixed text and the three holes, alternately. */
  function Fill<T>(o: seq<T>, d: seq<T>, a: seq<T>, q: seq<T>, b: seq<T>, t: seq<T>, c: seq<T>): seq<T> {
    o + d + a + q + b + t + c
  }

  /** Where the question starts in the prompt. */
  function QuestionStart(count: nat): nat {
    |Opening| + |Decimal(count)| + |AfterCount|
  }

  /** Where the transcript starts in the prompt. */
  function TranscriptStart(count: nat, question: string): nat {
    QuestionStart(count) + |question| + |AfterQuestion|
  }

  /** A slice lying inside the left operand of a concatenation is a slice of that operand. */
  lemma SliceOfLeft<T>(x: seq<T>, y: seq<T>, i: nat, j: nat)
    requires i <= j <= |x|
    ensures (x + y)[i..j] == x[i..j]
  {
  }

  /** A part ending at offset `e` of `x` stays where it is once `y` is appended. */
  lemma KeepPart<T>(x: seq<T>, y: seq<T>, part: seq<T>, s: nat, e: nat)
    requires s <= e <= |x| && x[s..e] == part
    ensures (x + y)[s..e] == part
  {
    SliceOfLeft(x, y, s, e);
  }

  /** Each part of a seven-part concatenation can be sliced back out. */
  lemma FillParts<T>(o: seq<T>, d: seq<T>, a: seq<T>, q: seq<T>, b: seq<T>, t: seq<T>, c: seq<T>)
    ensures var p := Fill(o, d, a, q, b, t, c);
      var qs := |o| + |d| + |a|;
      var ts := qs + |q| + |b|;
      |p| == ts + |t| + |c| &&
      p[..|o|] == o && p[|o|..|o| + |d|] == d && p[|o| + |d|..qs] == a &&
      p[qs..qs + |q|] == q && p[ts..ts + |t|] == t && p[ts + |t|..] == c
  {
    var p1 := o + d;
    var p2 := p1 + a;
    var p3 := p2 + q;
    var p4 := p3 + b;
    var p5 := p4 + t;
    var p := p5 + c;
    var qs := |o| + |d| + |a|;
    var ts := qs + |q| + |b|;
    assert p == Fill(o, d, a, q, b, t, c);
    // the opening
    assert p1[0..|o|] == o;
    KeepPart(p1, a, o, 0, |o|);
    KeepPart(p2, q, o, 0, |o|);
    KeepPart(p3, b, o, 0, |o|);
    KeepPart(p4, t, o, 0, |o|);
    KeepPart(p5, c, o, 0, |o|);
    assert p[..|o|] == p[0..|o|];
    // the first hole
    assert p1[|o|..|o| + |d|] == d;
    KeepPart(p1, a, d, |o|, |o| + |d|);
    KeepPart(p2, q, d, |o|, |o| + |d|);
    KeepPart(p3, b, d, |o|, |o| + |d|);
    KeepPart(p4, t, d, |o|, |o| + |d|);
    KeepPart(p5, c, d, |o|, |o| + |d|);
    // the text after it
    assert p2[|p1|..qs] == a;
    KeepPart(p2, q, a, |p1|, qs);
    KeepPart(p3, b, a, |p1|, qs);
    KeepPart(p4, t, a, |p1|, qs);
    KeepPart(p5, c, a, |p1|, qs);
    // the second hole
    assert p3[qs..qs + |q|] == q;
    KeepPart(p3, b, q, qs, qs + |q|);
    KeepPart(p4, t, q, qs, qs + |q|);
    KeepPart(p5, c, q, qs, qs + |q|);
    // the third hole
    assert p5[ts..ts + |t|] == t;
    KeepPart(p5, c, t, ts, ts + |t|);
    // the closing
    assert p[|p5|..] == c;
  }

  /** The fixed text between the second and third holes can be sliced back out. */
  lemma FillMiddle<T>(o: seq<T>, d: seq<T>, a: seq<T>, q: seq<T>, b: seq<T>, t: seq<T>, c: seq<T>)
    ensures var p := Fill(o, d, a, q, b, t, c);
      var ts := |o| + |d| + |a| + |q| + |b|;
      ts <= |p| && p[ts - |b|..ts] == b
  {
    var p4 := o + d + a + q + b;
    var p5 := p4 + t;
    assert Fill(o, d, a, q, b, t, c) == p5 + c;
    assert p4[|p4| - |b|..] == b;
    KeepPart(p4, t, b, |p4| - |b|, |p4|);
    KeepPart(p5, c, b, |p4| - |b|, |p4|);
  }

  /**
   * The prompt opens with the fixed opening, then the decimal count, then
   * (after fixed text) the question verbatim, then the transcript verbatim,
   * and closes with the fixed closing instruction.
   */
  lemma Layout(count: nat, question: string, transcript: string)
    ensures var p := Prompt(count, question, transcript);
      var q := QuestionStart(count);
      var t := TranscriptStart(count, question);
      |Opening| < q <= t && t + |transcript| + |Closing| == |p| &&
      p[|Opening|..|Opening| + |Decimal(count)|] == Decimal(count) &&
      p[q..q + |question|] == question &&
      p[t..t + |transcript|] == transcript
  {
    FillParts(Opening, Decimal(count), AfterCount, question, AfterQuestion, transcript, Closing);
  }

  /** The prompt begins with the fixed opening and ends with the fixed closing. */
  lemma FixedEnds(count: nat, question: string, transcript: string)
    ensures var p := Prompt(count, question, transcript);
      |Opening| + |Closing| <= |p| &&
      p[..|Opening|] == Opening && p[|p| - |Closing|..] == Closing
  {
    FillParts(Opening, Decimal(count), AfterCount, question, AfterQuestion, transcript, Closing);
  }

  /**
   * Between the holes stand the fixed texts: " competitors." after the
   * count, and after the question the ranking criteria, the JSON-only output
   * format and the lead-in to the transcript.
   */
  lemma Middles(count: nat, question: string, transcript: string)
    ensures var p := Prompt(count, question, transcript);
      var q := QuestionStart(count);
      var t := TranscriptStart(count, question);
      q + |question| <= t <= |p| &&
      p[|Opening| + |Decimal(count)|..q] == AfterCount &&
      p[q + |question|..t] == AfterQuestion
  {
    FillParts(Opening, Decimal(count), AfterCount, question, AfterQuestion, transcript, Closing);
    FillMiddle(Opening, Decimal(count), AfterCount, question, AfterQuestion, transcript, Closing);
  }

  /** A digit string that a space terminates is determined by where it starts. */
  lemma DigitsBeforeSpace(p: string, start: nat, a: string, b: string)
    requires AllDigits(a) && AllDigits(b)
    requires start + |a| < |p| && p[start..start + |a|] == a && p[start + |a|] == ' '
    requires start + |b| < |p| && p[start..start + |b|] == b && p[start + |b|] == ' '
    ensures a == b
  {
    if |a| != |b| {
      // the shorter one's terminating space would be a digit of the longer one
      assert false;
    }
  }

  /** Two prompts that are equal state the same competitor count. */
  lemma PromptDeterminesCount(m: nat, q1: string, t1: string, n: nat, q2: string, t2: string)
    requires Prompt(m, q1, t1) == Prompt(n, q2, t2)
    ensures m == n
  {
    var p := Prompt(m, q1, t1);
    var a, b := Decimal(m), Decimal(n);
    var o := |Opening|;
    FillParts(Opening, a, AfterCount, q1, AfterQuestion, t1, Closing);
    FillParts(Opening, b, AfterCount, q2, AfterQuestion, t2, Closing);
    assert AfterCount[0] == ' ';
    assert p[o + |a|] == ' ' by {
      assert p[o + |a|..o + |a| + |AfterCount|] == AfterCount;
    }
    assert p[o + |b|] == ' ' by {
      assert p[o + |b|..o + |b| + |AfterCount|] == AfterCount;
    }
    DigitsBeforeSpace(p, o, a, b);
    DecimalInjective(m, n);
  }

  /** For a given count and question, the transcript can be read back from the prompt. */
  lemma PromptDeterminesTranscript(count: nat, question: string, t1: string, t2: string)
    requires Prompt(count, question, t1) == Prompt(count, question, t2)
    ensures t1 == t2
  {
    Layout(count, question, t1);
    Layout(count, question, t2);
  }
}
