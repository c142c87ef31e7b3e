/**
 * The transcript shown to the judge (`format_responses`, backend/main.py):
 * every answer, in order, under a header carrying its 1-based position.
 */
module Transcript {
  import opened Numerals

  const HeaderLead: string := "# Response from competitor "

  /**
   * `f"# Response from competitor {index + 1}\n\n"` for 0-based `index`: the
   * numeral between the fixed lead and the blank line reads back as the
   * 1-based position `index + 1`.
   */
  function Header(index: nat): (h: string)
    ensures |h| > |HeaderLead| + 2
    ensures AllDigits(h[|HeaderLead|..|h| - 2]) && DigitsValue(h[|HeaderLead|..|h| - 2]) == index + 1
  {
    DigitsValueOfDecimal(index + 1);
    var h := HeaderLead + Decimal(index + 1) + "\n\n";
    assert h[|HeaderLead|..|h| - 2] == Decimal(index + 1);
    h
  }

  /** Every header opens with the fixed lead and closes with a blank line. */
  lemma HeaderOpens(index: nat)
    ensures Header(index)[..|HeaderLead|] == HeaderLead
    ensures Header(index)[|Header(index)| - 2..] == "\n\n"
  {
  }

  /**
   * The text one loop iteration adds: the header, the answer, a blank line.
   * The answer can be cut back out of its block verbatim.
   */
  function Block(index: nat, answer: string): (b: string)
    ensures |b| == |Header(index)| + |answer| + 2
    ensures b[..|Header(index)|] == Header(index)
    ensures b[|Header(index)|..|b| - 2] == answer
  {
    Header(index) + answer + "\n\n"
  }

  /** Every block ends with the blank line that separates it from the next. */
  lemma BlockEndsBlank(index: nat, answer: string)
    ensures Block(index, answer)[|Block(index, answer)| - 2..] == "\n\n"
  {
  }

  /** The transcript of `answers`: their blocks, numbered 1, 2, ... in order. */
  function Format(answers: seq<string>): (t: string)
    ensures t == "" <==> answers == []
  {
    if answers == [] then ""
    else Format(answers[..|answers| - 1]) + Block(|answers| - 1, answers[|answers| - 1])
  }

  /** `format_responses`: the loop that accumulates `together`. */
  method FormatResponses(answers: seq<string>) returns (together: string)
    ensures together == Format(answers)
  {
    together := "";
    for index := 0 to |answers|
      invariant together == Format(answers[..index])
    {
      together := together + Header(index);
      together := together + answers[index] + "\n\n";
      assert answers[..index + 1][..index] == answers[..index];
    }
    assert answers[..|answers|] == answers;
  }

  /** One more answer extends the transcript by exactly one block, numbered `|answers| + 1`. */
  lemma {:induction false} FormatAppend(answers: seq<string>, answer: string)
    ensures Format(answers + [answer]) == Format(answers) + Block(|answers|, answer)
  {
    assert (answers + [answer])[..|answers|] == answers;
  }

  /** The transcript of a prefix of the answers is a prefix of the transcript. */
  lemma {:induction false} FormatPrefix(answers: seq<string>, k: nat)
    requires k <= |answers|
    ensures |Format(answers[..k])| <= |Format(answers)|
    ensures Format(answers) == Format(answers[..k]) + Format(answers)[|Format(answers[..k])|..]
  {
    if k < |answers| {
      var init := answers[..|answers| - 1];
      assert init[..k] == answers[..k];
      FormatPrefix(init, k);
      var whole, before, pre := Format(answers), Format(init), Format(answers[..k]);
      var b := Block(|answers| - 1, answers[|answers| - 1]);
      assert whole == before + b;
      assert before == pre + before[|pre|..];
      assert whole[|pre|..] == before[|pre|..] + b;
    } else {
      assert answers[..k] == answers;
    }
  }

  /**
   * Answer `k` stands, under the header numbered `k + 1`, right after the
   * blocks of the answers before it.
   */
  lemma {:induction false} BlockAt(answers: seq<string>, k: nat)
    requires k < |answers|
    ensures var start := |Format(answers[..k])|;
      var b := Block(k, answers[k]);
      start + |b| <= |Format(answers)| &&
      Format(answers)[start..start + |b|] == b
  {
    var b := Block(k, answers[k]);
    assert answers[..k + 1][..k] == answers[..k];
    assert Format(answers[..k + 1]) == Format(answers[..k]) + b;
    FormatPrefix(answers, k + 1);
  }
}
