/**
 * The part of `run_competition` (backend/main.py) between the provider
 * calls: the seed default, the in-place assembly of `answers` and
 * `competitors`, and the hand-off to the formatter, the judge and the
 * resolver. Every provider call is a function parameter whose result is not
 * known to the model.
 */
module Competition {
  import opened Wrappers
  import Transcript
  import JudgePrompt
  import opened Resolver

  /** The instruction used when the request carries no seed prompt. */
  const DefaultSeed: string :=
    "Please come up with a challenging, nuanced question that I can ask a number "
    + "of LLMs to evaluate their intelligence. Answer only with the question, no explanation."

  /** The five models queried, in the order the source awaits them. */
  const Contestants: seq<string> :=
    ["gpt-4o-mini", "claude-3-7-sonnet-latest", "gemini-2.0-flash", "deepseek-chat", "llama-3.3-70b-versatile"]

  /** The default value of `RunRequest.competitors`. */
  const DefaultCompetitors: seq<string> :=
    ["gpt-4o-mini", "claude-3-7-sonnet-latest", "gemini-2.0-flash", "deepseek-chat", "llama-3.3-70b-versatile"]

  /** The request body; `run_competition` appends to its `competitors` list. */
  class RunRequest {
    var seedPrompt: Option<string>
    var competitors: seq<string>

    constructor (seedPrompt: Option<string>, competitors: seq<string>)
      ensures this.seedPrompt == seedPrompt && this.competitors == competitors
    {
      this.seedPrompt := seedPrompt;
      this.competitors := competitors;
    }

    /** A request that sets neither field. */
    constructor Default()
      ensures seedPrompt == None && competitors == DefaultCompetitors
    {
      seedPrompt := None;
      competitors := DefaultCompetitors;
    }
  }

  /** The provider calls, as opaque functions of their inputs. */
  datatype Oracles = Oracles(
    generate: string -> string,             // generate_question(openaiClient, seed)
    query: (string, string) -> string,      // (model, question) to query_gpt / query_claude's reply
    judge: string -> JudgeOutput)           // rank_responses's completion, then json.loads

  /** Everything one run computes. */
  datatype Run = Run(
    seed: string,
    question: string,
    competitors: seq<string>,
    answers: seq<string>,
    transcript: string,
    prompt: string,
    resolution: Resolution)

  /**
   * `body.seed_prompt or DEFAULT`: None and the empty string are falsy and
   * give the default; any other seed passes through unchanged.
   */
  function EffectiveSeed(seed: Option<string>): (s: string)
    ensures s != ""
    ensures seed.None? || seed == Some("") ==> s == DefaultSeed
    ensures seed.Some? && seed.value != "" ==> s == seed.value
  {
    match seed
    case Some(text) => if text != "" then text else DefaultSeed
    case None => DefaultSeed
  }

  /** The answers of the five contestants to `question`, in the order they are awaited. */
  function Answers(question: string, query: (string, string) -> string): (a: seq<string>)
    ensures |a| == |Contestants|
    ensures forall i :: 0 <= i < |a| ==> a[i] == query(Contestants[i], question)
  {
    seq(|Contestants|, i requires 0 <= i < |Contestants| => query(Contestants[i], question))
  }

  /** A run on a request whose competitor list starts as `initial`. */
  function RunFrom(initial: seq<string>, seed: Option<string>, o: Oracles): (r: Run)
    ensures |r.competitors| == |initial| + |r.answers|
    ensures r.competitors[..|initial|] == initial && r.competitors[|initial|..] == Contestants
  {
    var seedText := EffectiveSeed(seed);
    var question := o.generate(seedText);
    var competitors := initial + Contestants;
    var answers := Answers(question, o.query);
    var transcript := Transcript.Format(answers);
    var prompt := JudgePrompt.Prompt(|competitors|, question, transcript);
    Run(seedText, question, competitors, answers, transcript, prompt, Resolve(o.judge(prompt), competitors))
  }

  /**
   * `run_competition` after the credential check. The local `competitors` is
   * the request's own list, so every append lands in `body.competitors`.
   */
  method RunCompetition(body: RunRequest, o: Oracles) returns (run: Run)
    modifies body
    ensures body.seedPrompt == old(body.seedPrompt)
    ensures body.competitors == old(body.competitors) + Contestants
    ensures run == RunFrom(old(body.competitors), old(body.seedPrompt), o)
  {
    ghost var initial := body.competitors;
    var seedPrompt := EffectiveSeed(body.seedPrompt);
    var question := o.generate(seedPrompt);
    var answers: seq<string> := [];

    var gptMini := "gpt-4o-mini";
    var answer := o.query(gptMini, question);
    body.competitors := body.competitors + [gptMini];
    answers := answers + [answer];

    var claude := "claude-3-7-sonnet-latest";
    answer := o.query(claude, question);
    body.competitors := body.competitors + [claude];
    answers := answers + [answer];

    var gemini := "gemini-2.0-flash";
    answer := o.query(gemini, question);
    body.competitors := body.competitors + [gemini];
    answers := answers + [answer];

    var deepseek := "deepseek-chat";
    answer := o.query(deepseek, question);
    body.competitors := body.competitors + [deepseek];
    answers := answers + [answer];

    var llama := "llama-3.3-70b-versatile";
    answer := o.query(llama, question);
    body.competitors := body.competitors + [llama];
    answers := answers + [answer];

    ghost var names := [gptMini, claude, gemini, deepseek, llama];
    assert body.competitors == initial + names;
    assert answers == seq(5, i requires 0 <= i < 5 => o.query(names[i], question));
    assert names == Contestants;

    var formattedAnswers := Transcript.FormatResponses(answers);
    var prompt := JudgePrompt.Prompt(|body.competitors|, question, formattedAnswers);
    var lines, failure := PrintRankings(o.judge(prompt), body.competitors);
    run := Run(seedPrompt, question, body.competitors, answers, formattedAnswers, prompt, Resolution(lines, failure));
  }

  /**
   * The lists after assembly: five answers in awaiting order, the request's
   * competitors followed by the five contestants, answer i written by the
   * competitor at position |initial| + i, and a judge told |initial| + 5.
   */
  lemma Alignment(initial: seq<string>, seed: Option<string>, o: Oracles)
    ensures var r := RunFrom(initial, seed, o);
      |r.answers| == 5 && r.competitors == initial + Contestants &&
      (forall i :: 0 <= i < 5 ==> r.answers[i] == o.query(r.competitors[|initial| + i], r.question)) &&
      r.prompt == JudgePrompt.Prompt(|initial| + 5, r.question, r.transcript)
  {
    var r := RunFrom(initial, seed, o);
    forall i | 0 <= i < 5
      ensures r.answers[i] == o.query(r.competitors[|initial| + i], r.question)
    {
      assert r.competitors[|initial| + i] == Contestants[i];
    }
  }

  /** The judge is told the number of answer blocks exactly when the request lists no competitors. */
  lemma CountMatchesBlocksIff(initial: seq<string>, seed: Option<string>, o: Oracles)
    ensures var r := RunFrom(initial, seed, o);
      r.prompt == JudgePrompt.Prompt(|r.answers|, r.question, r.transcript) <==> initial == []
  {
    var r := RunFrom(initial, seed, o);
    if r.prompt == JudgePrompt.Prompt(|r.answers|, r.question, r.transcript) {
      JudgePrompt.PromptDeterminesCount(|r.competitors|, r.question, r.transcript, |r.answers|, r.question, r.transcript);
    }
  }

  /** As written: the default request tells the judge of 10 competitors over 5 answer blocks. */
  lemma DefaultRequestOvercounts(seed: Option<string>, o: Oracles)
    ensures var r := RunFrom(DefaultCompetitors, seed, o);
      |r.answers| == 5 && |r.competitors| == 10 &&
      r.prompt == JudgePrompt.Prompt(10, r.question, r.transcript) &&
      r.prompt != JudgePrompt.Prompt(5, r.question, r.transcript)
  {
    CountMatchesBlocksIff(DefaultCompetitors, seed, o);
  }

  /**
   * As written: with `competitors = ["foo-model"]`, a judge that ranks answer
   * block 1 first has its choice printed as "foo-model", although block 1 is
   * the answer of gpt-4o-mini.
   */
  lemma CustomRequestMisattributes(seed: Option<string>, o: Oracles)
    ensures var r := RunFrom(["foo-model"], seed, o);
      r.answers[0] == o.query("gpt-4o-mini", r.question) &&
      Resolve(Results([Number(1)]), r.competitors) == Resolution([RankLine(1, "foo-model")], None)
  {
    var r := RunFrom(["foo-model"], seed, o);
    assert [Number(1)][1..] == [];
  }

  /**
   * Corrected assembly: `competitors` collects only the models that answered,
   * so it is in step with `answers`.
   */
  function AlignedRun(seed: Option<string>, o: Oracles): (r: Run)
    ensures |r.competitors| == |r.answers|
    ensures forall i :: 0 <= i < |r.answers| ==> r.answers[i] == o.query(r.competitors[i], r.question)
  {
    var seedText := EffectiveSeed(seed);
    var question := o.generate(seedText);
    var answers := Answers(question, o.query);
    var transcript := Transcript.Format(answers);
    var prompt := JudgePrompt.Prompt(|Contestants|, question, transcript);
    Run(seedText, question, Contestants, answers, transcript, prompt, Resolve(o.judge(prompt), Contestants))
  }

  /** Corrected: the judge is told exactly the number of answer blocks in the transcript. */
  lemma AlignedCountMatches(seed: Option<string>, o: Oracles)
    ensures var r := AlignedRun(seed, o);
      |r.competitors| == |r.answers| &&
      r.prompt == JudgePrompt.Prompt(|r.answers|, r.question, r.transcript)
  {
  }

  /**
   * Corrected: when the judge lists positions 1..5, rank line k names the
   * model whose answer stands in the block the judge chose.
   */
  lemma AlignedRankNamesAuthor(seed: Option<string>, o: Oracles, entries: seq<Entry>)
    requires forall k :: 0 <= k < |entries| ==>
      EntryValue(entries[k]).Some? && 1 <= EntryValue(entries[k]).value <= |Contestants|
    ensures var r := AlignedRun(seed, o);
      var res := Resolve(Results(entries), r.competitors);
      res.failure.None? && |res.lines| == |entries| &&
      forall k :: 0 <= k < |entries| ==>
        var v := EntryValue(entries[k]).value;
        res.lines[k] == RankLine(k + 1, Contestants[v - 1]) &&
        r.answers[v - 1] == o.query(Contestants[v - 1], r.question)
  {
    ResolveInRange(entries, Contestants);
  }
}
