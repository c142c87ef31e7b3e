/**
 * The ranking resolver (`print_rankings`, backend/main.py): read the judge's
 * `results` list and turn each entry into a line `Rank k: <competitor>`,
 * indexing the competitor list with `competitors[int(entry) - 1]` under
 * Python's list-indexing rules.
 */
module Resolver {
  import opened Wrappers
  import opened Numerals

  /** One element of the judge's `results` array, as `json.loads` gives it. */
  datatype Entry = Text(text: string) | Number(number: int)

  /** The judge's raw text once `json.loads` and the `["results"]` lookup are applied. */
  datatype JudgeOutput =
    | NotJson                        // json.loads raises
    | NoResultsKey                   // the object has no "results" key
    | Results(entries: seq<Entry>)

  /** Where and why resolution stopped; `at` is the 0-based position in `results`. */
  datatype Failure =
    | MalformedJson
    | MissingResults
    | NotAnInteger(at: nat, text: string)     // int() raises ValueError
    | IndexOutOfRange(at: nat, value: int)    // competitors[...] raises IndexError

  /** The lines printed, and the exception that ended the loop, if any. */
  datatype Resolution = Resolution(lines: seq<string>, failure: Option<Failure>)

  /** `int(entry)`: an int passes through, a str goes through `int()`'s parser. */
  function EntryValue(e: Entry): Option<int> {
    match e
    case Number(v) => Some(v)
    case Text(s) => ParseInt(s)
  }

  /**
   * `int()` recovers every integer the judge writes, whether as a JSON number
   * or as its decimal string (within the digit limit `str()` also keeps).
   */
  lemma EntryValueOfRendered(v: int)
    requires |Decimal(if v < 0 then -v else v)| <= MaxStrDigits
    ensures EntryValue(Number(v)) == Some(v)
    ensures EntryValue(Text(IntToString(v))) == Some(v)
  {
    ParseIntOfIntToString(v);
  }

  /**
   * `competitors[value - 1]` with Python's rules: a negative index counts
   * from the end, and anything outside `-n <= value - 1 < n` raises.
   */
  function PyIndex(competitors: seq<string>, value: int): (r: Option<string>)
    ensures r.Some? <==> 1 - |competitors| <= value <= |competitors|
    ensures 1 <= value <= |competitors| ==> r == Some(competitors[value - 1])
    ensures 1 - |competitors| <= value <= 0 ==> r == Some(competitors[|competitors| + value - 1])
  {
    var i := value - 1;
    if 0 <= i < |competitors| then Some(competitors[i])
    else if -|competitors| <= i < 0 then Some(competitors[|competitors| + i])
    else None
  }

  /** `f"Rank {index+1}: {competitor}"`. */
  function RankLine(rank: nat, competitor: string): string {
    "Rank " + Decimal(rank) + ": " + competitor
  }

  /**
   * A printed line opens with `Rank `, the numeral after it reads back as the
   * rank, and after `: ` the competitor's name ends the line.
   */
  lemma RankLineParts(rank: nat, competitor: string)
    ensures var line := RankLine(rank, competitor);
      |line| >= 7 + |competitor| &&
      line[..5] == "Rank " &&
      AllDigits(line[5..|line| - |competitor| - 2]) &&
      DigitsValue(line[5..|line| - |competitor| - 2]) == rank &&
      line[|line| - |competitor|..] == competitor
  {
    var line := RankLine(rank, competitor);
    assert line[5..|line| - |competitor| - 2] == Decimal(rank);
    DigitsValueOfDecimal(rank);
  }

  /**
   * The competitor one entry names, or the exception its conversion raises:
   * it resolves exactly when `int()` succeeds and the index is in range, the
   * name it gives is one of the competitors, and a failure is `NotAnInteger`
   * exactly when `int()` raised.
   */
  function ResolveEntry(e: Entry, competitors: seq<string>, at: nat): (r: Result<string, Failure>)
    ensures r.Ok? <==>
      EntryValue(e).Some? && 1 - |competitors| <= EntryValue(e).value <= |competitors|
    ensures r.Ok? ==> r.value in competitors
    ensures r.Err? ==> (r.error.NotAnInteger? || r.error.IndexOutOfRange?) && r.error.at == at
    ensures r.Err? ==> (r.error.NotAnInteger? <==> EntryValue(e).None?)
  {
    match EntryValue(e)
    case None => Err(NotAnInteger(at, e.text))
    case Some(v) =>
      match PyIndex(competitors, v)
      case None => Err(IndexOutOfRange(at, v))
      case Some(name) => Ok(name)
  }

  /**
   * The loop of `print_rankings` from position `at` on: at most one line per
   * entry, one for every entry when nothing raises, and the only exceptions
   * are those of `int()` and of indexing.
   */
  function ResolveFrom(entries: seq<Entry>, competitors: seq<string>, at: nat): (r: Resolution)
    ensures |r.lines| <= |entries|
    ensures r.failure.None? ==> |r.lines| == |entries|
    ensures r.failure.Some? ==> r.failure.value.NotAnInteger? || r.failure.value.IndexOutOfRange?
    decreases |entries|
  {
    if entries == [] then Resolution([], None)
    else
      match ResolveEntry(entries[0], competitors, at)
      case Err(f) => Resolution([], Some(f))
      case Ok(name) =>
        var rest := ResolveFrom(entries[1..], competitors, at + 1);
        Resolution([RankLine(at + 1, name)] + rest.lines, rest.failure)
  }

  /**
   * What `print_rankings(rankings, competitors)` prints, and how it ends: the
   * three failure points stay distinct, and the two before the loop print
   * nothing.
   */
  function Resolve(output: JudgeOutput, competitors: seq<string>): (r: Resolution)
    ensures r.failure == Some(MalformedJson) <==> output.NotJson?
    ensures r.failure == Some(MissingResults) <==> output.NoResultsKey?
    ensures !output.Results? ==> r.lines == []
    ensures output.Results? ==> |r.lines| <= |output.entries|
  {
    match output
    case NotJson => Resolution([], Some(MalformedJson))
    case NoResultsKey => Resolution([], Some(MissingResults))
    case Results(entries) => ResolveFrom(entries, competitors, 0)
  }

  /** `print_rankings`: one printed line per entry until an entry fails to convert or index. */
  method PrintRankings(output: JudgeOutput, competitors: seq<string>)
    returns (lines: seq<string>, failure: Option<Failure>)
    ensures Resolution(lines, failure) == Resolve(output, competitors)
  {
    lines, failure := [], None;
    match output {
      case NotJson =>
        failure := Some(MalformedJson);
      case NoResultsKey =>
        failure := Some(MissingResults);
      case Results(ranks) =>
        var index := 0;
        while index < |ranks|
          invariant 0 <= index <= |ranks|
          invariant Resolve(output, competitors) ==
            var rest := ResolveFrom(ranks[index..], competitors, index);
            Resolution(lines + rest.lines, rest.failure)
        {
          assert ranks[index..][1..] == ranks[index + 1..];
          match ResolveEntry(ranks[index], competitors, index) {
            case Err(f) =>
              failure := Some(f);
              return;
            case Ok(competitor) =>
              lines := lines + [RankLine(index + 1, competitor)];
          }
          index := index + 1;
        }
    }
  }

  /**
   * Everything printed is a rank line for an entry that resolved, in
   * `results` order and numbered from `at + 1`; the output stops exactly at
   * the first entry that fails, and that entry's failure is the one reported.
   */
  lemma {:induction false} ResolveFromShape(entries: seq<Entry>, competitors: seq<string>, at: nat)
    ensures var r := ResolveFrom(entries, competitors, at);
      |r.lines| <= |entries| &&
      (forall k :: 0 <= k < |r.lines| ==>
        ResolveEntry(entries[k], competitors, at + k).Ok? &&
        r.lines[k] == RankLine(at + k + 1, ResolveEntry(entries[k], competitors, at + k).value)) &&
      (r.failure.None? ==> |r.lines| == |entries|) &&
      (r.failure.Some? ==>
        |r.lines| < |entries| &&
        ResolveEntry(entries[|r.lines|], competitors, at + |r.lines|) == Err(r.failure.value))
  {
    if entries != [] && ResolveEntry(entries[0], competitors, at).Ok? {
      var name := ResolveEntry(entries[0], competitors, at).value;
      var rest := ResolveFrom(entries[1..], competitors, at + 1);
      ResolveFromShape(entries[1..], competitors, at + 1);
      var r := ResolveFrom(entries, competitors, at);
      assert r.lines == [RankLine(at + 1, name)] + rest.lines && r.failure == rest.failure;
      forall k | 1 <= k < |r.lines|
        ensures ResolveEntry(entries[k], competitors, at + k).Ok?
        ensures r.lines[k] == RankLine(at + k + 1, ResolveEntry(entries[k], competitors, at + k).value)
      {
        assert entries[k] == entries[1..][k - 1] && r.lines[k] == rest.lines[k - 1];
      }
      if r.failure.Some? {
        assert entries[|r.lines|] == entries[1..][|rest.lines|];
      }
    }
  }

  /**
   * Happy path: when every entry is an integer v with 1 <= v <= n, one line
   * is printed per entry, in order, line k naming `competitors[v - 1]`.
   * Repeated or missing positions are accepted as they are.
   */
  lemma ResolveInRange(entries: seq<Entry>, competitors: seq<string>)
    requires forall k :: 0 <= k < |entries| ==>
      EntryValue(entries[k]).Some? && 1 <= EntryValue(entries[k]).value <= |competitors|
    ensures var r := Resolve(Results(entries), competitors);
      r.failure.None? && |r.lines| == |entries| &&
      forall k :: 0 <= k < |entries| ==>
        r.lines[k] == RankLine(k + 1, competitors[EntryValue(entries[k]).value - 1])
  {
    ResolveFromShape(entries, competitors, 0);
  }

  /** Resolution succeeds exactly when every entry converts and indexes without raising. */
  lemma ResolveSucceedsIff(entries: seq<Entry>, competitors: seq<string>)
    ensures Resolve(Results(entries), competitors).failure.None? <==>
      forall k :: 0 <= k < |entries| ==>
        EntryValue(entries[k]).Some? && 1 - |competitors| <= EntryValue(entries[k]).value <= |competitors|
  {
    ResolveFromShape(entries, competitors, 0);
    var r := Resolve(Results(entries), competitors);
    if r.failure.Some? {
      var j := |r.lines|;
      assert ResolveEntry(entries[j], competitors, j).Err?;
    } else {
      forall k | 0 <= k < |entries|
        ensures EntryValue(entries[k]).Some? && 1 - |competitors| <= EntryValue(entries[k]).value <= |competitors|
      {
        assert ResolveEntry(entries[k], competitors, k).Ok?;
      }
    }
  }

  /**
   * A failing entry at position j: lines for the j entries before it have
   * already been printed, and the failure names j and why it failed.
   */
  lemma ResolveFailsAt(entries: seq<Entry>, competitors: seq<string>, j: nat)
    requires j < |entries|
    requires forall k :: 0 <= k < j ==> ResolveEntry(entries[k], competitors, k).Ok?
    requires ResolveEntry(entries[j], competitors, j).Err?
    ensures var r := Resolve(Results(entries), competitors);
      |r.lines| == j && r.failure == Some(ResolveEntry(entries[j], competitors, j).error) &&
      (EntryValue(entries[j]).None? ==> r.failure == Some(NotAnInteger(j, entries[j].text))) &&
      (EntryValue(entries[j]).Some? ==> r.failure == Some(IndexOutOfRange(j, EntryValue(entries[j]).value)))
  {
    ResolveFromShape(entries, competitors, 0);
  }

  /** The numerals of 0 to 3, both ways. */
  lemma SmallNumerals()
    ensures Decimal(1) == "1" && Decimal(2) == "2" && Decimal(3) == "3"
    ensures ParseInt("0") == Some(0) && ParseInt("1") == Some(1)
    ensures ParseInt("2") == Some(2) && ParseInt("3") == Some(3)
  {
    assert "0"[..0] == [] && "1"[..0] == [] && "2"[..0] == [] && "3"[..0] == [];
  }

  /** Judge output `{"results": ["2", "1", "3"]}` for gpt, claude, gemini. */
  lemma ExampleRoundTrip()
    ensures Resolve(Results([Text("2"), Text("1"), Text("3")]), ["gpt", "claude", "gemini"]) ==
      Resolution(["Rank 1: claude", "Rank 2: gpt", "Rank 3: gemini"], None)
  {
    SmallNumerals();
    var entries, competitors := [Text("2"), Text("1"), Text("3")], ["gpt", "claude", "gemini"];
    assert entries[1..] == [Text("1"), Text("3")] && entries[1..][1..] == [Text("3")];
    assert RankLine(1, "claude") == "Rank 1: claude";
    assert RankLine(2, "gpt") == "Rank 2: gpt";
    assert RankLine(3, "gemini") == "Rank 3: gemini";
    assert ResolveFrom([Text("3")], competitors, 2) == Resolution(["Rank 3: gemini"], None);
    assert ResolveFrom([Text("1"), Text("3")], competitors, 1) ==
      Resolution(["Rank 2: gpt", "Rank 3: gemini"], None);
  }

  /** `{"results": ["3", "1"]}` against two competitors raises before printing anything. */
  lemma ExampleOutOfRange()
    ensures Resolve(Results([Text("3"), Text("1")]), ["gpt", "claude"]) ==
      Resolution([], Some(IndexOutOfRange(0, 3)))
  {
  }

  /** `"0"` is not rejected: index -1 names the last competitor. */
  lemma ExampleZeroWraps()
    ensures Resolve(Results([Text("0"), Text("1")]), ["gpt", "claude"]) ==
      Resolution(["Rank 1: claude", "Rank 2: gpt"], None)
  {
    SmallNumerals();
    var competitors := ["gpt", "claude"];
    assert [Text("0"), Text("1")][1..] == [Text("1")];
    assert RankLine(1, "claude") == "Rank 1: claude";
    assert RankLine(2, "gpt") == "Rank 2: gpt";
    assert ResolveFrom([Text("1")], competitors, 1) == Resolution(["Rank 2: gpt"], None);
  }
}
