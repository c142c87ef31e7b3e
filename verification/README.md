# llm-comparator: the competition orchestrator in Dafny

llm-comparator runs a "competition" between language models. Its backend
(`backend/main.py`) does four things. It asks one model for a question,
built from a seed prompt that falls back to a fixed default. It puts that
question to five models one after another. It numbers their answers into a
transcript for a judge model and fills a fixed judge prompt. Finally it maps
the judge's JSON ranking (`{"results": ["2", "1", ...]}`) back to competitor
names and prints one `Rank k: name` line per entry.

This project models the deterministic logic between the provider calls:

- `Numerals`: decimal rendering (`f"{n}"`) and Python's `int()` on strings. `int()` is restricted to an optional `-` followed by one to 4300 ASCII digits; 4300 is CPython's default digit limit.
- `Transcript`: `format_responses`. It is a loop method proved equal to a recursive specification, `Format`.
- `JudgePrompt`: the judge prompt template from `rank_responses`, character for character. That includes the eight spaces of indentation the triple-quoted f-string keeps on each line.
- `Resolver`: `print_rankings`. It is a loop method proved equal to a recursive specification, `Resolve`, with Python's negative-index wrap-around and four distinct failures: not JSON, no `results` key, an entry `int()` rejects, and an index out of range.
- `Competition`: the seed default and the run assembly. The request is a class whose `competitors` list the run appends to in place. The provider calls are function-typed parameters (`Oracles`), so their results are arbitrary.

The code behaves as follows, and the model keeps it:

- the resolver does not reject 0 or negative positions, which wrap to the end of the list;
- lines for the entries before a failing one have already been printed;
- the five models are awaited one after another, not concurrently;
- there is no unknown-competitor check;
- the request's `competitors` list is not what gets queried, but what the five model names are appended to.

## Model

| member | source | states |
|---|---|---|
| `Numerals.Decimal` | backend/main.py:63 | the rendering of a count is a non-empty digit string with no leading zero |
| `Numerals.DigitsValueOfDecimal` | backend/main.py:101 | reading the digits of a rendered numeral back gives the number it came from (`Numerals.ParseIntOfIntToString` states the `int()` form) |
| `Numerals.DecimalInjective` | backend/main.py:70 | different counts render as different numerals |
| `Numerals.ParseInt` | backend/main.py:101 | `int(text)` succeeds exactly on an optional `-` followed by one to 4300 digits (longer digit strings raise ValueError); a `-` gives a value <= 0, no sign a value >= 0 |
| `Numerals.ParseIntOfIntToString` | backend/main.py:101 | `int(str(i)) == i` for every integer within the digit limit, negative ones included |
| `Transcript.Header` | backend/main.py:63 | the numeral in the header of the block at 0-based index i reads back as i+1 |
| `Transcript.HeaderOpens` | backend/main.py:63 | every header opens with the fixed lead `# Response from competitor ` and closes with a blank line |
| `Transcript.Block` | backend/main.py:63-64 | a block opens with its header, and the answer can be cut back out of it verbatim, with two characters after it |
| `Transcript.BlockEndsBlank` | backend/main.py:64 | those two closing characters of every block are the blank line `\n\n` |
| `Transcript.Format` | backend/main.py:60-65 | the transcript is empty exactly when there are no answers |
| `Transcript.FormatResponses` | backend/main.py:60-65 | the accumulating loop yields the in-order concatenation of the blocks `# Response from competitor {i+1}\n\n{answer}\n\n` |
| `Transcript.FormatAppend` | backend/main.py:61-64 | one more answer extends the transcript by exactly one block, numbered one past the previous count |
| `Transcript.FormatPrefix` | backend/main.py:61-64 | the transcript of the first k answers is a prefix of the full transcript |
| `Transcript.BlockAt` | backend/main.py:62-64 | answer k appears verbatim under the header numbered k+1, right after the blocks of answers 0..k-1 |
| `JudgePrompt.Prompt` | backend/main.py:70-82 | the prompt's length is the transcript's start offset plus the transcript plus the fixed closing; its seven parts are stated by `JudgePrompt.FixedEnds`, `JudgePrompt.Layout` and `JudgePrompt.Middles` |
| `JudgePrompt.Layout` | backend/main.py:70-82 | the decimal count follows the opening, then the question verbatim, then the transcript verbatim, in that order at computable offsets, with exactly the closing's length left after the transcript |
| `JudgePrompt.FixedEnds` | backend/main.py:70-82 | the prompt begins with the fixed opening sentence and ends with the fixed closing instruction |
| `JudgePrompt.Middles` | backend/main.py:70-80 | between the count and the question stands the fixed ` competitors.` text; between the question and the transcript stand the fixed ranking criteria, the JSON-only output format `{"results": [...]}` and the lead-in to the responses |
| `JudgePrompt.PromptDeterminesCount` | backend/main.py:70 | equal prompts state equal competitor counts |
| `JudgePrompt.PromptDeterminesTranscript` | backend/main.py:70-82 | for a fixed count and question, the prompt determines the transcript |
| `Resolver.EntryValueOfRendered` | backend/main.py:101 | `int(entry)` gives back every integer v the judge writes, whether as the JSON number v or as the string `str(v)` |
| `Resolver.PyIndex` | backend/main.py:101 | `competitors[v-1]` succeeds exactly when 1-n <= v <= n; it names `competitors[v-1]` for 1 <= v <= n and wraps to `competitors[n+v-1]` for 1-n <= v <= 0 |
| `Resolver.RankLineParts` | backend/main.py:102 | a printed line opens with `Rank `, the numeral after it reads back as the rank, and the competitor's name ends the line |
| `Resolver.ResolveEntry` | backend/main.py:101 | one entry resolves exactly when `int()` succeeds and the index is in 1-n..n; the name it gives is a competitor; a failure records the entry's position and is `NotAnInteger` exactly when `int()` raised |
| `Resolver.ResolveFrom` | backend/main.py:100-102 | at most one line per entry, one for every entry when nothing raises, and the loop only raises at `int()` or at indexing |
| `Resolver.Resolve` | backend/main.py:96-102 | malformed JSON is reported exactly for non-JSON text and a missing key exactly when `results` is absent; neither prints anything; otherwise at most one line per entry |
| `Resolver.PrintRankings` | backend/main.py:96-102 | the printing loop emits exactly the lines, and stops with exactly the exception, that `Resolve` specifies |
| `Resolver.ResolveFromShape` | backend/main.py:100-102 | every printed line is `Rank {k+1}: name` for the k-th entry, in order; printing stops exactly at the first failing entry, and that entry's failure is reported |
| `Resolver.ResolveInRange` | backend/main.py:98-102 | if every entry is an integer in 1..n, there is one line per entry and line k names `competitors[v-1]`; duplicates and gaps are accepted |
| `Resolver.ResolveSucceedsIff` | backend/main.py:100-101 | resolution raises nothing if and only if every entry converts and lies in 1-n..n |
| `Resolver.ResolveFailsAt` | backend/main.py:98-102 | when entry j is the first to fail, j lines have already been printed; the failure is `NotAnInteger` at j when `int()` raises and `IndexOutOfRange` at j otherwise |
| `Resolver.ExampleRoundTrip` | backend/main.py:96-102 | `["2","1","3"]` over gpt, claude, gemini prints claude, gpt, gemini |
| `Resolver.ExampleOutOfRange` | backend/main.py:96-102 | `["3","1"]` over two competitors raises at entry 0 before printing anything |
| `Resolver.ExampleZeroWraps` | backend/main.py:96-102 | `"0"` is not rejected and names the last competitor |
| `Competition.RunRequest.constructor` | backend/main.py:16-18 | a request holds the given seed prompt and competitor list |
| `Competition.RunRequest.Default` | backend/main.py:16-24 | a request with no fields set has no seed prompt and the five default competitors |
| `Competition.EffectiveSeed` | backend/main.py:127-130 | None and `""` give the default instruction; any other seed passes through unchanged; the result is never empty |
| `Competition.Answers` | backend/main.py:138-166 | five answers, answer i being the reply of the i-th model in the fixed awaiting order |
| `Competition.RunFrom` | backend/main.py:127-172 | the final competitor list is the request's list followed by the five contestants, one longer than the request's list per answer |
| `Competition.RunCompetition` | backend/main.py:127-175 | the request's list gains the five model names in place; the run's question, answers, transcript, prompt and printed ranking are those of `RunFrom` |
| `Competition.Alignment` | backend/main.py:134-172 | there are 5 answers; answer i was written by the competitor at position len(body.competitors)+i; the judge is told len(body.competitors)+5 |
| `Competition.CountMatchesBlocksIff` | backend/main.py:134-172 | the judge is told the number of answer blocks if and only if the request's competitor list is empty |
| `Competition.DefaultRequestOvercounts` | backend/main.py:134-172 | the default request tells the judge there are 10 competitors while the transcript has 5 blocks |
| `Competition.CustomRequestMisattributes` | backend/main.py:134-175 | with competitors `["foo-model"]`, ranking block 1 first prints `foo-model`, although block 1 is gpt-4o-mini's answer |
| `Competition.AlignedRun` | backend/main.py:134-172 | corrected assembly: as many competitors as answers, and answer i is the reply of competitor i |
| `Competition.AlignedCountMatches` | backend/main.py:134-172 | corrected assembly: the judge is told exactly the number of answer blocks |
| `Competition.AlignedRankNamesAuthor` | backend/main.py:134-175 | corrected assembly: a ranking over 1..5 resolves, and line k names the model whose answer is in the chosen block |

## Left out

- The provider calls (`generate_question`, `query_gpt`, `query_claude`, the judge completion in `rank_responses`) are network I/O. They are the function parameters of `Oracles`, and the `.strip()` applied to their replies is not modelled.
- The `except APIStatusError` re-wrapping depends on SDK exception attributes. A failing provider call is not modelled.
- Environment and credential loading, and the HTTP 500 for a missing key, are process environment access.
- FastAPI and Pydantic wiring is left out. `BaseModel` is never imported, and `run_competition` returns nothing although it declares a `RankedResult` response. The model assumes the module loads and stops at the printed ranking.
- `json.loads` is left out. The judge's reply is taken as already classified: not JSON, no `results` key, or a list of entries. Each entry is a JSON string or integer. Other JSON shapes are not modelled: a non-object top level, a non-list `results`, floats, booleans or null entries.
- `Numerals.ParseInt`: does not model the rest of Python's `int()` grammar: surrounding whitespace, a leading `+`, underscores between digits, non-ASCII digits.
- `Numerals.Decimal`: is total, while CPython's `str()` raises above 4300 digits. The numbers it renders here are list lengths and positions, which never come near that size.
- `print` is modelled as the sequence of lines returned.
- async/await is left out. The source awaits each call in turn, so there is no concurrency to model.
- The React front end (frontend/src/Competition.tsx) is UI state and a `fetch` call. It is not part of this model.

## Findings

| source | as written | input that shows it | evidently intended | confidence | as-written member | corrected member |
|---|---|---|---|---|---|---|
| backend/main.py:134-172 | the five model names are appended to the request's own `competitors`, and the judge is told `len(competitors)` | the default request: its five default competitors plus five appended make the prompt say 10 competitors over a 5-block transcript | the judge is told the number of answers in the transcript | not executed; high | `Competition.DefaultRequestOvercounts` | `Competition.AlignedCountMatches` |
| backend/main.py:134-175 | rank entries index the grown list, so position k names the request's k-th competitor, not the author of block k | competitors `["foo-model"]`, judge output `{"results": [1]}`: prints `Rank 1: foo-model`, but block 1 is gpt-4o-mini's answer | position k names the model whose answer is block k | not executed; high | `Competition.CustomRequestMisattributes` | `Competition.AlignedRankNamesAuthor` |

`Competition.AlignedRun` is the corrected assembly. Its `competitors` list holds only the five models that answered. `Competition.RunCompetition` keeps the code's behaviour as written.
