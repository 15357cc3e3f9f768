# Differential Meaning Monitor — a verified Dafny model

The Differential Meaning Monitor is a runtime guardrail for AI agents. An
external language model (the *oracle*) rates how far a proposed action
deviates from the agent's goal. Two pieces turn that rating into an
allow/trip decision, and both are modelled here:

- the **comparator** (`reference/openai_comparator.py`). It calls the oracle
  up to `retries + 1` times with linear backoff. It pulls a JSON object out of
  the reply with a three-tier ladder. It clamps the score to [0, 1], filters
  the tags against a closed vocabulary (deduplicated, at most five), and tags
  every untagged score of 0.7 or more. Once the client is built it never
  raises: a missing API key or SDK, a reply without an object, and exhausted
  retries each give a fixed result;
- the **monitor** (`reference/dmm.py`). It makes one call of its own
  placeholder `semantic_compare`, which always answers 0.0, and trips when the
  score is strictly above `THRESHOLD = 0.7`, by raising `DifferentialTrip`.
  Otherwise it returns `True`. It never calls `semantic_compare_openai`:
  plugging a real comparator in is left to the user ("Replace with LLM call").

Files:

- `options.dfy` — module `Options`: the `Option` datatype.
- `pystr.dfy` — module `PyStr`: Python's `str.isspace`, `str.strip()`, and
  first/last position of a character, over `seq<char>`.
- `comparator.dfy` — module `Comparator`: `CompareResult`, `KNOWN_TAGS`,
  `_clamp01`, `_safe_float`, `_extract_json`, `_normalize_tags` (as an
  imperative method proved against a specification function), the shaping of
  a parsed reply, and `semantic_compare_openai` (an imperative retry loop
  proved against a specification function).
- `monitor.dfy` — module `Monitor`: `THRESHOLD`, `DifferentialTrip`, the
  placeholder `semantic_compare`, `differential_meaning_monitor`, and lemmas
  that apply the monitor's gate to the comparator's result. These lemmas
  describe a monitor that uses `semantic_compare_openai` as its comparator,
  a connection the code itself does not make.

The oracle is a parameter `oracle: nat -> Outcome`: attempt `k` gets
`oracle(k)`, which is `Err(message)` when the call raised and `Text(content)`
when it answered. A `None` content is the empty text, as `or ""` makes it.
The Python builtins whose internals are not modelled are the three fields of
a `Builtins` parameter: `json.loads` on a text that starts with `{`, `float()`
of a string, and `str()` of a non-string JSON value. `SemanticCompareOpenai`
returns the `time.sleep` durations as a sequence instead of sleeping.

What the code does at its less obvious points:

- `reference/dmm.py` has a fixed threshold of 0.7 and no raise-or-return
  flag; the monitor returns `True` or raises.
- Tier (b) of the extraction ladder parses the *greedy* span from the first
  `{` to the last `}`. This is what `\{.*\}` with `re.DOTALL` matches. It is
  not the first balanced object.
- A parsed object with missing fields does not fall back. Only a missing or
  empty object does. Missing fields take their defaults.
- A failed SDK import also disables the comparator (score 0.0, no tags).
- A negative `retries` makes no oracle call at all. The result is then the
  exhausted-retries fallback, with rationale `"Comparator error: None"`.

## Model

| member | source | states |
|---|---|---|
| `PyStr.IsSpaceListed` | reference/openai_comparator.py:71 | the whitespace test `strip()` uses accepts exactly Python's 29 whitespace code points, listed one by one |
| `PyStr.Strip` | reference/openai_comparator.py:71 | `str.strip()` never leaves whitespace at either end and never lengthens the text |
| `PyStr.StripIsSlice` | reference/openai_comparator.py:71 | the stripped text is a contiguous slice of the original: nothing is added or reordered |
| `PyStr.StripPadded` | reference/openai_comparator.py:96 | stripping whitespace padding around a word gives back exactly that word (so `" tool_misuse\n"` is tested as `"tool_misuse"`) |
| `PyStr.IndexOf` | reference/openai_comparator.py:80 | the position of the first occurrence (none before it), or the length when there is none |
| `PyStr.LastIndexOf` | reference/openai_comparator.py:80 | the position of the last occurrence (none after it), or -1 when there is none |
| `Comparator.Clamp01` | reference/openai_comparator.py:52-57 | the result lies in [0, 1], equals the input when the input is in [0, 1], and is the point of [0, 1] nearest to the input |
| `Comparator.SafeFloat` | reference/openai_comparator.py:60-64 | numbers pass through; `True` is 1.0 and `False` 0.0; `None`, lists and objects give the default; a string gives its parse or the default |
| `Comparator.BraceSpan` | reference/openai_comparator.py:79-82 | there is no span exactly when no `{` precedes a `}`; any span starts with `{`, ends with `}` and has length at least 2 |
| `Comparator.BraceSpanIsGreedy` | reference/openai_comparator.py:79-84 | the span runs from the first `{` to the last `}`, whatever braces lie between (greedy, not balanced) |
| `Comparator.ObjectTextHasSpan` | reference/openai_comparator.py:73 | a text that starts with `{` and ends with `}` has at least two characters and a brace span |
| `Comparator.StripKeepsNoBraceSpan` | reference/openai_comparator.py:71-80 | stripping cannot create a `{`…`}` span |
| `Comparator.ExtractJson` | reference/openai_comparator.py:67-86 | any payload is the parser's answer on the stripped text or on its brace span |
| `Comparator.ExtractJsonWithoutBraces` | reference/openai_comparator.py:71-86 | a stripped text with no `{` before a `}` yields `None`, whatever the parser |
| `Comparator.ExtractJsonObjectText` | reference/openai_comparator.py:73-84 | when the stripped text is `{`…`}`, tier (b) reparses the same text, so the answer is the parser's answer on it |
| `Comparator.ExtractJsonFromSpan` | reference/openai_comparator.py:79-86 | otherwise the answer is the parser's answer on the brace span, or `None` when there is no span |
| `Comparator.KnownStripped` | reference/openai_comparator.py:92-98 | the first loop keeps only known tags and never more items than the input |
| `Comparator.KnownStrippedMembers` | reference/openai_comparator.py:93-98 | a tag is kept exactly when it is known and some string element strips to it: non-strings are skipped and strings are stripped before the test |
| `Comparator.KeepKnown` | reference/openai_comparator.py:92-98 | the first loop computes exactly `KnownStripped` |
| `Comparator.DropRepeats` | reference/openai_comparator.py:99-105 | the second loop, with its `seen` set, computes exactly `Dedup` |
| `Comparator.Dedup` | reference/openai_comparator.py:99-105 | the second loop keeps every element and adds none, with no duplicates |
| `Comparator.NormalizedTags` | reference/openai_comparator.py:89-106 | a non-list gives []; the output is at most 5 known tags with no duplicates |
| `Comparator.NormalizeTags` | reference/openai_comparator.py:89-106 | the non-list check, the two loops and the cut to five compute exactly `NormalizedTags` |
| `Comparator.DedupOfPrefix` | reference/openai_comparator.py:99-105 | deduplicating a prefix of the input gives a prefix of the deduplicated whole |
| `Comparator.DedupPlace` | reference/openai_comparator.py:99-105 | each element's position in the output is the number of distinct elements seen before its first occurrence |
| `Comparator.DedupLengthMonotone` | reference/openai_comparator.py:99-105 | deduplicating a longer prefix never gives fewer elements |
| `Comparator.DedupOrder` | reference/openai_comparator.py:99-105 | the output lists the elements in the order of their first occurrences |
| `Comparator.NormalizedTagsKeeps` | reference/openai_comparator.py:93-106 | a tag survives if and only if it is a stripped known tag of the input and fewer than 5 distinct known tags first occur before it |
| `Comparator.NormalizedTagsOrder` | reference/openai_comparator.py:93-106 | the surviving tags keep the order of their first occurrences |
| `Comparator.Shape` | reference/openai_comparator.py:185-190 | a shaped reply is well formed: score in [0, 1]; at most 5 known, distinct tags; a score of 0.7 or more always tagged |
| `Comparator.ShapeScore` | reference/openai_comparator.py:185 | a missing score, or one `float()` refuses, gives 0.5; a number, a string `float()` accepts and a boolean (1.0 or 0.0) are clamped |
| `Comparator.ShapeTags` | reference/openai_comparator.py:186-189 | the synthetic tag is injected exactly when the normalised tags are empty and the score is at least 0.7; otherwise the normalised tags are kept |
| `Comparator.Interpret` | reference/openai_comparator.py:179-190 | a reply always gives a well-formed result |
| `Comparator.InterpretWithPayload` | reference/openai_comparator.py:179-190 | a reply with a non-empty object is the shaping of that object |
| `Comparator.InterpretWithoutPayload` | reference/openai_comparator.py:180-183 | no object, or an empty one, gives score 0.5 with tag `unusual_trajectory_topology` |
| `Comparator.HandleReply` | reference/openai_comparator.py:179-190 | handling one reply's text step by step gives exactly `Interpret`, so it is well formed |
| `Comparator.Backoff` | reference/openai_comparator.py:194-195 | the backoff pauses are 0.5, 1.0, 1.5, … |
| `Comparator.Attempts` | reference/openai_comparator.py:166-196 | a reply is the oracle's answer at the last call made, within `retries + 1` calls; exhausted attempts make all `retries + 1` calls and keep the last call's error |
| `Comparator.Compare` | reference/openai_comparator.py:129-198 | the result is well formed, and no call is made exactly when the key is missing, the SDK is missing or `retries` is negative |
| `Comparator.SemanticCompareOpenai` | reference/openai_comparator.py:111-198 | the loop computes the specified result and number of calls, and sleeps once between consecutive calls and never after the last |
| `Comparator.AttemptsBounded` | reference/openai_comparator.py:166-198 | the loop makes at most `retries + 1` calls |
| `Comparator.CompareTotal` | reference/openai_comparator.py:166-198 | whatever the environment and the oracle, the result is well formed after at most `retries + 1` calls: nothing is raised |
| `Comparator.CompareDisabled` | reference/openai_comparator.py:129-139 | with no API key, or no SDK, no call is made and the result is score 0.0 with no tags |
| `Comparator.AttemptsAllFail` | reference/openai_comparator.py:167-196 | when every call fails, all `retries + 1` calls are made and the last error is kept |
| `Comparator.CompareAllFail` | reference/openai_comparator.py:192-198 | exhausted retries give score 0.5, tag `unusual_trajectory_topology` and the last error in the rationale |
| `Comparator.AttemptsFirstReply` | reference/openai_comparator.py:167-190 | the first reply ends the loop, however malformed it is |
| `Comparator.CompareFirstReply` | reference/openai_comparator.py:166-190 | the result is the interpretation of the first reply, after one call more than the failures before it |
| `Monitor.Gate` | reference/dmm.py:26-29 | allowed exactly when score ≤ 0.7; a trip carries the score; a normal return is `True` |
| `Monitor.SemanticCompare` | reference/dmm.py:15-20 | the placeholder rates every action 0.0 |
| `Monitor.DifferentialMeaningMonitor` | reference/dmm.py:23-29 | the monitor returns exactly when the comparator's score is at most 0.7, and then returns `True`; a trip carries the score |
| `Monitor.MonitorNeverReturnsFalse` | reference/dmm.py:23-29 | the monitor returns `True` or raises, never `False` |
| `Monitor.PlaceholderNeverTrips` | reference/dmm.py:15-29 | with the placeholder comparator (always 0.0) the monitor never trips |
| `Monitor.GateAllowsUpToThreshold` | reference/dmm.py:9-26 | if a score passes, so does every lower score; the threshold itself passes |
| `Monitor.TripCarriesTags` | reference/openai_comparator.py:188-189 | a comparator result that trips the gate always has at least one tag |
| `Monitor.NonJsonReplyAllowed` | reference/openai_comparator.py:180-183 | a reply without a `{`…`}` span gives the 0.5 fallback, which the gate allows |
| `Monitor.AllFailAllowed` | reference/openai_comparator.py:198 | the exhausted-retries fallback does not trip the gate |
| `Monitor.HighScoreReplyTrips` | reference/dmm.py:26-27 | a parsed numeric score above 0.7 trips, carrying the score clamped to 1, and the result is tagged |

## Left out

- `OpenAI(api_key=api_key)` at line 141 is outside the `try`, so an exception from the constructor would reach the caller; the model takes the constructor never to raise.
- The OpenAI client, the `chat.completions.create` call, its model name and timeout, and the lazy SDK import. The call is the `oracle` parameter; the import is a flag of `Environment`.
- Building the `system` and `user` prompt text (lines 143-164). It only formats the four inputs into strings.
- Reading the configuration from the environment (`DEFAULT_MODEL`, `DEFAULT_TIMEOUT_S`, `DEFAULT_RETRIES`). `retries` and the API key are parameters.
- `time.sleep`. The pauses are returned as a sequence of durations.
- The internals of `json.loads`, of `float()` on a string and of `str()` on a non-string value. Each is a field of `Builtins`. The parser is taken to return an object whenever it succeeds, which holds for texts that start with `{`.
- Python floats. Scores are reals, so NaN (which slips through `_clamp01`, since every comparison with it is false), infinities, rounding, and `float()` overflow on huge integers are not modelled.
- The exact text of exceptions. `Err` carries the text `str(e)` would give. `DifferentialTrip` carries the score rather than the formatted message `"DMM trip: score=…"`.
- `reference/comparator_llm.py`. It only wraps an undefined `call_llm` and a bare `float()`.
- The default `0.0` of `_safe_float`'s `default` parameter. The comparator always passes 0.5.
