# Codex SSE logger helpers, modelled in Dafny

CCProxy ships a mitmproxy addon, `scripts/mitm_codex_sse_logger.py`, for checking which
upstream model actually answers Codex requests. It watches flows to the Codex backend,
splits each captured Server-Sent-Events body into lines, decodes the JSON carried on the
`data:` lines, and logs the model name and reasoning effort each event reports. This
project models the addon's pure helpers and proves what they compute:

- `_iter_sse_payloads` (module `SsePayloads`). It turns an event-stream body into the
  `(event_type, payload)` pairs of its `data:` lines. Other lines, empty payloads, the
  `[DONE]` sentinel and undecodable payloads are skipped. A payload that decodes to
  something other than a JSON object makes `.get` raise `AttributeError`, which ends the
  generator: the model returns the pairs yielded so far together with a `crashed` flag.
- `_extract_model` and the reasoning-effort lookup inlined in the `response` hook (module
  `CodexFields`). Both are lookups over JSON objects that follow Python's `dict.get` and
  truthiness rules.
- `_looks_like_codex` (module `CodexFields`). It is a pair of substring tests on the URL.

Supporting modules: `Json` holds decoded JSON values, Python truthiness, `dict.get` and
`a or b`. `Text` holds Python's `str.strip()`, `str.splitlines()`, `startswith` and `in`,
with Python's own whitespace and line-boundary character sets. `Wrappers` holds `Option`
and `Attempt` (returned, or raised `AttributeError`).

`json.loads` is a parameter `decode: string -> Option<Json>`. `None` stands for
`JSONDecodeError`. Python's `None` is `JNull`: after `d.get(k)`, a missing key and a JSON
`null` are the same value.

Only the `data:` field of the event-stream format (section 9.2 of the HTML Living
Standard) is read, and only as the code reads it. A line counts when its
whitespace-stripped form starts with `data:`. The payload is stripped on both sides,
rather than losing one leading space as the standard says. There is no `event:` or
`id:` handling and no event dispatch on blank lines.

## Model

| member | source | states |
|---|---|---|
| Json.Truthy | scripts/mitm_codex_sse_logger.py:48 | Python truthiness (`bool()`), as `if model:` and the `or`s at lines 89 and 93 read it: `None`, `False`, zero and empty strings, arrays and objects are false, everything else is true |
| Json.GetOr | scripts/mitm_codex_sse_logger.py:40 | `d.get(key, default)`: the stored value for a present key, the default for a missing one |
| Json.Get | scripts/mitm_codex_sse_logger.py:47 | `d.get(key)`: any non-`None` answer is the stored value of a present key |
| Json.Or | scripts/mitm_codex_sse_logger.py:89-95 | Python `a or b` is truthy iff either operand is; it is `a` whenever `a` is truthy and `b` whenever `a` is falsy |
| Text.IsSpace | scripts/mitm_codex_sse_logger.py:29-32 | the `str.isspace` character set that `strip()` removes at lines 29 and 32: U+0009-U+000D, U+001C-U+0020, U+0085, U+00A0, U+1680, U+2000-U+200A, U+2028, U+2029, U+202F, U+205F and U+3000 |
| Text.Strip | scripts/mitm_codex_sse_logger.py:29 | `strip()` never lengthens, and a non-empty result neither starts nor ends with whitespace |
| Text.StripSpec | scripts/mitm_codex_sse_logger.py:29 | the stripped text is a slice of the input with only whitespace outside it |
| Text.StripOfIsStrip | scripts/mitm_codex_sse_logger.py:29 | any whitespace-bounded slice with non-space ends (or empty, for all-whitespace input) is what `strip()` returns, so with `StripSpec` the characterisation pins `strip()` down |
| Text.StripIdempotent | scripts/mitm_codex_sse_logger.py:29-32 | stripping an already stripped line changes nothing |
| Text.StripOfPadded | scripts/mitm_codex_sse_logger.py:29-32 | whitespace padding around a trimmed text is exactly what `strip()` removes |
| Text.IsLineBreak | scripts/mitm_codex_sse_logger.py:28 | the line boundaries `splitlines()` splits on: `\n`, `\r`, U+000B, U+000C, U+001C, U+001D, U+001E, U+0085, U+2028 and U+2029, with `\r\n` read as one boundary |
| Text.SplitLines | scripts/mitm_codex_sse_logger.py:28 | no line from `splitlines()` contains a line boundary, and there are at most as many lines as characters |
| Text.SplitLinesOfJoin | scripts/mitm_codex_sse_logger.py:28 | `splitlines()` gives back lines that each end with a Python boundary of their own (`\n`, `\r\n`, `\r`, or any other), mixed freely, and whose last line may be unterminated when non-empty. The one exception is a lone `\r` followed by an empty line ending in `\n`, which reads as a single `\r\n` |
| Text.SplitLinesStep | scripts/mitm_codex_sse_logger.py:28 | a line, its boundary and the rest split into that line followed by the lines of the rest |
| Text.StartsWith | scripts/mitm_codex_sse_logger.py:30 | `s.startswith(p)`; `StartsWithIff` characterises it |
| Text.StartsWithIff | scripts/mitm_codex_sse_logger.py:30 | `s.startswith(p)` holds exactly when `s` is `p` followed by some text |
| Text.Contains | scripts/mitm_codex_sse_logger.py:58 | `t in s` holds iff `t` occurs in `s` at some index |
| Text.ContainsExtended | scripts/mitm_codex_sse_logger.py:58 | a substring occurrence survives text added on either side |
| SsePayloads.IsDataLine | scripts/mitm_codex_sse_logger.py:29-30 | a line counts when its stripped form starts with `data:`; `DataPayloadOfLine` and `OtherFieldIsNotData` decide it for padded `data:` lines and for other fields |
| SsePayloads.EventType | scripts/mitm_codex_sse_logger.py:40 | the event type is the payload's `type` value when that key is present (even `null`), else `"unknown"` |
| SsePayloads.DataPayload | scripts/mitm_codex_sse_logger.py:32 | the stripped line is `data:` followed by the rest, and the payload is either empty or trimmed |
| SsePayloads.ParseLine | scripts/mitm_codex_sse_logger.py:29-41 | one loop iteration; `ParseLineCases` states its outcome case by case |
| SsePayloads.ParseLineCases | scripts/mitm_codex_sse_logger.py:29-41 | one loop iteration: non-data lines, empty payloads, `[DONE]` and undecodable payloads are each skipped for exactly their reason; a pair is yielded iff the payload decodes to an object, carrying that object unchanged and its type; a non-object decode raises |
| SsePayloads.EmitIsWellFormed | scripts/mitm_codex_sse_logger.py:30-41 | a line that yields a pair is a data line, and the pair is a decoded object tagged with its own type |
| SsePayloads.DataPayloadOfLine | scripts/mitm_codex_sse_logger.py:29-32 | `lead + "data:" + gap + p + trail`, with whitespace padding, is a data line whose payload is exactly `p` |
| SsePayloads.DoneLineYieldsNothing | scripts/mitm_codex_sse_logger.py:33-34 | a padded `data: [DONE]` line yields nothing |
| SsePayloads.ObjectLineYieldsEvent | scripts/mitm_codex_sse_logger.py:35-41 | a padded `data:` line whose payload decodes to an object yields that object with its type |
| SsePayloads.OtherFieldIsNotData | scripts/mitm_codex_sse_logger.py:30-31 | a line starting with a non-space character other than `d` (an `event:` or `id:` line) is skipped |
| SsePayloads.Run | scripts/mitm_codex_sse_logger.py:28-41 | the generator's control over per-line outcomes yields at most one pair per line, and only pairs that some line produced |
| SsePayloads.RunAppend | scripts/mitm_codex_sse_logger.py:28-41 | running over two blocks of lines is running over the first and, unless it raised, continuing over the second |
| SsePayloads.SkipIsInvisible | scripts/mitm_codex_sse_logger.py:30-39 | a skipped outcome can be deleted without changing the yielded pairs or the raise |
| SsePayloads.RunCrashIff | scripts/mitm_codex_sse_logger.py:40 | the generator raises iff some line reaches `.get` on a non-object |
| SsePayloads.OriginsYieldEvents | scripts/mitm_codex_sse_logger.py:28-41 | yielded pair `k` is the outcome of line `Origins[k]` |
| SsePayloads.OriginsIncrease | scripts/mitm_codex_sse_logger.py:28-41 | the lines that yielded the pairs strictly increase, so the output follows line order |
| SsePayloads.OriginsComplete | scripts/mitm_codex_sse_logger.py:28-41 | without a raise, every line that produces a pair is the origin of a yielded one |
| SsePayloads.ScanLines | scripts/mitm_codex_sse_logger.py:28-41 | the loop over a list of lines yields at most one pair per line; the lemmas below relate it to the lines |
| SsePayloads.IterSsePayloads | scripts/mitm_codex_sse_logger.py:20-41 | over a whole body: at most one pair per line, each payload a JSON object tagged with its own type or `"unknown"` |
| SsePayloads.SkippedLineIsInvisible | scripts/mitm_codex_sse_logger.py:35-39 | a line that yields nothing, an undecodable payload included, can be removed: iteration goes on with the next line as if it were absent |
| SsePayloads.OnlyDataLinesCount | scripts/mitm_codex_sse_logger.py:28-31 | dropping every line that does not start with `data:` after stripping leaves the result unchanged |
| SsePayloads.CrashIffNonObject | scripts/mitm_codex_sse_logger.py:35-40 | the generator raises iff some line's payload decodes to a non-object |
| SsePayloads.EventsFollowLines | scripts/mitm_codex_sse_logger.py:28-41 | pairs come from data lines in strictly increasing line order, one per line, and without a raise no producing line is missed |
| SsePayloads.CollectSsePayloads | scripts/mitm_codex_sse_logger.py:28-41 | the line-by-line loop computes exactly the generator's pairs and stops at the first non-object payload |
| SsePayloads.StreamScenario | scripts/mitm_codex_sse_logger.py:20-41 | a body made of an `event:` line, one object payload and a blank line, ended by `\r\n`, `\n` and `\r\n`, then an unterminated `data: [DONE]`, yields exactly one pair and finishes normally |
| CodexFields.ExtractModel | scripts/mitm_codex_sse_logger.py:44-53 | the top-level `model` when truthy; else `response.model` when `response` is a dict, falsy values included; else `None` |
| CodexFields.FirstTruthy | scripts/mitm_codex_sse_logger.py:47-53 | a truthy element of the list preceded only by falsy ones, so the first truthy value; `None` exactly when every value is falsy |
| CodexFields.ExtractModelIsFirstTruthyCandidate | scripts/mitm_codex_sse_logger.py:44-53 | `_extract_model` reports a truthy model iff the top level or the `response` object holds one, and then it reports the first such |
| CodexFields.NoModelAnywhere | scripts/mitm_codex_sse_logger.py:47-53 | a payload with neither `model` nor `response` reports `None` |
| CodexFields.ModelOfResponseCreated | scripts/mitm_codex_sse_logger.py:50-52 | one example: the payload `{"type": "response.created", "response": {"model": "gpt-5.1-codex"}}`, which has no top-level `model`, reports the nested `gpt-5.1-codex` |
| CodexFields.EffortOf | scripts/mitm_codex_sse_logger.py:92-95 | a dict's truthy `effort`, else its `effort_level`; `None` for a non-dict |
| CodexFields.ReasoningEffort | scripts/mitm_codex_sse_logger.py:86-95 | the lookup raises iff `response` is a dict with falsy `reasoning` and a present non-dict `metadata`; otherwise it reports the effort of `response.reasoning`, or of `response.metadata.reasoning` when that is falsy |
| CodexFields.DirectReasoningIgnoresMetadata | scripts/mitm_codex_sse_logger.py:89 | with a truthy `response.reasoning`, `metadata` is never consulted: replacing it changes nothing and cannot make the lookup raise |
| CodexFields.ChosenReasoning | scripts/mitm_codex_sse_logger.py:89-91 | the reasoning value read is `response.reasoning` when truthy; otherwise it is `metadata.reasoning` when `metadata` is a dict, and `None` when `metadata` is missing |
| CodexFields.ReportedEffortHasASource | scripts/mitm_codex_sse_logger.py:86-95 | a truthy reported effort means `response` is a dict and the chosen reasoning value is a dict; the effort is that dict's `effort` when truthy, else its `effort_level` |
| CodexFields.NullMetadataRaises | scripts/mitm_codex_sse_logger.py:89-91 | as written, `"reasoning": null, "metadata": null` makes the lookup raise |
| CodexFields.ReasoningEffortGuarded | scripts/mitm_codex_sse_logger.py:86-95 | the corrected lookup never raises and agrees with the original whenever the original returns |
| CodexFields.GuardedTreatsBadMetadataAsAbsent | scripts/mitm_codex_sse_logger.py:89-91 | the corrected lookup reads a non-dict `metadata` exactly like a missing one |
| CodexFields.LooksLikeCodex | scripts/mitm_codex_sse_logger.py:56-58 | true iff both `chatgpt.com` and `/backend-api/codex` occur in the URL, anywhere and in either order |
| CodexFields.CodexResponsesUrlMatches | scripts/mitm_codex_sse_logger.py:56-58 | `https://chatgpt.com/backend-api/codex/responses` is recognised |
| CodexFields.LooksLikeCodexExtended | scripts/mitm_codex_sse_logger.py:56-58 | recognition is kept when text is added around the URL |

## Left out

- The mitmproxy hooks `response` and `request` (lines 61-129) are left out. They only log through `ctx.log` over `http.HTTPFlow` objects. From `response`, only the reasoning-effort lookup is modelled. The `if model:` gate is covered through `ExtractModelIsFirstTruthyCandidate`.
- The write of the body to `/tmp/mitm_last_body.txt` (line 81) is left out. It is filesystem I/O whose exceptions are swallowed.
- The warning logged for an undecodable payload (line 38) is left out. It is represented only by the `Skip(Undecodable)` outcome, and the model assumes the call `ctx.log.warn("failed to decode SSE chunk", error=..., chunk=...)` returns normally. mitmproxy's logging API is not part of this model; if its `warn` accepts only a single message, that call raises `TypeError` and the generator ends at the first undecodable payload instead of going on to the next line.
- `json.loads` is not modelled internally. It is the `decode` parameter, whose `None` means `JSONDecodeError`. Other exceptions it can raise, such as `RecursionError` on very deep nesting, are not modelled.
- JSON numbers are `real`. Python's int/float distinction does not affect truthiness. `NaN` and `Infinity`, which `json.loads` accepts, are not represented.
- `flow.request.pretty_url` and `response.get_text(strict=False)` are modelled as plain strings, with no mitmproxy decoding.
- `CODEX_SSE_CONTENT_TYPE` (line 17) is left out because nothing in the file uses it.
- CodexFields.ExtractModel requires its argument to be a JSON object. The source annotates it as `dict`, and its only caller passes the pairs of `_iter_sse_payloads`, which are always objects.
- The gateway's translation, relay, transport and routing engine is left out. That code lives elsewhere in CCProxy and is not modelled here.

## Findings

| source | as written | input that shows it | evidently intended | confidence | as-written member | corrected member |
|---|---|---|---|---|---|---|
| scripts/mitm_codex_sse_logger.py:89-91 | `response.get("metadata", {}).get("reasoning")` calls `.get` on whatever `metadata` holds, so a `null` or other non-dict `metadata` raises `AttributeError` in the `response` hook | a payload `{"response": {"reasoning": null, "metadata": null}}` | a non-dict `metadata` is read like a missing one, as the `{}` default and the `isinstance` guards on `response` and `reasoning` suggest | medium; not executed | CodexFields.NullMetadataRaises | CodexFields.ReasoningEffortGuarded |
