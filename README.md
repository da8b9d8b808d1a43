# Aether conceptual compass: the query-to-report pipeline

This project models the core of the Aether service backend (`backend/main.py`)
in Dafny and proves properties of it.

The service takes a short problem statement. The pipeline has five parts:

- **Category selection.** Hashing the statement with SHA-256 picks one of nine
  fixed "conceptual insight" categories. The digest is read as an integer and
  reduced modulo nine. Its first eight hex digits become an id marker.
- **Reply clean-up.** A language model is asked for a JSON explanation. Its
  reply is trimmed, then loses a leading "```json" and a trailing "```",
  each on its own and each followed by another trim, and is then decoded.
- **Validation and fallback.** The decoded reply is kept only when it carries
  all four required keys. Otherwise, or when the model call fails, a fixed
  fallback explanation filled in with the statement and the category is used.
- **Report assembly.** A multi-line report is composed from the category and
  the explanation. The action plan is rendered one `- <step>` line per entry.
- **The `/analyze` endpoint.** It answers a CORS preflight, checks the request
  (JSON content type, a `query` key, a string, non-blank after trimming), runs
  the analysis on the trimmed query, and maps the outcome to an HTTP status and
  a JSON body.

Everything in the core is expression evaluation: the model is pure datatypes,
functions and lemmas, with no classes or loops.

The library calls the service makes are fields of a `Collaborators` value and
stay abstract:

- `sha256` is SHA-256 of the UTF-8 bytes as a 64-character lowercase hex
  digest;
- `loads` is `json.loads`;
- `show` is `str()` of numbers, lists and dicts.

The language model's answer is a parameter: `Replied(text)`, or `CallFailed`
for any exception raised while calling it or reading its text.

Python's `str.strip()` is modelled with Python's own whitespace set.
`startswith`, `endswith`, `in`, `"\n".join` and `split("\n")` are modelled
exactly. `int(hexdigest, 16)` is modelled as an explicit base-16 reading. The
Python exceptions that reach a reply are modelled as `Result` errors carrying
Python's message text.

`input_query` is the trimmed query: line 292 passes `user_query`, the value
stripped at line 279 (`Endpoint.AnalyzeConcept`,
`Endpoint.FailedModelStillAnswers`).

Long string literals are written as short pieces joined by `+`, which keeps
the verifier's work on them small; the texts are the source's.

Files (one module each): `outcomes.dfy` (Option, Result), `text.dfy`
(PyText), `hex.dfy` (Hex), `conceptual_link.dfy` (ConceptualLink),
`json_value.dfy` (JsonValue), `insight.dfy` (Insight), `endpoint.dfy`
(Endpoint).

## Model

| member | source | states |
|---|---|---|
| ConceptualLink.CatalogSize | backend/main.py:65-102 | the catalog has nine entries, and the name list and the base-meaning list pair up one for one |
| ConceptualLink.CategoryIndex | backend/main.py:105-109 | the digest read as an integer, modulo the catalog size, is always a position in [0, 9) |
| ConceptualLink.Select | backend/main.py:62-118 | the returned name and base meaning are the catalog entry at (digest as integer) mod 9; the id marker is the digest's first 8 characters, so exactly 8 lowercase hex digits |
| ConceptualLink.SelectExactlyOne | backend/main.py:109-115 | the selected name is catalog entry k exactly when k is the computed index (both directions), so every input falls in exactly one category |
| ConceptualLink.CatalogNamesDistinct | backend/main.py:65-102 | no two catalog entries share a name |
| ConceptualLink.CatalogNamesSingleLine | backend/main.py:65-102 | no category name contains a line break |
| ConceptualLink.DigestNaming | backend/main.py:106 | for every k below 16 and width of at least one there is a width-digit hex text that reads as k |
| ConceptualLink.EveryCategoryReachable | backend/main.py:105-111 | for each of the nine positions some 64-digit digest selects it |
| ConceptualLink.SelectDeterministic | backend/main.py:104-118 | inputs with equal digests (in particular equal inputs) get equal name, base meaning and id marker |
| Hex.HexValue | backend/main.py:106 | the integer read from n hex digits is below 16^n |
| Hex.ToHex | backend/main.py:105-106 | a fixed-width lowercase hex rendering has exactly that width and only hex digits |
| Hex.ToHexOfHexValue | backend/main.py:106 | writing back the integer read from a hex text gives the text back |
| Hex.HexValueOfToHex | backend/main.py:106 | reading the width-digit rendering of any n below 16^width gives n back |
| PyText.IsSpace | backend/main.py:173 | no ensures: the set of characters `str.strip()` removes (Python's whitespace, as `str.isspace()` has it), used at lines 173-177 and 279; StripIsStripOf and StripUnique state what stripping does with it |
| PyText.StripLeading | backend/main.py:173 | the result is a suffix of the input, only whitespace was dropped, and it does not start with whitespace |
| PyText.StripTrailing | backend/main.py:173 | the result is a prefix of the input, only whitespace was dropped, and it does not end with whitespace |
| PyText.Strip | backend/main.py:173 | the result is no longer than the input and has no whitespace at either end |
| PyText.StripIsStripOf | backend/main.py:173 | `strip()` returns a slice of its input with only whitespace outside it and none at its own ends |
| PyText.StripUnique | backend/main.py:173 | any slice with that property is what `strip()` returns, so the characterisation is exact |
| PyText.StripAt | backend/main.py:173 | given the bounds of such a slice, `strip()` returns exactly that slice |
| PyText.StripIdempotent | backend/main.py:173-177 | stripping twice gives the same result as stripping once |
| PyText.StripAllSpace | backend/main.py:279-280 | a text of only whitespace strips to the empty string |
| PyText.NonBlankStripsNonEmpty | backend/main.py:279-280 | a text with a non-whitespace character anywhere never strips to the empty string |
| PyText.StripTrimmed | backend/main.py:175-177 | a text with no whitespace at its ends is left unchanged |
| PyText.StripPadded | backend/main.py:279 | whitespace added on either side does not change the stripped result |
| PyText.StrippedIsContained | backend/main.py:173 | the stripped text occurs in the original |
| PyText.ContainsPart | backend/main.py:217-228 | every piece of an f-string template occurs verbatim in the assembled string |
| PyText.NoNewlineInConcat | backend/main.py:205 | a template made of single-line pieces is a single line |
| PyText.JoinLines | backend/main.py:225 | no ensures: `"\n".join(lines)`; SplitJoinLines proves that splitting it again gives the lines back |
| PyText.SplitPiecesSingleLine | backend/main.py:225 | no piece of `split("\n")` holds a line break |
| PyText.SplitAtNewline | backend/main.py:225 | splitting `x + "\n" + y` gives the pieces of x followed by the pieces of y |
| PyText.SplitNoNewline | backend/main.py:225 | a text without a line break splits into itself alone |
| PyText.SplitJoinLines | backend/main.py:225 | `"\n".join` of single-line strings splits back into exactly those strings, in order |
| JsonValue.Str | backend/main.py:223-227 | formatting a decoded string into an f-string inserts the string itself |
| JsonValue.TypeName | backend/main.py:225 | no ensures: the type name Python puts in the TypeError and AttributeError texts (`str`, `int`, `float`, `bool`, `NoneType`, `list`, `dict`); Iterate and Endpoint.CheckRequest state the messages that carry it |
| JsonValue.Iterate | backend/main.py:225 | `for step in plan` visits the characters of a string, the items of a list, the keys of a dict, and raises the `'<type>' object is not iterable` TypeError exactly for the other values |
| Insight.AfterJsonFence | backend/main.py:174-175 | the result always occurs in the text; for a text starting with "```json" (`startswith`, modelled by PyText.StartsWith) it is trimmed; any other text is returned unchanged |
| Insight.AfterJsonFenceOf | backend/main.py:174-175 | "```json" + rest becomes exactly `rest.strip()`: the prefix is dropped and what follows is re-trimmed |
| Insight.BeforeFence | backend/main.py:176-177 | the result always occurs in the text; for a text ending with "```" (`endswith`, modelled by PyText.EndsWith) it is trimmed; any other text is returned unchanged |
| Insight.BeforeFenceOf | backend/main.py:176-177 | rest + "```" becomes exactly `rest.strip()`: the suffix is dropped and what precedes it is re-trimmed |
| Insight.StripFences | backend/main.py:173-177 | the cleaned reply is trimmed and occurs in the raw reply; a reply without fences is only trimmed |
| Insight.StripFencesNoLonger | backend/main.py:173-177 | cleaning never lengthens the reply |
| Insight.FencedReplyCleansToBody | backend/main.py:173-177 | "```json" + body + "```", with any whitespace around it, cleans to exactly the trimmed body |
| Insight.HasRequiredKeys | backend/main.py:182-184 | no ensures: all four required keys are present; ParseExplanation states that exactly the objects meeting it are kept |
| Insight.ParseExplanation | backend/main.py:179-192 | an explanation is produced exactly when the cleaned reply decodes and holds all four required keys, and it is then those four fields |
| Insight.ChooseExplanation | backend/main.py:167-211 | a failed call, an undecodable reply or a reply missing a key gives the fallback; otherwise the validated fields are used as they are; never a partial decode |
| Insight.Fallback | backend/main.py:198-211 | no ensures: the fallback explanation, built from FallbackMeaning, FallbackPlan and the two constant texts; FallbackAssembles, FailedCallUsesFallback and FailedCallReport state what it yields |
| Insight.FallbackMeaningMentions | backend/main.py:199-203 | the fallback meaning contains the input, the category name and its base meaning verbatim |
| Insight.FallbackFirstStep | backend/main.py:205 | the first fallback step mentions the category name, and it is a single line when the name is |
| Insight.SecondStepSingleLine | backend/main.py:206 | the second fallback step is a single line |
| Insight.ThirdStepSingleLine | backend/main.py:207 | the third fallback step is a single line |
| Insight.FallbackPlan | backend/main.py:204-208 | the fallback plan has exactly three steps, the first mentioning the category name, none spanning two lines when the name does not |
| Insight.ReportHead | backend/main.py:217-224 | no ensures: the report up to the action plan heading; ReportHeadMentions states what it contains |
| Insight.ReportHeadMentions | backend/main.py:217-224 | the report head starts with the banner, quotes the input in double quotes and names the category |
| Insight.Bullets | backend/main.py:225 | one `- <step>` line per plan entry, in order |
| Insight.PlanLines | backend/main.py:225 | one `- <step>` line per plan string, in order |
| Insight.BulletsOfStrings | backend/main.py:225 | for a plan of strings, the rendered lines are those strings each after "- ", whatever `str()` does on other values |
| Insight.ReportTail | backend/main.py:226-229 | no ensures: the report after the plan section; ReportLines states where its lines sit in the report |
| Insight.ReportText | backend/main.py:217-229 | no ensures: head, a line break, the plan lines joined by "\n", a blank line, tail; ReportTextMentions and ReportLines state its content and line structure |
| Insight.ReportTextMentions | backend/main.py:217-229 | the report starts with the banner, contains `"` + input + `"` and the category name, and carries the plan lines joined by "\n" between a line break and "\n\n" |
| Insight.ReportLines | backend/main.py:217-229 | when no plan line holds a line break, the report's lines are the head's lines, then exactly the plan lines in order (one empty line when the plan is empty, as for `[]` or `""`), then one blank line, then the tail's lines |
| Insight.AssembleReport | backend/main.py:217-229 | the report is composed exactly when the plan is iterable, and then quotes the input and names the category; otherwise the error is the plan's TypeError |
| Insight.ReportCarriesPlan | backend/main.py:224-226 | a composed report contains the plan lines joined by "\n" and followed by "\n\n" |
| Insight.AnalyzeLink | backend/main.py:167-235 | a returned result has status "success", echoes its input, quotes it in the report and names the category |
| Insight.OnlyTheModelPlanFails | backend/main.py:194-198 | the analysis raises only when the model's own validated reply has a plan that is a number, a boolean or null; the fallback never raises |
| Insight.ApplyAnalysis | backend/main.py:121-235 | a returned result has status "success", echoes the input, quotes it in the report and names the category the input selects |
| Insight.RepliedUsesModel | backend/main.py:167-229 | when the model replies: a validated reply with an iterable plan gives "success" with the report built from that reply; a validated reply whose plan is not iterable fails with that plan's `'<type>' object is not iterable` error; a reply that does not validate gives the same result as a failed call |
| Insight.FallbackAssembles | backend/main.py:198-229 | the fallback explanation always composes, into the report whose plan lines are the three fallback steps |
| Insight.FailedCallUsesFallback | backend/main.py:194-235 | with the model call failed, the analysis succeeds with the report of the fallback explanation |
| Insight.FallbackReportLines | backend/main.py:204-229 | for a single-line category name, the fallback report's plan section is exactly three lines, one per fallback step |
| Insight.FailedCallReport | backend/main.py:121-235 | with the model call failed, the analysis always succeeds: it echoes the input, quotes it, names the selected category, and the plan section is the three fallback steps, one line each |
| Endpoint.CheckRequest | backend/main.py:262-285 | checks in source order: not JSON gives 400; no `query` gives 400; a non-string `query` gives the 500 of the outer handler with the AttributeError text; a blank query gives 400; otherwise the result is the trimmed, non-empty query |
| Endpoint.NoStripMessage | backend/main.py:279 | no ensures: the AttributeError text `'<type>' object has no attribute 'strip'` that becomes the 500 details; CheckRequest states when it is returned |
| Endpoint.AnalyzeConcept | backend/main.py:240-329 | a preflight gets 200; a failed check gets that check's reply; after a passing check, an analysis that returns is answered 200 with exactly that result, and an analysis that raises is answered 500 with the generic message and details "Error in Aether's core analysis: " + the error; the status is always 200, 400 or 500; an analysis reply has status "success", echoes the trimmed query and quotes it in the report |
| Endpoint.BlankQueryRejected | backend/main.py:279-285 | a query of only whitespace gets 400 "Query cannot be empty" |
| Endpoint.PaddingIsIgnored | backend/main.py:279-292 | whitespace around the query changes nothing in the reply, the echoed query included |
| Endpoint.FailedModelStillAnswers | backend/main.py:289-302 | a string query with any non-whitespace character gets 200 with an analysis of the trimmed query even when the model call fails |
| Endpoint.AnalysisFailureDetails | backend/main.py:304-315 | a failed analysis gets 500 with the generic message and the details "Error in Aether's core analysis: " + the error, and happens only when the model replied |

## Left out

- Flask routing, CORS headers, static file serving and the `__main__` entry point are framework I/O. The preflight is modelled only as its 200 status.
- The Gemini client configuration and the prompt built at lines 136-165 are left out. The model's reply is an unconstrained parameter (`ModelReply`), so every property holds for any reply the model could return, whatever the prompt.
- The timestamp is left out: it is computed at lines 214-215 but never used.
- `print` diagnostics and tracebacks are logging only.
- The internals of SHA-256, `json.loads` and `str()` of numbers, lists and dicts are foreign library code, so they stay abstract in `Collaborators`.
- Insight.ParseExplanation: `loads` yields only objects or a decoding failure. In the source, a reply that decodes to a list or a string can pass the key check at line 184, because `in` then tests membership or a substring. It then fails when indexed at line 223, outside the fallback, and ends in the 500 at lines 304-315. The model does not cover that case and does not claim that the fallback absorbs it.
- Endpoint.CheckRequest: the request body is a decoded JSON object or nothing (`isJson`). The following are not modelled, because their messages come from Flask and the Python runtime:
  - a body that decodes to a non-object, such as `null`, a list or a number, where `not data` or `in` behave differently;
  - a malformed JSON body, which Flask rejects inside the outer handler.
- Endpoint.CheckRequest: for an object body, `not data` at line 272 holds only for the empty object, which also misses `query`, so the model has one merged check.
- Strings are sequences of Unicode scalar values, so a lone surrogate cannot occur. In the source it would make `.encode()` raise inside the analysis.
- ConceptualLink.SelectDeterministic: determinism holds by construction, because selection is a function of the digest, so the lemma needs no proof steps.
- ConceptualLink.Select: nothing is claimed about how evenly SHA-256 spreads inputs over the nine categories.
- A decoded dict (`JObject`) is a list of entries in insertion order, so the model does not rule out a repeated key, which a Python dict cannot have; no property depends on the keys being distinct.
- The catalog is two parallel lists, names and base meanings, rather than a list of records; `ConceptualLink.CatalogSize` ties them together.
