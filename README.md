# Valora demo dashboard — verified model of its report logic

Valora is a Streamlit dashboard (`valora_streamlit.py`) that takes a property
address, an optional estimated value, an optional purchase price and a
projection horizon, and shows an investment report. With demo mode on it shows
a canned report for one known address, or builds a simple report locally from
a fixed 3.2% yearly growth; with demo mode off it sends the form to a chat
model and reads a JSON report out of the free-text reply with
`parse_json_safe`.

This project models, in Dafny, the logic inside that script:

- `pytext.dfy` — the Python string built-ins the extractor relies on, with
  their edge cases: `strip()` (Python's whitespace set), `startswith`,
  `splitlines()` (all of Python's line boundaries, "\r\n" as one), `"\n".join`,
  `find`/`rfind` returning -1, and `s[i:j]` slicing with negative and
  out-of-range bounds.
- `extraction.dfy` — `parse_json_safe`: which string each of its two tiers
  hands to the JSON decoder, and in which order. The decoder is a parameter.
- `report.dfy` — the report's JSON shape as datatypes, the schema invariant,
  and `DEMO_RESULTS`.
- `projection.dfy` — the local demo report: base selection, the projection
  loop (a method with a loop invariant), Python's `round` and `int`, and the
  fixed-shape report around the projection.
- `prompt.dfy` — the user payload, the chat request and the API-key lookup.
- `analysis.dfy` — one press of "Analyze": canned report, local report, or
  the remote outcome.
- `basics.dfy` — `Option` and `Result`.

What the code does where a reader might expect otherwise:

- The extractor's failure is the second decoder error re-raised by the bare
  `raise` (valora_streamlit.py:94-95). It does not carry the raw reply. The
  submission wraps it as `MalformedResponse(cause)`.
- The canned demo report always has a three-year horizon, whatever horizon
  the form asked for (`Analysis.CannedReportIgnoresHorizon`). So "one
  projected value per requested year" holds for generated reports only.
- The demo report's growth rate is the constant 3.2% and its ROI the
  constant 5.8 (valora_streamlit.py:148, 157).
- Unrounded projected values rise strictly. The rounded values only never
  decrease: for a small base the yearly step is under one, so a value can
  repeat (base 1 gives 1 for the first two years). Strict increase is proved
  from a base of 32 upward.

## Model

| member | source | states |
|---|---|---|
| `PyText.Strip` | valora_streamlit.py:85 | the stripped text is empty exactly when the reply is all whitespace, and otherwise neither starts nor ends with whitespace |
| `PyText.StripUnique` | valora_streamlit.py:85 | whitespace + m + whitespace strips to m whenever m has no whitespace at either end, so stripping is fully determined |
| `PyText.StartsWith` | valora_streamlit.py:86 | `startswith` holds exactly when the prefix is no longer than the text and agrees with it character by character |
| `PyText.SplitLines` | valora_streamlit.py:87 | no line that `splitlines()` returns contains a line boundary, and there are no lines exactly when the text is empty; its content is fixed by `PyText.SplitLinesPieces` |
| `PyText.SplitLinesPieces` | valora_streamlit.py:87 | for every text and every boundary ("\r\n" counted once), the lines are the "\n"-pieces of the text with each boundary written as "\n", less the empty piece after a boundary that ends the text |
| `PyText.JoinSplitLines` | valora_streamlit.py:87 | joining the lines of a text that does not end at a boundary with "\n" gives the text with each boundary written as "\n" |
| `PyText.SplitLinesOneLine` | valora_streamlit.py:87 | a non-empty text without line boundaries is a single line |
| `PyText.SplitLinesBeforeLastLine` | valora_streamlit.py:87 | when "\n" is the only boundary in body, the lines of body + "\n" + last are the "\n"-pieces of body followed by last |
| `PyText.Join` | valora_streamlit.py:87 | `"\n".join` gives all the parts' characters plus one separator between each two, starting with the first part; with `PyText.JoinSplitNewline` it undoes `split("\n")` |
| `PyText.JoinSplitNewline` | valora_streamlit.py:87 | joining the "\n"-pieces of a text with "\n" gives the text back |
| `PyText.SplitNewlineSnoc` | valora_streamlit.py:87 | a last piece without "\n", added after a "\n", becomes the last piece of `split("\n")` |
| `PyText.JoinInnerNoLonger` | valora_streamlit.py:87 | joining `lines[1:-1]` never gives more text than joining all the lines |
| `PyText.Find` | valora_streamlit.py:91 | `find` gives -1 exactly when the character is absent, else the index of its first occurrence |
| `PyText.RFind` | valora_streamlit.py:92 | `rfind` gives -1 exactly when the character is absent, else the index of its last occurrence |
| `PyText.SliceBound` | valora_streamlit.py:93 | a slice bound in 0..n is kept, a negative one counts from the end, and out-of-range ones are clamped to 0 or n |
| `PyText.PySlice` | valora_streamlit.py:93 | `s[start:stop]` is the part between the clamped bounds, or empty when they cross |
| `Extraction.FirstTierText` | valora_streamlit.py:85-88 | the first tier never decodes more characters than the reply holds; its content is fixed by `Extraction.FirstTierUnfenced` (no fence), `Extraction.FirstTierShortFence` (a fenced reply of one or two lines) and `Extraction.FirstTierFenced` (three lines or more) |
| `Extraction.SecondTierText` | valora_streamlit.py:91-93 | the brace slice is no longer than the reply, ends with `}` when non-empty, and starts with `{` when the reply has one |
| `Extraction.ParseJsonSafe` | valora_streamlit.py:83-95 | the first tier's value is returned when it decodes; otherwise the second tier's value or error is returned; a success always comes from one of the two tiers |
| `Extraction.NotFenced` | valora_streamlit.py:86 | a text whose first character is not a backquote does not open a fence |
| `Extraction.FirstTierUnfenced` | valora_streamlit.py:85-88 | without a leading fence the first tier decodes the stripped reply |
| `Extraction.FirstTierShortFence` | valora_streamlit.py:86-88 | a fenced reply of one or two lines gives the first tier the empty string, since `[1:-1]` of its lines is empty |
| `Extraction.TwoLineFenceExample` | valora_streamlit.py:83-95 | "```json\n{"a":1}```" gives the first tier "", and when "" fails to decode it still decodes as {"a":1} by the brace fallback |
| `Extraction.FirstTierFencedBody` | valora_streamlit.py:85-88 | a fenced reply with whitespace around it gives the first tier exactly the text between its opening and closing lines, when its lines break with "\n" only |
| `Extraction.FirstTierFenced` | valora_streamlit.py:85-88 | whatever line boundaries a fenced reply uses, the first tier gets the text between its first and last lines with every boundary written as "\n" |
| `Extraction.FencedLines` | valora_streamlit.py:87 | the lines of a fenced reply are its opening line, the pieces of its body and its closing line |
| `Extraction.FencedInnerLines` | valora_streamlit.py:87 | dropping the first and last lines of a fenced reply leaves the pieces of its body |
| `Extraction.SecondTierBraces` | valora_streamlit.py:91-93 | with the first `{` at i and the last `}` at j >= i, the second tier decodes exactly the reply from i to j inclusive |
| `Extraction.SecondTierNoClosingBrace` | valora_streamlit.py:92-93 | a reply without `}` gives the second tier the empty string |
| `Extraction.SecondTierNoOpeningBrace` | valora_streamlit.py:91-93 | a reply without `{` gives the second tier "}" when it ends with `}` and the empty string otherwise |
| `Extraction.SecondTierMisordered` | valora_streamlit.py:91-93 | when the last `}` precedes the first `{`, the second tier gets the empty string |
| `Extraction.BracesAroundDocument` | valora_streamlit.py:91-93 | an object wrapped in prose without braces is exactly what the second tier slices out |
| `Extraction.ProseWrappedDocument` | valora_streamlit.py:89-93 | once the first tier fails, a prose-wrapped object is decoded by the second tier |
| `Extraction.PlainProseReply` | valora_streamlit.py:83-95 | a prose-wrapped object that fails as a whole decodes as the object |
| `Extraction.FencedDocument` | valora_streamlit.py:83-95 | a fenced object decodes as the object inside the fence, whichever tier succeeds |
| `Extraction.CrLfFencedExample` | valora_streamlit.py:83-95 | "```\r\n{}\r\n```" decodes as {} |
| `Extraction.FencedReplyExample` | valora_streamlit.py:83-95 | "```json\n{"a":1}\n```" decodes as {"a":1} |
| `Extraction.ProseReplyExample` | valora_streamlit.py:83-95 | "Sure! Here is the result: {"a":1} Hope that helps." decodes as {"a":1} by the brace fallback |
| `Extraction.NotJsonExample` | valora_streamlit.py:83-95 | "not json at all" fails when neither it nor the empty string decodes |
| `Report.CannedReportWellFormed` | valora_streamlit.py:53-62 | the one canned report keeps the schema invariant, with three values for three years, 2025 to 2027, rising |
| `Projection.SelectBase` | valora_streamlit.py:147 | the base is the estimate if positive, else the purchase price if positive, else 300000, and so always positive |
| `Projection.RoundHalfEven` | valora_streamlit.py:152 | `round` gives an integer within one half of the value, and the even one on a tie |
| `Projection.Truncate` | valora_streamlit.py:158 | `int` gives the integer toward zero that is less than one away from the value |
| `Projection.BuildProjection` | valora_streamlit.py:149-153 | the loop's list is the projection: entry i (from 1) is year current_year + i with the rounded value of base * 1.032^i |
| `Projection.ProjectionExtend` | valora_streamlit.py:151-153 | one more loop round appends exactly that year's entry |
| `Projection.GenerateDemoReport` | valora_streamlit.py:146-161 | the generated report has the fixed shape of the demo branch around the base and the projection |
| `Projection.ProjectionShape` | valora_streamlit.py:151-153 | the projection has exactly `years` entries, numbered current_year + 1 to current_year + years without gaps |
| `Projection.PowerMonotone` | valora_streamlit.py:152 | powers of the growth factor are at least one and grow with the exponent |
| `Projection.GrownStep` | valora_streamlit.py:152 | each year adds at least 3.2% of the base to the unrounded value |
| `Projection.GrownMonotone` | valora_streamlit.py:152 | unrounded values are at least the base and do not decrease over the years |
| `Projection.GrownStrictlyIncreasing` | valora_streamlit.py:152 | with a positive base the unrounded values rise strictly |
| `Projection.RoundMonotone` | valora_streamlit.py:152 | rounding keeps the order of two numbers |
| `Projection.RoundWhole` | valora_streamlit.py:152 | rounding leaves whole numbers unchanged |
| `Projection.ProjectionNonDecreasing` | valora_streamlit.py:148-153 | every projected value is at least the base, and the values never decrease along the horizon |
| `Projection.ProjectionStrictlyIncreasing` | valora_streamlit.py:148-153 | from a base of 32 on, each projected value exceeds the one before |
| `Projection.TipAmount` | valora_streamlit.py:158 | the suggested discount is 3% of the base rounded down, between 0 and the base |
| `Projection.DemoReportFields` | valora_streamlit.py:154-161 | the generated report echoes address, base and horizon, with 3.2% growth, 60% confidence, buy_hold at 5.8%, 3% of the base off, no comparables and no alternatives |
| `Projection.DemoReportWellFormed` | valora_streamlit.py:147-161 | the generated report keeps the schema invariant, numbers its years from current_year + 1, and its values never decrease from the base |
| `Prompt.BuildUserPayload` | valora_streamlit.py:133-141 | the payload keeps the address and horizon, and sends each amount only when strictly positive, null otherwise |
| `Prompt.BuildRequest` | valora_streamlit.py:163-170 | the request names the chosen model, carries `SYSTEM_PROMPT` and then the user payload, with temperature 0.2 and at most 700 tokens, the defaults of `call_openai_chat` (line 64) |
| `Prompt.SameRequestIffSameForm` | valora_streamlit.py:133-170 | two submissions send the same request exactly when model, address and horizon agree and so does every amount that is strictly positive in either form |
| `Prompt.ResolveApiKey` | valora_streamlit.py:64-72 | a missing library fails first; then a non-empty environment key (replaced by the sidebar key) wins, then a non-empty secrets key, else the key is missing |
| `Analysis.Analyze` | valora_streamlit.py:143-175 | demo mode returns the canned report for a known address and the generated report otherwise; without demo mode the outcome is the remote one |
| `Analysis.RemoteOutcome` | valora_streamlit.py:162-175 | outside demo mode the outcome is never a local report; a missing library or key is that failure; a service error is the error the call raised for the built request and key; a malformed response means both tiers failed on the reply and carries the second tier's error; with a resolved key and a reply, the outcome is the document `parse_json_safe` extracts from that reply, or its error as a malformed response; a missing library or credential is only reported when key resolution failed |
| `Analysis.NoKeyNoCall` | valora_streamlit.py:65-72 | without a usable key the submission fails the same way whatever the service would answer |
| `Analysis.RemoteDocumentComesFromReply` | valora_streamlit.py:169-172 | a remote result is always a document that one extraction tier decoded from the service's reply to the built request |
| `Analysis.BaseFollowsPayload` | valora_streamlit.py:137-147 | the base is the first amount the payload keeps, or 300000 when it nulls both |
| `Analysis.CannedReportIgnoresHorizon` | valora_streamlit.py:143-145 | the canned report keeps its three-year horizon whatever horizon was requested |

## Left out

- The Streamlit interface (valora_streamlit.py:108-131, 177-214): widgets, layout, metrics, tables. It is presentation only. The form's limits (amounts at least 0, horizon 1 to 7) are not assumed: the model accepts any integers.
- `projection_chart` (valora_streamlit.py:97-106). It only draws with matplotlib.
- `json.loads` and `json.dumps`. They are library code. The decoder is the parameter `parse`; the user payload is kept unserialised.
- The chat call (valora_streamlit.py:73-81). It is network I/O through the openai library. It is the parameter `service`, which also stands for the global `openai.api_key` and for reading the reply's first choice.
- Writing the sidebar key into `os.environ` (valora_streamlit.py:167-168) is global process state. `Prompt.ResolveApiKey` takes its effect as an argument: the sidebar key replaces the environment key.
- `time.sleep` and `pd.Timestamp.now()` (valora_streamlit.py:131, 150). The current year is a parameter.
- Rendering a remote document whose fields are missing raises `KeyError` during display. That happens after the core, so it is left out.
- Projection.RoundHalfEven: rounds the exact real value of base * 1.032^i, not the double-precision product Python computes. Floating-point rounding error is not modelled, so Python may round differently when the exact value lies within a double's rounding error of a half, or when the base is too large for the product to be held exactly.
- Projection.Truncate: truncates the exact real base * 0.03, not the double-precision product; floating-point rounding error is not modelled.
