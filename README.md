# Patch-notes summariser: route and display rules

This project models the two logical cores of a small web application that
summarises product patch notes.

- The back end's `POST /api/summarize` route (`backend/routes.py`) takes a
  JSON body with a `url` and an optional `cutoff_date`. It fetches the page
  and extracts its text. It then cleans that text:
  - it strips every line;
  - it breaks each line at every two spaces;
  - it strips each piece;
  - it drops the empty pieces;
  - it joins the rest with newlines.

  The route may put a request to summarise "updates since" the cutoff in
  front of the text. It wraps the text in a fixed prompt, asks a text model
  for a summary, and answers with the summary and the URL, or with an error
  and a status.
- The front end's `App` component (`frontend/src/App.jsx`) has several pure
  or local rules:
  - `processMarkdown` re-indents bullet lines to multiples of four spaces;
  - `formatTitle` builds an accordion title from optional fields;
  - `toggleAccordion` flips one entry of the open/closed map;
  - `handleSubmit` resets the open/closed map;
  - the loading-dot counter steps with `(prev + 1) % 4`;
  - the submit button's label depends on that counter.

The model has five modules, one per file:

- `strings.dfy`: `Wrappers` (Option, Result) and `Strings`. `Strings` holds
  join, split on one character, strip with a given white-space predicate,
  and repeat.
- `pystr.dfy`, module `PyStr`: the Python built-ins the route uses.
  - `str.isspace` and `str.strip()`.
  - `str.splitlines()`, with its full set of line boundaries. A carriage
    return followed by a line feed counts as one boundary.
  - `str.split("  ")`, with leftmost non-overlapping matches. Empty pieces
    are kept.
- `routes.dfy`, module `Routes`: the normalisation pipeline, the cutoff
  step, the prompt, the exception classification and the whole route.
  - The route is a function of the request body and of its collaborators,
    which are given as parameters:
    - the page fetch plus text extraction;
    - whether the date parses;
    - the model.
  - The route returns the response together with the trace of collaborator
    calls it made.
- `jsstr.dfy`, module `JsStr`: the JavaScript `\s` / `trim()` white-space
  set, the leading-white-space count and `startsWith`.
- `app.dfy`, module `App`: the front-end rules.
  - `processMarkdown` and `formatTitle` are methods with the source's loop
    and step-by-step appends. Each is proved against a specification
    function or a postcondition.
  - The map update and the dot step are functions, as they are in the
    source.

`backend/routes.py:75` is one direct model call. The route has no rate
limiting, retry or prompt truncation.

## Model

| member | source | states |
|---|---|---|
| Strings.Split | frontend/src/App.jsx:88 | `text.split('\n')` gives at least one piece and no piece contains the separator |
| Strings.JoinSplit | frontend/src/App.jsx:88-104 | joining the pieces of a split with the separator gives back the original string |
| Wrappers.Truthy | backend/routes.py:53 | `if cutoff_date_str:` and, at `frontend/src/App.jsx:86` and `:115-120`, `if (!text)` / `if (summary.title)`: an optional string field counts as given exactly when it is present and not empty, as both languages judge a string |
| Strings.SplitJoin | frontend/src/App.jsx:88-104 | splitting a join of separator-free pieces gives back exactly those pieces |
| Strings.Join | backend/routes.py:50 | `sep.join(parts)` / `parts.join(sep)`: the pieces in order with the separator between each two; its round trips with `Split` and `SplitLines` are `JoinSplit`, `SplitJoin` and `PyStr.SplitLinesJoin` |
| Strings.JoinNonEmpty | backend/routes.py:50 | a join whose first piece is non-empty is non-empty |
| Strings.JoinShorter | frontend/src/App.jsx:104 | joining pieces each no longer than their counterparts gives a string no longer than the counterparts' join |
| Strings.Map | frontend/src/App.jsx:89-102 | applying a function to every line keeps the number of lines |
| Strings.MapAt | frontend/src/App.jsx:89-102 | each mapped line is the function applied to the line at the same position |
| Strings.FlatMap | backend/routes.py:48 | the generator `for line in lines for phrase in f(line)`: the sequences of the lines, concatenated in line order |
| Strings.FlatMapAppend | backend/routes.py:48 | flat-mapping `a + b` is flat-mapping `a` followed by flat-mapping `b` |
| Strings.FlatMapAll | backend/routes.py:48 | when `f` sends every string satisfying `p` to strings satisfying `q`, the flat-map of strings satisfying `p` holds only strings satisfying `q` |
| Strings.Strip | backend/routes.py:46 | the stripped string is no longer than the input and neither starts nor ends with white space |
| Strings.StripSlice | backend/routes.py:46 | the stripped string is the contiguous middle of the input after its leading run, and all characters cut off on both sides are white space |
| Strings.StripStripped | backend/routes.py:48 | stripping an already stripped string changes nothing |
| Strings.LeadCount | frontend/src/App.jsx:95 | the leading-run length is at most the length, and the character after the run is not white space |
| Strings.LeadCountAll | frontend/src/App.jsx:95 | every character of the counted leading run is white space |
| Strings.LeadCountPrefix | frontend/src/App.jsx:95 | white space put in front of a string that starts with a non-white character is exactly its leading run |
| Strings.StripPrefix | frontend/src/App.jsx:98 | stripping a white-space prefix glued to a stripped non-empty string gives back that string |
| Strings.Repeat | frontend/src/App.jsx:98 | `c.repeat(n)` has length `n` and every character is `c` |
| PyStr.IsSpace | backend/routes.py:46 | the characters `str.strip()` removes: tab to carriage return, 0x1C to 0x1F, space, NEL, no-break space and the Unicode space, line and paragraph separators |
| PyStr.IsLineBreak | backend/routes.py:46 | the characters `splitlines()` ends a line at: line feed, vertical tab, form feed, carriage return, 0x1C to 0x1E, NEL and the line and paragraph separators |
| PyStr.Strip | backend/routes.py:46 | `str.strip()` is no longer than its input and neither starts nor ends with a Python white-space character |
| PyStr.StripKeeps | backend/routes.py:46-48 | stripping keeps a string free of line breaks and of two spaces in a row |
| PyStr.SplitLines | backend/routes.py:46 | no line produced by `splitlines()` contains a line-break character |
| PyStr.SplitLinesJoin | backend/routes.py:50 | splitting a newline-join of non-empty break-free lines into lines gives exactly those lines back |
| PyStr.IndexOfDoubleSpace | backend/routes.py:48 | the found index is the leftmost `"  "`: no two spaces in a row start before it, and when it is inside the string it holds two spaces; when there is none it is the length |
| PyStr.SplitDoubleSpace | backend/routes.py:48 | `split("  ")` gives at least one piece; the first piece runs up to the leftmost `"  "`; no piece holds two spaces in a row; pieces of a break-free line are break-free |
| PyStr.SplitDoubleSpaceCons | backend/routes.py:48 | when there are two spaces in a row, the pieces are the text before the leftmost `"  "` followed by the pieces of the text after it |
| PyStr.SplitDoubleSpaceExample | backend/routes.py:48 | `"a   b".split("  ")` is `["a", " b"]`: the leftmost two spaces separate, and the third space starts the next piece |
| PyStr.JoinSplitDoubleSpace | backend/routes.py:48 | joining the pieces of `split("  ")` with two spaces gives back the line: no character is lost or invented |
| PyStr.SplitDoubleSpaceNone | backend/routes.py:48 | a string without two spaces in a row is its own single piece |
| JsStr.IsSpace | frontend/src/App.jsx:94-95 | the characters `trim()` removes and `\s` matches: tab to carriage return, space, no-break space, the Unicode space separators, the line and paragraph separators and the byte-order mark |
| JsStr.Trim | frontend/src/App.jsx:94 | `line.trim()` is no longer than the line and neither starts nor ends with JavaScript white space |
| JsStr.LeadingSpaces | frontend/src/App.jsx:95 | `line.match(/^\s*/)[0].length` is at most the length and stops at the first character that is not white space; `Strings.LeadCountAll` adds that every counted character is white space |
| JsStr.StartsWith | frontend/src/App.jsx:94 | `s.startsWith(c)` for one character: `s` is non-empty and its first character is `c` |
| Routes.KeptPieces | backend/routes.py:48-50 | at most one output per piece; every kept piece is non-empty and stripped; when the pieces are free of double spaces and line breaks, every kept piece is a clean line |
| Routes.KeptPiecesAppend | backend/routes.py:48-50 | pieces are kept one by one in order: the kept pieces of `a + b` are those of `a` followed by those of `b` |
| Routes.KeptPiecesOne | backend/routes.py:48-50 | a single piece is kept, stripped, exactly when stripping leaves it non-empty |
| Routes.Chunks | backend/routes.py:46-50 | `LineChunks` flat-mapped over the lines; when the input lines are break-free, every chunk is non-empty, stripped, and free of double spaces and line breaks |
| Routes.LineChunks | backend/routes.py:46-48 | the chunks one extracted line yields (stripped, split on two spaces, each piece stripped, the empty pieces dropped); a line without line breaks yields only non-empty, stripped chunks without double spaces or line breaks |
| Routes.ChunksAppend | backend/routes.py:46-50 | chunks come line after line: the chunks of `a + b` are those of `a` followed by those of `b` |
| Routes.ChunksOne | backend/routes.py:46-48 | the chunks of one line are the kept pieces of the stripped line split on two spaces |
| Routes.NormalizePageText | backend/routes.py:46-50 | the normalised text is empty exactly when no chunk survives; its lines and their properties are stated by `NormalizedLines` |
| Routes.NormalizedLines | backend/routes.py:46-50 | the lines of the normalised text are exactly the chunks of the input in order, and each is non-empty, stripped, free of two spaces in a row and free of line breaks |
| Routes.CleanLineChunks | backend/routes.py:46-50 | a clean line is its own only chunk |
| Routes.CleanChunks | backend/routes.py:46-50 | a sequence of clean lines is its own chunk sequence |
| Routes.NormalizeIdempotent | backend/routes.py:46-50 | normalising already-normalised text returns it unchanged |
| Routes.CutoffText | backend/routes.py:53-60 | error exactly when a non-empty cutoff does not parse, and then 400 "Invalid date format"; the text is unchanged exactly when there is no cutoff; with a parsing cutoff the text is the "Please summarize updates since" lead, the cutoff as written, ". Here's the content: " and the text |
| Routes.Prompt | backend/routes.py:65-73 | the prompt is the fixed instruction head, then the text, then the fixed tail |
| Routes.PromptRoundTrip | backend/routes.py:65-73 | cutting the fixed head and tail off a prompt gives back the text it was built from |
| Routes.ExceptionResponse | backend/routes.py:83-86 | a requests exception gives 400 "Failed to fetch URL: " plus its message; any other exception gives 500 "An error occurred: " plus its message |
| Routes.PagePrompt | backend/routes.py:53-73 | a cutoff error exactly when a non-empty cutoff does not parse, and then 400 "Invalid date format"; otherwise exactly the instruction head, then the normalised page text (behind the cutoff request when there is a cutoff), then the tail |
| Routes.SummarizeUpdates | backend/routes.py:21-86 | no body or no `url` gives 400 "URL is required" with no call made; otherwise the URL is fetched first and the model is the only other call; a fetch exception or a cutoff error ends the route with its response before the model; otherwise the model gets the prompt of the normalised page; a reply from the model is answered with that reply and the requested URL, and a summary response only arises that way; a model exception is classified like any other |
| Routes.ModelSeesNormalizedText | backend/routes.py:46-75 | whenever the model is called, the page was fetched, and the prompt is exactly the instruction head, the normalised page text (behind the cutoff request when a cutoff was given) and the tail |
| App.ProcessLines | frontend/src/App.jsx:89-102 | `ProcessLine` mapped over the lines: exactly one processed line per input line |
| App.ProcessLinesAt | frontend/src/App.jsx:91-101 | the processed line at each position is the processed input line at that position |
| App.ProcessLinesSnoc | frontend/src/App.jsx:101 | pushing the processed next line extends the processed prefix by that line |
| App.ProcessLinesShorter | frontend/src/App.jsx:89-102 | every processed line is no longer than its input line |
| App.ProcessLine | frontend/src/App.jsx:92-98 | one pass of the loop body: a non-bullet line is unchanged, and no line gets longer; `ProcessLineSpec` gives the bullet layout |
| App.IsBullet | frontend/src/App.jsx:94 | `line.trim().startsWith('*')`: the line trimmed of JavaScript white space begins with `*` |
| App.ProcessedMarkdown | frontend/src/App.jsx:85-105 | an absent or empty text gives "", and the result is never longer than the text |
| App.ProcessLineSpec | frontend/src/App.jsx:94-98 | a non-bullet line is unchanged; a bullet line becomes exactly `4*floor(n/4)` spaces and its trimmed text, `n` being its leading white-space count, so its indent is a multiple of four, never above `n`, and it stays a bullet with the same trimmed text |
| App.BulletLine | frontend/src/App.jsx:95-98 | a re-indented bullet line has `floor(n/4)*4` leading spaces and the same trimmed text, and is still a bullet line |
| App.ProcessLineNoNewline | frontend/src/App.jsx:94-98 | processing a line never introduces a newline |
| App.ProcessLinesNoNewline | frontend/src/App.jsx:89-102 | processed lines of newline-free lines are newline-free |
| App.ProcessLineIdempotent | frontend/src/App.jsx:94-98 | processing a processed line changes nothing |
| App.ProcessLinesIdempotent | frontend/src/App.jsx:89-102 | processing processed lines changes nothing |
| App.MarkdownLines | frontend/src/App.jsx:88-104 | splitting the output on newlines gives as many lines as the input; each output line is the processed input line at the same position; non-bullet lines come out unchanged at the same position |
| App.MarkdownIdempotent | frontend/src/App.jsx:85-105 | `processMarkdown` applied to its own output returns it unchanged |
| App.ProcessMarkdown | frontend/src/App.jsx:85-105 | an absent or empty text gives ""; otherwise the loop's result is the newline-join of the processed lines of the split text |
| App.FormatTitle | frontend/src/App.jsx:114-126 | no title gives "Patch Notes Summary"; otherwise the title, then " (date)" when there is a date, then " - version" when there is a version, in that order and nothing else |
| App.ToggleAccordion | frontend/src/App.jsx:107-112 | the map gains the key `index`; the effective open state at `index` is flipped; every other entry is unchanged |
| App.IsOpen | frontend/src/App.jsx:212 | the lookup `openAccordions[index]`, defaulting to false: an accordion is open exactly when its key is in the map and maps to true |
| App.ToggleTwice | frontend/src/App.jsx:107-112 | toggling the same accordion twice restores every accordion's effective open state |
| App.ToggleOthers | frontend/src/App.jsx:212 | toggling one accordion never changes whether another is shown open |
| App.OpenAfterLoad | frontend/src/App.jsx:75-77 | after a load, accordion `i` is open exactly when `i` is 0 and at least one patch note came back; with none the map is empty |
| App.NextDots | frontend/src/App.jsx:38 | the next counter value is below 4: it is one more below 3, and 3 wraps to 0 |
| App.DotsAfter | frontend/src/App.jsx:34-44 | the counter, started from its reset value 0, stays below 4 |
| App.DotsAfterMod | frontend/src/App.jsx:38 | after `t` ticks the counter is `t mod 4` |
| App.DotsPeriod | frontend/src/App.jsx:38 | the counter cycles with period four |
| App.ButtonLabel | frontend/src/App.jsx:200 | idle: "Summarize Updates"; loading: "Summarizing" followed by exactly `dots` dots |
| App.BusyLabel | frontend/src/App.jsx:200 | while loading, after `t` ticks the label is "Summarizing" followed by exactly `t mod 4` characters, all of them dots |

## Left out

- Fetching the page, BeautifulSoup parsing, script/style removal and `get_text` (`backend/routes.py:31-43`): these are calls into libraries and the network. The fetch result is the collaborator `fetch`, which returns the page text or the exception raised.
- `dateutil.parser.parse` (`backend/routes.py:55`): a library call. Only its outcome, parsed or not, is modelled, as the `dateParses` parameter.
- Gemini configuration and `generate_content` (`backend/routes.py:11-12,63-76`): a network call. It is the collaborator `generate`, which returns the reply text or the exception raised.
- Flask wiring, CORS, the OPTIONS handler and `jsonify` (`backend/routes.py:1-17`): framework glue. A response is modelled as a datatype whose success case is status 200.
- Flask's own replies to a body that is not JSON: outside the route's code.
- JSON bodies that are not objects, and `url` or `cutoff_date` values that are not strings: the body is modelled as two optional strings. A missing `cutoff_date` and an empty one are both treated as no cutoff, as Python truthiness does.
- React rendering, ReactMarkdown and the `fetch` inside `handleSubmit`: UI and asynchronous I/O.
- The `setInterval`/`clearInterval` timers: the 500 ms interval becomes a tick count, and each tick applies the dot step.
- `handleSubmit`'s `setError` and `setSummaries`: outside the modelled rules.
- `handleSubmit`'s `data.patch_notes`: the front end reads this field, but the modelled route answers with `summary` and `original_url` only. The mismatch belongs to that asynchronous code and is not modelled.
- White space: both predicates are fixed character sets. `PyStr.IsSpace` is Python's `str.isspace`. `JsStr.IsSpace` is ECMAScript white space plus line terminators. There is no Unicode normalisation and no encoding.
- JavaScript values that are not strings reaching `processMarkdown` or `formatTitle`: only absent (null/undefined) and string values are modelled.
