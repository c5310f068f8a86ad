/**
  The `/api/summarize` POST route of the back end: the clean-up of the text
  extracted from a fetched page, the optional cutoff-date prefix, the prompt
  handed to the text model, and the response or error the route returns.
  Fetching the page, extracting its text and calling the model are
  collaborators given to the route as functions.
 */
module Routes {
  import opened Wrappers
  import Strings
  import PyStr

  // ---------------------------------------------------------------------------
  // Page-text normalisation
  // ---------------------------------------------------------------------------

  /** A line of normalised text: non-empty, stripped, without two spaces in a row or a line break. */
  predicate CleanLine(c: string) {
    |c| > 0 && Strings.IsStripped(c, PyStr.IsSpace) && PyStr.NoDoubleSpace(c) && PyStr.NoLineBreak(c)
  }

  /** The stripped pieces, in order, with the empty ones dropped. */
  function KeptPieces(pieces: seq<string>): (r: seq<string>)
    ensures |r| <= |pieces|
    ensures forall i :: 0 <= i < |r| ==> |r[i]| > 0 && Strings.IsStripped(r[i], PyStr.IsSpace)
    ensures (forall i :: 0 <= i < |pieces| ==> PyStr.NoDoubleSpace(pieces[i]) && PyStr.NoLineBreak(pieces[i]))
            ==> forall i :: 0 <= i < |r| ==> CleanLine(r[i])
    decreases |pieces|
  {
    if |pieces| == 0 then []
    else
      var c := PyStr.Strip(pieces[0]);
      var rest := KeptPieces(pieces[1..]);
      PyStr.StripKeeps(pieces[0]);
      if c == "" then rest else [c] + rest
  }

  /**
    The chunks one extracted line contributes: the kept pieces of the stripped
    line split on two spaces; a line without line breaks gives clean chunks.
   */
  function LineChunks(line: string): (r: seq<string>)
    ensures PyStr.NoLineBreak(line) ==> forall i :: 0 <= i < |r| ==> CleanLine(r[i])
  {
    PyStr.StripKeeps(line);
    KeptPieces(PyStr.SplitDoubleSpace(PyStr.Strip(line)))
  }

  /** The chunks of all lines, line after line; lines without line breaks give clean chunks. */
  function Chunks(lines: seq<string>): (r: seq<string>)
    ensures (forall i :: 0 <= i < |lines| ==> PyStr.NoLineBreak(lines[i]))
            ==> forall i :: 0 <= i < |r| ==> CleanLine(r[i])
  {
    Strings.FlatMapAll(LineChunks, lines, PyStr.NoLineBreak, CleanLine);
    Strings.FlatMap(LineChunks, lines)
  }

  /** Keeping pieces works piece by piece and in order: the kept pieces of `a + b` are those of `a`, then those of `b`. */
  lemma {:induction false} KeptPiecesAppend(a: seq<string>, b: seq<string>)
    ensures KeptPieces(a + b) == KeptPieces(a) + KeptPieces(b)
    decreases |a|
  {
    if |a| > 0 {
      assert (a + b)[1..] == a[1..] + b;
      KeptPiecesAppend(a[1..], b);
    } else {
      assert a + b == b;
    }
  }

  /** One piece is kept, stripped, exactly when stripping leaves something. */
  lemma KeptPiecesOne(p: string)
    ensures KeptPieces([p]) == if PyStr.Strip(p) == "" then [] else [PyStr.Strip(p)]
  {
    assert KeptPieces([p]) == (if PyStr.Strip(p) == "" then [] else [PyStr.Strip(p)]) + KeptPieces([]);
  }

  /** Chunks come line after line: the chunks of `a + b` are those of `a`, then those of `b`. */
  lemma ChunksAppend(a: seq<string>, b: seq<string>)
    ensures Chunks(a + b) == Chunks(a) + Chunks(b)
  {
    Strings.FlatMapAppend(LineChunks, a, b);
  }

  /** The chunks of one line are the kept pieces of that stripped line split on two spaces. */
  lemma ChunksOne(line: string)
    ensures Chunks([line]) == KeptPieces(PyStr.SplitDoubleSpace(PyStr.Strip(line)))
  {
    assert [line][1..] == [];
    assert Strings.FlatMap(LineChunks, [line]) == LineChunks(line) + [];
  }

  /**
    The text the route sends on: the page's lines, each stripped and split at
    every two spaces, each piece stripped, the empty pieces dropped, and the
    rest joined with newlines.
   */
  function NormalizePageText(text: string): (r: string)
    ensures r == "" <==> Chunks(PyStr.SplitLines(text)) == []
  {
    var cs := Chunks(PyStr.SplitLines(text));
    if |cs| == 0 then ""
    else
      Strings.JoinNonEmpty(cs, "\n");
      Strings.Join(cs, "\n")
  }

  /**
    The lines of the normalised text are exactly the chunks of the input, in
    order; each is non-empty, has no leading or trailing whitespace, has no two
    spaces in a row and contains no line break.
   */
  lemma NormalizedLines(text: string)
    ensures PyStr.SplitLines(NormalizePageText(text)) == Chunks(PyStr.SplitLines(text))
    ensures forall i :: 0 <= i < |PyStr.SplitLines(NormalizePageText(text))| ==>
              CleanLine(PyStr.SplitLines(NormalizePageText(text))[i])
  {
    var cs := Chunks(PyStr.SplitLines(text));
    PyStr.SplitLinesJoin(cs);
  }

  /** A clean line is its own only chunk. */
  lemma CleanLineChunks(c: string)
    requires CleanLine(c)
    ensures LineChunks(c) == [c]
  {
    Strings.StripStripped(c, PyStr.IsSpace);
    PyStr.SplitDoubleSpaceNone(c);
    assert KeptPieces([c]) == [c] + KeptPieces([]);
  }

  /** Clean lines are their own chunks. */
  lemma {:induction false} CleanChunks(lines: seq<string>)
    requires forall i :: 0 <= i < |lines| ==> CleanLine(lines[i])
    ensures Chunks(lines) == lines
    decreases |lines|
  {
    if |lines| > 0 {
      CleanLineChunks(lines[0]);
      CleanChunks(lines[1..]);
      assert lines == [lines[0]] + lines[1..];
    }
  }

  /** Normalising text that is already normalised returns it unchanged. */
  lemma NormalizeIdempotent(text: string)
    ensures NormalizePageText(NormalizePageText(text)) == NormalizePageText(text)
  {
    var cs := Chunks(PyStr.SplitLines(text));
    NormalizedLines(text);
    CleanChunks(cs);
  }

  // ---------------------------------------------------------------------------
  // The request, its collaborators and the response
  // ---------------------------------------------------------------------------

  /** The JSON object of the request, reduced to the two keys the route reads. */
  datatype Body = Body(url: Option<string>, cutoffDate: Option<string>)

  /** An exception raised inside the route's `try`, by its type and its `str()`. */
  datatype ExceptionKind = RequestException | OtherException
  datatype Exception = Exception(kind: ExceptionKind, message: string)

  /** Fetching the URL and extracting the page's text, or the exception that stopped it. */
  datatype FetchOutcome = PageText(text: string) | FetchRaised(fetchError: Exception)

  /** The model's reply text, or the exception raised while producing it. */
  datatype GenerateOutcome = Generated(summary: string) | GenerateRaised(generateError: Exception)

  /** A JSON reply: the summary with the requested URL (status 200), or an error message with its status. */
  datatype Response = Summary(summary: string, originalUrl: string) | Error(status: nat, message: string)

  /** A call the route makes to a collaborator. */
  datatype Call = Fetch(url: string) | Generate(prompt: string)

  /** The route's response together with the calls it made, in order. */
  datatype Handled = Handled(response: Response, calls: seq<Call>)

  const CutoffLead := "Please summarize updates since "
  const CutoffMid := ". Here's the content: "

  /**
    The cutoff-date step: without a cutoff (absent or empty) the text goes on
    unchanged; with one that parses, the text is the request to summarise
    updates since that cutoff (as the client wrote it) followed by the text;
    with one that does not parse, the route answers 400 "Invalid date format".
   */
  function CutoffText(cutoff: Option<string>, dateParses: bool, text: string): (r: Result<string, Response>)
    ensures r.Err? <==> Truthy(cutoff) && !dateParses
    ensures r.Err? ==> r.error == Error(400, "Invalid date format")
    ensures r.Ok? ==> (r.value == text <==> !Truthy(cutoff))
    ensures r.Ok? && Truthy(cutoff) ==>
              var c := cutoff.value;
              var n := |CutoffLead| + |c| + |CutoffMid|;
              |r.value| == n + |text|
              && r.value[..|CutoffLead|] == CutoffLead
              && r.value[|CutoffLead|..|CutoffLead| + |c|] == c
              && r.value[|CutoffLead| + |c|..n] == CutoffMid
              && r.value[n..] == text
  {
    if Truthy(cutoff) then
      if dateParses then Ok(CutoffLead + cutoff.value + CutoffMid + text)
      else Err(Error(400, "Invalid date format"))
    else Ok(text)
  }

  const PromptHead := "\n        You are a helpful assistant that summarizes product updates and patch notes.\n        Focus on key changes, additions, removals, and fixes.\n        Be concise and clear.\n        \n        Here's the content to summarize:\n        \n        "
  const PromptTail := "\n        "

  /** The prompt sent to the model: a fixed instruction head, the text, and a fixed tail. */
  function Prompt(text: string): (p: string)
    ensures |p| == |PromptHead| + |text| + |PromptTail|
    ensures p[..|PromptHead|] == PromptHead
    ensures p[|PromptHead|..|PromptHead| + |text|] == text
    ensures p[|PromptHead| + |text|..] == PromptTail
  {
    PromptHead + text + PromptTail
  }

  /** Cutting the fixed head and tail off a prompt gives back the text it was built from. */
  function PromptContent(p: string): string
    requires |p| >= |PromptHead| + |PromptTail|
  {
    p[|PromptHead|..|p| - |PromptTail|]
  }

  lemma PromptRoundTrip(text: string)
    ensures PromptContent(Prompt(text)) == text
  {
  }

  /**
    The two `except` clauses: a `requests` exception is answered 400 "Failed to
    fetch URL: ...", anything else 500 "An error occurred: ...".
   */
  function ExceptionResponse(e: Exception): (r: Response)
    ensures r.Error?
    ensures r.status == 400 <==> e.kind == RequestException
    ensures r.status == 400 || r.status == 500
    ensures e.kind == RequestException ==> r.message == "Failed to fetch URL: " + e.message
    ensures e.kind == OtherException ==> r.message == "An error occurred: " + e.message
  {
    match e.kind
    case RequestException => Error(400, "Failed to fetch URL: " + e.message)
    case OtherException => Error(500, "An error occurred: " + e.message)
  }

  /**
    The prompt the route builds from a fetched page, or the response that ends
    it first: the cutoff error, or a prompt holding the normalised page text
    behind the cutoff request when a cutoff was given.
   */
  function PagePrompt(body: Body, dateParses: bool, page: string): (r: Result<string, Response>)
    ensures r.Err? <==> Truthy(body.cutoffDate) && !dateParses
    ensures r.Err? ==> r.error == Error(400, "Invalid date format")
    ensures r.Ok? ==>
              var text := NormalizePageText(page);
              r.value == Prompt(if Truthy(body.cutoffDate) then CutoffLead + body.cutoffDate.value + CutoffMid + text else text)
    ensures r.Ok? ==>
              var text := NormalizePageText(page);
              |r.value| >= |PromptHead| + |PromptTail|
              && PromptContent(r.value)
                 == (if Truthy(body.cutoffDate) then CutoffLead + body.cutoffDate.value + CutoffMid + text else text)
  {
    match CutoffText(body.cutoffDate, dateParses, NormalizePageText(page))
    case Ok(t) => PromptRoundTrip(t); Ok(Prompt(t))
    case Err(resp) => Err(resp)
  }

  /**
    `summarize_updates`: `body` is the request's JSON object (None when there is
    none), `fetch` fetches a URL and extracts its text, `dateParses` says whether
    the cutoff date parses, `generate` is the model.
   */
  function SummarizeUpdates(body: Option<Body>, fetch: string -> FetchOutcome, dateParses: bool,
                            generate: string -> GenerateOutcome): (h: Handled)
    // No body or no "url": 400 and no call at all.
    ensures body.None? || body.value.url.None? <==> h == Handled(Error(400, "URL is required"), [])
    // Otherwise the URL is fetched first, and the model is the only other call.
    ensures body.Some? && body.value.url.Some? ==>
              1 <= |h.calls| <= 2 && h.calls[0] == Fetch(body.value.url.value)
              && (|h.calls| == 2 ==> h.calls[1].Generate?)
    // The model is called exactly when the page was read and the cutoff is acceptable,
    // and then with the prompt built from the normalised page text.
    ensures body.Some? && body.value.url.Some? ==>
              match fetch(body.value.url.value)
              case FetchRaised(e) => h == Handled(ExceptionResponse(e), [Fetch(body.value.url.value)])
              case PageText(page) =>
                match PagePrompt(body.value, dateParses, page)
                case Err(resp) => h == Handled(resp, [Fetch(body.value.url.value)])
                case Ok(p) => |h.calls| == 2 && h.calls[1] == Generate(p)
    // A summary carries the model's reply and the requested URL.
    ensures h.response.Summary? ==>
              body.Some? && body.value.url.Some? && h.response.originalUrl == body.value.url.value
              && |h.calls| == 2 && generate(h.calls[1].prompt) == Generated(h.response.summary)
    // A reply from the model is answered with that reply and the requested URL.
    ensures |h.calls| == 2 && generate(h.calls[1].prompt).Generated? ==>
              h.response == Summary(generate(h.calls[1].prompt).summary, body.value.url.value)
    // An exception from the model is classified like any other.
    ensures |h.calls| == 2 && generate(h.calls[1].prompt).GenerateRaised? ==>
              h.response == ExceptionResponse(generate(h.calls[1].prompt).generateError)
  {
    if body.None? || body.value.url.None? then Handled(Error(400, "URL is required"), [])
    else
      var url := body.value.url.value;
      match fetch(url)
      case FetchRaised(e) => Handled(ExceptionResponse(e), [Fetch(url)])
      case PageText(page) =>
        match PagePrompt(body.value, dateParses, page)
        case Err(resp) => Handled(resp, [Fetch(url)])
        case Ok(p) =>
          match generate(p)
          case Generated(summary) => Handled(Summary(summary, url), [Fetch(url), Generate(p)])
          case GenerateRaised(e) => Handled(ExceptionResponse(e), [Fetch(url), Generate(p)])
  }

  /**
    Whatever the collaborators do, a prompt the route sends to the model holds
    the normalised page text, behind the cutoff request when a cutoff was given.
   */
  lemma ModelSeesNormalizedText(body: Body, fetch: string -> FetchOutcome, dateParses: bool,
                                generate: string -> GenerateOutcome)
    requires body.url.Some?
    ensures var h := SummarizeUpdates(Some(body), fetch, dateParses, generate);
            |h.calls| == 2 ==>
              fetch(body.url.value).PageText?
              && var text := NormalizePageText(fetch(body.url.value).text);
                 var content := if Truthy(body.cutoffDate) then CutoffLead + body.cutoffDate.value + CutoffMid + text else text;
                 h.calls[1].prompt == Prompt(content)
                 && PromptContent(h.calls[1].prompt)
                 == content
  {
    var h := SummarizeUpdates(Some(body), fetch, dateParses, generate);
    if |h.calls| == 2 {
      var page := fetch(body.url.value).text;
      var t := CutoffText(body.cutoffDate, dateParses, NormalizePageText(page));
      PromptRoundTrip(t.value);
    }
  }
}
