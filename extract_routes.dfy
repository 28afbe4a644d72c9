/** The `/extract/youtube` and `/extract/pdf` routes and `getYouTubeId`. URL
    parsing (`new URL`), the transcript fetch and `pdf-parse` are inputs: the
    parsed URL, or functions standing for the libraries. */
module ExtractRoutes {
  import opened Wrappers
  import opened Strings

  /** The parts of a parsed WHATWG URL that `getYouTubeId` reads; `query` is
      `searchParams` as name/value pairs in order. */
  datatype Url = Url(hostname: string, pathname: string, query: seq<(string, string)>)

  /** `searchParams.get(name)`: the value of the first pair called `name`, or
      null when there is none. */
  function QueryGet(query: seq<(string, string)>, name: string): (v: Option<string>)
    ensures v.None? <==> forall i :: 0 <= i < |query| ==> query[i].0 != name
    ensures v.Some? ==> exists i :: 0 <= i < |query| && query[i] == (name, v.value) &&
                                    forall j :: 0 <= j < i ==> query[j].0 != name
  {
    if query == [] then None
    else if query[0].0 == name then Some(query[0].1)
    else
      var v := QueryGet(query[1..], name);
      assert forall i :: 1 <= i < |query| ==> query[i] == query[1..][i - 1];
      v
  }

  const ShortsPrefix := "/shorts/"

  /** A "/shorts/" path splits on "/" into "", "shorts" and the pieces of the
      rest. */
  lemma ShortsSplit(path: string)
    requires StartsWith(path, ShortsPrefix)
    ensures Split(path, '/') == ["", "shorts"] + Split(path[8..], '/')
  {
    var rest := path[8..];
    assert path == [] + ['/'] + ("shorts" + ['/'] + rest);
    SplitAtSeparator([], "shorts" + ['/'] + rest, '/');
    assert '/' !in "shorts";
    SplitAtSeparator("shorts", rest, '/');
  }

  /** `getYouTubeId(url)` for a URL that `new URL` parsed (`Some`) or rejected
      (`None`). The three rules are tried in order: a host containing
      "youtu.be" gives the path after its first character; else a non-empty
      `v` parameter gives its value; else a "/shorts/" path gives the path
      segment after "/shorts/". */
  function GetYouTubeId(url: Option<Url>): (id: Option<string>)
    ensures url.None? ==> id.None?
    ensures url.Some? && Contains(url.value.hostname, "youtu.be") ==>
            id == Some(Drop1(url.value.pathname))
    ensures url.Some? && !Contains(url.value.hostname, "youtu.be") &&
            Truthy(QueryGet(url.value.query, "v")) ==>
            id == QueryGet(url.value.query, "v")
    ensures url.Some? && !Contains(url.value.hostname, "youtu.be") &&
            !Truthy(QueryGet(url.value.query, "v")) && StartsWith(url.value.pathname, ShortsPrefix) ==>
            id.Some? && IsFirstPiece(id.value, url.value.pathname[8..], '/')
    ensures url.Some? && !Contains(url.value.hostname, "youtu.be") &&
            !Truthy(QueryGet(url.value.query, "v")) && !StartsWith(url.value.pathname, ShortsPrefix) ==>
            id.None?
  {
    match url
    case None => None
    case Some(u) =>
      if Contains(u.hostname, "youtu.be") then Some(Drop1(u.pathname))
      else if Truthy(QueryGet(u.query, "v")) then QueryGet(u.query, "v")
      else if StartsWith(u.pathname, ShortsPrefix) then
        ShortsSplit(u.pathname);
        SplitFirst(u.pathname[8..], '/');
        Some(Split(u.pathname, '/')[2])
      else None
  }

  /** A full YouTube host is not a short-link host. */
  lemma NotShortLinkHost()
    ensures !Contains("www.youtube.com", "youtu.be")
  {
    var host := "www.youtube.com";
    forall i | 0 <= i <= |host| - |"youtu.be"|
      ensures !OccursAt(host, "youtu.be", i)
    {
      if i == 4 {
        assert host[i + 5] != "youtu.be"[5];
      } else {
        assert host[i] != "youtu.be"[0];
      }
    }
  }

  /** On a host that is not a short link and without a `v` parameter, a
      "/shorts/" path gives the segment up to the next "/". */
  lemma ShortsRule(host: string, segment: string, rest: string, query: seq<(string, string)>)
    requires !Contains(host, "youtu.be") && '/' !in segment
    requires !Truthy(QueryGet(query, "v"))
    ensures GetYouTubeId(Some(Url(host, ShortsPrefix + segment + "/" + rest, query))) == Some(segment)
  {
    var path := ShortsPrefix + segment + "/" + rest;
    assert path[..8] == ShortsPrefix;
    var tail := path[8..];
    assert tail == segment + "/" + rest;
    assert tail[..|segment|] == segment;
    var id := GetYouTubeId(Some(Url(host, path, query)));
    FirstPieceUnique(id.value, segment, tail, '/');
  }

  /** The same rule when the segment runs to the end of the path. */
  lemma ShortsRuleAtEnd(host: string, segment: string, query: seq<(string, string)>)
    requires !Contains(host, "youtu.be") && '/' !in segment
    requires !Truthy(QueryGet(query, "v"))
    ensures GetYouTubeId(Some(Url(host, ShortsPrefix + segment, query))) == Some(segment)
  {
    var path := ShortsPrefix + segment;
    assert path[..8] == ShortsPrefix;
    var tail := path[8..];
    assert tail == segment;
    var id := GetYouTubeId(Some(Url(host, path, query)));
    FirstPieceUnique(id.value, segment, tail, '/');
  }

  /** "/shorts/abc/x" gives "abc". */
  lemma ShortsExample()
    ensures GetYouTubeId(Some(Url("www.youtube.com", "/shorts/abc/x", []))) == Some("abc")
  {
    NotShortLinkHost();
    assert "/shorts/abc/x" == ShortsPrefix + "abc" + "/" + "x";
    ShortsRule("www.youtube.com", "abc", "x", []);
  }

  /** "/shorts/abc/x?t=10" gives "abc": other parameters do not matter. */
  lemma ShortsWithOtherQuery()
    ensures GetYouTubeId(Some(Url("www.youtube.com", "/shorts/abc/x", [("t", "10")]))) == Some("abc")
  {
    NotShortLinkHost();
    assert QueryGet([("t", "10")], "v") == None;
    assert "/shorts/abc/x" == ShortsPrefix + "abc" + "/" + "x";
    ShortsRule("www.youtube.com", "abc", "x", [("t", "10")]);
  }

  /** A bare "/shorts/" path gives the empty id. */
  lemma ShortsWithoutId()
    ensures GetYouTubeId(Some(Url("www.youtube.com", "/shorts/", []))) == Some("")
  {
    NotShortLinkHost();
    assert "/shorts/" == ShortsPrefix + "";
    ShortsRuleAtEnd("www.youtube.com", "", []);
  }

  /** A short link with nothing after the host yields an empty id. */
  lemma ShortLinkWithoutPath()
    ensures GetYouTubeId(Some(Url("youtu.be", "/", []))) == Some("")
  {
    assert OccursAt("youtu.be", "youtu.be", 0);
  }

  // ---------------------------------------------------------------------------
  // Routes

  /** What `YoutubeTranscript.fetchTranscript` yields: the segments' texts in
      order, nothing (a null result), or an exception. */
  datatype Transcript = Segments(texts: seq<string>) | NoTranscript | FetchFailed

  /** What `pdf-parse` yields: the extracted text (absent when the library
      reports none) and the page count, or an exception. */
  datatype PdfData = PdfData(text: Option<string>, pages: int)

  type Bytes = seq<bv8>

  /** The JSON replies of the two extract routes. */
  datatype ExtractReply =
    | ExtractError(status: int, error: string)
    | TranscriptText(text: string, videoId: string)
    | PdfText(text: string, pages: int)

  const UrlRequired := "YouTube URL is required"
  const InvalidUrl := "Invalid YouTube URL"
  const TranscriptMissing := "No transcript available for this video."
  const TranscriptFetchFailed := "Failed to fetch YouTube transcript."
  const NoPdf := "No PDF file uploaded"
  const NoPdfText := "Unable to extract text from this PDF."
  const PdfFailed := "PDF extraction failed."

  /** `/extract/youtube` given the request's `url`, the URL parser and the
      transcript fetcher. The URL checks come before any fetch, and the text
      sent back is the segments' texts joined by single spaces. */
  function ExtractYouTube(url: Option<string>, parseUrl: string -> Option<Url>,
                          fetch: string -> Transcript): (reply: ExtractReply)
    ensures !Truthy(url) ==> reply == ExtractError(400, UrlRequired)
    ensures Truthy(url) && !Truthy(GetYouTubeId(parseUrl(url.value))) ==>
            reply == ExtractError(400, InvalidUrl)
    ensures reply.ExtractError? && reply.status == 400 <==>
            !Truthy(url) || !Truthy(GetYouTubeId(parseUrl(url.value)))
    ensures reply.TranscriptText? ==>
            reply.videoId != "" && reply.videoId == GetYouTubeId(parseUrl(url.value)).value &&
            fetch(reply.videoId).Segments? && |fetch(reply.videoId).texts| > 0 &&
            reply.text == Join(fetch(reply.videoId).texts, ' ')
    ensures Truthy(url) && Truthy(GetYouTubeId(parseUrl(url.value))) ==>
            var id := GetYouTubeId(parseUrl(url.value)).value;
            (fetch(id) == NoTranscript || fetch(id) == Segments([]) <==>
             reply == ExtractError(404, TranscriptMissing)) &&
            (fetch(id) == FetchFailed ==> reply == ExtractError(500, TranscriptFetchFailed)) &&
            (fetch(id).Segments? && |fetch(id).texts| > 0 ==>
             reply == TranscriptText(Join(fetch(id).texts, ' '), id))
  {
    if !Truthy(url) then ExtractError(400, UrlRequired)
    else
      var videoId := GetYouTubeId(parseUrl(url.value));
      if !Truthy(videoId) then ExtractError(400, InvalidUrl)
      else match fetch(videoId.value)
        case FetchFailed => ExtractError(500, TranscriptFetchFailed)
        case NoTranscript => ExtractError(404, TranscriptMissing)
        case Segments(texts) =>
          if |texts| == 0 then ExtractError(404, TranscriptMissing)
          else TranscriptText(Join(texts, ' '), videoId.value)
  }

  /** When no segment holds a space, the reply's text splits back on spaces
      into exactly the segments, in order. */
  lemma TranscriptRoundTrip(url: Option<string>, parseUrl: string -> Option<Url>,
                            fetch: string -> Transcript)
    requires ExtractYouTube(url, parseUrl, fetch).TranscriptText?
    requires var texts := fetch(ExtractYouTube(url, parseUrl, fetch).videoId).texts;
             forall i :: 0 <= i < |texts| ==> ' ' !in texts[i]
    ensures var reply := ExtractYouTube(url, parseUrl, fetch);
            Split(reply.text, ' ') == fetch(reply.videoId).texts
  {
    var reply := ExtractYouTube(url, parseUrl, fetch);
    SplitJoin(fetch(reply.videoId).texts, ' ');
  }

  /** `/extract/pdf` given the uploaded file (if any) and the PDF parser. */
  function ExtractPdf(file: Option<Bytes>, pdfParse: Bytes -> Result<PdfData, string>): (reply: ExtractReply)
    ensures file.None? ==> reply == ExtractError(400, NoPdf)
    ensures file.Some? && pdfParse(file.value).Err? ==> reply == ExtractError(500, PdfFailed)
    ensures file.Some? && pdfParse(file.value).Ok? ==>
            var data := pdfParse(file.value).value;
            (reply == ExtractError(400, NoPdfText) <==> data.text.None? || IsBlank(data.text.value)) &&
            (data.text.Some? && !IsBlank(data.text.value) ==> reply == PdfText(Trim(data.text.value), data.pages))
    ensures reply.PdfText? ==>
            var data := pdfParse(file.value).value;
            data.text.Some? && reply.text == Trim(data.text.value) && reply.text != [] &&
            !IsJsWhitespace(reply.text[0]) && !IsJsWhitespace(reply.text[|reply.text| - 1]) &&
            reply.pages == data.pages
  {
    match file
    case None => ExtractError(400, NoPdf)
    case Some(buffer) =>
      match pdfParse(buffer)
      case Err(_) => ExtractError(500, PdfFailed)
      case Ok(data) =>
        if data.text.None? || IsBlank(data.text.value) then ExtractError(400, NoPdfText)
        else PdfText(Trim(data.text.value), data.pages)
  }
}
