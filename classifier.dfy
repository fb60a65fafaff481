/**
 * WadoServerResponse: one reply of the server, and what the client concludes from its
 * headers and body (a login page, image data, a file name). The body stream can be read
 * only once, so the text of a page is kept once read.
 */
module Classifier {
  import opened Wrappers
  import opened Text
  import opened Errors

  type Headers = map<string, string>

  /** A reply as the transport delivers it: status, headers and the bytes of its body stream. */
  datatype Reply = Reply(code: int, headers: Headers, body: seq<byte>)

  const ContentType := "Content-Type"
  const ContentDisposition := "Content-Disposition"
  const TextHtml := "text/html"
  const DicomType := "application/dicom"
  const ImageContentTypes := ["image/jpeg", "image/gif", "image/bmp", "image/tiff"]
  const LoginMarker := "user login at"
  const FilenameKey := "filename"
  const NoContentTypeMessage := "No content-type specified for this response"

  /** `is_text_response`: a reply without Content-Type is an error, otherwise text is HTML. */
  function IsTextResponse(h: Headers): (r: Result<bool, Failure>)
    ensures r.Failure? <==> ContentType !in h
    ensures r.Failure? ==> r.error == ServerResponseError(NoContentTypeMessage, None)
  {
    if ContentType !in h then Failure(ServerResponseError(NoContentTypeMessage, None))
    else Success(Contains(h[ContentType], TextHtml))
  }

  /** `is_image_data`: Content-Type is exactly DICOM or one of the four image types. */
  predicate IsImageData(h: Headers)
  {
    ContentType in h && (h[ContentType] == DicomType || h[ContentType] in ImageContentTypes)
  }

  /**
   * `is_password_request_page`, given the text the response yields: only an HTML reply is
   * inspected, for the marker phrase in any letter case.
   */
  function IsPasswordPage(h: Headers, text: seq<byte>): (r: Result<bool, Failure>)
    ensures r.Failure? <==> ContentType !in h
    ensures r == Success(true) ==> IsTextResponse(h) == Success(true)
    ensures IsTextResponse(h) == Success(false) ==> r == Success(false)
  {
    match IsTextResponse(h)
    case Failure(e) => Failure(e)
    case Success(isText) => Success(isText && Contains(Lower(Latin1(text)), LoginMarker))
  }

  lemma NotHtml(s: string)
    requires s == DicomType || s in ImageContentTypes
    ensures !Contains(s, TextHtml)
  {
    forall i | 0 <= i <= |s| - |TextHtml|
      ensures !OccursAt(s, TextHtml, i)
    {
      assert s[i] != 't' || s[i + 1] != 'e';
      assert s[i..i + |TextHtml|][0] == s[i] && s[i..i + |TextHtml|][1] == s[i + 1];
    }
  }

  /** Image data is never HTML, so deciding whether it is a login page never reads its body. */
  lemma ImageDataIsNotText(h: Headers, body: seq<byte>)
    requires IsImageData(h)
    ensures IsTextResponse(h) == Success(false)
    ensures IsPasswordPage(h, body) == Success(false)
  {
    NotHtml(h[ContentType]);
  }

  // ---------------------------------------------------------------- Content-Disposition

  /** A quoted parameter value loses its quotes. */
  function Unquoted(v: string): string
  {
    if |v| >= 2 && v[0] == '"' && v[|v| - 1] == '"' then v[1..|v| - 1] else v
  }

  /** The `name=value` parameters after the first `;`-separated part; a later name wins. */
  function ParamsOf(parts: seq<string>, acc: map<string, string>): map<string, string>
    decreases |parts|
  {
    if parts == [] then acc
    else
      var p := Strip(parts[0]);
      match IndexOf(p, '=')
      case None => ParamsOf(parts[1..], acc)
      case Some(i) => ParamsOf(parts[1..], acc[Lower(Strip(p[..i])) := Unquoted(Strip(p[i + 1..]))])
  }

  /** The parameter dictionary of `cgi.parse_header(line)`. */
  function HeaderParams(line: string): map<string, string>
  {
    ParamsOf(SplitOn(line, ';')[1..], map[])
  }

  /**
   * `get_filename`: no (or an empty) Content-Disposition gives None; one without a
   * `filename` parameter raises KeyError.
   */
  function GetFilename(h: Headers): (r: Result<Option<string>, Failure>)
    ensures r == Success(None) <==> ContentDisposition !in h || h[ContentDisposition] == ""
    ensures r.Failure? ==> r.error == KeyError(FilenameKey)
  {
    if ContentDisposition !in h || h[ContentDisposition] == "" then Success(None)
    else
      var params := HeaderParams(h[ContentDisposition]);
      if FilenameKey in params then Success(Some(params[FilenameKey])) else Failure(KeyError(FilenameKey))
  }

  /**
   * A Content-Disposition of the form `<disposition>;filename=<f>` names the file `f`
   * (the form the server sends, e.g. `val=test;filename=testfilename.dcm`).
   */
  lemma FilenameOfDisposition(h: Headers, disposition: string, f: string)
    requires ';' !in disposition && ';' !in f
    requires f != [] && !IsSpace(f[0]) && !IsSpace(f[|f| - 1])
    requires !(|f| >= 2 && f[0] == '"' && f[|f| - 1] == '"')
    ensures GetFilename(h[ContentDisposition := disposition + ";filename=" + f]) == Success(Some(f))
  {
    var line := disposition + ";filename=" + f;
    SplitDisposition(disposition, f);
    FilenameParam(f);
    assert HeaderParams(line) == map[FilenameKey := f];
  }

  lemma SplitDisposition(disposition: string, f: string)
    requires ';' !in disposition && ';' !in f
    ensures SplitOn(disposition + ";filename=" + f, ';')[1..] == ["filename=" + f]
  {
    var p := "filename=" + f;
    assert disposition + ";filename=" + f == disposition + [';'] + p;
    SplitOnFirst(disposition, p, ';');
    assert ';' !in p;
    SplitOnFree(p, ';');
  }

  lemma StripUntouched(s: string)
    requires s != [] && !IsSpace(s[0]) && !IsSpace(s[|s| - 1])
    ensures Strip(s) == s
  {
  }

  lemma FilenameParam(f: string)
    requires f != [] && !IsSpace(f[0]) && !IsSpace(f[|f| - 1])
    requires !(|f| >= 2 && f[0] == '"' && f[|f| - 1] == '"')
    ensures ParamsOf(["filename=" + f], map[]) == map[FilenameKey := f]
  {
    var p := "filename=" + f;
    StripUntouched(p);
    StripUntouched(f);
    assert p[..8] == "filename" && p[8] == '=' && '=' !in p[..8];
    assert IndexOf(p, '=') == Some(8);
    assert p[9..] == f;
    assert Lower(Strip("filename")) == FilenameKey;
  }

  // ---------------------------------------------------------------- the response object

  /** `WadoServerResponse`, wrapping one reply whose body stream is read at most once. */
  class ServerResponse {
    const code: int
    const headers: Headers
    /** Everything the body stream yields when read from the start. */
    ghost const body: seq<byte>
    /** What the body stream will still yield. */
    var unread: seq<byte>
    /** `_text`: the body once read as text. */
    var cache: Option<seq<byte>>

    constructor (reply: Reply)
      ensures code == reply.code && headers == reply.headers && body == reply.body
      ensures unread == reply.body && cache == None
    {
      code := reply.code;
      headers := reply.headers;
      body := reply.body;
      unread := reply.body;
      cache := None;
    }

    /** The reply this object wraps. */
    ghost function View(): Reply
      reads this
    {
      Reply(code, headers, body)
    }

    /** `_text` is truthy: a non-empty text was kept. */
    predicate HoldsText()
      reads this
    {
      cache.Some? && cache.value != []
    }

    /** `addinfourl.read(amt)`: the next `amt` bytes, fewer at the end, none when drained. */
    method Read(amt: nat) returns (chunk: seq<byte>)
      modifies this
      ensures chunk == old(unread)[..Min(amt, |old(unread)|)]
      ensures unread == old(unread)[|chunk|..]
      ensures cache == old(cache)
    {
      chunk := unread[..Min(amt, |unread|)];
      unread := unread[|chunk|..];
    }

    /**
     * `text`: a kept non-empty text is returned without reading; otherwise an HTML reply has
     * its whole remaining stream read and kept, and any other reply keeps what it had (None
     * when nothing was ever read). A reply without Content-Type raises.
     */
    method Text() returns (r: Result<Option<seq<byte>>, Failure>)
      modifies this
      ensures old(HoldsText()) ==> r == Success(old(cache)) && unread == old(unread) && cache == old(cache)
      ensures !old(HoldsText()) && IsTextResponse(headers) == Success(true) ==>
                r == Success(Some(old(unread))) && unread == [] && cache == Some(old(unread))
      ensures !old(HoldsText()) && IsTextResponse(headers) != Success(true) ==>
                unread == old(unread) && cache == old(cache)
                && r == (if ContentType !in headers then Failure(ServerResponseError(NoContentTypeMessage, None))
                         else Success(old(cache)))
    {
      if HoldsText() {
        return Success(cache);
      }
      var isText := IsTextResponse(headers);
      if isText.Failure? {
        return Failure(isText.error);
      }
      if isText.value {
        var all := Read(|unread|);
        assert all == old(unread);
        cache := Some(all);
      }
      r := Success(cache);
    }

    /**
     * `is_password_request_page`: an HTML reply is judged by its text; any other reply is
     * judged without reading the body, which stays untouched for the download.
     */
    method IsPasswordRequestPage() returns (r: Result<bool, Failure>)
      modifies this
      ensures r == IsPasswordPage(headers, if old(HoldsText()) then old(cache).value else old(unread))
      ensures IsTextResponse(headers) != Success(true) ==> unread == old(unread) && cache == old(cache)
      ensures IsTextResponse(headers) == Success(true) && !old(HoldsText()) ==>
                unread == [] && cache == Some(old(unread))
      ensures IsTextResponse(headers) == Success(true) && old(HoldsText()) ==>
                unread == old(unread) && cache == old(cache)
    {
      var isText := IsTextResponse(headers);
      if isText.Failure? {
        return Failure(isText.error);
      }
      if !isText.value {
        return Success(false);
      }
      var text := Text();
      if text.Failure? || text.value.None? {
        assert false;
        return Success(false);
      }
      r := Success(Contains(Lower(Latin1(text.value.value)), LoginMarker));
    }
  }
}
