/**
 * WadoConnection: the authentication handshake, the translation of transport failures into
 * the client's exceptions, and the download of a resource into a file in fixed-size blocks.
 */
module Session {
  import opened Wrappers
  import opened Text
  import opened Errors
  import opened UrlEncoding
  import opened Urls
  import opened Classifier
  import opened Transport

  const NotAuthenticatedMessage := "Not authenticated. I'm receiving a login page"
  const NoFilenameMessage := "This url does not specify a filename.I don't know which name to use to save this"
  const NoImageMessage := "This url does seem to yield any image data"
  /** `write_response` copies the body in blocks of this many bytes. */
  const BlockSize := 8192

  // ---------------------------------------------------------------- error mapping

  function CredentialsMessage(c: Config): string
  {
    "Credentials for user '" + c.username + "' do not seem to be accepted"
  }

  function NotHtmlMessage(c: Config, original: string): string
  {
    "got some response but not HTML from WADO server at'" + c.hostname + ":" + c.port
      + "'. Maybe wrong port or hostname. Original error:'" + original + "'"
  }

  /**
   * `handle_urlerror`: every transport failure becomes an exception of the client. HTTP
   * errors keep the original error; a "Not Found" reason means the resource is missing;
   * anything else means the server did not answer, and the message names host and port.
   */
  function HandleUrlError(c: Config, e: UrlError, url: string): (f: Failure)
    ensures f.IsWrapper() && !f.ConnectionAuthError?
    ensures f.ServerResponseError? <==> e.HttpError?
    ensures f.ServerResponseError? ==> f.original == Some(e)
    ensures f.ResourceNotFound? <==> e == UrlFailure("Not Found")
  {
    match e
    case HttpError(code, _) => ServerResponseError(HttpErrorPrefix(code, url) + ErrorText(e) + "'", Some(e))
    case UrlFailure(reason) =>
      if reason == "Not Found" then ResourceNotFound("WADO resource for '" + url + "' not found")
      else ConnectionError(UnreachablePrefix(c) + ErrorText(e) + "'")
  }

  /** The message of an HTTP error, up to the text of the original error. */
  function HttpErrorPrefix(code: nat, url: string): string
  {
    HttpErrorLead(code) + url + HttpErrorHint(code)
  }

  /** What an HTTP error message says before the requested URL. */
  function HttpErrorLead(code: nat): string
  {
    if code == 500 then "Got 'server error' response when requesting '"
    else if code == 403 then "Got '403, access denied' response when requesting '"
    else "Got HTTP error response from server when requesting '"
  }

  /** What an HTTP error message says after the requested URL: the hint for 500 and 403. */
  function HttpErrorHint(code: nat): string
  {
    if code == 500 then ": This might happen if you do not include " + "seriesUID" + " explicitly. Original error:'"
    else if code == 403 then ": Something might be wrong with your " + "credentials" + "error:'"
    else "' Original error:'"
  }

  /** The message of an HTTP error names the URL, quotes the error and carries the hint. */
  lemma HttpErrorMessage(code: nat, url: string, original: string)
    ensures var m := HttpErrorPrefix(code, url) + original + "'";
            && Contains(m, original) && Contains(m, url)
            && (code == 500 ==> Contains(m, "seriesUID"))
            && (code == 403 ==> Contains(m, "credentials"))
  {
    var lead := HttpErrorLead(code);
    var hint := HttpErrorHint(code);
    var m := HttpErrorPrefix(code, url) + original + "'";
    var tail := original + "'";
    ContainsAppended(HttpErrorPrefix(code, url), original, "'");
    AppendAssoc(lead + url + hint, original, "'");
    ContainsAppended(lead + url, hint, tail);
    AppendAssoc(lead + url, hint, tail);
    ContainsAppended(lead, url, hint + tail);
    HttpErrorHints(code);
    if code == 500 {
      ContainsWithin(m, hint, "seriesUID");
    } else if code == 403 {
      ContainsWithin(m, hint, "credentials");
    }
  }

  lemma HttpErrorHints(code: nat)
    ensures code == 500 ==> Contains(HttpErrorHint(code), "seriesUID")
    ensures code == 403 ==> Contains(HttpErrorHint(code), "credentials")
  {
    if code == 500 {
      ContainsAppended(": This might happen if you do not include ", "seriesUID", " explicitly. Original error:'");
    } else if code == 403 {
      ContainsAppended(": Something might be wrong with your ", "credentials", "error:'");
    }
  }

  /** The message of an unreachable server, up to the text of the original error. */
  function UnreachablePrefix(c: Config): string
  {
    "Did not get response from WADO server at '" + c.hostname + ":" + c.port + "'. Original error:'"
  }

  /**
   * The messages `handle_urlerror` builds: an HTTP error names the requested URL and quotes
   * the original error, a server error hints at the missing series UID and an access denial
   * at the credentials; a missing resource names its URL; an unreachable server names host
   * and port and quotes the original error.
   */
  lemma HandleUrlErrorMessages(c: Config, e: UrlError, url: string)
    ensures var f := HandleUrlError(c, e, url);
            && (f.ServerResponseError? ==> Contains(f.message, ErrorText(e)))
            && (e.HttpError? ==> Contains(f.message, url))
            && (e.HttpError? && e.code == 500 ==> Contains(f.message, "seriesUID"))
            && (e.HttpError? && e.code == 403 ==> Contains(f.message, "credentials"))
            && (f.ResourceNotFound? ==> Contains(f.message, url))
            && (f.ConnectionError? ==>
                  Contains(f.message, c.hostname + ":" + c.port) && Contains(f.message, ErrorText(e)))
  {
    var s := ErrorText(e);
    match e
    case HttpError(code, _) =>
      HttpErrorMessage(code, url, s);
    case UrlFailure(reason) =>
      if reason == "Not Found" {
        ContainsAppended("WADO resource for '", url, "' not found");
      } else {
        var pre := "Did not get response from WADO server at '";
        var hp := c.hostname + ":" + c.port;
        var mid := "'. Original error:'";
        assert UnreachablePrefix(c) + s + "'" == pre + hp + (mid + s + "'");
        ContainsAppended(pre, hp, mid + s + "'");
        ContainsAppended(UnreachablePrefix(c), s, "'");
      }
  }

  // ---------------------------------------------------------------- the handshake

  /**
   * `get_response_safe(url)` when `n` requests were sent before: the fetched reply, unless
   * it is the login page.
   */
  function Safe(net: Network, n: nat, url: string): Fetched
  {
    var f := Fetch(net, n, url);
    if f.result.Failure? then f
    else match IsPasswordPage(f.result.value.headers, f.result.value.body)
      case Failure(e) => Fetched(Failure(e), f.requests)
      case Success(isLogin) =>
        if isLogin then Fetched(Failure(ConnectionAuthError(NotAuthenticatedMessage)), f.requests) else f
  }
  /**
   * `get_response_safe` sends exactly the requests of `get_response_raw`, passes on a
   * failure of the retry loop unchanged, refuses a reply exactly when it is a login page,
   * raises the server-response exception on a reply without Content-Type, and otherwise
   * returns the reply unchanged. So it fails only with what the retry loop lets escape, the
   * login-page refusal, or a missing Content-Type.
   */
  lemma SafeOutcome(net: Network, n: nat, url: string)
    ensures var s := Safe(net, n, url);
            var f := Fetch(net, n, url);
            && s.requests == f.requests
            && (f.result.Failure? ==> s == f)
            && (f.result.Success? ==>
                  var r := f.result.value;
                  && (IsPasswordPage(r.headers, r.body) == Success(false) ==> s.result == Success(r))
                  && (IsPasswordPage(r.headers, r.body) == Success(true) ==>
                        s.result == Failure(ConnectionAuthError(NotAuthenticatedMessage)))
                  && (ContentType !in r.headers ==>
                        s.result == Failure(ServerResponseError(NoContentTypeMessage, None))))
            && (s.result.Success? ==> Fetch(net, n, url).result == s.result)
            && (s.result.Success? ==> IsPasswordPage(s.result.value.headers, s.result.value.body) == Success(false))
            && (s.result.Failure? ==>
                  || EscapesRaw(s.result.error)
                  || s.result.error == ConnectionAuthError(NotAuthenticatedMessage)
                  || s.result.error == ServerResponseError(NoContentTypeMessage, None))
  {
    FetchBounds(net, n, url);
  }


  /** The requests sent before the login series: `n` before the first fetch, then its own. */
  function LoginStart(n: nat, first: Fetched): nat
  {
    n + |first.requests|
  }

  /**
   * `get_response_top_level(url)`: a login page sends the client to the login URL once, and
   * the answer to that request (which the server sends for the original resource) is the
   * result. A first fetch that succeeds is the result and nothing else is requested. Every
   * failure leaves as an exception of the client, except a timeout of every attempt and a
   * transport exception other than a URLError.
   */
  function TopLevel(c: Config, net: Network, n: nat, url: string): Fetched
  {
    var first := Safe(net, n, url);
    if first.result.Failure? && first.result.error.ConnectionAuthError? then
      AfterLogin(c, url, first, Safe(net, LoginStart(n, first), c.LoginUrl()))
    else if first.result.Failure? && first.result.error.RawUrlError? then
      Fetched(Failure(HandleUrlError(c, first.result.error.error, url)), first.requests)
    else first
  }

  /**
   * The second stage of `get_response_top_level`, once the first fetch met a login page:
   * `login` is the fetch of the login URL.
   */
  function AfterLogin(c: Config, url: string, first: Fetched, login: Fetched): Fetched
  {
    var requests := first.requests + login.requests;
    if login.result.Success? then login.(requests := requests)
    else
      var e := login.result.error;
      if e.ConnectionAuthError? then Fetched(Failure(ConnectionAuthError(CredentialsMessage(c))), requests)
      else if e.ServerResponseError? then Fetched(Failure(ConnectionError(NotHtmlMessage(c, e.message))), requests)
      else if e.RawUrlError? then Fetched(Failure(HandleUrlError(c, e.error, url)), requests)
      else login.(requests := requests)
  }
  /**
   * The handshake starts with the requests of `get_response_safe` and sends at most one
   * more series, the one `get_response_safe` sends for the login URL; what it returns is never a login page, and what it
   * raises is an exception of the client, except a timeout of every attempt and a transport
   * exception other than a URLError, which pass through unwrapped.
   */
  lemma TopLevelOutcome(c: Config, net: Network, n: nat, url: string)
    ensures var s := Safe(net, n, url);
            var t := TopLevel(c, net, n, url);
            && (s.result.Success? ==> t == s)
            && |s.requests| <= |t.requests| <= 2 * |Schedule|
            && t.requests[..|s.requests|] == s.requests
            && (t.requests[|s.requests|..] == []
                || t.requests[|s.requests|..] == Fetch(net, LoginStart(n, s), c.LoginUrl()).requests)
            && (t.result.Success? ==> IsPasswordPage(t.result.value.headers, t.result.value.body) == Success(false))
            && (t.result.Failure? ==> t.result.error.IsWrapper() || t.result.error == RawTimeout || t.result.error.RawException?)
  {
    var s := Safe(net, n, url);
    var t := TopLevel(c, net, n, url);
    SafeOutcome(net, n, url);
    FetchBounds(net, n, url);
    TopLevelCases(c, net, n, url);
    if s.result.Failure? && s.result.error.ConnectionAuthError? {
      var login := Safe(net, LoginStart(n, s), c.LoginUrl());
      SafeOutcome(net, LoginStart(n, s), c.LoginUrl());
      FetchBounds(net, LoginStart(n, s), c.LoginUrl());
      AfterLoginOutcome(c, url, s, login);
      assert t.requests[..|s.requests|] == s.requests;
      assert t.requests[|s.requests|..] == login.requests;
    } else {
      assert t.requests[|s.requests|..] == [];
    }
  }

  /**
   * The login stage appends the login series to the first one; a reply to the login request
   * is the result, and each failure `get_response_safe` can report becomes an exception of
   * the client, except a timeout of every attempt and a transport exception other than a
   * URLError.
   */
  lemma AfterLoginOutcome(c: Config, url: string, first: Fetched, login: Fetched)
    requires login.result.Failure? ==>
               || EscapesRaw(login.result.error)
               || login.result.error == ConnectionAuthError(NotAuthenticatedMessage)
               || login.result.error == ServerResponseError(NoContentTypeMessage, None)
    ensures var t := AfterLogin(c, url, first, login);
            && t.requests == first.requests + login.requests
            && (login.result.Success? ==> t.result == login.result)
            && (t.result.Failure? ==> t.result.error.IsWrapper() || t.result.error == RawTimeout || t.result.error.RawException?)
  {
  }

  /** `TopLevel` case by case, on the outcome of the first fetch. */
  lemma TopLevelCases(c: Config, net: Network, n: nat, url: string)
    ensures var s := Safe(net, n, url);
            var t := TopLevel(c, net, n, url);
            && (s.result.Success? ==> t == s)
            && (s.result.Failure? && s.result.error.ConnectionAuthError? ==>
                  t == AfterLogin(c, url, s, Safe(net, LoginStart(n, s), c.LoginUrl())))
            && (s.result.Failure? && s.result.error.RawUrlError? ==>
                  t == Fetched(Failure(HandleUrlError(c, s.result.error.error, url)), s.requests))
            && (s.result.Failure? && !s.result.error.ConnectionAuthError? && !s.result.error.RawUrlError? ==>
                  t == s)
  {
  }

  /**
   * What follows a login page: a successful login fetch is the result; a second login page
   * means the credentials are refused; a reply without Content-Type means the server is not
   * the expected one; a URLError is mapped with the ORIGINAL resource URL.
   */
  lemma AfterLoginPage(c: Config, net: Network, n: nat, url: string)
    requires Safe(net, n, url).result == Failure(ConnectionAuthError(NotAuthenticatedMessage))
    ensures var login := Safe(net, LoginStart(n, Safe(net, n, url)), c.LoginUrl());
            var t := TopLevel(c, net, n, url);
            && t.requests == Safe(net, n, url).requests + login.requests
            && (login.result.Success? ==> t.result == login.result)
            && (login.result == Failure(ConnectionAuthError(NotAuthenticatedMessage)) ==>
                  t.result == Failure(ConnectionAuthError(CredentialsMessage(c))))
            && (login.result == Failure(ServerResponseError(NoContentTypeMessage, None)) ==>
                  t.result == Failure(ConnectionError(NotHtmlMessage(c, NoContentTypeMessage))))
            && (login.result.Failure? && login.result.error.RawUrlError? ==>
                  t.result == Failure(HandleUrlError(c, login.result.error.error, url)))
  {
  }

  /** A login page on every request: the handshake gives up after the one login request. */
  lemma LoginPageEverywhere(c: Config, net: Network, n: nat, url: string, page: Reply)
    requires forall k: nat, q: Request :: net(k, q) == Answered(page)
    requires page.code == 200 && IsPasswordPage(page.headers, page.body) == Success(true)
    ensures Safe(net, n, url) == Fetched(Failure(ConnectionAuthError(NotAuthenticatedMessage)), [Request(url, 30)])
    ensures TopLevel(c, net, n, url)
         == Fetched(Failure(ConnectionAuthError(CredentialsMessage(c))), [Request(url, 30), Request(c.LoginUrl(), 30)])
  {
    RetryUntilSuccess(net, n, url, 1, page);
    RetryUntilSuccess(net, n + 1, c.LoginUrl(), 1, page);
  }

  /**
   * The server's login quirk: a login page for the resource, then the resource itself in
   * answer to the login request.
   */
  lemma LoginThenResource(c: Config, net: Network, n: nat, url: string, page: Reply, resource: Reply)
    requires net(n, Request(url, 30)) == Answered(page)
    requires page.code == 200 && IsPasswordPage(page.headers, page.body) == Success(true)
    requires net(n + 1, Request(c.LoginUrl(), 30)) == Answered(resource)
    requires resource.code == 200 && IsImageData(resource.headers)
    ensures TopLevel(c, net, n, url) == Fetched(Success(resource), [Request(url, 30), Request(c.LoginUrl(), 30)])
  {
    RetryUntilSuccess(net, n, url, 1, page);
    RetryUntilSuccess(net, n + 1, c.LoginUrl(), 1, resource);
    ImageDataIsNotText(resource.headers, resource.body);
  }

  /**
   * The same URLError on every request: the plain fetch lets it escape after one request,
   * the top-level fetch maps it (a 500 to a server-response error, an unreachable host to a
   * connection error).
   */
  lemma UrlErrorEverywhere(c: Config, net: Network, n: nat, url: string, e: UrlError)
    requires forall k: nat, q: Request :: net(k, q) == Refused(e)
    ensures Safe(net, n, url) == Fetched(Failure(RawUrlError(e)), [Request(url, 30)])
    ensures TopLevel(c, net, n, url) == Fetched(Failure(HandleUrlError(c, e, url)), [Request(url, 30)])
  {
    FetchStopsAtDecisive(net, n, url, 0);
  }

  /**
   * The same transport exception other than a URLError on every request (a reset connection,
   * say): neither the plain fetch nor the handshake catches it, and it escapes after one request.
   */
  lemma TransportExceptionEverywhere(c: Config, net: Network, n: nat, url: string, x: string)
    requires forall k: nat, q: Request :: net(k, q) == Raised(x)
    ensures Safe(net, n, url) == Fetched(Failure(RawException(x)), [Request(url, 30)])
    ensures TopLevel(c, net, n, url) == Fetched(Failure(RawException(x)), [Request(url, 30)])
  {
    FetchStopsAtDecisive(net, n, url, 0);
  }

  // ---------------------------------------------------------------- saving the body

  /** `os.path.join(folder, name)` on POSIX: an absolute name replaces the folder. */
  function PathJoin(folder: string, name: string): (p: string)
    ensures EndsWith(p, name)
    ensures (name == [] || name[0] != '/') ==> StartsWith(p, folder)
  {
    var p :=
      if name != [] && name[0] == '/' then name
      else if folder == [] || folder[|folder| - 1] == '/' then folder + name
      else folder + "/" + name;
    assert p[|p| - |name|..] == name;
    assert (name == [] || name[0] != '/') ==> p[..|folder|] == folder;
    p
  }

  /** A file to write: where, and the bytes it receives. */
  datatype Saved = Saved(path: string, data: seq<byte>)

  /**
   * The checks `download_image` and `download_wado_image` make before writing: the file
   * name first, then the content type. Only image data with a non-empty file name is saved,
   * and then it is exactly the body of the reply.
   */
  function Saving(fetched: Result<Reply, Failure>, folder: string): (d: Result<Saved, Failure>)
    ensures fetched.Failure? ==> d == Failure(fetched.error)
    ensures d.Success? <==> fetched.Success? && IsImageData(fetched.value.headers)
                            && GetFilename(fetched.value.headers).Success?
                            && GetFilename(fetched.value.headers).value.Some?
                            && GetFilename(fetched.value.headers).value.value != ""
    ensures d.Success? ==> d.value == Saved(PathJoin(folder, GetFilename(fetched.value.headers).value.value),
                                            fetched.value.body)
    ensures fetched.Success? && GetFilename(fetched.value.headers) in {Success(None), Success(Some(""))} ==>
              d == Failure(ConnectionError(NoFilenameMessage))
    ensures fetched.Success? && d.Failure? ==> d.error.ConnectionError? || d.error == KeyError(FilenameKey)
  {
    if fetched.Failure? then Failure(fetched.error)
    else
      var reply := fetched.value;
      match GetFilename(reply.headers)
      case Failure(e) => Failure(e)
      case Success(name) =>
        if name.None? || name.value == "" then Failure(ConnectionError(NoFilenameMessage))
        else if !IsImageData(reply.headers) then Failure(ConnectionError(NoImageMessage))
        else Success(Saved(PathJoin(folder, name.value), reply.body))
  }

  /** The blocks `write_response` reads from a stream holding `data`, in order. */
  function Chunks(data: seq<byte>, size: nat): seq<seq<byte>>
    requires size > 0
    decreases |data|
  {
    if data == [] then [] else
      var k := Min(size, |data|);
      [data[..k]] + Chunks(data[k..], size)
  }

  /** Reading one block off a stream holding `pending` takes off its first chunk. */
  lemma ChunksStep(pending: seq<byte>, block: seq<byte>, rest: seq<byte>)
    requires block == pending[..Min(BlockSize, |pending|)] && rest == pending[|block|..]
    requires block != []
    ensures Chunks(pending, BlockSize) == [block] + Chunks(rest, BlockSize)
    ensures block + rest == pending
  {
  }

  function Flatten(blocks: seq<seq<byte>>): seq<byte>
  {
    if blocks == [] then [] else blocks[0] + Flatten(blocks[1..])
  }

  /** Written one after the other, the blocks are the data. */
  lemma {:induction false} ChunksFlatten(data: seq<byte>, size: nat)
    requires size > 0
    ensures Flatten(Chunks(data, size)) == data
    decreases |data|
  {
    if data != [] {
      var k := Min(size, |data|);
      ChunksFlatten(data[k..], size);
      assert data[..k] + data[k..] == data;
    }
  }

  /** Every block is non-empty and at most `size` bytes; only the last one may be shorter. */
  lemma {:induction false} ChunksBounded(data: seq<byte>, size: nat)
    requires size > 0
    ensures forall i | 0 <= i < |Chunks(data, size)| :: 0 < |Chunks(data, size)[i]| <= size
    ensures forall i | 0 <= i < |Chunks(data, size)| - 1 :: |Chunks(data, size)[i]| == size
    decreases |data|
  {
    if data != [] {
      var k := Min(size, |data|);
      ChunksBounded(data[k..], size);
      var rest := Chunks(data[k..], size);
      assert Chunks(data, size) == [data[..k]] + rest;
      if |data| <= size {
        assert rest == [];
      }
    }
  }

  // ---------------------------------------------------------------- the file system

  /** The files the client writes, and every block written to them, in order. */
  class FileStore {
    var files: map<string, seq<byte>>
    var openFiles: set<string>
    var writes: seq<seq<byte>>

    constructor ()
      ensures files == map[] && openFiles == {} && writes == []
    {
      files := map[];
      openFiles := {};
      writes := [];
    }

    /** `open(path, "wb")`: the file exists and is empty. */
    method Open(path: string)
      modifies this
      ensures files == old(files)[path := []]
      ensures openFiles == old(openFiles) + {path}
      ensures writes == old(writes)
    {
      files := files[path := []];
      openFiles := openFiles + {path};
    }

    /** `f.write(block)`: appends to an open file. */
    method Write(path: string, block: seq<byte>)
      requires path in openFiles && path in files
      modifies this
      ensures files == old(files)[path := old(files)[path] + block]
      ensures openFiles == old(openFiles)
      ensures writes == old(writes) + [block]
    {
      files := files[path := files[path] + block];
      writes := writes + [block];
    }

    /** `f.close()`. */
    method Close(path: string)
      modifies this
      ensures openFiles == old(openFiles) - {path}
      ensures files == old(files) && writes == old(writes)
    {
      openFiles := openFiles - {path};
    }
  }

  // ---------------------------------------------------------------- the connection

  /**
   * A retried attempt keeps the loop on course: with `sent` the requests so far, what is left
   * of `Fetch` after one more request is the rest of the schedule.
   */
  lemma RetryCarries(net: Network, n: nat, url: string, i: nat, last: Option<Reply>, next: Option<Reply>, sent: seq<Request>)
    requires i < |Schedule|
    requires var o := AttemptOutcome(net, n, url, i);
             || (o.TimedOut? && next == last)
             || (o.Answered? && o.reply.code != 200 && next == Some(o.reply))
    requires Fetch(net, n, url).result == Attempts(net, n, url, i, last).result
    requires Fetch(net, n, url).requests == sent + Attempts(net, n, url, i, last).requests
    ensures Fetch(net, n, url).result == Attempts(net, n, url, i + 1, next).result
    ensures Fetch(net, n, url).requests == sent + [Request(url, Schedule[i])] + Attempts(net, n, url, i + 1, next).requests
  {
    AttemptsRetry(net, n, url, i, last, next);
    AppendAssoc(sent, [Request(url, Schedule[i])], Attempts(net, n, url, i + 1, next).requests);
  }

  /** The state a response is in after the password-page check of `get_response_safe`. */
  ghost predicate Checked(resp: ServerResponse, reply: Reply)
    reads resp
  {
    && resp.View() == reply
    && (IsTextResponse(reply.headers) == Success(true) ==> resp.unread == [] && resp.cache == Some(reply.body))
    && (IsTextResponse(reply.headers) != Success(true) ==> resp.unread == reply.body && resp.cache == None)
  }

  class WadoConnection {
    const config: Config
    const opener: Opener
    const disk: FileStore

    constructor (config: Config, network: Network, disk: FileStore)
      ensures this.config == config && this.disk == disk
      ensures fresh(opener) && opener.network == network && opener.log == []
    {
      this.config := config;
      this.disk := disk;
      opener := new Opener(network);
    }

    /** `get_response_raw`: the retry loop over the timeout schedule. */
    method GetResponseRaw(url: string) returns (r: Result<Reply, Failure>)
      modifies opener
      ensures r == Fetch(opener.network, |old(opener.log)|, url).result
      ensures opener.log == old(opener.log) + Fetch(opener.network, |old(opener.log)|, url).requests
    {
      ghost var n := |opener.log|;
      ghost var net := opener.network;
      ghost var sent: seq<Request> := [];
      var last: Option<Reply> := None;
      var i := 0;
      while i < |Schedule|
        invariant i <= |Schedule| && |sent| == i
        invariant opener.log == old(opener.log) + sent
        invariant Fetch(net, n, url).result == Attempts(net, n, url, i, last).result
        invariant Fetch(net, n, url).requests == sent + Attempts(net, n, url, i, last).requests
      {
        var o := opener.Open(url, Schedule[i]);
        assert o == AttemptOutcome(net, n, url, i);
        ghost var req := Request(url, Schedule[i]);
        if Decisive(o) {
          // a 200 answer is returned, a URLError or another transport exception escapes
          AttemptsDecisive(net, n, url, i, last);
          return DecisiveResult(o);
        }
        // a timeout is swallowed, a non-200 answer is kept, and the next timeout is tried
        var next := if o.Answered? then Some(o.reply) else last;
        RetryCarries(net, n, url, i, last, next, sent);
        sent := sent + [req];
        last := next;
        i := i + 1;
      }
      r := if last.Some? then Success(last.value) else Failure(RawTimeout);
    }

    /** `get_response`: the raw reply, wrapped. */
    method GetResponse(url: string) returns (r: Result<ServerResponse, Failure>)
      modifies opener
      ensures opener.log == old(opener.log) + Fetch(opener.network, |old(opener.log)|, url).requests
      ensures r.Failure? <==> Fetch(opener.network, |old(opener.log)|, url).result.Failure?
      ensures r.Failure? ==> r.error == Fetch(opener.network, |old(opener.log)|, url).result.error
      ensures r.Success? ==> fresh(r.value) && r.value.View() == Fetch(opener.network, |old(opener.log)|, url).result.value
                             && r.value.unread == r.value.body && r.value.cache == None
    {
      var raw := GetResponseRaw(url);
      if raw.Failure? {
        return Failure(raw.error);
      }
      var resp := new ServerResponse(raw.value);
      r := Success(resp);
    }

    /** `get_response_safe`: refuses a login page; `n` requests were sent before. */
    method GetResponseSafe(url: string, ghost n: nat) returns (r: Result<ServerResponse, Failure>)
      requires n == |opener.log|
      modifies opener
      ensures opener.log == old(opener.log) + Safe(opener.network, n, url).requests
      ensures r.Failure? <==> Safe(opener.network, n, url).result.Failure?
      ensures r.Failure? ==> r.error == Safe(opener.network, n, url).result.error
      ensures r.Success? ==> fresh(r.value) && Checked(r.value, Safe(opener.network, n, url).result.value)
    {
      var got := GetResponse(url);
      if got.Failure? {
        return Failure(got.error);
      }
      var resp := got.value;
      var isLogin := resp.IsPasswordRequestPage();
      if isLogin.Failure? {
        return Failure(isLogin.error);
      }
      if isLogin.value {
        return Failure(ConnectionAuthError(NotAuthenticatedMessage));
      }
      r := Success(resp);
    }

    /** `get_response_top_level`: the login handshake around `get_response_safe`. */
    method GetResponseTopLevel(url: string) returns (r: Result<ServerResponse, Failure>)
      modifies opener
      ensures opener.log == old(opener.log) + TopLevel(config, opener.network, |old(opener.log)|, url).requests
      ensures r.Failure? <==> TopLevel(config, opener.network, |old(opener.log)|, url).result.Failure?
      ensures r.Failure? ==> r.error == TopLevel(config, opener.network, |old(opener.log)|, url).result.error
      ensures r.Success? ==> fresh(r.value) && Checked(r.value, TopLevel(config, opener.network, |old(opener.log)|, url).result.value)
    {
      ghost var n := |opener.log|;
      ghost var net := opener.network;
      TopLevelCases(config, net, n, url);
      ghost var s1 := Safe(net, n, url);
      var first := GetResponseSafe(url, n);
      if first.Success? {
        return first;
      }
      var e := first.error;
      if e.ConnectionAuthError? {
        r := LoginAfterRefusal(url, n, old(opener.log));
      } else if e.RawUrlError? {
        assert e == s1.result.error;
        r := Failure(HandleUrlError(config, e.error, url));
      } else {
        r := first;
      }
    }

    /**
     * The login stage of `get_response_top_level`: the fetch of `url`, which followed the
     * requests `prior`, met a login page.
     */
    method LoginAfterRefusal(url: string, ghost n: nat, ghost prior: seq<Request>) returns (r: Result<ServerResponse, Failure>)
      requires |prior| == n
      requires Safe(opener.network, n, url).result.Failure?
      requires Safe(opener.network, n, url).result.error.ConnectionAuthError?
      requires opener.log == prior + Safe(opener.network, n, url).requests
      modifies opener
      ensures opener.log == prior + TopLevel(config, opener.network, n, url).requests
      ensures r.Failure? <==> TopLevel(config, opener.network, n, url).result.Failure?
      ensures r.Failure? ==> r.error == TopLevel(config, opener.network, n, url).result.error
      ensures r.Success? ==> fresh(r.value) && Checked(r.value, TopLevel(config, opener.network, n, url).result.value)
    {
      ghost var net := opener.network;
      ghost var first := Safe(net, n, url);
      ghost var login := Safe(net, LoginStart(n, first), config.LoginUrl());
      TopLevelCases(config, net, n, url);
      var got := GetResponseSafe(config.LoginUrl(), LoginStart(n, first));
      AppendAssoc(prior, first.requests, login.requests);
      if got.Success? {
        return got;
      }
      var le := got.error;
      if le.ConnectionAuthError? {
        r := Failure(ConnectionAuthError(CredentialsMessage(config)));
      } else if le.ServerResponseError? {
        r := Failure(ConnectionError(NotHtmlMessage(config, le.message)));
      } else if le.RawUrlError? {
        r := Failure(HandleUrlError(config, le.error, url));
      } else {
        r := got;
      }
    }

    /** `write_response`: copies what the stream still holds into `path`, block by block, then closes it. */
    method WriteResponse(resp: ServerResponse, path: string)
      modifies resp, disk
      ensures disk.files == old(disk.files)[path := old(resp.unread)]
      ensures disk.writes == old(disk.writes) + Chunks(old(resp.unread), BlockSize)
      ensures disk.openFiles == old(disk.openFiles) - {path}
      ensures resp.unread == [] && resp.cache == old(resp.cache)
    {
      disk.Open(path);
      while true
        invariant path in disk.openFiles && path in disk.files
        invariant disk.openFiles == old(disk.openFiles) + {path}
        invariant disk.files == old(disk.files)[path := disk.files[path]]
        invariant disk.files[path] + resp.unread == old(resp.unread)
        invariant disk.writes + Chunks(resp.unread, BlockSize) == old(disk.writes) + Chunks(old(resp.unread), BlockSize)
        invariant resp.cache == old(resp.cache)
        decreases |resp.unread|
      {
        ghost var pending, done, logged := resp.unread, disk.files[path], disk.writes;
        var block := resp.Read(BlockSize);
        if block == [] {
          break;
        }
        ChunksStep(pending, block, resp.unread);
        disk.Write(path, block);
        AppendAssoc(logged, [block], Chunks(resp.unread, BlockSize));
        AppendAssoc(done, block, resp.unread);
      }
      assert disk.files[path] == old(resp.unread);
      disk.Close(path);
    }

    /** Validates a fetched response and, if it is a named image, writes its body under `folder`. */
    method Persist(resp: ServerResponse, ghost reply: Reply, folder: string) returns (r: Wrappers.Outcome<Failure>)
      requires Checked(resp, reply)
      modifies resp, disk
      ensures Saving(Success(reply), folder).Failure? ==>
                r == Fail(Saving(Success(reply), folder).error) && unchanged(disk)
      ensures Saving(Success(reply), folder).Success? ==>
                var saved := Saving(Success(reply), folder).value;
                && r == Pass
                && disk.files == old(disk.files)[saved.path := saved.data]
                && disk.writes == old(disk.writes) + Chunks(saved.data, BlockSize)
                && disk.openFiles == old(disk.openFiles) - {saved.path}
    {
      var name := GetFilename(resp.headers);
      if name.Failure? {
        return Fail(name.error);
      }
      if name.value.None? || name.value.value == "" {
        return Fail(ConnectionError(NoFilenameMessage));
      }
      if !IsImageData(resp.headers) {
        return Fail(ConnectionError(NoImageMessage));
      }
      ImageDataIsNotText(resp.headers, reply.body);
      WriteResponse(resp, PathJoin(folder, name.value.value));
      r := Pass;
    }

    /** `download_image`: fetch `url` (a login page is refused), then save it under `folder`. */
    method DownloadImage(url: string, folder: string) returns (r: Wrappers.Outcome<Failure>)
      modifies opener, disk
      ensures opener.log == old(opener.log) + Safe(opener.network, |old(opener.log)|, url).requests
      ensures var d := Saving(Safe(opener.network, |old(opener.log)|, url).result, folder);
              && (d.Failure? ==> r == Fail(d.error) && unchanged(disk))
              && (d.Success? ==>
                    && r == Pass
                    && disk.files == old(disk.files)[d.value.path := d.value.data]
                    && disk.writes == old(disk.writes) + Chunks(d.value.data, BlockSize)
                    && disk.openFiles == old(disk.openFiles) - {d.value.path})
    {
      ghost var s := Safe(opener.network, |opener.log|, url);
      var resp := GetResponseSafe(url, |opener.log|);
      if resp.Failure? {
        return Fail(resp.error);
      }
      r := Persist(resp.value, s.result.value, folder);
    }

    /** `download_wado_image`: fetch the resource the parameters name with the login handshake, then save it. */
    method DownloadWadoImage(params: seq<Param>, folder: string) returns (r: Wrappers.Outcome<Failure>)
      modifies opener, disk
      ensures var t := TopLevel(config, opener.network, |old(opener.log)|, config.ResourceUrl(params));
              && opener.log == old(opener.log) + t.requests
              && var d := Saving(t.result, folder);
              && (d.Failure? ==> r == Fail(d.error) && unchanged(disk))
              && (d.Success? ==>
                    && r == Pass
                    && disk.files == old(disk.files)[d.value.path := d.value.data]
                    && disk.writes == old(disk.writes) + Chunks(d.value.data, BlockSize)
                    && disk.openFiles == old(disk.openFiles) - {d.value.path})
    {
      var url := config.ResourceUrl(params);
      ghost var t := TopLevel(config, opener.network, |opener.log|, url);
      var resp := GetResponseTopLevel(url);
      if resp.Failure? {
        return Fail(resp.error);
      }
      r := Persist(resp.value, t.result.value, folder);
    }
  }
}
