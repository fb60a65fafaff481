# WADO client: a verified model of its decision layer

`wado` is a small Python client for WADO, the web access to DICOM persistent objects
(DICOM PS 3.18). A `WadoConnection` holds a host, a port, credentials and an optional forced
transfer syntax. It builds resource and login URLs and fetches a resource with a retry loop
over a fixed timeout schedule. It recognises the server's login page and works around the
server's login quirk: the answer to the login request is the resource first asked for. It
maps URLErrors onto its own exception hierarchy, lets other transport exceptions pass
through, and writes the image it receives into a file in 8192-byte blocks.
`WadoServerResponse` wraps one reply. It classifies the reply by its headers (HTML text,
image data, login page), keeps the text of a page once read, and extracts the file name
from `Content-Disposition`.

This project models all of that in Dafny and proves what the client promises.

| file | models |
|---|---|
| `wrappers.dfy` | `Option`, `Result` and a pass/fail `Outcome` |
| `text.dfy` | the few `str` operations the client relies on, including `str.replace` |
| `errors.dfy` | urllib's `URLError`/`HTTPError` and the `WadoWrapperException` hierarchy, plus the raw Python exceptions that can escape it |
| `urlencode.dfy` | `urllib.parse.urlencode` with `quote_plus` over UTF-8, and its inverse |
| `urls.dfy` | the connection settings, resource URL, login URL and password redaction |
| `classifier.dfy` | the header predicates, `get_filename`, and `WadoServerResponse` as a class with a read-once body stream and the `_text` memo |
| `transport.dfy` | the network, the retry loop `get_response_raw` as a specification function, the loop as written, and the opener as a class that logs every request |
| `session.dfy` | `handle_urlerror`, the handshake (`get_response_safe`, `get_response_top_level`), the download checks, the file store, and `WadoConnection`, whose methods are proved equal to the specification functions |

The network is a parameter of the model. It is a function from the number of requests sent
so far and the request (URL and timeout) to the outcome of that request: a timeout, an
answer (status, headers, body) or a URLError. So a server whose answers depend on the
history of requests, such as one that accepts a login, is just another network. Any other
exception that `opener.open` raises, such as `ConnectionResetError` or
`http.client.InvalidURL`, is an outcome that names the exception. The client catches none of
these, and the model lets them escape unwrapped. The methods of `WadoConnection` drive an `Opener` that records every request it sends. Their contracts
fix both the result and the exact list of requests in terms of the pure functions
`Transport.Fetch`, `Session.Safe` and `Session.TopLevel`.

Where the documentation and the code disagree, the model follows the code. The docstring
of `get_response_top_level` (wado/wado.py:133-138) says that anything going wrong is raised
as a `WadoWrapperException`. In the code, `handle_urlerror` only sees `URLError`s, so other
exceptions escape unwrapped. Among them are a transport exception other than a URLError, and
what a run in which every attempt times out raises: UnboundLocalError as written (see
"## Findings"), or `socket.timeout` once the retry loop is corrected. The connection
methods of the model use the corrected loop. `Session.TopLevelOutcome` states which of
these the model lets escape: `RawTimeout` and `RawException`. Others escape too, and the
model leaves them out (see "## Left out"): a `UnicodeDecodeError` from a page that is not
valid UTF-8, and a failing read of the body.

## Model

| member | source | states |
|---|---|---|
| Urls.Config.BaseUrlForQuery | wado/wado.py:82-85 | the query base `http://{host}:{port}/wado/?` (no contract: it is the prefix ResourceUrl's contract promises) |
| Urls.Config.TransferSuffix | wado/wado.py:100-101 | the transfer-syntax suffix is empty exactly when no syntax is forced, and an empty string counts as not forced (Python truthiness) |
| Urls.Config.ResourceUrl | wado/wado.py:82-102 | a resource URL starts with `http://{host}:{port}/wado/?` and ends with the forced transfer-syntax suffix |
| Urls.ResourceUrlHasLiterals | wado/wado.py:96-99 | with parameters, the URL contains `&contentType=application/dicom&requestType=WADO` |
| Urls.ResourceUrlWithoutParams | wado/wado.py:96-102 | without parameters, the URL is the base URL plus the suffix; with no forced syntax it is the base URL alone, so the literals are absent |
| Urls.ResourceUrlEndsWithSyntax | wado/wado.py:100-102 | a forced syntax `v` makes the URL end in `&transferSyntax=v` |
| Urls.ResourceUrlRoundTrip | wado/wado.py:87-102 | the parameters a resource URL was built from are recovered exactly from it, so the encoding is injective |
| UrlEncoding.UrlEncode | wado/wado.py:97-98 | the encoded query is empty exactly when there are no parameters |
| UrlEncoding.Utf8RoundTrip | wado/wado.py:98 | decoding the UTF-8 encoding of a string gives the string back |
| UrlEncoding.QuotePlusRoundTrip | wado/wado.py:98 | unquoting `quote_plus(s)` gives `s` back |
| UrlEncoding.QueryRoundTrip | wado/wado.py:98 | parsing `urlencode(params)` gives `params` back |
| Urls.Config.LoginUrl | wado/wado.py:104-116 | the login URL is `http://{host}:{port}/wado/j_security_check?j_username={user}` followed by `&j_password={password}`, both inserted verbatim |
| Urls.Config.MakeSafeForLogging | wado/wado.py:354-358 | a message that does not contain a non-empty password is logged unchanged |
| Text.Replace | wado/wado.py:358 | Python's `str.replace`: left to right and non-overlapping, with an empty pattern putting the replacement around every character (no contract; its meaning is given by the three lemmas below) |
| Text.ReplaceAbsent | wado/wado.py:358 | `str.replace` leaves a string without the pattern unchanged |
| Text.ReplaceFromFirst | wado/wado.py:358 | scanning from any position, the first occurrence of the pattern is replaced and the scan resumes right after it (non-overlapping, left to right) |
| Text.ReplaceFirstOccurrence | wado/wado.py:358 | `str.replace` copies everything before the first occurrence, puts the replacement there and continues after the occurrence |
| Urls.LoginUrlRedacted | wado/wado.py:104-116 | when the password occurs in the login URL only where it is inserted, the logged login URL is the URL with the password replaced by `<password>` |
| Classifier.IsTextResponse | wado/wado.py:491-504 | a reply without Content-Type raises the "No content-type" server-response exception; otherwise the result is whether Content-Type contains `text/html` |
| Classifier.IsImageData | wado/wado.py:506-521 | Content-Type is exactly `application/dicom` or one of `image/jpeg`, `image/gif`, `image/bmp`, `image/tiff` (no contract; a predicate stating the source's test) |
| Classifier.IsPasswordPage | wado/wado.py:479-489 | it fails exactly when Content-Type is missing; a login page is always a text response; a non-text response is never a login page |
| Classifier.ImageDataIsNotText | wado/wado.py:479-521 | DICOM and the four image types are not HTML, so such a reply is judged not to be a login page, for every body |
| Classifier.HeaderParams | wado/wado.py:543 | the parameter dictionary of `cgi.parse_header`, simplified as "## Left out" says (no contract; FilenameOfDisposition states what it gives for the server's header) |
| Classifier.GetFilename | wado/wado.py:535-545 | a missing or empty Content-Disposition gives None, and exactly then; a disposition without `filename` raises KeyError('filename') |
| Classifier.FilenameOfDisposition | wado/wado.py:535-545 | `val=test;filename=f` names the file `f`, the form of the mock server's header at tests/test_wado.py:57-64 |
| Classifier.ServerResponse.constructor | wado/wado.py:474-477 | a new response wraps the reply with its whole body unread and no text kept |
| Classifier.ServerResponse.Read | wado/wado.py:391 | `read(amt)` returns the next `min(amt, remaining)` bytes of the stream and consumes exactly those |
| Classifier.ServerResponse.Text | wado/wado.py:523-533 | a kept non-empty text is returned without reading; otherwise an HTML reply reads and keeps the whole remaining stream, a non-HTML reply keeps what it had and reads nothing, and a reply without Content-Type raises |
| Classifier.ServerResponse.IsPasswordRequestPage | wado/wado.py:479-489 | the result is IsPasswordPage of the text; a non-text reply leaves the stream untouched; an HTML reply ends with its text kept |
| Transport.Opener.constructor | wado/wado.py:72-80 | a new opener talks to the given network and has sent nothing |
| Transport.Opener.Open | wado/wado.py:303 | sending a request appends it to the log, and its outcome is the network's outcome for that position in the history |
| Transport.Scheduled | wado/wado.py:295-303 | the series of requests for the URL with the timeouts of the schedule `[30, 30, 30, 300]`, in order (no contract; AttemptsRequests and FetchRequests state that the loop sends a prefix of it) |
| Transport.Attempts | wado/wado.py:300-310 | the retry loop from attempt `i`, corrected as "## Findings" says (no contract; the lemmas below state its behaviour) |
| Transport.Fetch | wado/wado.py:295-310 | `get_response_raw(url)` after `n` earlier requests: the loop from the first attempt (no contract; the lemmas below state its behaviour) |
| Transport.AttemptsBounds | wado/wado.py:300-310 | from any attempt `i` within the schedule, the loop sends at least one request, and never more than the schedule has left; only a timeout, a URLError or another transport exception escapes |
| Transport.FetchBounds | wado/wado.py:295-310 | the loop sends one to four requests; only a timeout, a URLError or another transport exception escapes |
| Transport.AttemptsRetry | wado/wado.py:304-309 | a timeout or a non-200 answer moves on to the next timeout; the non-200 answer becomes the response kept |
| Transport.AttemptsDecisive | wado/wado.py:302-308 | a 200 answer, a URLError or another transport exception ends the loop at once with that result, after that one request |
| Transport.AttemptsRequests | wado/wado.py:300-303 | from attempt `i`, the requests are the scheduled ones, in order |
| Transport.RequestsRetry | wado/wado.py:300-309 | a retried attempt sends its own request and then the scheduled requests of the attempts after it |
| Transport.FetchRequests | wado/wado.py:295-303 | the loop sends between one and four requests, and the k-th uses the k-th timeout |
| Transport.AttemptsCarry | wado/wado.py:304-309 | an attempt that is not decisive passes the latest answer of the attempts so far on to the next one, and adds its own request |
| Transport.AttemptsUndecided | wado/wado.py:300-310 | until the first decisive attempt, the loop carries the latest answer so far and ends at that attempt |
| Transport.FetchStopsAtDecisive | wado/wado.py:300-310 | at the first 200 answer or exception other than a timeout (attempt `j`), exactly `j + 1` requests are sent; the 200 answer is returned, or the URLError or other exception escapes with no retry |
| Transport.RetryUntilSuccess | wado/wado.py:300-310 | timeouts and then a 200 on attempt `N` return that answer after exactly `N` requests |
| Transport.AttemptsExhausted | wado/wado.py:300-310 | with no decisive attempt, the loop runs to the end of the schedule and returns the latest answer |
| Transport.FetchExhausted | wado/wado.py:295-310 | with no decisive outcome (a 200, a URLError or another transport exception), all four requests are sent and the latest answer is returned; with only timeouts, the timeout escapes |
| Transport.AttemptsAsWritten | wado/wado.py:300-310 | the loop as written: a failure is a URLError, another transport exception or UnboundLocalError, and never the timeout itself, because the re-raise guard never holds |
| Transport.AsWrittenDiffersOnlyWhenUnbound | wado/wado.py:304-310 | the loop as written and the corrected loop send the same requests and agree on the result, except that where the corrected loop lets the timeout escape, the written one raises UnboundLocalError |
| Transport.AllTimeoutsUnbound | wado/wado.py:304-310 | four timeouts make the written loop raise UnboundLocalError and the corrected one the timeout |
| Errors.ErrorText | wado/wado.py:246 | `str(e)` of a URLError as urllib formats it, quoted by every message of `handle_urlerror` (no contract; HandleUrlErrorMessages states where it appears) |
| Errors.Failure.IsWrapper | wado/wado.py:559-583 | the exceptions of the `WadoWrapperException` hierarchy, as opposed to the raw exceptions that escape it (no contract; a predicate the handshake lemmas state their results with) |
| Session.HandleUrlError | wado/wado.py:234-271 | every URLError becomes a client exception other than the auth exception; an HTTP error, and only an HTTP error, becomes a server-response exception that keeps the original; reason "Not Found", and only that, means resource not found; anything else is a connection exception |
| Session.HandleUrlErrorMessages | wado/wado.py:239-271 | every HTTP message names the requested URL and quotes the original error; for a 500 it hints at `seriesUID`, for a 403 at the credentials; the not-found message names the URL; the connection message names `host:port` and quotes the original error |
| Session.HttpErrorMessage | wado/wado.py:239-260 | the message of an HTTP error contains the URL, the original error and, for 500 and 403, the hint |
| Session.HttpErrorHints | wado/wado.py:240-252 | the 500 hint mentions `seriesUID` and the 403 hint the credentials |
| Session.Safe | wado/wado.py:365-383 | `get_response_safe(url)` after `n` earlier requests (no contract; SafeOutcome states its behaviour) |
| Session.SafeOutcome | wado/wado.py:365-383 | `get_response_safe` sends exactly the requests of the retry loop; a failure of the loop is passed on unchanged; a reply is refused with the "Not authenticated" exception exactly when it is a login page, one without Content-Type raises the "No content-type" exception, and any other reply is returned unchanged; so a failure is what the retry loop lets escape, the login-page refusal or a missing Content-Type |
| Session.TopLevel | wado/wado.py:157-187 | `get_response_top_level(url)` after `n` earlier requests (no contract; TopLevelOutcome, TopLevelCases and the lemmas after them state its behaviour) |
| Session.AfterLogin | wado/wado.py:163-182 | the inner `try` of `get_response_top_level`, given the first fetch and the login fetch (no contract; AfterLoginOutcome states its behaviour) |
| Session.TopLevelOutcome | wado/wado.py:157-187 | a successful first fetch is the result with no login request; otherwise the requests after the first series are either none or exactly the series `get_response_safe` sends for the login URL; a result is never a login page; a failure is a client exception, a raw timeout, or a raw transport exception other than a URLError |
| Session.TopLevelCases | wado/wado.py:157-187 | the handshake case by case: success passes through, a login page leads to the login fetch, a URLError goes to `handle_urlerror` with the resource URL, and any other failure passes through unchanged |
| Session.AfterLoginOutcome | wado/wado.py:163-182 | the login stage appends the login series; a reply to the login request is the result; its failures become client exceptions, except a raw timeout or a raw transport exception other than a URLError |
| Session.AfterLoginPage | wado/wado.py:163-182 | after a login page: a second login page gives the auth exception naming the user; a reply without Content-Type gives a connection exception ("not HTML"); a URLError is mapped with the original resource URL |
| Session.LoginPageEverywhere | tests/test_wado.py:159-175 | a server that always sends the login page: the plain fetch refuses it after one request, and the handshake gives the credentials error after exactly one login request |
| Session.LoginThenResource | wado/wado.py:140-153 | the server's quirk: a login page for the resource, then the resource in answer to the login request, gives that resource after two requests |
| Session.UrlErrorEverywhere | tests/test_wado.py:177-224 | a URLError on every request escapes raw from the plain fetch after one request, and the handshake maps it through `handle_urlerror` |
| Session.TransportExceptionEverywhere | wado/wado.py:157-187 | a transport exception other than a URLError on every request escapes unwrapped, after one request, from both the plain fetch and the handshake |
| Session.PathJoin | wado/wado.py:231 | `os.path.join(folder, name)` ends with the name, and starts with the folder unless the name is absolute |
| Session.Saving | wado/wado.py:219-231 | a download is saved exactly when the reply is image data with a non-empty file name, and then the file receives the body; a missing name is reported before a wrong type |
| Session.ChunksFlatten | wado/wado.py:390-394 | written one after another, the blocks read from the stream are exactly its bytes |
| Session.ChunksStep | wado/wado.py:390-394 | reading one block off the stream takes its first chunk, and the rest of the stream holds the remaining chunks |
| Session.ChunksBounded | wado/wado.py:389-391 | every block is non-empty and at most 8192 bytes, and only the last may be shorter |
| Session.FileStore.Open | wado/wado.py:388 | opening for writing creates or empties the file |
| Session.FileStore.Write | wado/wado.py:394 | a write appends the block to the open file and to the write log |
| Session.FileStore.Close | wado/wado.py:396 | closing changes no file content |
| Session.WadoConnection.constructor | wado/wado.py:38-64 | a connection keeps its settings and starts with a fresh opener that has sent nothing |
| Session.RetryCarries | wado/wado.py:300-309 | after a swallowed timeout or a kept non-200 answer, the requests sent so far plus the rest of the schedule still make up `get_response_raw` |
| Session.WadoConnection.GetResponseRaw | wado/wado.py:295-310 | the loop returns Fetch's result and sends exactly Fetch's requests |
| Session.WadoConnection.GetResponse | wado/wado.py:312-337 | the raw result wrapped in a fresh response whose body is unread |
| Session.WadoConnection.GetResponseSafe | wado/wado.py:365-383 | the result and requests are those of Safe; a returned response has been checked, so its text is kept if it is HTML and its body is untouched otherwise |
| Session.WadoConnection.GetResponseTopLevel | wado/wado.py:157-187 | the result and requests are those of TopLevel |
| Session.WadoConnection.LoginAfterRefusal | wado/wado.py:163-182 | after a login page, the login stage completes TopLevel's result and request log |
| Session.WadoConnection.WriteResponse | wado/wado.py:385-396 | the file receives exactly the unread bytes of the stream, written in 8192-byte blocks in order, and is closed; the stream is drained |
| Session.WadoConnection.Persist | wado/wado.py:219-232 | a reply Saving rejects fails with Saving's exception and leaves the disk untouched; otherwise the file at `join(folder, filename)` holds exactly the body |
| Session.WadoConnection.DownloadImage | wado/wado.py:398-434 | fetch with Safe, so a raw URLError escapes, then save as Saving says |
| Session.WadoConnection.DownloadWadoImage | wado/wado.py:189-232 | fetch the resource URL with the handshake, so a URLError is re-raised as a client exception, then save as Saving says |

## Left out

- urllib, the cookie jar and the lazily built opener (wado/wado.py:72-80): the network is an abstract function of the request history, and cookies are part of that function.
- `RLock` and the `with self.__lock` blocks: the model is sequential.
- Session.WadoConnection.GetResponseRaw: the connection methods (GetResponseRaw, GetResponse, GetResponseSafe, GetResponseTopLevel, DownloadImage and DownloadWadoImage) follow the corrected retry loop of "## Findings". On a network where every attempt times out they give RawTimeout, where the code as written raises UnboundLocalError. Transport.AttemptsAsWritten models the code as written.
- Real timing: a timeout is an outcome of the network, and only the schedule values are kept.
- `cgi.parse_header` is simplified. It splits on `;` without quote awareness, strips, lower-cases the name, removes surrounding quotes, and the last parameter wins. It does not undo backslash escapes inside a quoted value. Its `strip()` removes only the six ASCII whitespace characters, not the other characters Python counts as whitespace (such as `\x1c`-`\x1f`, `\x85` and `\xa0`). Its lower-casing of the name is ASCII only, not Unicode `str.lower()`.
- Decoding the body as UTF-8 and `str.lower()` are modelled as ISO 8859-1 bytes and ASCII lower-casing. The marker `user login at` is ASCII. A body that is not valid UTF-8, which raises in the client, is not modelled.
- Header lookup is exact. The case-insensitive lookup of `HTTPMessage` is not modelled, nor is the `getheader` branch of the classifier.
- `os.path.join` is modelled for POSIX paths and two arguments only.
- `mylog` and the logging calls are left out. The ERROR branch at wado/wado.py:348 logs the unredacted message and then calls the result of `logger.error`, which is None.
- `get_response_type` is left out. It calls the property `is_image_data` as a function (wado/wado.py:553), so it fails on every reply that is not a login page.
- `write_response` has no `try/finally`. The model does not claim that the file is closed when a read or a write raises, and reads and writes do not fail in the model.
- Session.WadoConnection.WriteResponse: a read returns fewer bytes than asked only at the end of the stream, as it does for the in-memory bodies of the tests. Short reads of a socket before the end are not modelled.
- `__repr__`, the `WadoServerResponseType` and `DICOMTransferSyntax` constants, tests/test_wado.py and examples/wado_usage_example.py are not part of this model.

## Findings

| source | as written | input that shows it | evidently intended | confidence | as-written member | corrected member |
|---|---|---|---|---|---|---|
| wado/wado.py:304-310 | the guard `timeout_i >= len(timeouts_series)` never holds, because `timeout_i` is at most 3, so the last `socket.timeout` is swallowed and `return u` reads a variable that was never assigned | a network on which all four attempts time out: the loop raises UnboundLocalError instead of the timeout | return the latest answer received; re-raise the timeout only when no answer was ever received, so a server that never answers surfaces as `socket.timeout` | not executed | Transport.AttemptsAsWritten, Transport.AllTimeoutsUnbound | Transport.FetchExhausted, Transport.AsWrittenDiffersOnlyWhenUnbound |
