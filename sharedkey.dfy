/**
 * `AzureBlobDownload.download_file` (run.py:63-125): the Azure Storage "Authorize with Shared Key"
 * request for one blob. HMAC-SHA256, Base64 and UTF-8 are the library's; the model takes them as
 * given functions.
 */
module SharedKey {
  import opened Wrappers
  import opened Exceptions
  import opened Text

  newtype byte = x: int | 0 <= x < 256

  /** The library calls the signature is made of. `b64decode` answers `None` where Python raises. */
  datatype Primitives = Primitives(
    b64decode: string -> Option<seq<byte>>,
    b64encode: seq<byte> -> string,
    hmacSha256: (seq<byte>, seq<byte>) -> seq<byte>,
    utf8: string -> seq<byte>)

  const VERB: string := "GET"
  const API_VERSION: string := "2018-03-28"

  /** The eleven standard headers of the string-to-sign, in the order they are signed. */
  const STANDARD_HEADERS: seq<string> := [
    "Content-Encoding", "Content-Language", "Content-Length", "Content-MD5", "Content-Type", "Date",
    "If-Modified-Since", "If-Match", "If-None-Match", "If-Unmodified-Since", "Range"]

  /** The request sends none of the standard headers, so each one signs as the empty string. */
  function StandardHeaderValue(header: string): string
  {
    ""
  }

  /** The `x-ms-*` headers as signed, ordered by name. */
  function HeaderLines(requestTime: string): seq<string>
  {
    ["x-ms-date:" + requestTime, "x-ms-version:" + API_VERSION]
  }

  /** The `x-ms-*` headers, each followed by a newline. */
  function CanonicalizedHeaders(requestTime: string): string
  {
    Terminated(HeaderLines(requestTime), '\n')
  }

  function CanonicalizedResource(account: string, container: string, blob: string): string
  {
    "/" + account + "/" + container + "/" + blob
  }

  /** The verb and the value of each standard header, in the order they are signed. */
  function SignedSlots(): seq<string>
  {
    [VERB] + seq(|STANDARD_HEADERS|, i requires 0 <= i < |STANDARD_HEADERS| => StandardHeaderValue(STANDARD_HEADERS[i]))
  }

  /**
   * The string-to-sign: the slots, each ended by a newline (written out as `SIGN_PREFIX`, which
   * `SignedSlotsText` shows is that text), then the canonical headers and the canonical resource with
   * nothing between.
   */
  function StringToSign(requestTime: string, account: string, container: string, blob: string): string
  {
    SIGN_PREFIX + CanonicalizedHeaders(requestTime) + CanonicalizedResource(account, container, blob)
  }

  /** "GET" and twelve newlines: the verb and the eleven empty standard-header slots, each ended by a newline. */
  const SIGN_PREFIX: string := "GET\n\n\n\n\n\n\n\n\n\n\n\n"

  /** `n` empty strings. */
  function Empties(n: nat): (s: seq<string>)
    ensures |s| == n && forall i :: 0 <= i < n ==> s[i] == ""
  {
    if n == 0 then [] else [""] + Empties(n - 1)
  }

  /** `n` newlines. */
  function Newlines(n: nat): (s: string)
    ensures |s| == n && forall i :: 0 <= i < n ==> s[i] == '\n'
  {
    if n == 0 then "" else "\n" + Newlines(n - 1)
  }

  /** Empty values, each followed by a newline, leave only the newlines. */
  lemma {:induction false} TerminatedEmpties(n: nat)
    ensures Terminated(Empties(n), '\n') == Newlines(n)
  {
    if n > 0 {
      TerminatedEmpties(n - 1);
      assert Empties(n)[1..] == Empties(n - 1);
    }
  }

  /** The eleven standard-header slots are empty: the verb is followed by twelve newlines. */
  lemma SignedSlotsText()
    ensures SignedSlots() == [VERB] + Empties(11)
    ensures |SIGN_PREFIX| == 15 && Terminated(SignedSlots(), '\n') == SIGN_PREFIX
  {
    assert SignedSlots() == [VERB] + Empties(11);
    TerminatedEmpties(11);
    assert ([VERB] + Empties(11))[1..] == Empties(11);
    assert Newlines(12) == "\n" + Newlines(11);
    assert SIGN_PREFIX == "GET" + Newlines(12);
  }

  /** The canonical headers, written out. */
  lemma CanonicalizedHeadersText(t: string)
    ensures CanonicalizedHeaders(t) == "x-ms-date:" + t + "\n" + "x-ms-version:" + API_VERSION + "\n"
  {
    var date, version := "x-ms-date:" + t, "x-ms-version:" + API_VERSION;
    assert HeaderLines(t)[1..] == [version];
    assert [version][1..] == [];
    assert Terminated([version], '\n') == version + ['\n'];
    assert CanonicalizedHeaders(t) == date + ['\n'] + (version + ['\n']);
  }

  /**
   * The string-to-sign: a fixed 15-character prefix that no input changes, then the `x-ms-date` and
   * `x-ms-version` lines, then the resource with no separator before it.
   */
  lemma StringToSignLayout(t: string, account: string, container: string, blob: string)
    ensures SIGN_PREFIX <= StringToSign(t, account, container, blob)
    ensures StringToSign(t, account, container, blob) ==
      SIGN_PREFIX + ("x-ms-date:" + t + "\n" + "x-ms-version:" + API_VERSION + "\n") + ("/" + account + "/" + container + "/" + blob)
  {
    SignedSlotsText();
    CanonicalizedHeadersText(t);
  }

  /** With no newline in the inputs, the string-to-sign splits at its newlines into the fifteen signed fields. */
  lemma StringToSignFields(t: string, account: string, container: string, blob: string)
    requires '\n' !in t && '\n' !in account && '\n' !in container && '\n' !in blob
    ensures Split(StringToSign(t, account, container, blob), '\n') ==
      [VERB] + Empties(11) + HeaderLines(t) + [CanonicalizedResource(account, container, blob)]
  {
    var fields := SignedSlots() + HeaderLines(t);
    var last := CanonicalizedResource(account, container, blob);
    SignedSlotsText();
    TerminatedAppend(SignedSlots(), HeaderLines(t), '\n');
    assert StringToSign(t, account, container, blob) == Terminated(fields, '\n') + last;
    forall k | 0 <= k < |fields|
      ensures '\n' !in fields[k]
    {
      if k < 12 {
        assert fields[k] == SignedSlots()[k];
      }
    }
    SplitTerminated(fields, last, '\n');
  }

  /** Equal strings with a common prefix have equal rests. */
  lemma DropPrefix(p: string, x: string, y: string)
    requires p + x == p + y
    ensures x == y
  {
    assert x == (p + x)[|p|..];
    assert y == (p + y)[|p|..];
  }

  /**
   * The signature covers every input: two requests that sign the same string have the same time,
   * account, container and blob, as long as no input has a newline and the account and container no slash.
   */
  lemma StringToSignInjective(t1: string, a1: string, c1: string, b1: string, t2: string, a2: string, c2: string, b2: string)
    requires '\n' !in t1 && '\n' !in a1 && '\n' !in c1 && '\n' !in b1
    requires '\n' !in t2 && '\n' !in a2 && '\n' !in c2 && '\n' !in b2
    requires '/' !in a1 && '/' !in a2 && '/' !in c1 && '/' !in c2
    requires StringToSign(t1, a1, c1, b1) == StringToSign(t2, a2, c2, b2)
    ensures t1 == t2 && a1 == a2 && c1 == c2 && b1 == b2
  {
    StringToSignFields(t1, a1, c1, b1);
    StringToSignFields(t2, a2, c2, b2);
    var f1 := [VERB] + Empties(11) + HeaderLines(t1) + [CanonicalizedResource(a1, c1, b1)];
    var f2 := [VERB] + Empties(11) + HeaderLines(t2) + [CanonicalizedResource(a2, c2, b2)];
    assert f1[12] == "x-ms-date:" + t1 && f2[12] == "x-ms-date:" + t2;
    DropPrefix("x-ms-date:", t1, t2);
    assert f1[14] == CanonicalizedResource(a1, c1, b1) && f2[14] == CanonicalizedResource(a2, c2, b2);
    var r1, r2 := c1 + ['/'] + b1, c2 + ['/'] + b2;
    assert CanonicalizedResource(a1, c1, b1) == ['/'] + (a1 + ['/'] + r1);
    assert CanonicalizedResource(a2, c2, b2) == ['/'] + (a2 + ['/'] + r2);
    DropPrefix(['/'], a1 + ['/'] + r1, a2 + ['/'] + r2);
    SplitPrefixUnique(a1, r1, a2, r2, '/');
    SplitPrefixUnique(c1, b1, c2, b2, '/');
  }

  /** `base64.b64encode(hmac.new(b64decode(key), utf8(message), sha256).digest())`. */
  function Signature(key: string, message: string, prims: Primitives): Result<string, Exception>
  {
    match prims.b64decode(key)
    case None => Err(Base64Error)
    case Some(secret) => Ok(prims.b64encode(prims.hmacSha256(secret, prims.utf8(message))))
  }

  /** The three request headers. */
  datatype Headers = Headers(msDate: string, msVersion: string, authorization: string)

  /** The URL the request goes to; the `url` argument plays no part. */
  function BlobUrl(account: string, container: string, blob: string): string
  {
    "https://" + account + ".blob.core.windows.net/" + container + "/" + blob
  }

  /** The keyword arguments that matter before the request: `path` and `keep`. */
  datatype Options = Options(path: Option<string>, keep: bool)

  /** No keyword arguments: no path, and `keep` is false. */
  const DEFAULT_OPTIONS: Options := Options(None, false)

  /** What `setup` is given. */
  datatype Request = Request(url: string, headers: Headers)

  datatype Download =
      /** `keep` was set and the URL exists: `path` is returned as it is. */
    | Kept(path: Option<string>)
      /** The request is set up and streamed to `path`. */
    | Streamed(request: Request, path: Option<string>)

  /**
   * `download_file`: the time of the request, `pathExists` (`os.path.exists`) and the primitives are given.
   * The key is decoded before the `keep` test, so an invalid key fails even when the file is kept.
   */
  function DownloadFile(url: string, account: string, container: string, key: string, blob: string,
                        options: Options, requestTime: string, pathExists: string -> bool, prims: Primitives): Result<Download, Exception>
  {
    var message := StringToSign(requestTime, account, container, blob);
    match Signature(key, message, prims)
    case Err(e) => Err(e)
    case Ok(signed) =>
      var headers := Headers(requestTime, API_VERSION, "SharedKey " + account + ":" + signed);
      var target := BlobUrl(account, container, blob);
      if options.keep && pathExists(target) then Ok(Kept(options.path))
      else Ok(Streamed(Request(target, headers), options.path))
  }

  /** The `url` argument is overwritten before it is used: it cannot change the outcome. */
  lemma DownloadIgnoresUrl(url1: string, url2: string, account: string, container: string, key: string, blob: string,
                           options: Options, t: string, pathExists: string -> bool, prims: Primitives)
    ensures DownloadFile(url1, account, container, key, blob, options, t, pathExists, prims)
         == DownloadFile(url2, account, container, key, blob, options, t, pathExists, prims)
  {
  }

  /** A key Base64 rejects fails the call, whatever `keep` and `pathExists` say. */
  lemma InvalidKeyFails(url: string, account: string, container: string, key: string, blob: string,
                        options: Options, t: string, pathExists: string -> bool, prims: Primitives)
    ensures prims.b64decode(key).None? <==>
      DownloadFile(url, account, container, key, blob, options, t, pathExists, prims) == Err(Base64Error)
  {
  }

  /** With a valid key, the call returns `path` without a request exactly when `keep` is set and the blob URL exists. */
  lemma KeepShortCircuit(url: string, account: string, container: string, key: string, blob: string,
                         options: Options, t: string, pathExists: string -> bool, prims: Primitives)
    requires prims.b64decode(key).Some?
    ensures DownloadFile(url, account, container, key, blob, options, t, pathExists, prims).Ok?
    ensures DownloadFile(url, account, container, key, blob, options, t, pathExists, prims).value.Kept? <==>
      options.keep && pathExists(BlobUrl(account, container, blob))
    ensures DownloadFile(url, account, container, key, blob, options, t, pathExists, prims).value.path == options.path
  {
  }

  /** Without keyword arguments a valid key always leads to a streamed request. */
  lemma DefaultOptionsStream(url: string, account: string, container: string, key: string, blob: string,
                             t: string, pathExists: string -> bool, prims: Primitives)
    requires prims.b64decode(key).Some?
    ensures DownloadFile(url, account, container, key, blob, DEFAULT_OPTIONS, t, pathExists, prims).Ok?
    ensures DownloadFile(url, account, container, key, blob, DEFAULT_OPTIONS, t, pathExists, prims).value.Streamed?
  {
  }

  /**
   * For any input, the streamed request goes to the blob URL with version `2018-03-28` and carries the
   * account's Shared Key signature of the string-to-sign.
   */
  lemma RequestUrlAndAuthorization(url: string, account: string, container: string, key: string, blob: string,
                                   options: Options, t: string, pathExists: string -> bool, prims: Primitives)
    requires DownloadFile(url, account, container, key, blob, options, t, pathExists, prims).Ok?
    requires DownloadFile(url, account, container, key, blob, options, t, pathExists, prims).value.Streamed?
    ensures var request := DownloadFile(url, account, container, key, blob, options, t, pathExists, prims).value.request;
      var message := StringToSign(t, account, container, blob);
      && request.url == "https://" + account + ".blob.core.windows.net/" + container + "/" + blob
      && request.headers.msDate == t
      && request.headers.msVersion == "2018-03-28"
      && prims.b64decode(key).Some?
      && request.headers.authorization ==
         "SharedKey " + account + ":" + prims.b64encode(prims.hmacSha256(prims.b64decode(key).value, prims.utf8(message)))
  {
  }

  /**
   * The streamed request goes to the blob URL, and its headers carry exactly the time and version that
   * were signed and the account's Shared Key signature of that string. Reading the two header values
   * back out of the signed string's fields needs the inputs to be free of newlines.
   */
  lemma RequestMatchesSignedString(url: string, account: string, container: string, key: string, blob: string,
                                   options: Options, t: string, pathExists: string -> bool, prims: Primitives)
    requires '\n' !in t && '\n' !in account && '\n' !in container && '\n' !in blob
    requires DownloadFile(url, account, container, key, blob, options, t, pathExists, prims).Ok?
    requires DownloadFile(url, account, container, key, blob, options, t, pathExists, prims).value.Streamed?
    ensures var request := DownloadFile(url, account, container, key, blob, options, t, pathExists, prims).value.request;
      var message := StringToSign(t, account, container, blob);
      var fields := Split(message, '\n');
      && request.url == "https://" + account + ".blob.core.windows.net/" + container + "/" + blob
      && |fields| == 15
      && fields[12] == "x-ms-date:" + request.headers.msDate
      && fields[13] == "x-ms-version:" + request.headers.msVersion
      && request.headers.msVersion == "2018-03-28"
      && prims.b64decode(key).Some?
      && request.headers.authorization ==
         "SharedKey " + account + ":" + prims.b64encode(prims.hmacSha256(prims.b64decode(key).value, prims.utf8(message)))
  {
    StringToSignFields(t, account, container, blob);
    CanonicalizedHeadersText(t);
  }
}
