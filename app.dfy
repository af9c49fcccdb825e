/** The two request handlers of the signed-URL file gateway (src/app.py):
    `create_upload_url_handler` issues a signed PUT URL under a fresh object
    key, `download_redirect_handler` redirects to a signed GET URL for a key
    taken from the request path.

    Both handlers are modelled as functions. What they call and cannot be
    seen is a parameter: the presigning client (`s3.generate_presigned_url`)
    is a `Signer`, `json.loads` is a parser returning `None` where it would
    raise `JSONDecodeError`, and `uuid.uuid4().hex` is the `id` argument.
    Each handler returns its response together with the requests it made of
    the signer, so that "the signer is not consulted" can be stated. */
module App {
  import opened Text

  datatype Option<T> = None | Some(value: T)

  /** The module-level settings `BUCKET_NAME`, `UPLOAD_EXPIRES`,
      `DOWNLOAD_EXPIRES` and `REDIRECT_STATUS`, fixed once at import. */
  datatype Config = Config(
    bucketName: string,
    uploadExpires: int,
    downloadExpires: int,
    redirectStatus: int)

  /** One key of a Lambda event dictionary: missing, present with the value
      `None`, or present with a value. */
  datatype Field<T> = Absent | Null | Present(value: T)

  /** A parsed request body: a JSON object whose members are strings. */
  type JsonObject = map<string, string>

  /** The part of a `POST /files` event the upload handler reads. */
  datatype UploadEvent = UploadEvent(body: Field<string>)

  /** The part of a `GET /files/{objectKey}` event the download handler reads;
      a path parameter mapped to `None` stands for a JSON `null`. */
  datatype DownloadEvent = DownloadEvent(pathParameters: Field<map<string, Option<string>>>)

  /** The arguments of one `generate_presigned_url` call: `ClientMethod`,
      `Params` and `ExpiresIn`. */
  datatype SignRequest = SignRequest(clientMethod: string, params: map<string, string>, expiresIn: int)

  /** The presigning client: the URL it returns for a request. */
  type Signer = SignRequest -> string

  /** A response body: a JSON object (what `json.dumps` serialises) or plain text. */
  datatype Body = Json(members: map<string, string>) | Plain(text: string)

  datatype Response = Response(statusCode: int, headers: map<string, string>, body: Body)

  /** What a handler invocation produced: its response and, in order, the
      requests it made of the signer. */
  datatype Handled = Handled(response: Response, signerCalls: seq<SignRequest>)

  const MissingBodyMessage := "Missing request body"
  const InvalidJsonMessage := "Body must be valid JSON"
  const MissingKeyMessage := "Missing path parameter: objectKey"
  const InvalidKeyMessage := "Invalid objectKey"
  const DefaultFileName := "file"
  const DefaultContentType := "application/octet-stream"
  const HexDigits := "0123456789abcdef"

  /** `_resp(code, {"error": message})`.
      ASSUMPTION: src/app.py calls `_resp` but does not define it. It is taken
      to build a response with status `code` and the object as its JSON body;
      the headers it would set are unknown and are modelled as none. */
  function ErrorResponse(code: int, message: string): (r: Response)
    ensures r.statusCode == code
    ensures r.body.Json? && r.body.members.Keys == {"error"} && r.body.members["error"] == message
  {
    Response(code, map[], Json(map["error" := message]))
  }

  /** A 400 rejection, made without consulting the signer. */
  function Rejected(message: string): Handled
  {
    Handled(ErrorResponse(400, message), [])
  }

  // ---------------------------------------------------------------------
  // Object keys

  /** Any 32 lower-case hexadecimal digits: a superset of the values of
      `uuid.uuid4().hex`, whose version and variant digits are also fixed. */
  predicate IsHexId(id: string)
    ensures IsHexId(id) ==> |id| == 32 && '.' !in id && Lower(id) == id
  {
    |id| == 32 && forall i :: 0 <= i < |id| ==> id[i] in HexDigits
  }

  /** `body.get(name, default)` on a parsed body. */
  function MemberOr(obj: JsonObject, name: string, default: string): (v: string)
    ensures name in obj ==> v == obj[name]
    ensures name !in obj ==> v == default
  {
    if name in obj then obj[name] else default
  }

  /** The extension kept from the client's file name: empty when the name has
      no `.`; otherwise a `.` followed by the stripped, lower-cased piece after
      the last `.`, which holds no further `.` and is unchanged by stripping
      and lower-casing again. */
  function Extension(fileName: string): (ext: string)
    ensures '.' !in fileName ==> ext == ""
    ensures '.' in fileName ==> |ext| >= 1 && ext[0] == '.' && '.' !in ext[1..]
    ensures '.' in fileName ==> Lower(Strip(ext[1..])) == ext[1..]
  {
    if '.' in fileName then
      var last := LastPiece(fileName, '.');
      StripKeepsOut(last, '.');
      LowerKeepsOut(Strip(last), '.');
      StripLowerIdempotent(last);
      "." + Lower(Strip(last))
    else
      ""
  }

  /** The extension is determined by the text after the last `.`, whatever
      comes before it. */
  lemma ExtensionAfterLastDot(prefix: string, last: string)
    requires '.' !in last
    ensures Extension(prefix + "." + last) == "." + Lower(Strip(last))
  {
    LastPieceAfterSeparator(prefix, last, '.');
  }

  /** No two characters of `s` are both `.`. */
  predicate AtMostOneDot(s: string)
  {
    forall i, j :: 0 <= i < j < |s| && s[i] == '.' ==> s[j] != '.'
  }

  /** A string with at most one `.` has no `..` in it. */
  lemma NoDoubleDot(s: string)
    requires AtMostOneDot(s)
    ensures !ContainsInfix(s, "..")
  {
    forall i | 0 <= i <= |s| - 2
      ensures !InfixAt(s, "..", i)
    {
      assert s[i..i + 2][0] == s[i] && s[i..i + 2][1] == s[i + 1];
    }
  }

  /** The download handler's guard (src/app.py:68-72) lets `key` through. */
  predicate PassesDownloadGuard(key: string)
    ensures PassesDownloadGuard(key) <==>
      key != "" && forall i | 0 <= i < |key| - 1 :: !(key[i] == '.' && key[i + 1] == '.')
  {
    ContainsPair(key, "..");
    key != "" && !ContainsInfix(key, "..")
  }

  /** `f"{uuid.uuid4().hex}{ext}"`: the id followed by the extension. The key
      holds at most one `.`, so it always passes the download guard. */
  function UploadKey(id: string, fileName: string): (key: string)
    requires IsHexId(id)
    ensures |key| >= |id| && key[..|id|] == id && key[|id|..] == Extension(fileName)
    ensures AtMostOneDot(key)
    ensures PassesDownloadGuard(key)
  {
    var ext := Extension(fileName);
    OneDotAfterId(id, ext);
    NoDoubleDot(id + ext);
    id + ext
  }

  /** A dot-free id followed by an extension holds at most one `.`. */
  lemma OneDotAfterId(id: string, ext: string)
    requires IsHexId(id)
    requires ext == [] || (ext[0] == '.' && '.' !in ext[1..])
    ensures AtMostOneDot(id + ext)
  {
  }

  // ---------------------------------------------------------------------
  // Upload handler, src/app.py:14-58

  /** The signer request for an upload: `put_object` on the configured bucket. */
  function PutRequest(cfg: Config, key: string, contentType: string): (r: SignRequest)
    ensures r.clientMethod == "put_object" && r.expiresIn == cfg.uploadExpires
    ensures r.params.Keys == {"Bucket", "Key", "ContentType"}
    ensures r.params["Bucket"] == cfg.bucketName && r.params["Key"] == key && r.params["ContentType"] == contentType
  {
    SignRequest("put_object", map["Bucket" := cfg.bucketName, "Key" := key, "ContentType" := contentType], cfg.uploadExpires)
  }

  /** The 201 response carrying the signed URL and the key. */
  function Created(url: string, key: string): (r: Response)
    ensures r.statusCode == 201 && r.headers == map["Content-Type" := "application/json"]
    ensures r.body.Json? && r.body.members.Keys == {"uploadURL", "objectKey"}
    ensures r.body.members["uploadURL"] == url && r.body.members["objectKey"] == key
  {
    Response(201, map["Content-Type" := "application/json"], Json(map["uploadURL" := url, "objectKey" := key]))
  }

  /** `create_upload_url_handler`. The body is checked for presence before it
      is parsed; either failure is a 400 that consults no signer. Otherwise the
      signer is asked once, for a PUT of the derived key with the requested or
      default content type, and the response hands back its URL and the key. */
  function CreateUploadUrl(cfg: Config, event: UploadEvent, parse: string -> Option<JsonObject>,
                           id: string, sign: Signer): (h: Handled)
    requires IsHexId(id)
    ensures !event.body.Present? ==> h == Rejected(MissingBodyMessage)
    ensures event.body.Present? && parse(event.body.value).None? ==> h == Rejected(InvalidJsonMessage)
    ensures h.signerCalls != [] <==> event.body.Present? && parse(event.body.value).Some?
    ensures h.signerCalls != [] ==>
      var obj := parse(event.body.value).value;
      var key := UploadKey(id, MemberOr(obj, "fileName", DefaultFileName));
      && h.signerCalls == [PutRequest(cfg, key, MemberOr(obj, "contentType", DefaultContentType))]
      && h.response == Created(sign(h.signerCalls[0]), key)
    ensures forall call | call in h.signerCalls :: "Key" in call.params && PassesDownloadGuard(call.params["Key"])
  {
    if !event.body.Present? then
      Rejected(MissingBodyMessage)
    else match parse(event.body.value)
      case None => Rejected(InvalidJsonMessage)
      case Some(obj) =>
        var fileName := MemberOr(obj, "fileName", DefaultFileName);
        var contentType := MemberOr(obj, "contentType", DefaultContentType);
        var key := UploadKey(id, fileName);
        var request := PutRequest(cfg, key, contentType);
        Handled(Created(sign(request), key), [request])
  }

  /** With no `fileName` the default name `file` has no `.`, so the returned
      key is the bare id. */
  lemma DefaultFileNameKey(cfg: Config, body: string, parse: string -> Option<JsonObject>,
                           id: string, sign: Signer)
    requires IsHexId(id) && parse(body).Some? && "fileName" !in parse(body).value
    ensures CreateUploadUrl(cfg, UploadEvent(Present(body)), parse, id, sign).response.body.members["objectKey"] == id
  {
    DefaultFileNameHasNoExtension();
    var key := UploadKey(id, DefaultFileName);
    assert key == key[..|id|];
  }

  /** The default file name `file` has no extension. */
  lemma DefaultFileNameHasNoExtension()
    ensures Extension(DefaultFileName) == ""
  {
    assert '.' !in DefaultFileName;
  }

  /** With no `contentType` the signer is asked for `application/octet-stream`. */
  lemma DefaultContentTypeSigned(cfg: Config, body: string, parse: string -> Option<JsonObject>,
                                 id: string, sign: Signer)
    requires IsHexId(id) && parse(body).Some? && "contentType" !in parse(body).value
    ensures CreateUploadUrl(cfg, UploadEvent(Present(body)), parse, id, sign).signerCalls[0].params["ContentType"]
            == DefaultContentType
  {
  }

  /** The returned object key is the id followed by the lower-cased, stripped
      text after the last `.` of the file name. */
  lemma UploadKeyFromFileName(cfg: Config, body: string, parse: string -> Option<JsonObject>,
                              id: string, sign: Signer, prefix: string, last: string)
    requires IsHexId(id) && '.' !in last
    requires parse(body).Some? && MemberOr(parse(body).value, "fileName", DefaultFileName) == prefix + "." + last
    ensures CreateUploadUrl(cfg, UploadEvent(Present(body)), parse, id, sign).response.body.members["objectKey"]
            == id + "." + Lower(Strip(last))
  {
    UploadReturnsKey(cfg, body, parse, id, sign);
    ExtensionAfterLastDot(prefix, last);
    KeyIsIdThenExtension(id, prefix + "." + last);
  }

  /** A parsed body is answered with the key derived from its `fileName`. */
  lemma UploadReturnsKey(cfg: Config, body: string, parse: string -> Option<JsonObject>, id: string, sign: Signer)
    requires IsHexId(id) && parse(body).Some?
    ensures CreateUploadUrl(cfg, UploadEvent(Present(body)), parse, id, sign).response.body.members["objectKey"]
            == UploadKey(id, MemberOr(parse(body).value, "fileName", DefaultFileName))
  {
  }

  /** The key is exactly the id followed by the extension. */
  lemma KeyIsIdThenExtension(id: string, fileName: string)
    requires IsHexId(id)
    ensures UploadKey(id, fileName) == id + Extension(fileName)
  {
    var key := UploadKey(id, fileName);
    assert key == key[..|id|] + key[|id|..];
  }

  /** `png` is already stripped and lower-case. */
  lemma PngIsNormal()
    ensures TrimStart("png") == "png" && TrimEnd("png") == "png" && Lower("png") == "png"
  {
  }

  /** `a.png` has the extension `.png`. */
  lemma ExtensionExample()
    ensures Extension("a.png") == ".png"
  {
    assert "a.png" == "a" + "." + "png";
    ExtensionAfterLastDot("a", "png");
    PngIsNormal();
  }

  /** `{"fileName": "a.png", ...}` gets the key `<id>.png`. */
  lemma UploadKeyExample(id: string)
    requires IsHexId(id)
    ensures UploadKey(id, "a.png") == id + ".png"
  {
    var key := UploadKey(id, "a.png");
    ExtensionExample();
    assert key == key[..|id|] + key[|id|..];
  }

  // ---------------------------------------------------------------------
  // Download handler, src/app.py:60-85

  /** `(event.get("pathParameters") or {}).get("objectKey")`: `None` when the
      parameters are missing, `None` or empty, when the key is missing, or
      when it is mapped to `None`. */
  function RequestedKey(event: DownloadEvent): (key: Option<string>)
    ensures key.None? <==>
      || !event.pathParameters.Present?
      || "objectKey" !in event.pathParameters.value
      || event.pathParameters.value["objectKey"].None?
    ensures key.Some? ==> Some(key.value) == event.pathParameters.value["objectKey"]
    ensures event.pathParameters == Present(map[]) ==> key == None
  {
    if event.pathParameters.Present? && "objectKey" in event.pathParameters.value then
      event.pathParameters.value["objectKey"]
    else
      None
  }

  /** The signer request for a download: `get_object` on the configured bucket. */
  function GetRequest(cfg: Config, key: string): (r: SignRequest)
    ensures r.clientMethod == "get_object" && r.expiresIn == cfg.downloadExpires
    ensures r.params.Keys == {"Bucket", "Key"}
    ensures r.params["Bucket"] == cfg.bucketName && r.params["Key"] == key
  {
    SignRequest("get_object", map["Bucket" := cfg.bucketName, "Key" := key], cfg.downloadExpires)
  }

  /** The redirect to a signed URL: the configured status, a `Location`
      header and an empty body. */
  function Redirect(cfg: Config, url: string): (r: Response)
    ensures r.statusCode == cfg.redirectStatus
    ensures r.headers.Keys == {"Location"} && r.headers["Location"] == url
    ensures r.body == Plain("")
  {
    Response(cfg.redirectStatus, map["Location" := url], Plain(""))
  }

  /** `download_redirect_handler`. A missing or empty key is rejected first,
      then a key containing `..`; only a key that passes both checks reaches
      the signer, once, for a GET, and the response redirects to its URL. */
  function DownloadRedirect(cfg: Config, event: DownloadEvent, sign: Signer): (h: Handled)
    ensures RequestedKey(event) in {None, Some("")} ==> h == Rejected(MissingKeyMessage)
    ensures RequestedKey(event).Some? && RequestedKey(event).value != "" && ContainsInfix(RequestedKey(event).value, "..")
            ==> h == Rejected(InvalidKeyMessage)
    ensures h.signerCalls != [] <==> RequestedKey(event).Some? && PassesDownloadGuard(RequestedKey(event).value)
    ensures h.signerCalls != [] ==>
      var key := RequestedKey(event).value;
      && h.signerCalls == [GetRequest(cfg, key)]
      && h.response == Redirect(cfg, sign(GetRequest(cfg, key)))
    ensures forall call | call in h.signerCalls :: "Key" in call.params && PassesDownloadGuard(call.params["Key"])
  {
    match RequestedKey(event)
    case None => Rejected(MissingKeyMessage)
    case Some(key) =>
      if key == "" then Rejected(MissingKeyMessage)
      else if ContainsInfix(key, "..") then Rejected(InvalidKeyMessage)
      else
        var request := GetRequest(cfg, key);
        Handled(Redirect(cfg, sign(request)), [request])
  }

  /** `objectKey = "../etc/passwd"` is rejected as invalid. */
  lemma TraversalKeyRejected(cfg: Config, sign: Signer)
    ensures DownloadRedirect(cfg, DownloadEvent(Present(map["objectKey" := Some("../etc/passwd")])), sign)
            == Rejected(InvalidKeyMessage)
  {
    assert InfixAt("../etc/passwd", "..", 0);
  }

  /** `objectKey = "abc123.png"` is redirected. */
  lemma PlainKeyRedirected(cfg: Config, sign: Signer)
    ensures DownloadRedirect(cfg, DownloadEvent(Present(map["objectKey" := Some("abc123.png")])), sign).response
            == Redirect(cfg, sign(GetRequest(cfg, "abc123.png")))
  {
    var key := "abc123.png";
    assert AtMostOneDot(key);
    NoDoubleDot(key);
  }

  // ---------------------------------------------------------------------
  // Across the two handlers

  /** Every key the upload handler hands out is accepted by the download
      handler, which then signs a GET for that very key in the same bucket. */
  lemma UploadedKeyDownloads(cfg: Config, event: UploadEvent, parse: string -> Option<JsonObject>,
                             id: string, sign: Signer)
    requires IsHexId(id)
    requires CreateUploadUrl(cfg, event, parse, id, sign).response.statusCode == 201
    ensures var key := CreateUploadUrl(cfg, event, parse, id, sign).response.body.members["objectKey"];
      && PassesDownloadGuard(key)
      && DownloadRedirect(cfg, DownloadEvent(Present(map["objectKey" := Some(key)])), sign).signerCalls
         == [GetRequest(cfg, key)]
  {
  }

  // ---------------------------------------------------------------------
  // The handlers as src/app.py is written

  /** What running a handler does: return a response, or raise. */
  datatype Outcome = Returned(handled: Handled) | Raised(exception: string)

  /** `create_upload_url_handler` as written: both error returns call the
      undefined `_resp`, so they raise `NameError` instead of answering 400. */
  function CreateUploadUrlAsWritten(cfg: Config, event: UploadEvent, parse: string -> Option<JsonObject>,
                                    id: string, sign: Signer): (o: Outcome)
    requires IsHexId(id)
    ensures o.Raised? <==> CreateUploadUrl(cfg, event, parse, id, sign).response.statusCode == 400
    ensures o.Returned? ==> o.handled == CreateUploadUrl(cfg, event, parse, id, sign)
  {
    if !event.body.Present? then Raised("NameError")
    else if parse(event.body.value).None? then Raised("NameError")
    else Returned(CreateUploadUrl(cfg, event, parse, id, sign))
  }

  /** `download_redirect_handler` as written: both rejections call the
      undefined `_resp` and raise `NameError`. */
  function DownloadRedirectAsWritten(cfg: Config, event: DownloadEvent, sign: Signer): (o: Outcome)
    ensures o.Raised? <==> DownloadRedirect(cfg, event, sign).signerCalls == []
    ensures o.Returned? ==> o.handled == DownloadRedirect(cfg, event, sign)
  {
    match RequestedKey(event)
    case None => Raised("NameError")
    case Some(key) =>
      if key == "" || ContainsInfix(key, "..") then Raised("NameError")
      else Returned(DownloadRedirect(cfg, event, sign))
  }

  /** An upload request without a body crashes as written, where the evident
      intent is a 400 "Missing request body". */
  lemma MissingBodyCrashesAsWritten(cfg: Config, parse: string -> Option<JsonObject>, id: string, sign: Signer)
    requires IsHexId(id)
    ensures CreateUploadUrlAsWritten(cfg, UploadEvent(Absent), parse, id, sign) == Raised("NameError")
    ensures CreateUploadUrl(cfg, UploadEvent(Absent), parse, id, sign) == Rejected(MissingBodyMessage)
  {
  }

  /** A download request without path parameters crashes as written, where
      the evident intent is a 400 "Missing path parameter: objectKey". */
  lemma MissingKeyCrashesAsWritten(cfg: Config, sign: Signer)
    ensures DownloadRedirectAsWritten(cfg, DownloadEvent(Absent), sign) == Raised("NameError")
    ensures DownloadRedirect(cfg, DownloadEvent(Absent), sign) == Rejected(MissingKeyMessage)
  {
  }
}
