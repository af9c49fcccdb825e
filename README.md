# Signed-URL file gateway — Dafny model

This project models the two request handlers of a serverless file gateway
(`src/app.py`). `create_upload_url_handler` (`POST /files`) takes a JSON body
with an optional `fileName` and `contentType`. It derives an object key from a
fresh hexadecimal id and the file name's extension, asks the object store's
presigning client for a time-limited PUT URL for that key, and answers 201
with the URL and the key. `download_redirect_handler` (`GET /files/{objectKey}`)
takes the key from the path. It rejects a missing or empty key and any key
containing `..`, asks the presigning client for a GET URL, and redirects to it.

Both handlers are pure functions in module `App` (`app.dfy`). They take:

- a `Config` record: the bucket name, the two expiry times and the redirect
  status that the module reads from the environment at import;
- the request event;
- the code they call and that cannot be seen, as parameters. The presigning
  client is a `Signer` (a function from a `SignRequest` to a URL). `json.loads`
  is a parser that gives `None` where it would raise `JSONDecodeError`.
  `uuid.uuid4().hex` is an `id` argument of 32 lower-case hex digits.

Each handler returns a `Handled` value: the response, plus the list of
requests it made of the signer. With that list, "the signer is not
consulted" can be stated and proved.

The handlers use four Python string operations: `str.split(sep)`,
`str.strip()`, `str.lower()` and the substring test `t in s`. These are
modelled in module `Text` (`text.dfy`), together with their algebra:
join/split round trip, idempotence, and strip/lower commuting.

`_resp(code, obj)` is called on every error path but is not defined anywhere
in `src/app.py`. The model assumes it builds a response with status `code`,
the object as JSON body, and no headers (`App.ErrorResponse`). The handlers
as literally written raise `NameError` instead; see Findings.

## Model

| member | source | states |
|---|---|---|
| `Text.IsSpace` | src/app.py:36 | defines the characters `.strip()` removes as Python's `str.isspace()` set: U+0009–U+000D, U+001C–U+0020, U+0085, U+00A0, U+1680, U+2000–U+200A, U+2028, U+2029, U+202F, U+205F, U+3000; space, tab, newline and carriage return are in it, and no letter, digit or `.` is |
| `Text.LowerChar` | src/app.py:36 | `.lower()` on one character maps `A`–`Z` to `a`–`z` (code point + 32) and leaves every other character alone |
| `Text.Lower` | src/app.py:36 | `.lower()` keeps the length and folds each character in place |
| `Text.TrimStart` | src/app.py:36 | the left half of `.strip()`: the result is a suffix of the input, everything dropped is whitespace, and the result does not start with whitespace |
| `Text.TrimEnd` | src/app.py:36 | the right half of `.strip()`: the result is a prefix of the input, everything dropped is whitespace, and the result does not end with whitespace |
| `Text.Strip` | src/app.py:36 | `.strip()` gives a slice of its input with only whitespace outside it, and the slice neither starts nor ends with whitespace |
| `Text.Split` | src/app.py:36 | `.split(".")` gives at least one piece, no piece contains the separator, and there is exactly one piece iff the separator does not occur |
| `Text.JoinSplit` | src/app.py:36 | joining the pieces of a split with the separator gives back the original string |
| `Text.SplitWithoutSeparator` | src/app.py:36 | a string without the separator splits into just itself |
| `Text.SplitConcat` | src/app.py:36 | splitting `a + sep + b` gives the pieces of `a` followed by the pieces of `b` |
| `Text.LastPiece` | src/app.py:36 | `.split(".")[-1]` is a dot-free suffix of the name: the whole name when it has no `.`, otherwise the text right after a `.` |
| `Text.JoinLast` | src/app.py:36 | joining two or more pieces puts the separator immediately before the last piece |
| `Text.LastPieceAfterSeparator` | src/app.py:36 | `.split(".")[-1]` of `prefix + "." + last` is `last` whenever `last` has no `.` |
| `Text.ContainsInfix` | src/app.py:71 | the substring test `t in s` holds for the empty `t` and never for a `t` longer than `s` |
| `Text.ContainsPair` | src/app.py:71 | `".." in key` holds exactly when two adjacent characters of the key are both `.` |
| `Text.StripKeepsOut` | src/app.py:36 | `.strip()` never introduces a character that was not in its input |
| `Text.LowerKeepsOut` | src/app.py:36 | `.lower()` never introduces a non-letter character that was not in its input |
| `Text.StripIdempotent` | src/app.py:36 | stripping twice is the same as stripping once |
| `Text.LowerIdempotent` | src/app.py:36 | lower-casing twice is the same as lower-casing once |
| `Text.TrimStartLower` | src/app.py:36 | trimming leading whitespace commutes with lower-casing |
| `Text.TrimEndLower` | src/app.py:36 | trimming trailing whitespace commutes with lower-casing |
| `Text.StripLower` | src/app.py:36 | `.lower().strip()` equals `.strip().lower()` |
| `Text.StripLowerIdempotent` | src/app.py:36 | a stripped, lower-cased value is unchanged by stripping and lower-casing again |
| `App.IsHexId` | src/app.py:38 | stands for `uuid.uuid4().hex` as any 32 lower-case hex digits, a superset of the values uuid4 produces (which also fix the version and variant digits); such an id has no `.` and is unchanged by lower-casing |
| `App.ErrorResponse` | src/app.py:24 | the assumed `_resp(code, {"error": message})` has status `code` and a JSON body whose only member is `error`, holding the message |
| `App.MemberOr` | src/app.py:31-32 | `body.get(name, default)` gives the member when the body has it and the default otherwise |
| `App.Extension` | src/app.py:34-36 | no `.` in the file name gives an empty extension; otherwise the extension starts with `.`, has no other `.`, and is unchanged by strip and lower |
| `App.ExtensionAfterLastDot` | src/app.py:35-36 | for any name `prefix + "." + last` with a dot-free `last`, the extension is `"." + lower(strip(last))`, whatever the prefix holds |
| `App.ExtensionExample` | src/app.py:34-36 | the file name `a.png` has the extension `.png` |
| `App.DefaultFileNameHasNoExtension` | src/app.py:31-36 | the default file name `file` has an empty extension |
| `App.PassesDownloadGuard` | src/app.py:68-72 | defines the keys the download handler lets through: non-empty and without `..`, which is the same as no two adjacent `.` characters |
| `App.NoDoubleDot` | src/app.py:71 | a string with at most one `.` never contains `..` |
| `App.OneDotAfterId` | src/app.py:38 | a hex id followed by an empty extension, or by one that starts with its only `.`, has at most one `.` |
| `App.UploadKey` | src/app.py:38 | the key has the id as prefix and the extension as suffix, holds at most one `.`, and passes the download handler's guard |
| `App.KeyIsIdThenExtension` | src/app.py:38 | the object key is exactly the id followed by the extension |
| `App.UploadKeyExample` | src/app.py:34-38 | `a.png` yields the key `<32 hex digits>.png` |
| `App.PutRequest` | src/app.py:40-48 | the upload's signer request is `put_object` with exactly the parameters `Bucket` (the configured bucket), `Key` and `ContentType`, and `ExpiresIn` equal to `UPLOAD_EXPIRES` |
| `App.Created` | src/app.py:50-58 | the upload's answer has status 201, the single header `Content-Type: application/json`, and a JSON body with exactly `uploadURL` and `objectKey` |
| `App.CreateUploadUrl` | src/app.py:14-58 | no body or a `None` body gives 400 "Missing request body"; a body that fails to parse gives 400 "Body must be valid JSON", whatever the parser would say of a missing body; the signer is consulted iff the body parsed, then exactly once, for `put_object` on the configured bucket with the derived key, the requested or default content type and `UPLOAD_EXPIRES`; the answer is 201, `Content-Type: application/json`, `uploadURL` equal to the signer's URL and `objectKey` equal to the key; every key signed passes the download guard |
| `App.DefaultFileNameKey` | src/app.py:31-38 | with no `fileName` the returned key is exactly the id |
| `App.DefaultContentTypeSigned` | src/app.py:32-46 | with no `contentType` the signer is asked for `application/octet-stream` |
| `App.UploadReturnsKey` | src/app.py:31-50 | a body that parses is answered with the key derived from its `fileName`, or from `file` when it has none |
| `App.UploadKeyFromFileName` | src/app.py:31-50 | the returned `objectKey` is the id followed by `.` and the stripped, lower-cased text after the last `.` of the file name |
| `App.RequestedKey` | src/app.py:65-66 | the key read from the path is absent exactly when `pathParameters` is missing or `None`, lacks `objectKey`, or maps it to `None`; an empty `pathParameters` gives no key; otherwise it is the mapped value |
| `App.GetRequest` | src/app.py:74-78 | the download's signer request is `get_object` with exactly the parameters `Bucket` (the configured bucket) and `Key`, and `ExpiresIn` equal to `DOWNLOAD_EXPIRES` |
| `App.Redirect` | src/app.py:80-85 | the redirect has status `REDIRECT_STATUS`, the single header `Location` holding the signed URL, and an empty body |
| `App.DownloadRedirect` | src/app.py:60-85 | missing or `None` path parameters, or a missing, `None` or empty `objectKey`, give 400 "Missing path parameter: objectKey"; otherwise a key containing `..` gives 400 "Invalid objectKey"; the signer is consulted iff the key passes both checks, then once, for `get_object` on the configured bucket with that key and `DOWNLOAD_EXPIRES`; the answer is `REDIRECT_STATUS` with `Location` equal to the signed URL and an empty body |
| `App.TraversalKeyRejected` | src/app.py:71-72 | `../etc/passwd` is rejected with "Invalid objectKey" |
| `App.PlainKeyRedirected` | src/app.py:71-85 | `abc123.png` is redirected to the URL signed for it |
| `App.UploadedKeyDownloads` | src/app.py:38-85 | every key the upload handler returns is accepted by the download handler, which signs a GET for that same key |
| `App.CreateUploadUrlAsWritten` | src/app.py:23-29 | as written, the upload handler raises exactly where the intended handler answers 400, and agrees with it everywhere else |
| `App.DownloadRedirectAsWritten` | src/app.py:68-72 | as written, the download handler raises exactly where the intended handler rejects, and agrees with it everywhere else |
| `App.MissingBodyCrashesAsWritten` | src/app.py:23-24 | an upload event without a body raises `NameError` as written, where a 400 "Missing request body" is intended |
| `App.MissingKeyCrashesAsWritten` | src/app.py:65-69 | a download event without path parameters raises `NameError` as written, where a 400 "Missing path parameter: objectKey" is intended |

## Left out

- The presigning client (`boto3`, `s3.generate_presigned_url`): it is a foreign library. It is an uninterpreted `Signer`; the model reasons only about the arguments it receives and where its URL goes. Its exceptions are not modelled.
- `uuid.uuid4()`: its randomness is replaced by an `id` argument of 32 lower-case hex digits. That keys are unique across calls holds only with high probability and cannot be stated here.
- `json.loads` and `json.dumps`: parsing is a parameter returning an optional map; a serialised body is the map itself.
- Parsed bodies are JSON objects with string members only; other JSON values are not modelled. What the source does with them: a body that parses to a non-object has no `.get`, so src/app.py:31 raises `AttributeError`. For `fileName`, the test `"." in file_name` at :35 is a membership test on a list or object. A list or object with no `"."` element or key skips the extension, and the answer is 201 with the bare id as the key. One that has it reaches `.split` at :36, which raises `AttributeError`. A number, boolean or `null` `fileName` makes the test at :35 raise `TypeError`. A non-string `contentType` is passed to the signer unchanged.
- Reading `BUCKET_NAME`, `UPLOAD_URL_EXPIRES_SECONDS` (default 300), `DOWNLOAD_URL_EXPIRES_SECONDS` (default 3600) and `REDIRECT_STATUS_CODE` (default 302) at import is process I/O. A missing bucket name or a non-numeric value fails at startup. The model takes the resulting values as a `Config`.
- `App.UploadEvent`: the body is a string or `null`, and the parser either fails with a decoding error or yields an object. Two crash paths are not modelled: a non-string body (a dict from a direct invocation) makes `json.loads` raise `TypeError`, and a deeply nested document makes it raise `RecursionError`; neither is a `JSONDecodeError`, so the handler does not catch them.
- `Text`: strings are sequences of Unicode scalar values. A Python `str` can also hold a lone surrogate (for instance one decoded from the JSON escape `\ud800`); such file names and keys are not modelled.
- `App.DownloadEvent`: path parameters are a map from names to strings or `null`, as the event router supplies them. What the source does with other values is not modelled. `not object_key` at src/app.py:68 also rejects falsy non-strings such as `0`, `false` or `[]`. On a truthy list or object, `".." in object_key` at :71 is a membership test: with a `".."` element or key the key is rejected, and otherwise it reaches the signer as `Key` at :76. On a truthy number or `true`, the test raises `TypeError`. `path_params.get` raises `AttributeError` when `pathParameters` is truthy but not a dict.
- `Text.LowerChar`: folds ASCII `A`–`Z` only and leaves every other character alone, which matches Python only for ASCII input.
- `Text.Lower`: folds ASCII letters only. Python's `str.lower()` also folds non-ASCII letters, some of them into two characters. `Text.IsSpace` follows Python's `str.isspace()` in full, so `strip()` is exact.
- Other event fields, Lambda routing and the `context` argument are not read by the handlers' logic.
- `App.ErrorResponse`: its headers (none) are an assumption, because `_resp` is not defined in `src/app.py`.

## Findings

| source | as written | input that shows it | evidently intended | confidence | as-written member | corrected member |
|---|---|---|---|---|---|---|
| src/app.py:24-29 | both error returns call `_resp`, which is not defined in the module, so they raise `NameError` | an upload event without a `body` key | a 400 response with `{"error": "Missing request body"}` (or "Body must be valid JSON") | high; not executed | `App.CreateUploadUrlAsWritten`, `App.MissingBodyCrashesAsWritten` | `App.CreateUploadUrl` |
| src/app.py:69-72 | both rejections call the undefined `_resp` and raise `NameError` | a download event without `pathParameters` | a 400 response with `{"error": "Missing path parameter: objectKey"}` (or "Invalid objectKey") | high; not executed | `App.DownloadRedirectAsWritten`, `App.MissingKeyCrashesAsWritten` | `App.DownloadRedirect` |
