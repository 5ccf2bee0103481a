# Request wrapper header and descriptor model

A Dafny model of the request wrapper of a small HTTP API test harness. The
wrapper wraps an HTTP client and gives it four verbs, `get`, `post`, `put` and
`delete`. On every call it attaches a header set computed from the configured
API key:

- `Content-Type: application/json` is always set.
- `x-api-key` is set to the trimmed key when the key passes a three-part
  guard: it is defined and non-empty, it is not the literal placeholder
  `your_api_key_here`, and it is not blank after trimming.

Modules:

- `Wrappers` (`wrappers.dfy`): the `Option` type for possibly-undefined
  configuration entries.
- `JsString` (`js_string.dfy`): JavaScript's `trim`. It strips ECMA-262
  WhiteSpace and LineTerminator characters from both ends. `IsTrimOf` is a
  reference definition of trimming that does not depend on any algorithm:
  the result is a slice of the input whose prefix and suffix are all
  whitespace and whose own edges are not. `Trim` meets that definition, and
  `TrimUnique` shows the definition determines the result.
- `EnvConfig` (`env_config.dfy`): the default base URL `https://reqres.in`.
  The configured API key itself is the explicit `Option<string>` argument of
  `Headers`.
- `RequestWrapper` (`request_wrapper.dfy`): the `headers` getter as
  `Headers(key)`. The four verbs are one function, `Describe(call, key)`,
  which builds the `{params?, data?, headers}` options object and records
  the method and URL passed to the client. `Recover` is its inverse.

The placeholder comparison is made on the raw, untrimmed key, exactly as
the code does it (lib/api/request-wrapper.ts:11). Because the comparison is
on the raw key, a padded placeholder such as `" your_api_key_here "` passes
the guard and `your_api_key_here` is sent as the header value
(`PaddedPlaceholderSent`).

## Model

| member | source | states |
|---|---|---|
| JsString.Trim | lib/api/request-wrapper.ts:11-12 | `key.trim()` returns a slice of the key with all-whitespace text on either side and no whitespace at its own edges |
| JsString.TrimUnique | lib/api/request-wrapper.ts:11-12 | any string meeting that slice-and-edges definition equals `Trim`, so the definition fixes what is sent |
| JsString.TrimEmptyIff | lib/api/request-wrapper.ts:11 | the `trim() !== ''` test fails exactly when every character of the key is whitespace |
| JsString.TrimIdempotent | lib/api/request-wrapper.ts:12 | trimming an already-trimmed value changes nothing |
| JsString.TrimPadded | lib/api/request-wrapper.ts:11-12 | whitespace padding around a value with non-whitespace edges is exactly what trimming removes |
| RequestWrapper.Headers | lib/api/request-wrapper.ts:7-15 | `Content-Type` is always `application/json`; no header name other than `Content-Type` and `x-api-key` ever appears; a sent `x-api-key` value is non-empty and is the trim of the configured key |
| RequestWrapper.KeySentIff | lib/api/request-wrapper.ts:11-13 | `x-api-key` is present if and only if a key is configured, it is not the raw placeholder, and it has a non-whitespace character |
| RequestWrapper.AbsentOrEmptyKeyOmitted | lib/api/request-wrapper.ts:8-11 | an undefined or empty key leaves only `Content-Type` |
| RequestWrapper.PlaceholderOmitted | lib/api/request-wrapper.ts:8-11 | the exact placeholder key leaves only `Content-Type` |
| RequestWrapper.BlankKeyOmitted | lib/api/request-wrapper.ts:11 | a non-empty key made only of whitespace is never sent |
| RequestWrapper.SentValueIsTrimmedKey | lib/api/request-wrapper.ts:11-12 | a key that passes the guard is sent as its trim: non-empty, no edge whitespace, a contiguous slice of the key, unchanged by trimming again |
| RequestWrapper.PaddedPlaceholderSent | lib/api/request-wrapper.ts:11-12 | the placeholder padded with whitespace passes the raw comparison, and the bare placeholder is sent |
| RequestWrapper.HeaderCount | lib/api/request-wrapper.ts:8-14 | the header map has two entries when the key is sent and one otherwise |
| RequestWrapper.Describe | lib/api/request-wrapper.ts:17-31 | each verb calls the client method of the same name with the URL unchanged and the key's header map; only GET carries `params`; POST and PUT carry `data`; DELETE carries neither |
| RequestWrapper.RecoverDescribe | lib/api/request-wrapper.ts:17-31 | every call's arguments can be read back unchanged from its descriptor |
| RequestWrapper.DescribeRecover | lib/api/request-wrapper.ts:17-31 | a descriptor that reads back as a call and carries the key's headers is exactly the one the wrapper builds for that call |
| RequestWrapper.SameHeadersForAllVerbs | lib/api/request-wrapper.ts:18-30 | for a fixed key all four verbs attach the identical header map |

## Left out

- The HTTP client calls and the responses they return (lib/api/request-wrapper.ts:18-30) are asynchronous network I/O through a library outside this code. The model stops at the descriptor passed to the client.
- Reading the process environment and validating `BASE_URL` as a URL (lib/config/env.ts:3-8) are left out: a schema library performs both at startup. Only the default base URL is kept, as a constant, and the API key is an explicit input.
- Query-string encoding of `params` and JSON serialisation of `data` are done by the HTTP client. Both are opaque type parameters.
- Strings are sequences of Unicode scalar values, while JavaScript strings are UTF-16 code units, so lone surrogates cannot be represented. Trimming is unaffected: every whitespace and line-terminator code point lies in the Basic Multilingual Plane, and a key read from the environment is decoded from UTF-8.
- `IsWs` is fixed to the ECMA-262 WhiteSpace and LineTerminator sets. It does not follow later Unicode revisions of the space-separator category.
- The scenarios in tests/api/users.spec.ts are left out. They are assertions on a remote service's status codes and payloads, plus wall-clock timing, and contain no logic of this code.
