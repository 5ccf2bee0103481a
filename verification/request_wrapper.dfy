/**
  The request wrapper: the header set it computes from the configured API
  key, and the request descriptor each of its four verbs hands to the HTTP
  client. The client call itself, and the response it returns, are not
  modelled.
 */
module RequestWrapper {
  import opened Wrappers
  import opened JsString

  const ContentTypeName: string := "Content-Type"
  const JsonMediaType: string := "application/json"
  const ApiKeyName: string := "x-api-key"
  /** The value meaning "no API key configured". */
  const Placeholder: string := "your_api_key_here"

  /** JavaScript truthiness of an optional string: defined and not "". */
  predicate Truthy(key: Option<string>) {
    key.Some? && key.value != ""
  }

  /** The guard on the configured key. The placeholder comparison is on the
      raw, untrimmed key; only the blank test looks at the trimmed key. */
  predicate SendsKey(key: Option<string>) {
    Truthy(key) && key.value != Placeholder && Trim(key.value) != ""
  }

  /** The `headers` getter, as a function of the configured key. */
  function Headers(key: Option<string>): (h: map<string, string>)
    ensures ContentTypeName in h && h[ContentTypeName] == JsonMediaType
    ensures h.Keys <= {ContentTypeName, ApiKeyName}
    ensures ApiKeyName in h ==> key.Some? && h[ApiKeyName] != ""
                                && IsTrimOf(h[ApiKeyName], key.value)
  {
    var base := map[ContentTypeName := JsonMediaType];
    if SendsKey(key) then base[ApiKeyName := Trim(key.value)] else base
  }

  /** `x-api-key` is sent exactly when a key is configured, it is not the
      raw placeholder, and it holds at least one non-whitespace character. */
  lemma KeySentIff(key: Option<string>)
    ensures ApiKeyName in Headers(key)
            <==> key.Some? && key.value != Placeholder && !AllWs(key.value)
  {
    if key.Some? {
      TrimEmptyIff(key.value);
    }
  }

  /** An absent or empty key never produces an `x-api-key` header. */
  lemma AbsentOrEmptyKeyOmitted(key: Option<string>)
    requires key.None? || key.value == ""
    ensures ApiKeyName !in Headers(key)
    ensures Headers(key) == map[ContentTypeName := JsonMediaType]
  {
  }

  /** The exact placeholder never produces an `x-api-key` header. */
  lemma PlaceholderOmitted()
    ensures ApiKeyName !in Headers(Some(Placeholder))
    ensures Headers(Some(Placeholder)) == map[ContentTypeName := JsonMediaType]
  {
  }

  /** A non-empty, all-whitespace key is never sent. */
  lemma BlankKeyOmitted(key: string)
    requires key != [] && AllWs(key)
    ensures ApiKeyName !in Headers(Some(key))
  {
    TrimEmptyIff(key);
  }

  /** When the key passes the guard, the header value is the trimmed key:
      non-empty, with no whitespace at either end, a contiguous slice of the
      key, and already in trimmed form. */
  lemma SentValueIsTrimmedKey(key: string)
    requires key != Placeholder && !AllWs(key)
    ensures ApiKeyName in Headers(Some(key))
    ensures Headers(Some(key))[ApiKeyName] == Trim(key)
    ensures Trim(key) != [] && !IsWs(Trim(key)[0]) && !IsWs(Trim(key)[|Trim(key)| - 1])
    ensures exists i, j :: 0 <= i <= j <= |key| && Trim(key) == key[i..j]
    ensures Trim(Trim(key)) == Trim(key)
  {
    TrimEmptyIff(key);
    assert SendsKey(Some(key));
    TrimIdempotent(key);
  }

  /** The placeholder padded with whitespace passes the guard, because the
      placeholder comparison happens before trimming, and the bare
      placeholder is then sent as the key. */
  lemma PaddedPlaceholderSent(pre: string, post: string)
    requires AllWs(pre) && AllWs(post) && pre + post != []
    ensures ApiKeyName in Headers(Some(pre + Placeholder + post))
    ensures Headers(Some(pre + Placeholder + post))[ApiKeyName] == Placeholder
  {
    var key := pre + Placeholder + post;
    assert |key| > |Placeholder|;
    TrimPadded(pre, Placeholder, post);
  }

  /** The header map has one entry, or two exactly when the key is sent. */
  lemma HeaderCount(key: Option<string>)
    ensures |Headers(key)| == if SendsKey(key) then 2 else 1
  {
    var h := Headers(key);
    if SendsKey(key) {
      assert h.Keys == {ContentTypeName, ApiKeyName};
    } else {
      assert h.Keys == {ContentTypeName};
    }
  }

  datatype Method = GET | POST | PUT | DELETE

  /** A call to one of the wrapper's verbs. `Q` is the query-parameter
      object and `D` the request body; the client serialises both, so they
      are opaque here. */
  datatype Call<Q, D> =
    | Get(url: string, params: Option<Q>)
    | Post(url: string, body: D)
    | Put(url: string, body: D)
    | Delete(url: string)

  /** What a verb passes to the HTTP client: the HTTP method, the URL,
      and the options object `{params?, data?, headers}`. */
  datatype Descriptor<Q, D> = Descriptor(
    verb: Method,
    url: string,
    params: Option<Q>,
    data: Option<D>,
    headers: map<string, string>)

  function MethodOf<Q, D>(call: Call<Q, D>): Method {
    match call
    case Get(_, _) => GET
    case Post(_, _) => POST
    case Put(_, _) => PUT
    case Delete(_) => DELETE
  }

  /** The descriptor the wrapper builds for `call` under the configured key. */
  function Describe<Q, D>(call: Call<Q, D>, key: Option<string>): (d: Descriptor<Q, D>)
    ensures d.verb == MethodOf(call)
    ensures d.url == call.url
    ensures d.headers == Headers(key)
    ensures d.params.Some? ==> d.verb == GET
    ensures d.data.Some? <==> d.verb == POST || d.verb == PUT
    ensures d.verb == DELETE ==> d.params.None? && d.data.None?
  {
    match call
    case Get(url, params) => Descriptor(GET, url, params, None, Headers(key))
    case Post(url, body) => Descriptor(POST, url, None, Some(body), Headers(key))
    case Put(url, body) => Descriptor(PUT, url, None, Some(body), Headers(key))
    case Delete(url) => Descriptor(DELETE, url, None, None, Headers(key))
  }

  /** The call a well-formed descriptor came from; `None` for a descriptor
      no verb builds (a body on GET or DELETE, parameters on another verb,
      POST or PUT without a body). */
  function Recover<Q, D>(d: Descriptor<Q, D>): (c: Option<Call<Q, D>>)
    ensures c.Some? ==> MethodOf(c.value) == d.verb && c.value.url == d.url
  {
    match d.verb
    case GET => if d.data.None? then Some(Get(d.url, d.params)) else None
    case POST => if d.params.None? && d.data.Some? then Some(Post(d.url, d.data.value)) else None
    case PUT => if d.params.None? && d.data.Some? then Some(Put(d.url, d.data.value)) else None
    case DELETE => if d.params.None? && d.data.None? then Some(Delete(d.url)) else None
  }

  /** Every call can be read back from its descriptor, so the descriptor
      carries all of the call's arguments unchanged. */
  lemma RecoverDescribe<Q, D>(call: Call<Q, D>, key: Option<string>)
    ensures Recover(Describe(call, key)) == Some(call)
  {
  }

  /** Conversely, a descriptor that reads back as a call and carries the
      headers for `key` is exactly the one the wrapper builds for that call. */
  lemma DescribeRecover<Q, D>(d: Descriptor<Q, D>, key: Option<string>)
    requires Recover(d).Some? && d.headers == Headers(key)
    ensures Describe(Recover(d).value, key) == d
  {
  }

  /** For a fixed key all four verbs attach the identical header map. */
  lemma SameHeadersForAllVerbs<Q, D>(c1: Call<Q, D>, c2: Call<Q, D>, key: Option<string>)
    ensures Describe(c1, key).headers == Describe(c2, key).headers
    ensures ContentTypeName in Describe(c1, key).headers
  {
  }
}
