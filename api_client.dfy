/**
 * The decision logic of the API service: which base URL it talks to, how a response
 * envelope becomes a value or an error, how request headers are assembled, and how
 * `getProducts` builds its query string.
 */
module ApiClient {
  import opened Wrappers
  import opened JsText
  import opened Seqs

  // ---------------------------------------------------------------------------
  // base URL

  const NetworkHost: string := "192.168.0.188"
  const NetworkBaseUrl: string := "http://192.168.0.188:3055/api/v1"
  const LocalBaseUrl: string := "http://localhost:3055/api/v1"

  /** `getApiBaseUrl`: a non-empty `NEXT_PUBLIC_API_URL` wins; in a browser on the
      restaurant network host, that host; otherwise localhost. `hostname` is `None`
      outside a browser. */
  function GetApiBaseUrl(envUrl: Option<string>, hostname: Option<string>): (url: string)
    ensures envUrl.Some? && envUrl.value != "" ==> url == envUrl.value + "/api/v1"
    ensures (envUrl.None? || envUrl.value == "") && hostname == Some(NetworkHost) ==> url == NetworkBaseUrl
    ensures (envUrl.None? || envUrl.value == "") && hostname != Some(NetworkHost) ==> url == LocalBaseUrl
  {
    if envUrl.Some? && envUrl.value != "" then envUrl.value + "/api/v1"
    else if hostname == Some(NetworkHost) then NetworkBaseUrl
    else LocalBaseUrl
  }

  /** Every base URL ends in `/api/v1`. */
  lemma BaseUrlEndsInApiPath(envUrl: Option<string>, hostname: Option<string>)
    ensures var url := GetApiBaseUrl(envUrl, hostname);
            |url| >= 7 && url[|url| - 7..] == "/api/v1"
  {
    var url := GetApiBaseUrl(envUrl, hostname);
    if envUrl.Some? && envUrl.value != "" {
      assert url[|url| - 7..] == "/api/v1";
    }
  }

  // ---------------------------------------------------------------------------
  // backend records, with the fields the page reads or sends

  datatype ApiCategory = ApiCategory(id: string, name: string)

  /** A backend product; `category` is the joined category, when the backend includes it. */
  datatype ApiProduct = ApiProduct(
    id: string,
    categoryId: string,
    name: string,
    unit: string,
    currentQuantity: int,
    minimumStock: int,
    updatedAt: Option<string>,
    category: Option<ApiCategory>)

  /** `CreateProductDto` as the page fills it. */
  datatype CreateProductDto = CreateProductDto(categoryId: string, name: string, unit: string, currentQuantity: int, minimumStock: int)

  /** `UpdateProductDto` as the page fills it: `None` is a field left out of the body. */
  datatype UpdateProductDto = UpdateProductDto(name: Option<string>, currentQuantity: Option<int>, minimumStock: Option<int>, unit: Option<string>)

  // ---------------------------------------------------------------------------
  // the response envelope

  /** A response body: not JSON at all, or a JSON envelope. `success` is its truthiness and
      `message` is `None` when the field is absent. */
  datatype Body<T> = NotJson | Envelope(success: bool, message: Option<string>, data: T)

  datatype HttpResponse<T> = HttpResponse(ok: bool, status: int, body: Body<T>)

  /** What a failed `request` throws: an `Error` with a message, or the JSON parser's error
      when a 2xx body is not JSON. */
  datatype RequestError = Thrown(message: string) | InvalidJson

  /** `a || b` on an optional string. */
  function OrElse(s: Option<string>, fallback: string): (r: string)
    ensures s.Some? && s.value != "" ==> r == s.value
    ensures s.None? || s.value == "" ==> r == fallback
  {
    if s.Some? && s.value != "" then s.value else fallback
  }

  function HttpErrorText(status: int): string {
    "HTTP error! status: " + IntToString(status)
  }

  /** `request` after `fetch`: the envelope's `data` on success, the thrown error otherwise. */
  function Request<T>(resp: HttpResponse<T>): (r: Result<T, RequestError>)
    ensures r.Success? <==> resp.ok && resp.body.Envelope? && resp.body.success
    ensures r.Success? ==> r.value == resp.body.data
    ensures !resp.ok && resp.body.NotJson? ==> r == Failure(Thrown("Unknown error"))
    ensures !resp.ok && resp.body.Envelope? ==> r == Failure(Thrown(OrElse(resp.body.message, HttpErrorText(resp.status))))
    ensures resp.ok && resp.body.NotJson? ==> r == Failure(InvalidJson)
    ensures resp.ok && resp.body.Envelope? && !resp.body.success ==>
              r == Failure(Thrown(OrElse(resp.body.message, "API request failed")))
  {
    if !resp.ok then
      match resp.body
      case NotJson => Failure(Thrown(OrElse(Some("Unknown error"), HttpErrorText(resp.status))))
      case Envelope(_, message, _) => Failure(Thrown(OrElse(message, HttpErrorText(resp.status))))
    else
      match resp.body
      case NotJson => Failure(InvalidJson)
      case Envelope(success, message, data) =>
        if !success then Failure(Thrown(OrElse(message, "API request failed"))) else Success(data)
  }

  /** A thrown message is never empty: every fallback is a non-empty text. */
  lemma RequestErrorNeverBlank<T>(resp: HttpResponse<T>)
    ensures Request(resp).Failure? && Request(resp).error.Thrown? ==> Request(resp).error.message != ""
  {
    assert HttpErrorText(resp.status)[0] == 'H';
  }

  /** The status code does not matter once the server supplies a message. */
  lemma ServerMessageWins<T>(resp: HttpResponse<T>, message: string)
    requires !resp.ok && resp.body.Envelope? && resp.body.message == Some(message) && message != ""
    ensures Request(resp) == Failure(Thrown(message))
  {
  }

  // ---------------------------------------------------------------------------
  // request headers

  /** The `RequestInit` fields the service passes. */
  datatype RequestOptions = RequestOptions(httpMethod: Option<string>, headers: Option<map<string, string>>, body: Option<string>)

  const JsonContentType: map<string, string> := map["Content-Type" := "application/json"]

  /** The headers `fetch` receives as written: `{ headers: { 'Content-Type', ...options.headers },
      ...options }`, where the trailing spread puts the caller's headers back in place of
      the merged ones. */
  function ConfigHeadersAsWritten(options: Option<RequestOptions>): map<string, string> {
    if options.Some? && options.value.headers.Some? then options.value.headers.value
    else JsonContentType
  }

  /** Headers passed by a caller drop the JSON content type unless they repeat it. */
  lemma CallerHeadersDropContentType(h: map<string, string>, m: Option<string>, b: Option<string>)
    requires "Content-Type" !in h
    ensures "Content-Type" !in ConfigHeadersAsWritten(Some(RequestOptions(m, Some(h), b)))
  {
  }

  /** The evident intent: the JSON content type, overridden key by key by the caller's headers. */
  function MergedHeaders(options: Option<RequestOptions>): (hs: map<string, string>)
    ensures "Content-Type" in hs
    ensures options.Some? && options.value.headers.Some? ==>
              forall k :: k in options.value.headers.value ==> k in hs && hs[k] == options.value.headers.value[k]
    ensures forall k :: k in hs ==> k == "Content-Type" || (options.Some? && options.value.headers.Some? && k in options.value.headers.value)
    ensures options.None? || options.value.headers.None? || "Content-Type" !in options.value.headers.value
            ==> hs["Content-Type"] == "application/json"
  {
    if options.Some? && options.value.headers.Some? then JsonContentType + options.value.headers.value
    else JsonContentType
  }

  /** Every call the service makes passes no headers, and there the two agree. */
  lemma HeadersAgreeWithoutCallerHeaders(options: Option<RequestOptions>)
    requires options.None? || options.value.headers.None?
    ensures MergedHeaders(options) == ConfigHeadersAsWritten(options)
  {
  }

  // ---------------------------------------------------------------------------
  // query strings

  /** A `getProducts` parameter value. */
  datatype ParamValue = Undefined | Null | Str(s: string) | Flag(b: bool) | Num(n: int)

  /** `value.toString()` for a defined value. */
  function ParamText(v: ParamValue): string
    requires v != Undefined && v != Null
  {
    match v
    case Str(s) => s
    case Flag(b) => if b then "true" else "false"
    case Num(n) => IntToString(n)
  }

  /** The UTF-8 bytes of one character. */
  function Utf8(c: char): (bytes: seq<nat>)
    ensures 1 <= |bytes| <= 4
    ensures forall i :: 0 <= i < |bytes| ==> bytes[i] < 256
    ensures (c as int < 0x80) <==> |bytes| == 1
    ensures |bytes| == 1 ==> bytes[0] == c as int
    ensures |bytes| == 2 ==> 0xC2 <= bytes[0] < 0xE0
    ensures |bytes| == 3 ==> 0xE0 <= bytes[0] < 0xF0
    ensures |bytes| == 4 ==> 0xF0 <= bytes[0] <= 0xF4
    ensures forall i :: 1 <= i < |bytes| ==> 0x80 <= bytes[i] < 0xC0
  {
    var n := c as int;
    if n < 0x80 then [n]
    else if n < 0x800 then [0xC0 + n / 64, 0x80 + n % 64]
    else if n < 0x10000 then [0xE0 + n / 4096, 0x80 + (n / 64) % 64, 0x80 + n % 64]
    else [0xF0 + n / 262144, 0x80 + (n / 4096) % 64, 0x80 + (n / 64) % 64, 0x80 + n % 64]
  }

  /** The code point a UTF-8 sequence of one to four bytes spells: the lead byte's payload
      followed by six bits from each continuation byte. */
  function Utf8Value(bytes: seq<nat>): int
    requires 1 <= |bytes| <= 4
  {
    var b: seq<int> := bytes;
    if |b| == 1 then b[0]
    else if |b| == 2 then (b[0] - 0xC0) * 64 + (b[1] - 0x80)
    else if |b| == 3 then (b[0] - 0xE0) * 4096 + (b[1] - 0x80) * 64 + (b[2] - 0x80)
    else (b[0] - 0xF0) * 262144 + (b[1] - 0x80) * 4096 + (b[2] - 0x80) * 64 + (b[3] - 0x80)
  }

  /** Decoding the bytes gives the character back. */
  lemma Utf8Decodes(c: char)
    ensures Utf8Value(Utf8(c)) == c as int
  {
    var n := c as int;
    if 0x800 <= n < 0x10000 {
      ThreeGroups(n);
    } else if n >= 0x10000 {
      FourGroups(n);
    }
  }

  lemma ThreeGroups(n: nat)
    ensures (n / 4096) * 4096 + ((n / 64) % 64) * 64 + n % 64 == n
  {
    assert (n / 64) % 64 + (n / 4096) * 64 == n / 64;
  }

  lemma FourGroups(n: nat)
    ensures (n / 262144) * 262144 + ((n / 4096) % 64) * 4096 + ((n / 64) % 64) * 64 + n % 64 == n
  {
    assert (n / 4096) % 64 + (n / 262144) * 64 == n / 4096;
    ThreeGroups(n);
  }

  const HexDigits: string := "0123456789ABCDEF"

  /** `%XY` for one byte, in upper-case hex. */
  function PercentByte(b: nat): (r: string)
    requires b < 256
    ensures |r| == 3 && r[0] == '%'
    ensures r[1] in HexDigits && r[2] in HexDigits
    ensures HexValue(r[1]) * 16 + HexValue(r[2]) == b
  {
    HexValueOfDigit(b / 16);
    HexValueOfDigit(b % 16);
    ['%', HexDigits[b / 16], HexDigits[b % 16]]
  }

  /** The value of an upper-case hex digit. */
  function HexValue(d: char): nat {
    if '0' <= d <= '9' then d as int - '0' as int
    else if 'A' <= d <= 'F' then d as int - 'A' as int + 10
    else 0
  }

  lemma HexValueOfDigit(k: nat)
    requires k < 16
    ensures HexValue(HexDigits[k]) == k
  {
  }

  function PercentBytes(bytes: seq<nat>): (r: string)
    requires forall i :: 0 <= i < |bytes| ==> bytes[i] < 256
    ensures |r| == 3 * |bytes|
    ensures forall i :: 0 <= i < |r| ==> r[i] == '%' || r[i] in HexDigits
  {
    if bytes == [] then [] else PercentByte(bytes[0]) + PercentBytes(bytes[1..])
  }

  /** Percent-encoding a concatenation encodes each part in turn. */
  lemma {:induction false} PercentBytesAppend(a: seq<nat>, b: seq<nat>)
    requires forall j :: 0 <= j < |a| ==> a[j] < 256
    requires forall j :: 0 <= j < |b| ==> b[j] < 256
    ensures PercentBytes(a + b) == PercentBytes(a) + PercentBytes(b)
  {
    if a == [] {
      assert a + b == b;
    } else {
      assert (a + b)[0] == a[0];
      assert (a + b)[1..] == a[1..] + b;
      PercentBytesAppend(a[1..], b);
      ConcatAssoc(PercentByte(a[0]), PercentBytes(a[1..]), PercentBytes(b));
    }
  }

  /** Byte `i` is written, in order, between the encodings of the bytes before it
      and after it, so with `PercentByte`'s contract the text decodes back to the
      bytes. */
  lemma PercentBytesAt(bytes: seq<nat>, i: nat)
    requires forall j :: 0 <= j < |bytes| ==> bytes[j] < 256
    requires i < |bytes|
    ensures PercentBytes(bytes) == PercentBytes(bytes[..i]) + PercentByte(bytes[i]) + PercentBytes(bytes[i + 1..])
  {
    var rest := bytes[i..];
    assert bytes == bytes[..i] + rest;
    assert rest[0] == bytes[i] && rest[1..] == bytes[i + 1..];
    PercentBytesAppend(bytes[..i], rest);
    ConcatAssoc(PercentBytes(bytes[..i]), PercentByte(bytes[i]), PercentBytes(bytes[i + 1..]));
  }

  lemma HexDigitsFormSafe()
    ensures forall d :: d in HexDigits ==> IsFormSafe(d)
  {
  }

  /** The characters the form-urlencoded serializer leaves alone. */
  predicate IsFormSafe(c: char) {
    ('a' <= c <= 'z') || ('A' <= c <= 'Z') || ('0' <= c <= '9') || c == '*' || c == '-' || c == '.' || c == '_'
  }

  /** One character as `URLSearchParams` serializes it: kept, `+` for a space, or the
      percent-encoded UTF-8 bytes. */
  function EncodeChar(c: char): (r: string)
    ensures |r| >= 1
    ensures forall i :: 0 <= i < |r| ==> IsFormSafe(r[i]) || r[i] == '+' || r[i] == '%'
    ensures IsFormSafe(c) ==> r == [c]
    ensures c == ' ' ==> r == "+"
    ensures !IsFormSafe(c) && c != ' ' ==> r == PercentBytes(Utf8(c))
  {
    if IsFormSafe(c) then [c]
    else if c == ' ' then "+"
    else
      var r := PercentBytes(Utf8(c));
      HexDigitsFormSafe();
      r
  }

  function FormEncode(s: string): (r: string)
    ensures forall i :: 0 <= i < |r| ==> IsFormSafe(r[i]) || r[i] == '+' || r[i] == '%'
    ensures |r| >= |s|
  {
    if s == [] then [] else EncodeChar(s[0]) + FormEncode(s[1..])
  }

  /** An encoded name or value never holds the pair separator or the `=`. */
  lemma FormEncodeHasNoSeparators(s: string)
    ensures '&' !in FormEncode(s) && '=' !in FormEncode(s)
  {
  }

  /** A text made only of safe characters is sent as written. */
  lemma {:induction false} FormEncodeSafe(s: string)
    requires forall i :: 0 <= i < |s| ==> IsFormSafe(s[i])
    ensures FormEncode(s) == s
  {
    if s != [] {
      FormEncodeSafe(s[1..]);
      assert s == [s[0]] + s[1..];
    }
  }

  function EncodePair(pair: (string, string)): string {
    FormEncode(pair.0) + "=" + FormEncode(pair.1)
  }

  /** `searchParams.toString()`: the encoded pairs joined by `&`. */
  function Serialize(pairs: seq<(string, string)>): string {
    if pairs == [] then ""
    else if |pairs| == 1 then EncodePair(pairs[0])
    else EncodePair(pairs[0]) + "&" + Serialize(pairs[1..])
  }

  function EncodedPairs(pairs: seq<(string, string)>): (r: seq<string>)
    ensures |r| == |pairs|
    ensures forall i :: 0 <= i < |pairs| ==> r[i] == EncodePair(pairs[i])
  {
    seq(|pairs|, i requires 0 <= i < |pairs| => EncodePair(pairs[i]))
  }

  /** The query string splits back into one piece per pair, and each piece into the
      encoded name and the encoded value. */
  lemma {:induction false} SerializeSplits(pairs: seq<(string, string)>)
    requires pairs != []
    ensures Split(Serialize(pairs), '&') == EncodedPairs(pairs)
    ensures forall i :: 0 <= i < |pairs| ==>
              Split(EncodedPairs(pairs)[i], '=') == [FormEncode(pairs[i].0), FormEncode(pairs[i].1)]
  {
    SerializeIsJoin(pairs);
    var pieces := EncodedPairs(pairs);
    forall k | 0 <= k < |pieces|
      ensures '&' !in pieces[k]
    {
      FormEncodeHasNoSeparators(pairs[k].0);
      FormEncodeHasNoSeparators(pairs[k].1);
    }
    SplitJoin(pieces, '&');
    forall i | 0 <= i < |pairs|
      ensures Split(pieces[i], '=') == [FormEncode(pairs[i].0), FormEncode(pairs[i].1)]
    {
      FormEncodeHasNoSeparators(pairs[i].0);
      FormEncodeHasNoSeparators(pairs[i].1);
      var two := [FormEncode(pairs[i].0), FormEncode(pairs[i].1)];
      assert two[1..] == [FormEncode(pairs[i].1)];
      assert Join(two, '=') == pieces[i];
      SplitJoin(two, '=');
    }
  }

  lemma {:induction false} SerializeIsJoin(pairs: seq<(string, string)>)
    requires pairs != []
    ensures Serialize(pairs) == Join(EncodedPairs(pairs), '&')
  {
    if |pairs| > 1 {
      SerializeIsJoin(pairs[1..]);
      assert EncodedPairs(pairs)[1..] == EncodedPairs(pairs[1..]);
    }
  }

  /** The pairs `getProducts` appends: the defined values, in entry order. */
  function DefinedPairs(entries: seq<(string, ParamValue)>): (r: seq<(string, string)>)
    ensures |r| <= |entries|
  {
    if entries == [] then []
    else
      var e := entries[0];
      (if e.1 != Undefined && e.1 != Null then [(e.0, ParamText(e.1))] else []) + DefinedPairs(entries[1..])
  }

  lemma {:induction false} DefinedPairsAppend(a: seq<(string, ParamValue)>, b: seq<(string, ParamValue)>)
    ensures DefinedPairs(a + b) == DefinedPairs(a) + DefinedPairs(b)
  {
    if a == [] {
      assert a + b == b;
    } else {
      assert (a + b)[1..] == a[1..] + b;
      DefinedPairsAppend(a[1..], b);
    }
  }

  /** A parameter with a defined value is sent, and every pair sent comes from a defined
      entry: undefined and null values are skipped. */
  lemma {:induction false} DefinedPairsKeys(entries: seq<(string, ParamValue)>)
    ensures forall i :: 0 <= i < |entries| && entries[i].1 != Undefined && entries[i].1 != Null ==>
              (entries[i].0, ParamText(entries[i].1)) in DefinedPairs(entries)
    ensures (forall i :: 0 <= i < |entries| ==> entries[i].1 == Undefined || entries[i].1 == Null)
            ==> DefinedPairs(entries) == []
    ensures forall p :: p in DefinedPairs(entries) ==>
              exists i :: 0 <= i < |entries| && entries[i].1 != Undefined && entries[i].1 != Null &&
                          p == (entries[i].0, ParamText(entries[i].1))
  {
    if entries != [] {
      DefinedPairsKeys(entries[1..]);
      forall i | 0 <= i < |entries| && entries[i].1 != Undefined && entries[i].1 != Null
        ensures (entries[i].0, ParamText(entries[i].1)) in DefinedPairs(entries)
      {
        if i > 0 {
          assert entries[i] == entries[1..][i - 1];
        }
      }
      forall p | p in DefinedPairs(entries)
        ensures exists i :: 0 <= i < |entries| && entries[i].1 != Undefined && entries[i].1 != Null &&
                            p == (entries[i].0, ParamText(entries[i].1))
      {
        var e := entries[0];
        var head := if e.1 != Undefined && e.1 != Null then [(e.0, ParamText(e.1))] else [];
        assert DefinedPairs(entries) == head + DefinedPairs(entries[1..]);
        if p in head {
          assert entries[0] == e;
        } else {
          var k :| 0 <= k < |entries[1..]| && entries[1..][k].1 != Undefined && entries[1..][k].1 != Null &&
                   p == (entries[1..][k].0, ParamText(entries[1..][k].1));
          assert entries[k + 1] == entries[1..][k];
        }
      }
    }
  }

  /** The `forEach` over `Object.entries(params)` that fills the `URLSearchParams`. */
  method AppendDefined(entries: seq<(string, ParamValue)>) returns (pairs: seq<(string, string)>)
    ensures pairs == DefinedPairs(entries)
  {
    pairs := [];
    for i := 0 to |entries|
      invariant pairs == DefinedPairs(entries[..i])
    {
      var e := entries[i];
      if e.1 != Undefined && e.1 != Null {
        pairs := pairs + [(e.0, ParamText(e.1))];
      }
      assert entries[..i + 1] == entries[..i] + [e];
      DefinedPairsAppend(entries[..i], [e]);
    }
    assert entries[..|entries|] == entries;
  }

  /** The endpoint `getProducts` requests: `?` only before a non-empty query string. */
  function ProductsEndpoint(query: string): (endpoint: string)
    ensures query == "" ==> endpoint == "/products"
    ensures query != "" ==> endpoint == "/products?" + query
  {
    "/products" + (if query != "" then "?" + query else "")
  }

  /** `getProducts(params)` up to the request: the endpoint it asks for. */
  method GetProductsEndpoint(params: Option<seq<(string, ParamValue)>>) returns (endpoint: string)
    ensures endpoint == ProductsEndpoint(Serialize(DefinedPairs(params.GetOr([]))))
    ensures params.None? ==> endpoint == "/products"
  {
    var pairs: seq<(string, string)> := [];
    if params.Some? {
      pairs := AppendDefined(params.value);
    }
    var query := Serialize(pairs);
    endpoint := ProductsEndpoint(query);
  }

  /** A query string is empty exactly when no parameter had a defined value. */
  lemma SerializeEmpty(pairs: seq<(string, string)>)
    ensures Serialize(pairs) == "" <==> pairs == []
  {
    if pairs != [] {
      assert '=' in EncodePair(pairs[0]) by {
        assert EncodePair(pairs[0])[|FormEncode(pairs[0].0)|] == '=';
      }
      if |pairs| > 1 {
        assert |Serialize(pairs)| >= |EncodePair(pairs[0])|;
      }
    }
  }
}
