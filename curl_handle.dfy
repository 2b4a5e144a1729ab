/** The part of libcurl both request classes talk to: an easy handle seen as
    a table of options where every `curl_setopt` overwrites the key it names,
    and the outcome of one transfer, which the model takes as an input. */
module Curl {
  import opened PhpArray

  /** The option keys the classes set by name; every other `CURLOPT_*`
      constant a caller puts in the option map is `OtherOpt`. */
  datatype OptKey =
    | Url | ReturnTransfer | Header | HttpHeader | CustomRequest | File | Stderr
    | OtherOpt(code: int)

  /** Option values are passed through to libcurl without interpretation. */
  datatype OptValue =
    | Text(s: string) | Flag(b: bool) | List(items: seq<string>)
    | Stream(path: string) | Opaque(token: int)

  /** The options set on one easy handle. */
  type Handle = map<OptKey, OptValue>

  /** The keys the request methods set themselves before the option map. */
  predicate IsPreset(k: OptKey) {
    k.Url? || k.ReturnTransfer? || k.Header? || k.HttpHeader? || k.CustomRequest?
  }

  /** What the request methods read from the object to build a handle. An
      empty string stands for an unset (falsy) field. */
  datatype RequestConfig = RequestConfig(
    bearerToken: string,
    authorization: string,
    httpMethod: string,
    options: Arr<OptKey, OptValue>,
    headers: Arr<string, string>)

  /** `"{$key}: {$value}"` for every entry of the header map, in map order. */
  function HeaderLines(headers: seq<(string, string)>): (lines: seq<string>)
    ensures |lines| == |headers|
    ensures forall i :: 0 <= i < |headers| ==> lines[i] == headers[i].0 + ": " + headers[i].1
  {
    if headers == [] then []
    else [headers[0].0 + ": " + headers[0].1] + HeaderLines(headers[1..])
  }

  /** The option map as a table: exactly its keys, with its values. */
  function OptionTable(options: seq<(OptKey, OptValue)>): (m: Handle)
    ensures forall k :: k in m <==> HasKey(options, k)
    ensures Distinct(options) ==> forall k :: k in m ==> Get(options, k) == Some(m[k])
    decreases |options|
  {
    if options == [] then map[]
    else
      var n := |options| - 1;
      var prefix := options[..n];
      assert options == prefix + [options[n]];
      assert Distinct(options) ==> Distinct(prefix) && !HasKey(prefix, options[n].0);
      forall k ensures Find(options, k) ==
        (if Find(prefix, k) < n then Find(prefix, k) else if options[n].0 == k then n else n + 1)
      {
        FindSnoc(prefix, options[n], k);
      }
      OptionTable(prefix)[options[n].0 := options[n].1]
  }

  /** URL, RETURNTRANSFER and HEADER, set first on every handle. */
  function BaseLayer(url: string): Handle {
    map[Url := Text(url), ReturnTransfer := Flag(true), Header := Flag(false)]
  }

  /** The bearer header, then the authorization header in the same slot. */
  function AuthLayer(bearerToken: string, authorization: string): Handle {
    (if bearerToken != "" then map[HttpHeader := List(["Authorization: Bearer " + bearerToken])] else map[])
    + (if authorization != "" then map[HttpHeader := List(["Authorization: " + authorization])] else map[])
  }

  function MethodLayer(httpMethod: string): Handle {
    if httpMethod != "" then map[CustomRequest := Text(httpMethod)] else map[]
  }

  function HeaderLayer(headers: Arr<string, string>): Handle {
    if headers != [] then map[HttpHeader := List(HeaderLines(headers))] else map[]
  }

  /** The options in effect once the request methods have set everything:
      each later layer overwrites the keys it holds. */
  function EffectiveHandle(url: string, c: RequestConfig): Handle {
    BaseLayer(url) + AuthLayer(c.bearerToken, c.authorization) + MethodLayer(c.httpMethod)
    + OptionTable(c.options) + HeaderLayer(c.headers)
  }

  /** HTTPHEADER: the header map beats the option map, which beats
      authorization, which beats the bearer token. */
  lemma HttpHeaderPrecedence(url: string, c: RequestConfig)
    ensures var h := EffectiveHandle(url, c);
      && (HttpHeader in h <==>
           c.headers != [] || HasKey(c.options, HttpHeader) || c.authorization != "" || c.bearerToken != "")
      && (c.headers != [] ==> h[HttpHeader] == List(HeaderLines(c.headers)))
      && (c.headers == [] && HasKey(c.options, HttpHeader) ==>
           Some(h[HttpHeader]) == Get(c.options, HttpHeader))
      && (c.headers == [] && !HasKey(c.options, HttpHeader) && c.authorization != "" ==>
           h[HttpHeader] == List(["Authorization: " + c.authorization]))
      && (c.headers == [] && !HasKey(c.options, HttpHeader) && c.authorization == "" && c.bearerToken != "" ==>
           h[HttpHeader] == List(["Authorization: Bearer " + c.bearerToken]))
  {
    var below := BaseLayer(url) + AuthLayer(c.bearerToken, c.authorization) + MethodLayer(c.httpMethod);
    AuthSlot(url, c.bearerToken, c.authorization, c.httpMethod);
    if c.headers == [] {
      assert HeaderLayer(c.headers) == map[];
      LayerLookup(below, OptionTable(c.options), HeaderLayer(c.headers), HttpHeader);
    }
  }

  /** Below the option map, HTTPHEADER holds the authorization header when
      one is set, else the bearer header when a token is set. */
  lemma AuthSlot(url: string, bearerToken: string, authorization: string, httpMethod: string)
    ensures var below := BaseLayer(url) + AuthLayer(bearerToken, authorization) + MethodLayer(httpMethod);
      && (HttpHeader in below <==> authorization != "" || bearerToken != "")
      && (authorization != "" ==> below[HttpHeader] == List(["Authorization: " + authorization]))
      && (authorization == "" && bearerToken != "" ==> below[HttpHeader] == List(["Authorization: Bearer " + bearerToken]))
  {
  }

  /** CUSTOMREQUEST: the option map beats the method. */
  lemma CustomRequestPrecedence(url: string, c: RequestConfig)
    ensures var h := EffectiveHandle(url, c);
      && (CustomRequest in h <==> HasKey(c.options, CustomRequest) || c.httpMethod != "")
      && (HasKey(c.options, CustomRequest) ==> Some(h[CustomRequest]) == Get(c.options, CustomRequest))
      && (!HasKey(c.options, CustomRequest) && c.httpMethod != "" ==> h[CustomRequest] == Text(c.httpMethod))
  {
    var below := BaseLayer(url) + AuthLayer(c.bearerToken, c.authorization) + MethodLayer(c.httpMethod);
    MethodSlot(url, c.bearerToken, c.authorization, c.httpMethod);
    LayerLookup(below, OptionTable(c.options), HeaderLayer(c.headers), CustomRequest);
  }

  /** Below the option map, CUSTOMREQUEST holds the method when one is
      set. */
  lemma MethodSlot(url: string, bearerToken: string, authorization: string, httpMethod: string)
    ensures var below := BaseLayer(url) + AuthLayer(bearerToken, authorization) + MethodLayer(httpMethod);
      && (CustomRequest in below <==> httpMethod != "")
      && (httpMethod != "" ==> below[CustomRequest] == Text(httpMethod))
  {
  }

  /** URL, RETURNTRANSFER and HEADER are always set, and the option map wins
      on them. */
  lemma OptionsWinOnBase(url: string, c: RequestConfig)
    ensures var h := EffectiveHandle(url, c);
      && Url in h && ReturnTransfer in h && Header in h
      && h[Url] == (if HasKey(c.options, Url) then Get(c.options, Url).value else Text(url))
      && h[ReturnTransfer] == (if HasKey(c.options, ReturnTransfer) then Get(c.options, ReturnTransfer).value else Flag(true))
      && h[Header] == (if HasKey(c.options, Header) then Get(c.options, Header).value else Flag(false))
  {
    var below := BaseLayer(url) + AuthLayer(c.bearerToken, c.authorization) + MethodLayer(c.httpMethod);
    assert below[Url] == Text(url) && below[ReturnTransfer] == Flag(true) && below[Header] == Flag(false);
    LayerLookup(below, OptionTable(c.options), HeaderLayer(c.headers), Url);
    LayerLookup(below, OptionTable(c.options), HeaderLayer(c.headers), ReturnTransfer);
    LayerLookup(below, OptionTable(c.options), HeaderLayer(c.headers), Header);
  }

  /** Every key the request methods do not set themselves is exactly what
      the option map says. */
  lemma OtherKeysFromOptions(url: string, c: RequestConfig, k: OptKey)
    requires !IsPreset(k)
    ensures k in EffectiveHandle(url, c) <==> HasKey(c.options, k)
    ensures k in EffectiveHandle(url, c) ==> Some(EffectiveHandle(url, c)[k]) == Get(c.options, k)
  {
    var below := BaseLayer(url) + AuthLayer(c.bearerToken, c.authorization) + MethodLayer(c.httpMethod);
    assert k !in below;
    LayerLookup(below, OptionTable(c.options), HeaderLayer(c.headers), k);
  }

  /** A key the top layer does not hold comes from the option layer when it
      has it, and from below otherwise. */
  lemma LayerLookup(below: Handle, ot: Handle, top: Handle, k: OptKey)
    requires k !in top
    ensures k in below + ot + top <==> k in below || k in ot
    ensures k in ot ==> (below + ot + top)[k] == ot[k]
    ensures k !in ot && k in below ==> (below + ot + top)[k] == below[k]
  {
  }

  /** The `curl_setopt` sequence the request methods run on a fresh handle:
      URL, RETURNTRANSFER, HEADER, bearer, authorization, method, each entry
      of the option map, then the header list. */
  method Assemble(url: string, c: RequestConfig) returns (h: Handle)
    ensures h == EffectiveHandle(url, c)
  {
    h := SetPresets(url, c);
    h := ApplyOptions(h, c.options);
    h := SetHeaders(h, c.headers);
  }

  /** The last `curl_setopt`: `CURLOPT_HTTPHEADER` from the header map, only
      when that map is not empty. */
  method SetHeaders(h0: Handle, headers: Arr<string, string>) returns (h: Handle)
    ensures h == h0 + HeaderLayer(headers)
  {
    h := h0;
    if headers != [] {
      var lines := BuildHeaderLines(headers);
      UnionSingleton(h, HttpHeader, List(lines));
      h := h[HttpHeader := List(lines)];
    } else {
      assert h == h + map[];
    }
  }

  /** The handles for a list of URLs, all with the same configuration. */
  function Handles(urls: seq<string>, c: RequestConfig): (hs: seq<Handle>)
    ensures |hs| == |urls|
    ensures forall i :: 0 <= i < |urls| ==> hs[i] == EffectiveHandle(urls[i], c)
    decreases |urls|
  {
    if urls == [] then [] else Handles(urls[..|urls| - 1], c) + [EffectiveHandle(urls[|urls| - 1], c)]
  }

  lemma HandlesStep(urls: seq<string>, c: RequestConfig, i: nat)
    requires i < |urls|
    ensures Handles(urls[..i + 1], c) == Handles(urls[..i], c) + [EffectiveHandle(urls[i], c)]
  {
    assert urls[..i + 1][..i] == urls[..i];
  }

  /** The first loop of `multipleRequests`: one handle per URL, all with
      the same configuration. */
  method AssembleAll(urls: seq<string>, c: RequestConfig) returns (handles: seq<Handle>)
    ensures |handles| == |urls|
    ensures forall i :: 0 <= i < |urls| ==> handles[i] == EffectiveHandle(urls[i], c)
  {
    handles := [];
    for i := 0 to |urls|
      invariant handles == Handles(urls[..i], c)
    {
      var h := Assemble(urls[i], c);
      HandlesStep(urls, c, i);
      handles := handles + [h];
    }
    assert urls[..|urls|] == urls;
  }

  /** The `curl_setopt` calls before the option map: URL, RETURNTRANSFER,
      HEADER, the bearer header, the authorization header, the method. */
  method SetPresets(url: string, c: RequestConfig) returns (h: Handle)
    ensures h == BaseLayer(url) + AuthLayer(c.bearerToken, c.authorization) + MethodLayer(c.httpMethod)
  {
    h := map[];
    h := h[Url := Text(url)];
    h := h[ReturnTransfer := Flag(true)];
    h := h[Header := Flag(false)];
    assert h == BaseLayer(url);
    if c.bearerToken != "" {
      h := h[HttpHeader := List(["Authorization: Bearer " + c.bearerToken])];
    }
    if c.authorization != "" {
      h := h[HttpHeader := List(["Authorization: " + c.authorization])];
    }
    assert h == BaseLayer(url) + AuthLayer(c.bearerToken, c.authorization);
    if c.httpMethod != "" {
      h := h[CustomRequest := Text(c.httpMethod)];
    }
  }

  /** `foreach ($this->options as $key => $value) curl_setopt($ch, $key, $value)`. */
  method ApplyOptions(h0: Handle, options: Arr<OptKey, OptValue>) returns (h: Handle)
    ensures h == h0 + OptionTable(options)
  {
    h := h0;
    for i := 0 to |options|
      invariant h == h0 + OptionTable(options[..i])
    {
      OptionTableSnoc(options, i);
      UnionUpdate(h0, OptionTable(options[..i]), options[i].0, options[i].1);
      h := h[options[i].0 := options[i].1];
    }
    assert options[..|options|] == options;
  }

  /** The `$headers[] = "{$key}: {$value}"` loop. */
  method BuildHeaderLines(headers: Arr<string, string>) returns (lines: seq<string>)
    ensures lines == HeaderLines(headers)
  {
    lines := [];
    for i := 0 to |headers|
      invariant |lines| == i
      invariant forall j :: 0 <= j < i ==> lines[j] == headers[j].0 + ": " + headers[j].1
    {
      lines := lines + [headers[i].0 + ": " + headers[i].1];
    }
  }

  lemma OptionTableSnoc(o: seq<(OptKey, OptValue)>, i: nat)
    requires i < |o|
    ensures OptionTable(o[..i + 1]) == OptionTable(o[..i])[o[i].0 := o[i].1]
  {
    assert o[..i + 1][..i] == o[..i];
  }

  lemma UnionSingleton(a: Handle, k: OptKey, v: OptValue)
    ensures a[k := v] == a + map[k := v]
  {
  }

  lemma UnionUpdate(a: Handle, b: Handle, k: OptKey, v: OptValue)
    ensures (a + b)[k := v] == a + b[k := v]
  {
  }

  /** One finished transfer as the model receives it: the status code from
      `curl_getinfo`, the body, `curl_errno` (0 for none) and `curl_error`. */
  datatype Transfer = Transfer(code: int, body: string, errno: int, error: string)

  /** `curl_multi_getcontent` of each handle, in handle order. */
  function BodiesOf(ts: seq<Transfer>): (bodies: seq<string>)
    ensures |bodies| == |ts|
    ensures forall i :: 0 <= i < |ts| ==> bodies[i] == ts[i].body
    decreases |ts|
  {
    if ts == [] then [] else BodiesOf(ts[..|ts| - 1]) + [ts[|ts| - 1].body]
  }

  /** The outcome classification both classes use: a 2xx status. */
  predicate IsSuccessCode(code: int) {
    200 <= code && code < 300
  }

  /** A value a request method returns: a boolean, a string, or `null`. */
  datatype Reply = Bool(b: bool) | Str(s: string) | Null

  /** What a class keeps in its `$response` field. */
  datatype Stored = Unset | Failed | Body(s: string) | Bodies(ss: seq<string>)

  /** `curl_exec` with RETURNTRANSFER: false when the transfer failed, the
      body otherwise. */
  function ExecResult(t: Transfer): Stored {
    if t.errno != 0 then Failed else Body(t.body)
  }

  /** The return value of `asyncSingleRequest` in both classes. */
  function AsyncReply(t: Transfer, responseRequired: bool): (r: Reply)
    ensures !responseRequired ==> r == Bool(IsSuccessCode(t.code))
    ensures responseRequired ==> r == Str(t.body)
  {
    if IsSuccessCode(t.code) then
      if responseRequired then Str(t.body) else Bool(true)
    else
      if responseRequired then Str(t.body) else Bool(false)
  }
}
