/**
 * The state of a request builder and the transitions of its configuration calls, as values.
 * The class Requests.Client performs these transitions in place; here they are functions on
 * ClientState, so that lemmas can relate several of them.
 */
module Builder {
  import opened Wrappers
  import opened Text
  import opened Format
  import opened HttpHeader

  /** The content types the payload resolver declares. */
  const ContentTypeForm: string := "application/x-www-form-urlencoded"
  const ContentTypeJson: string := "application/json"
  const ContentTypeKey: string := "Content-Type"

  const MethodGet: string := "GET"
  const MethodPost: string := "POST"
  const MethodPut: string := "PUT"

  /** The three supported verbs joined with no separator: the string Method refuses. */
  const JoinedVerbs: string := MethodPost + MethodGet + MethodPut

  /** A non-fatal error, recorded in the error list. */
  datatype Error =
    | ProxyNil
    | ProxyFieldEmpty
    | ProxyUrlInvalid(reason: string)
    | JunctionMalformed(site: string, point: string)
    | MarshalFailed(reason: string)
    | ProducerReturnedNil
    | RequestInvalid(reason: string)

  /** A fatal fault: a place where the Go code panics. */
  datatype Fault =
    | SiteNotSupported(site: string)
    | MethodNotSupported(verb: string)
    | NilRequest  // the nil *http.Request that http.NewRequest returns with its error is dereferenced
    | NilCookie   // AddCookie is handed the nil cookie of a client that never had one set

  /** A proxy descriptor: every field must be non-empty. */
  datatype Proxy = Proxy(ip: string, port: string, userName: string, password: string)
  {
    /** The fields in declaration order, as the validation loop visits them. */
    function Fields(): seq<string> {
      [ip, port, userName, password]
    }
  }

  datatype Userinfo = Userinfo(username: string, password: string)

  /** A URL as url.Parse returns it; the builder only ever sets its user information. */
  datatype Url = Url(scheme: string, host: string, path: string, rawQuery: string, user: Option<Userinfo>)

  /** The HTTP client's transport: the default one, or one that routes through a proxy. */
  datatype Transport = DefaultTransport | ProxyTransport(proxy: Url)

  /** The body reader: the url.Values encoding of a form (kept symbolic), a raw string, or the
      bytes json.Marshal produced. */
  datatype Body = FormBody(fields: map<string, string>) | TextBody(text: string) | JsonBody(encoded: seq<bv8>)

  /** The shapes Query's interface{} argument is told apart by. A struct is represented by the
      outcome json.Marshal gives for it. A map[string]string, a pointer, a slice, nil and every
      other dynamic type is Other. */
  datatype Input =
    | FormValues(values: map<string, seq<string>>)
    | AnyMap(entries: map<string, Value>)
    | Str(text: string)
    | Struct(marshalled: Result<seq<bv8>, string>)
    | Other

  datatype HttpCookie = HttpCookie(name: string, value: string)

  /** The assembled *http.Request. `query` is Some(form) when the URL's raw query is replaced by
      the encoding of that form. The cookie travels as the Cookie entry of `headers`. */
  datatype PendingRequest = PendingRequest(
    httpMethod: string,
    url: string,
    query: Option<map<string, string>>,
    body: Option<Body>,
    headers: map<string, string>)

  /** Every field of the client that request.go reads or writes. */
  datatype ClientState = ClientState(
    httpMethod: string,
    urlSite: string,
    urlPoint: string,
    headers: map<string, string>,
    form: map<string, string>,
    body: Option<Body>,
    cookie: Option<HttpCookie>,
    transport: Transport,
    errors: seq<Error>,
    request: Option<PendingRequest>)

  /** A client with nothing configured. */
  const Initial: ClientState :=
    ClientState("", "", "", map[], map[], None, None, DefaultTransport, [], None)

  /** What every configuration call keeps: header keys are canonical, and a form body is the
      encoding of the form accumulated so far. */
  predicate Consistent(s: ClientState) {
    && HeadersCanonical(s.headers)
    && (s.body.Some? && s.body.value.FormBody? ==> s.body.value.fields == s.form)
  }

  function ErrorsOf(e: Option<Error>): seq<Error> {
    if e.Some? then [e.value] else []
  }

  // ---------------------------------------------------------------- validation

  /** UrlSite accepts a site exactly when it contains "http". */
  predicate SiteAccepted(site: string) {
    Contains(site, "http")
  }

  /** Method accepts a verb exactly when it does not contain "POSTGETPUT". */
  predicate MethodAccepted(verb: string) {
    !Contains(verb, JoinedVerbs)
  }

  /** Any string shorter than "POSTGETPUT" is accepted as a method. */
  lemma ShortMethodAccepted(verb: string)
    requires |verb| < |JoinedVerbs|
    ensures MethodAccepted(verb)
  {
    ContainsShorter(verb, JoinedVerbs);
  }

  /** The substring test lets the three verbs through, and also "DELETE", "" and lower-case
      verbs; it rejects "POSTGETPUT" and anything around it. */
  lemma MethodAcceptance(before: string, after: string)
    ensures MethodAccepted(MethodGet) && MethodAccepted(MethodPost) && MethodAccepted(MethodPut)
    ensures MethodAccepted("DELETE") && MethodAccepted("") && MethodAccepted("get")
    ensures !MethodAccepted(before + JoinedVerbs + after)
  {
    ShortMethodAccepted(MethodGet);
    ShortMethodAccepted(MethodPost);
    ShortMethodAccepted(MethodPut);
    ShortMethodAccepted("DELETE");
    ShortMethodAccepted("");
    ShortMethodAccepted("get");
    var s := before + JoinedVerbs + after;
    assert s[|before|..|before| + |JoinedVerbs|] == JoinedVerbs;
    assert OccursAt(s, JoinedVerbs, |before|);
    ContainsAt(s, JoinedVerbs);
  }

  /** An https site passes UrlSite; a site without "http" anywhere in it does not. */
  lemma SiteAcceptance(host: string, site: string)
    requires forall i :: !OccursAt(site, "http", i)
    ensures SiteAccepted("https://" + host)
    ensures !SiteAccepted(site)
  {
    assert IsPrefix("http", "https://" + host);
    ContainsAt(site, "http");
  }

  // ---------------------------------------------------------------- GetUrl

  /** The result of joining site and point: the URL, the point as GetUrl leaves it, and the
      error it records. */
  datatype Junction = Junction(url: string, point: string, error: Option<Error>)

  /** GetUrl indexes the last character of the site whenever the point is not blank. */
  predicate Joinable(site: string, point: string) {
    site != [] || TrimSpace(point) == []
  }

  /** A non-blank point that meets the site with no '/' on either side is repaired with a '/'
      and the malformed junction is recorded; otherwise the two are concatenated as they are. */
  function JoinUrl(site: string, point: string): (j: Junction)
    requires Joinable(site, point)
    ensures j.url == site + j.point
    ensures j.error.Some? <==> j.point != point
    ensures j.error.Some? ==> j.point == "/" + point && j.error == Some(JunctionMalformed(site, point))
    ensures Joinable(site, j.point)
  {
    if TrimSpace(point) != [] && site[|site| - 1] != '/' && point[0] != '/' then
      Junction(site + "/" + point, "/" + point, Some(JunctionMalformed(site, point)))
    else
      Junction(site + point, point, None)
  }

  /** GetUrl records an error and repairs the point exactly when the point is not blank and there
      is no '/' at the end of the site nor at the start of the point. */
  lemma JoinUrlRepairsExactly(site: string, point: string)
    requires Joinable(site, point)
    ensures var j := JoinUrl(site, point);
      j.error.Some? <==> (!AllSpace(point) && site != [] && site[|site| - 1] != '/' && point != [] && point[0] != '/')
    ensures var j := JoinUrl(site, point);
      j.error.None? ==> j.url == site + point && j.point == point
  {
    TrimSpaceBlank(point);
  }

  /** After a repair the junction is well formed: a second GetUrl returns the same URL, keeps the
      point and records nothing. */
  lemma JoinUrlIdempotent(site: string, point: string)
    requires Joinable(site, point)
    ensures var j := JoinUrl(site, point);
      Joinable(site, j.point) && JoinUrl(site, j.point) == Junction(j.url, j.point, None)
  {
  }

  /** "http://a.com" and "path" give "http://a.com/path" with an error; "http://a.com/" and
      "/path" are concatenated without a repair, so the doubled slash stays. */
  lemma JoinUrlExamples()
    ensures JoinUrl("http://a.com", "path")
         == Junction("http://a.com/path", "/path", Some(JunctionMalformed("http://a.com", "path")))
    ensures JoinUrl("http://a.com/", "/path") == Junction("http://a.com//path", "/path", None)
    ensures JoinUrl("http://a.com", " ") == Junction("http://a.com ", " ", None)
  {
    TrimSpaceBlank("path");
    assert !IsSpace("path"[0]);
    TrimSpaceBlank("/path");
    assert !IsSpace("/path"[0]);
    TrimSpaceBlank(" ");
    assert AllSpace(" ");
  }

  // ---------------------------------------------------------------- Query

  /** The inputs Query can take without indexing an empty string or an empty value list. */
  predicate QueryWellFormed(d: Input) {
    match d
    case FormValues(values) => forall k | k in values :: values[k] != []
    case Str(text) => text != []
    case _ => true
  }

  /** Form values merged into the form: each key of `values` now holds its first value. */
  function MergeValues(form: map<string, string>, values: map<string, seq<string>>): map<string, string>
    requires forall k | k in values :: values[k] != []
  {
    form + map k | k in values :: values[k][0]
  }

  /** A map[string]interface{} merged into the form: each key now holds its value under %v. */
  function MergeEntries(form: map<string, string>, entries: map<string, Value>): map<string, string> {
    form + map k | k in entries :: Sprint(entries[k])
  }

  /** The raw-string test: the first character is '{' and the last is '}'. */
  predicate BracedText(text: string)
    requires text != []
  {
    text[0] == '{' && text[|text| - 1] == '}'
  }

  /** A form body for the accumulated form, declared as form-encoded. */
  function WithForm(s: ClientState, form: map<string, string>): ClientState {
    s.(headers := SetHeader(s.headers, ContentTypeKey, ContentTypeForm),
       form := form,
       body := Some(FormBody(form)))
  }

  /** A JSON body, declared as JSON. */
  function WithJson(s: ClientState, body: Body): ClientState {
    s.(headers := SetHeader(s.headers, ContentTypeKey, ContentTypeJson), body := Some(body))
  }

  /** Query(data): the payload resolution. */
  function Resolve(s: ClientState, d: Input): (r: ClientState)
    requires QueryWellFormed(d)
    ensures r == s.(headers := r.headers, form := r.form, body := r.body, errors := r.errors)
    ensures r.errors == s.errors
         || (d.Struct? && d.marshalled.Failure? && r.errors == s.errors + [MarshalFailed(d.marshalled.error)])
  {
    match d
    case FormValues(values) => WithForm(s, MergeValues(s.form, values))
    case AnyMap(entries) => WithForm(s, MergeEntries(s.form, entries))
    case Str(text) => if BracedText(text) then WithJson(s, TextBody(text)) else s
    case Struct(marshalled) =>
      (match marshalled
       case Failure(reason) => s.(errors := s.errors + [MarshalFailed(reason)])
       case Success(encoded) => WithJson(s, JsonBody(encoded)))
    case Other => s
  }

  lemma ContentTypeKeyIsToken()
    ensures IsTokenKey(ContentTypeKey)
  {
    forall i | 0 <= i < |ContentTypeKey| ensures IsTokenChar(ContentTypeKey[i]) {
      assert ContentTypeKey[i] == '-' || 'a' <= ContentTypeKey[i] <= 'z' || 'A' <= ContentTypeKey[i] <= 'Z';
    }
  }

  /** "Content-Type" is already in canonical form, so Set stores it under that very key. */
  lemma ContentTypeKeyCanonical()
    ensures CanonicalKey(ContentTypeKey) == ContentTypeKey
  {
    ContentTypeKeyIsToken();
    var k := ContentTypeKey;
    var r := CanonicalFrom(k, true);
    forall i | 0 <= i < |k| ensures r[i] == k[i] {
      CanonicalFromAt(k, true, i);
      if i == 0 || i == 8 {
        assert 'A' <= k[i] <= 'Z';
      } else if i != 7 {
        assert 'a' <= k[i] <= 'z';
      }
    }
    assert r == k;
  }

  /** Every resolution keeps the client consistent. */
  lemma ResolveKeepsConsistent(s: ClientState, d: Input)
    requires QueryWellFormed(d) && Consistent(s)
    ensures Consistent(Resolve(s, d))
  {
    SetHeaderKeepsCanonical(s.headers, ContentTypeKey, ContentTypeForm);
    SetHeaderKeepsCanonical(s.headers, ContentTypeKey, ContentTypeJson);
  }

  /** Form values and string-keyed maps overwrite their own keys in the accumulated form, keep
      every other key from earlier calls, declare the form content type and make the body the
      encoding of the whole accumulated form. Nothing else changes. */
  lemma ResolveFormAccumulates(s: ClientState, d: Input)
    requires d.FormValues? || d.AnyMap?
    requires QueryWellFormed(d)
    ensures var r := Resolve(s, d);
      && r.form.Keys == s.form.Keys + (if d.FormValues? then d.values.Keys else d.entries.Keys)
      && (d.FormValues? ==> forall k | k in d.values :: r.form[k] == d.values[k][0])
      && (d.AnyMap? ==> forall k | k in d.entries :: r.form[k] == Sprint(d.entries[k]))
      && (forall k | k in s.form && k !in (if d.FormValues? then d.values.Keys else d.entries.Keys)
            :: r.form[k] == s.form[k])
      && ContentTypeKey in r.headers && r.headers[ContentTypeKey] == ContentTypeForm
      && r.headers == SetHeader(s.headers, ContentTypeKey, ContentTypeForm)
      && r.body == Some(FormBody(r.form))
      && r == s.(headers := r.headers, form := r.form, body := r.body)
  {
    ContentTypeKeyCanonical();
  }

  /** A raw string becomes the JSON body verbatim exactly when it is braced; a struct becomes the
      JSON body when it marshals and otherwise adds exactly one error and changes nothing else;
      any other shape changes nothing. */
  lemma ResolveJsonCases(s: ClientState, d: Input)
    requires d.Str? || d.Struct? || d.Other?
    requires QueryWellFormed(d)
    ensures var r := Resolve(s, d);
      && (d.Str? && BracedText(d.text) ==>
            r == WithJson(s, TextBody(d.text)) && ContentTypeKey in r.headers && r.headers[ContentTypeKey] == ContentTypeJson)
      && (d.Str? && !BracedText(d.text) ==> r == s)
      && (d.Struct? && d.marshalled.Success? ==>
            r == WithJson(s, JsonBody(d.marshalled.value)) && ContentTypeKey in r.headers && r.headers[ContentTypeKey] == ContentTypeJson)
      && (d.Struct? && d.marshalled.Failure? ==>
            r == s.(errors := s.errors + [MarshalFailed(d.marshalled.error)]))
      && (d.Other? ==> r == s)
  {
    ContentTypeKeyCanonical();
  }

  /** Example: the string map {"a": "1", "b": "2"} on a fresh client gives a form body with both
      pairs, declared as form-encoded. */
  lemma ResolveMapExample()
    ensures var r := Resolve(Initial, AnyMap(map["a" := StringValue("1"), "b" := StringValue("2")]));
      r.body == Some(FormBody(map["a" := "1", "b" := "2"])) && ContentTypeKey in r.headers && r.headers[ContentTypeKey] == ContentTypeForm
  {
    ContentTypeKeyCanonical();
    var entries := map["a" := StringValue("1"), "b" := StringValue("2")];
    var merged := MergeEntries(map[], entries);
    assert merged.Keys == {"a", "b"};
    assert merged["a"] == "1" && merged["b"] == "2";
    assert merged == map["a" := "1", "b" := "2"];
  }

  /** QueryFunc(f): a producer that returns nil records one error; otherwise its result is resolved. */
  function QueryFuncStep(s: ClientState, produced: Option<Input>): (r: ClientState)
    requires produced.Some? ==> QueryWellFormed(produced.value)
    ensures r == s.(headers := r.headers, form := r.form, body := r.body, errors := r.errors)
    ensures |s.errors| <= |r.errors| <= |s.errors| + 1 && r.errors[..|s.errors|] == s.errors
  {
    match produced
    case None => s.(errors := s.errors + [ProducerReturnedNil])
    case Some(d) => Resolve(s, d)
  }

  /** A nil producer result touches no part of the payload and adds exactly one error. */
  lemma QueryFuncNilKeepsPayload(s: ClientState)
    ensures var r := QueryFuncStep(s, None);
      r.form == s.form && r.body == s.body && r.headers == s.headers
      && |r.errors| == |s.errors| + 1 && r.errors[..|s.errors|] == s.errors
  {
  }

  // ---------------------------------------------------------------- SetProxy

  predicate FieldsFilled(p: Proxy) {
    forall i | 0 <= i < |p.Fields()| :: p.Fields()[i] != []
  }

  /** The proxy URL text that is handed to url.Parse. */
  function ProxyAddress(p: Proxy): string {
    "http://" + p.ip + ":" + p.port
  }

  /** The descriptor is present, complete, and its address parses. */
  predicate ProxyUsable(proxy: Option<Proxy>, parse: string -> Result<Url, string>) {
    proxy.Some? && FieldsFilled(proxy.value) && parse(ProxyAddress(proxy.value)).Success?
  }

  /** SetProxy(proxy), with url.Parse given as `parse`. */
  function ProxyStep(s: ClientState, proxy: Option<Proxy>, parse: string -> Result<Url, string>): (r: ClientState)
    ensures r == s.(transport := r.transport, errors := r.errors)
    ensures r.errors == s.errors
         || (r.transport == s.transport && |r.errors| == |s.errors| + 1 && r.errors[..|s.errors|] == s.errors)
  {
    match proxy
    case None => s.(errors := s.errors + [ProxyNil])
    case Some(p) =>
      if !FieldsFilled(p) then s.(errors := s.errors + [ProxyFieldEmpty])
      else
        match parse(ProxyAddress(p))
        case Failure(reason) => s.(errors := s.errors + [ProxyUrlInvalid(reason)])
        case Success(u) => s.(transport := ProxyTransport(u.(user := Some(Userinfo(p.userName, p.password)))))
  }

  /** A usable descriptor installs a proxy at http://ip:port carrying the user and password and
      records nothing; any other call records exactly one error and keeps the previous transport. */
  lemma ProxyStepOutcome(s: ClientState, proxy: Option<Proxy>, parse: string -> Result<Url, string>)
    ensures var r := ProxyStep(s, proxy, parse);
      if ProxyUsable(proxy, parse) then
        var p := proxy.value;
        var u := parse(ProxyAddress(p)).value;
        r == s.(transport := ProxyTransport(u.(user := Some(Userinfo(p.userName, p.password)))))
      else
        && r.transport == s.transport
        && |r.errors| == |s.errors| + 1 && r.errors[..|s.errors|] == s.errors
        && r == s.(errors := r.errors)
  {
  }

  /** The error a failed SetProxy records names the first check that failed. */
  lemma ProxyStepError(s: ClientState, proxy: Option<Proxy>, parse: string -> Result<Url, string>)
    requires !ProxyUsable(proxy, parse)
    ensures var e := ProxyStep(s, proxy, parse).errors[|s.errors|];
      && (proxy.None? ==> e == ProxyNil)
      && (proxy.Some? && !FieldsFilled(proxy.value) ==> e == ProxyFieldEmpty)
      && (proxy.Some? && FieldsFilled(proxy.value) ==> e == ProxyUrlInvalid(parse(ProxyAddress(proxy.value)).error))
  {
  }

  // ---------------------------------------------------------------- Request

  /** The header that AddCookie writes. */
  const CookieKey: string := "Cookie"

  /** The name=value pair AddCookie renders for a cookie. */
  function CookiePair(c: HttpCookie): (r: string)
    ensures |r| == |c.name| + 1 + |c.value| && r[|c.name|] == '='
    ensures r[..|c.name|] == c.name && r[|c.name| + 1..] == c.value
  {
    c.name + "=" + c.value
  }

  /** Request.AddCookie on a header map: the pair is appended after "; " to a non-empty Cookie
      header, or becomes the Cookie header when there is none. */
  function AddCookie(h: map<string, string>, c: HttpCookie): (r: map<string, string>)
    ensures r.Keys == h.Keys + {CookieKey}
    ensures r[CookieKey] != [] && (CookieKey in h && h[CookieKey] != "" ==> IsPrefix(h[CookieKey] + "; ", r[CookieKey]))
  {
    CookieKeyCanonical();
    var prior := if CookieKey in h then h[CookieKey] else "";
    SetHeader(h, CookieKey, if prior != "" then prior + "; " + CookiePair(c) else CookiePair(c))
  }

  /** AddCookie for the client's cookie, when it has one. */
  function AttachCookie(h: map<string, string>, cookie: Option<HttpCookie>): map<string, string> {
    if cookie.Some? then AddCookie(h, cookie.value) else h
  }

  lemma CookieKeyIsToken()
    ensures IsTokenKey(CookieKey)
  {
    forall i | 0 <= i < |CookieKey| ensures IsTokenChar(CookieKey[i]) {
      assert 'a' <= CookieKey[i] <= 'z' || 'A' <= CookieKey[i] <= 'Z';
    }
  }

  /** "Cookie" is already in canonical form, so Set and Get use that very key. */
  lemma CookieKeyCanonical()
    ensures CanonicalKey(CookieKey) == CookieKey
  {
    CookieKeyIsToken();
    var k := CookieKey;
    var r := CanonicalFrom(k, true);
    forall i | 0 <= i < |k| ensures r[i] == k[i] {
      CanonicalFromAt(k, true, i);
      if i == 0 {
        assert 'A' <= k[i] <= 'Z';
      } else {
        assert 'a' <= k[i] <= 'z' && k[i - 1] != '-';
      }
    }
    assert r == k;
  }

  /** AddCookie keeps the keys canonical, joins the pair to the Cookie header that was there and
      leaves every other header as it was. */
  lemma AddCookieHeader(h: map<string, string>, c: HttpCookie)
    requires HeadersCanonical(h)
    ensures var r := AddCookie(h, c);
      && HeadersCanonical(r)
      && CookieKey in r
      && r[CookieKey] == (if CookieKey in h && h[CookieKey] != "" then h[CookieKey] + "; " + CookiePair(c) else CookiePair(c))
      && (forall k | k != CookieKey :: k in r <==> k in h)
      && (forall k | k in h && k != CookieKey :: r[k] == h[k])
  {
    CookieKeyCanonical();
    var prior := if CookieKey in h then h[CookieKey] else "";
    SetHeaderKeepsCanonical(h, CookieKey, if prior != "" then prior + "; " + CookiePair(c) else CookiePair(c));
  }

  /** http.NewRequest's verdict on a method and a URL: the error it returns, if any. */
  type RequestCheck = (string, string) -> Option<string>

  function EffectiveMethod(verb: string): (r: string)
    ensures r != "" && (verb != "" ==> r == verb)
  {
    if verb == "" then MethodGet else verb
  }

  /** The request built from a state whose method is already defaulted: a GET carries the form
      as its query string and no body; any other method carries the body. Its header map is the
      client's own. */
  function Pending(t: ClientState, url: string): (r: PendingRequest)
    ensures r.query.None? || r.body.None?
    ensures r.headers == t.headers && r.httpMethod == t.httpMethod && r.url == url
  {
    PendingRequest(
      t.httpMethod, url,
      if t.httpMethod == MethodGet then Some(t.form) else None,
      if t.httpMethod == MethodGet then None else t.body,
      t.headers)
  }

  /** The state after the method is defaulted and GetUrl has run, and the URL GetUrl returned. */
  function Prepare(s: ClientState): (p: (ClientState, string))
    requires Joinable(s.urlSite, s.urlPoint)
    ensures p.0 == s.(httpMethod := p.0.httpMethod, urlPoint := p.0.urlPoint, errors := p.0.errors)
    ensures p.0.httpMethod != "" && Joinable(p.0.urlSite, p.0.urlPoint)
    ensures p.1 == p.0.urlSite + p.0.urlPoint
  {
    var j := JoinUrl(s.urlSite, s.urlPoint);
    (s.(httpMethod := EffectiveMethod(s.httpMethod), urlPoint := j.point, errors := s.errors + ErrorsOf(j.error)), j.url)
  }

  /** Request() with its error recorded: a failed construction leaves no request and appends
      the error; a successful one shares the client's header map with the request and writes
      the cookie, if there is one, into that map. */
  function Assemble(s: ClientState, newRequest: RequestCheck): (r: ClientState)
    requires Joinable(s.urlSite, s.urlPoint)
    ensures r == s.(httpMethod := r.httpMethod, urlPoint := r.urlPoint, headers := r.headers,
                    errors := r.errors, request := r.request)
    ensures r.request.Some? ==> r.request.value.headers == r.headers
  {
    var (t, url) := Prepare(s);
    match newRequest(t.httpMethod, url)
    case Some(reason) => t.(request := None, errors := t.errors + [RequestInvalid(reason)])
    case None =>
      var u := t.(headers := AttachCookie(t.headers, t.cookie));
      u.(request := Some(Pending(u, url)))
  }

  /** Request() as written: the nil request that comes with an error is dereferenced before the
      error is recorded, and a missing cookie is dereferenced by AddCookie. */
  function AssembleAsWritten(s: ClientState, newRequest: RequestCheck): (out: (ClientState, Option<Fault>))
    requires Joinable(s.urlSite, s.urlPoint)
    ensures out.0 == s.(httpMethod := out.0.httpMethod, urlPoint := out.0.urlPoint, headers := out.0.headers,
                        errors := out.0.errors, request := out.0.request)
    ensures out.1.None? <==>
      newRequest(EffectiveMethod(s.httpMethod), JoinUrl(s.urlSite, s.urlPoint).url).None? && s.cookie.Some?
  {
    var (t, url) := Prepare(s);
    match newRequest(t.httpMethod, url)
    case Some(_) => (t.(request := None), Some(NilRequest))
    case None =>
      if t.cookie.None? then (t.(request := Some(Pending(t, url))), Some(NilCookie))
      else
        var u := t.(headers := AddCookie(t.headers, t.cookie.value));
        (u.(request := Some(Pending(u, url))), None)
  }

  /** The assembly rules: the method defaults to GET; a GET request has no body and carries the
      accumulated form as its query string, whatever JSON or raw body was resolved; any other
      method carries the resolved body; the request shares the client's headers, into which the
      cookie is written; the errors only grow, by the junction error and a construction error. */
  lemma AssembleShape(s: ClientState, newRequest: RequestCheck)
    requires Joinable(s.urlSite, s.urlPoint)
    ensures var r := Assemble(s, newRequest);
      var j := JoinUrl(s.urlSite, s.urlPoint);
      && r.httpMethod == (if s.httpMethod == "" then MethodGet else s.httpMethod)
      && r.urlPoint == j.point
      && (r.request.Some? ==>
            && r.request.value.url == j.url
            && r.request.value.httpMethod == r.httpMethod
            && (r.httpMethod == MethodGet ==> r.request.value.body == None && r.request.value.query == Some(s.form))
            && (r.httpMethod != MethodGet ==> r.request.value.body == s.body && r.request.value.query == None)
            && r.headers == AttachCookie(s.headers, s.cookie)
            && r.request.value.headers == r.headers
            && r.errors == s.errors + ErrorsOf(j.error))
      && (r.request.None? ==>
            && r.headers == s.headers
            && r.errors == s.errors + ErrorsOf(j.error) + [RequestInvalid(newRequest(r.httpMethod, j.url).value)])
      && r == s.(httpMethod := r.httpMethod, urlPoint := r.urlPoint, headers := r.headers, errors := r.errors, request := r.request)
  {
  }

  /** The cookie is written into the client's own header map, so assembling twice sends it twice. */
  lemma RepeatedRequestRepeatsCookie(s: ClientState, newRequest: RequestCheck)
    requires Joinable(s.urlSite, s.urlPoint) && s.cookie.Some? && CookieKey !in s.headers
    requires newRequest(EffectiveMethod(s.httpMethod), JoinUrl(s.urlSite, s.urlPoint).url).None?
    ensures var r := Assemble(Assemble(s, newRequest), newRequest);
      var pair := CookiePair(s.cookie.value);
      && r.request.Some?
      && CookieKey in r.request.value.headers
      && r.request.value.headers[CookieKey] == pair + "; " + pair
  {
    var c := s.cookie.value;
    JoinUrlIdempotent(s.urlSite, s.urlPoint);
    CookieKeyCanonical();
    var h1 := AddCookie(s.headers, c);
    assert h1[CookieKey] == CookiePair(c);
    var h2 := AddCookie(h1, c);
    assert h2[CookieKey] == CookiePair(c) + "; " + CookiePair(c);
  }

  /** As written, a construction error is never recorded: the call faults and the error list
      holds at most the junction error. */
  lemma AsWrittenLosesRequestError(s: ClientState, newRequest: RequestCheck)
    requires Joinable(s.urlSite, s.urlPoint)
    requires newRequest(EffectiveMethod(s.httpMethod), JoinUrl(s.urlSite, s.urlPoint).url).Some?
    ensures var (r, fault) := AssembleAsWritten(s, newRequest);
      fault == Some(NilRequest) && r.errors == s.errors + ErrorsOf(JoinUrl(s.urlSite, s.urlPoint).error)
    ensures var r := Assemble(s, newRequest);
      r.errors[|r.errors| - 1] == RequestInvalid(newRequest(EffectiveMethod(s.httpMethod), JoinUrl(s.urlSite, s.urlPoint).url).value)
  {
  }

  /** As written, a client with no cookie faults when the request is assembled. */
  lemma AsWrittenNeedsCookie(s: ClientState, newRequest: RequestCheck)
    requires Joinable(s.urlSite, s.urlPoint) && s.cookie.None?
    requires newRequest(EffectiveMethod(s.httpMethod), JoinUrl(s.urlSite, s.urlPoint).url).None?
    ensures AssembleAsWritten(s, newRequest).1 == Some(NilCookie)
    ensures Assemble(s, newRequest).request.Some? && Assemble(s, newRequest).request.value.headers == s.headers
  {
  }

  /** Where the code does not fault, the corrected assembly is exactly the code's, the cookie
      written into the client's header map included. */
  lemma AssembleAgreesWithCode(s: ClientState, newRequest: RequestCheck)
    requires Joinable(s.urlSite, s.urlPoint)
    requires AssembleAsWritten(s, newRequest).1.None?
    ensures AssembleAsWritten(s, newRequest).0 == Assemble(s, newRequest)
    ensures var r := Assemble(s, newRequest);
      && r.request.Some? && r.headers == AddCookie(s.headers, s.cookie.value)
      && r.request.value.headers == r.headers
  {
  }

  /** Assembly keeps the client consistent. */
  lemma AssembleKeepsConsistent(s: ClientState, newRequest: RequestCheck)
    requires Joinable(s.urlSite, s.urlPoint) && Consistent(s)
    ensures Consistent(Assemble(s, newRequest))
  {
    if s.cookie.Some? {
      AddCookieHeader(s.headers, s.cookie.value);
    }
  }

  /** On a consistent client, a GET assembled while a form body is resolved carries as its query
      exactly the form that body encodes, and no body. */
  lemma GetCarriesFormBody(s: ClientState, newRequest: RequestCheck)
    requires Joinable(s.urlSite, s.urlPoint) && Consistent(s)
    requires EffectiveMethod(s.httpMethod) == MethodGet
    requires s.body.Some? && s.body.value.FormBody?
    ensures var r := Assemble(s, newRequest);
      r.request.Some? ==> r.request.value.query == Some(s.body.value.fields) && r.request.value.body == None
  {
  }
}
