/**
 * The request builder of request.go: a Client whose chained configuration calls update its
 * fields in place. Each method states its whole new state, either as a transition of module
 * Builder or as an update of the old state's fields. Every public call keeps Valid() and only
 * ever appends to the error list; the two loop helpers of Query update the form alone and keep
 * no invariant of their own.
 */
module Requests {
  import opened Wrappers
  import opened Text
  import opened Format
  import opened HttpHeader
  import opened Builder

  class Client {
    var httpMethod: string
    var urlSite: string
    var urlPoint: string
    var httpHeaders: map<string, string>
    var dataForm: map<string, string>
    var jsonData: Option<Body>
    var Cookie: Option<HttpCookie>
    var transport: Transport
    var errorArray: seq<Error>
    var httpRequest: Option<PendingRequest>

    /** The client's fields as one value. */
    function State(): ClientState
      reads this
    {
      ClientState(httpMethod, urlSite, urlPoint, httpHeaders, dataForm, jsonData, Cookie,
                  transport, errorArray, httpRequest)
    }

    predicate Valid()
      reads this
    {
      Consistent(State())
    }

    /** A client with nothing configured: empty maps, no body, no cookie, the default transport. */
    constructor ()
      ensures Valid() && State() == Initial
    {
      httpMethod, urlSite, urlPoint := "", "", "";
      httpHeaders, dataForm := map[], map[];
      jsonData, Cookie := None, None;
      transport := DefaultTransport;
      errorArray := [];
      httpRequest := None;
    }

    /** Routes the client through an authenticated HTTP proxy; `parse` is url.Parse. */
    method SetProxy(proxy: Option<Proxy>, parse: string -> Result<Url, string>)
      requires Valid()
      modifies this
      ensures Valid()
      ensures State() == ProxyStep(old(State()), proxy, parse)
    {
      if proxy.None? {
        errorArray := errorArray + [ProxyNil];
        return;
      }
      var p := proxy.value;
      var fields := p.Fields();
      for i := 0 to |fields|
        invariant forall j | 0 <= j < i :: fields[j] != []
        invariant State() == old(State())
      {
        if fields[i] == [] {
          errorArray := errorArray + [ProxyFieldEmpty];
          return;
        }
      }
      match parse(ProxyAddress(p)) {
        case Failure(reason) =>
          errorArray := errorArray + [ProxyUrlInvalid(reason)];
        case Success(u) =>
          transport := ProxyTransport(u.(user := Some(Userinfo(p.userName, p.password))));
      }
    }

    /** Assembles the pending request; `newRequest` is http.NewRequest's verdict on the method and
        URL. A construction error is recorded and leaves no request. A built request shares the
        client's header map, and AddCookie writes the cookie into it. */
    method Request(newRequest: RequestCheck)
      requires Valid() && Joinable(urlSite, urlPoint)
      modifies this
      ensures Valid()
      ensures State() == Assemble(old(State()), newRequest)
    {
      if httpMethod == "" {
        httpMethod := MethodGet;
      }
      var url := GetUrl();
      match newRequest(httpMethod, url) {
        case Some(reason) =>
          httpRequest := None;
          errorArray := errorArray + [RequestInvalid(reason)];
        case None =>
          if Cookie.Some? {
            AddCookieHeader(httpHeaders, Cookie.value);
            httpHeaders := AddCookie(httpHeaders, Cookie.value);
          }
          var query := if httpMethod == MethodGet then Some(dataForm) else None;
          var body := if httpMethod == MethodGet then None else jsonData;
          httpRequest := Some(PendingRequest(httpMethod, url, query, body, httpHeaders));
      }
    }

    /** Sets the cookie from a map: each entry in turn, in Go's unspecified iteration order, so the
        cookie ends up as some entry of a non-empty map; an empty map leaves it as it was. */
    method SetCookie(cookies: map<string, string>)
      requires Valid()
      modifies this
      ensures Valid()
      ensures State() == old(State()).(cookie := Cookie)
      ensures cookies == map[] ==> Cookie == old(Cookie)
      ensures cookies != map[] ==>
        Cookie.Some? && Cookie.value.name in cookies && cookies[Cookie.value.name] == Cookie.value.value
    {
      var rest := cookies.Keys;
      while rest != {}
        invariant rest <= cookies.Keys
        invariant State() == old(State()).(cookie := Cookie)
        invariant rest == cookies.Keys ==> Cookie == old(Cookie)
        invariant rest != cookies.Keys ==>
          Cookie.Some? && Cookie.value.name in cookies && cookies[Cookie.value.name] == Cookie.value.value
        decreases rest
      {
        var k :| k in rest;
        Cookie := Some(HttpCookie(k, cookies[k]));
        rest := rest - {k};
      }
      assert cookies != map[] ==> cookies.Keys != {};
    }

    /** Resolves a payload (see Builder.Resolve). */
    method Query(data: Input)
      requires Valid() && QueryWellFormed(data)
      modifies this
      ensures Valid()
      ensures State() == Resolve(old(State()), data)
    {
      match data {
        case FormValues(values) =>
          Header(ContentTypeKey, StringValue(ContentTypeForm));
          MergeFormValues(values);
          jsonData := Some(FormBody(dataForm));
        case AnyMap(entries) =>
          Header(ContentTypeKey, StringValue(ContentTypeForm));
          MergeFormEntries(entries);
          jsonData := Some(FormBody(dataForm));
        case Str(text) =>
          if text[..1] == "{" && text[|text| - 1..] == "}" {
            jsonData := Some(TextBody(text));
            Header(ContentTypeKey, StringValue(ContentTypeJson));
          }
        case Struct(marshalled) =>
          match marshalled {
            case Failure(reason) =>
              errorArray := errorArray + [MarshalFailed(reason)];
            case Success(encoded) =>
              jsonData := Some(JsonBody(encoded));
              Header(ContentTypeKey, StringValue(ContentTypeJson));
          }
        case Other =>
      }
      ResolveKeepsConsistent(old(State()), data);
    }

    /** Query's loop over url.Values: each key of the form takes the key's first value. */
    method MergeFormValues(values: map<string, seq<string>>)
      requires forall k | k in values :: values[k] != []
      modifies this
      ensures State() == old(State()).(form := MergeValues(old(dataForm), values))
    {
      var rest := values.Keys;
      while rest != {}
        invariant rest <= values.Keys
        invariant dataForm == old(dataForm) + map k | k in values && k !in rest :: values[k][0]
        invariant State() == old(State()).(form := dataForm)
        decreases rest
      {
        var k :| k in rest;
        dataForm := dataForm[k := values[k][0]];
        rest := rest - {k};
      }
      assert (map k | k in values && k !in rest :: values[k][0]) == map k | k in values :: values[k][0];
    }

    /** Query's loop over a map[string]interface{}: each key of the form takes the %v of its value. */
    method MergeFormEntries(entries: map<string, Value>)
      modifies this
      ensures State() == old(State()).(form := MergeEntries(old(dataForm), entries))
    {
      var rest := entries.Keys;
      while rest != {}
        invariant rest <= entries.Keys
        invariant dataForm == old(dataForm) + map k | k in entries && k !in rest :: Sprint(entries[k])
        invariant State() == old(State()).(form := dataForm)
        decreases rest
      {
        var k :| k in rest;
        dataForm := dataForm[k := Sprint(entries[k])];
        rest := rest - {k};
      }
      assert (map k | k in entries && k !in rest :: Sprint(entries[k])) == map k | k in entries :: Sprint(entries[k]);
    }

    /** Resolves the payload a producer computed from the client; None stands for a nil result. */
    method QueryFunc(produced: Option<Input>)
      requires Valid() && (produced.Some? ==> QueryWellFormed(produced.value))
      modifies this
      ensures Valid()
      ensures State() == QueryFuncStep(old(State()), produced)
    {
      if produced.Some? {
        Query(produced.value);
      } else {
        errorArray := errorArray + [ProducerReturnedNil];
      }
    }

    /** Sets one header to the %v rendering of `value`, replacing what its canonical key held. */
    method Header(k: string, value: Value)
      requires Valid()
      modifies this
      ensures Valid()
      ensures State() == old(State()).(headers := SetHeader(old(httpHeaders), k, Sprint(value)))
    {
      SetHeaderKeepsCanonical(httpHeaders, k, Sprint(value));
      httpHeaders := SetHeader(httpHeaders, k, Sprint(value));
    }

    /** Sets one header per entry of the map, in Go's unspecified iteration order. */
    method Headers(m: map<string, Value>)
      requires Valid()
      modifies this
      ensures Valid()
      ensures exists order :: (Enumerates(order, m.Keys)
        && State() == old(State()).(headers := ApplyHeaders(old(httpHeaders), MapCalls(m, order))))
    {
      var rest := m.Keys;
      ghost var order: seq<string> := [];
      while rest != {}
        invariant Valid()
        invariant rest <= m.Keys
        invariant forall k :: k in order <==> k in m && k !in rest
        invariant forall i, j | 0 <= i < j < |order| :: order[i] != order[j]
        invariant State() == old(State()).(headers := ApplyHeaders(old(httpHeaders), MapCalls(m, order)))
        decreases rest
      {
        var k :| k in rest;
        Header(k, m[k]);
        ghost var calls := MapCalls(m, order);
        assert (order + [k])[..|order|] == order;
        assert MapCalls(m, order + [k]) == calls + [(k, m[k])];
        assert (calls + [(k, m[k])])[..|calls|] == calls;
        order := order + [k];
        rest := rest - {k};
      }
      assert Enumerates(order, m.Keys);
    }

    /** Runs a header callback, given as the Header calls it makes, in order. */
    method HeadersFunc(calls: seq<Call>)
      requires Valid()
      modifies this
      ensures Valid()
      ensures State() == old(State()).(headers := ApplyHeaders(old(httpHeaders), calls))
    {
      for i := 0 to |calls|
        invariant Valid()
        invariant State() == old(State()).(headers := ApplyHeaders(old(httpHeaders), calls[..i]))
      {
        Header(calls[i].0, calls[i].1);
        assert calls[..i + 1][..i] == calls[..i];
      }
      assert calls[..|calls|] == calls;
    }

    /** Sets the site; a site without "http" is a fatal fault and changes nothing. */
    method UrlSite(site: string) returns (fault: Option<Fault>)
      requires Valid()
      modifies this
      ensures Valid()
      ensures fault.None? <==> SiteAccepted(site)
      ensures fault.Some? ==> fault == Some(SiteNotSupported(site)) && State() == old(State())
      ensures fault.None? ==> State() == old(State()).(urlSite := site)
    {
      if !Contains(site, "http") {
        return Some(SiteNotSupported(site));
      }
      urlSite := site;
      return None;
    }

    /** Sets the point verbatim. */
    method UrlPoint(point: string)
      requires Valid()
      modifies this
      ensures Valid()
      ensures State() == old(State()).(urlPoint := point)
    {
      urlPoint := point;
    }

    /** Joins site and point, repairing and recording a junction with no '/' on either side. */
    method GetUrl() returns (url: string)
      requires Valid() && Joinable(urlSite, urlPoint)
      modifies this
      ensures Valid()
      ensures var j := JoinUrl(old(urlSite), old(urlPoint));
        url == j.url && State() == old(State()).(urlPoint := j.point, errors := old(errorArray) + ErrorsOf(j.error))
    {
      if TrimSpace(urlPoint) != [] {
        if urlSite[|urlSite| - 1..] != "/" && urlPoint[..1] != "/" {
          errorArray := errorArray + [JunctionMalformed(urlSite, urlPoint)];
          urlPoint := "/" + urlPoint;
        }
      }
      url := urlSite + urlPoint;
    }

    method PostMethod()
      requires Valid()
      modifies this
      ensures Valid()
      ensures State() == old(State()).(httpMethod := MethodPost)
    {
      ShortMethodAccepted(MethodPost);
      var _ := Method(MethodPost);
    }

    method GetMethod()
      requires Valid()
      modifies this
      ensures Valid()
      ensures State() == old(State()).(httpMethod := MethodGet)
    {
      ShortMethodAccepted(MethodGet);
      var _ := Method(MethodGet);
    }

    method PutMethod()
      requires Valid()
      modifies this
      ensures Valid()
      ensures State() == old(State()).(httpMethod := MethodPut)
    {
      ShortMethodAccepted(MethodPut);
      var _ := Method(MethodPut);
    }

    /** Sets the method; one containing "POSTGETPUT" is a fatal fault and changes nothing. */
    method Method(verb: string) returns (fault: Option<Fault>)
      requires Valid()
      modifies this
      ensures Valid()
      ensures fault.None? <==> MethodAccepted(verb)
      ensures fault.Some? ==> fault == Some(MethodNotSupported(verb)) && State() == old(State())
      ensures fault.None? ==> State() == old(State()).(httpMethod := verb)
    {
      if Contains(verb, JoinedVerbs) {
        return Some(MethodNotSupported(verb));
      }
      httpMethod := verb;
      return None;
    }
  }
}
