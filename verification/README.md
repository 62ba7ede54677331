# Request builder of `requests` (Go), modelled in Dafny

The Go package `requests` is a fluent HTTP request builder. A `*Client` takes chained
configuration calls: proxy, method, site and point of the URL, headers, cookie and payload.
Each call mutates the client in place. Configuration problems are appended to the client's
error list instead of being raised, except for two panics: a site without `"http"` and a
method containing `"POSTGETPUT"`. `Request` then assembles the pending `*http.Request` from
the accumulated state.

This project models that state machine, the configuration surface of `request.go`:

- `client.dfy`, module `Requests`: the class `Client`. Its fields are the fields
  `request.go` touches. Its methods perform the calls in place, with the source's loops over
  maps and proxy fields. Each method states its whole new state. For `SetProxy`, `Request`,
  `Query`, `QueryFunc` and `GetUrl` that state is a transition of module `Builder` applied to the
  old state. The other calls state it as an update of the old state's fields:
  - `Header`, `Headers` and `HeadersFunc` set the headers through `HttpHeader`;
  - `UrlSite`, `UrlPoint` and the `Method` family set one field;
  - `SetCookie` sets the cookie.

  The public calls keep `Valid()`. The two loop
  helpers of `Query`, `MergeFormValues` and `MergeFormEntries`, do not: they update the form
  before `Query` re-encodes the body.
- `builder.dfy`, module `Builder`: the client state as a value (`ClientState`) and the
  transitions as functions:
  - `JoinUrl` (GetUrl);
  - `Resolve` (Query) and `QueryFuncStep`;
  - `ProxyStep` (SetProxy);
  - `Assemble` (Request), and `AssembleAsWritten` for the code as written.

  It also holds the lemmas about these transitions. `Consistent` is the invariant every call
  keeps: header keys are canonical, and a form body is the encoding of the whole accumulated
  form.
- `header.dfy`, module `HttpHeader`: `http.Header.Set` as this code uses it. Keys are put in
  canonical form by the rule of Go's `textproto.CanonicalMIMEHeaderKey`, and the last write
  wins. The module proves what a sequence of sets leaves behind, and that sets on distinct
  keys commute. Field names are case-insensitive (section 5.1 of RFC 9110), so two spellings
  of one key collide.
- `text.dfy`, module `Text`: `strings.Contains` and `strings.TrimSpace`.
- `format.dfy`, module `Format`: `fmt.Sprintf("%v", v)` for a closed set of value shapes.
- `wrappers.dfy`: `Option` (Go's nil) and `Result`.

Calls into code that is not part of this model are parameters:
- `url.Parse` is the `parse` argument of `SetProxy`;
- `http.NewRequest`'s verdict on a method and URL is the `newRequest` argument of `Request`;
- `json.Marshal` is the outcome carried by a `Struct` input;
- `QueryFunc`'s producer is replaced by the value it returned;
- `HeadersFunc`'s callback is replaced by the `Header` calls it makes.

The form encoding (`url.Values.Encode`) is kept symbolic. A form body is `FormBody(fields)`,
and a GET request's query string is `Some(fields)`.

Two behaviours of the code are easy to misread, and the model follows the code in both:
- `Method` rejects only strings that contain `"POSTGETPUT"`, the three verbs joined. So
  `"DELETE"`, `""` and `"get"` are accepted (`Builder.MethodAcceptance`).
- `GetUrl` on the site `"http://a.com/"` and the point `"/path"` returns `"http://a.com//path"`.
  No slash is removed (`Builder.JoinUrlExamples`).

The Go panics become explicit outcomes or preconditions:
- `UrlSite` and `Method` return `Some(fault)` and change nothing.
- `GetUrl` (and `Request`) require a non-empty site unless the point is blank, because
  `urlSite[len-1:]` is read.
- `Query` requires a non-empty string (`dataAny[:1]`) and a non-empty value list for every
  key of a `url.Values` (`v[0]`).

## Model

| member | source | states |
|---|---|---|
| `Requests.Client.constructor` | request.go:165 | A fresh client has empty, non-nil header and form maps (which `Set` at lines 128, 134 and 165 writes to), no method, site, point, body or cookie, the default transport and no errors. It is `Valid()`. |
| `Requests.Client.SetProxy` | request.go:15-35 | New state is `ProxyStep` of the old one. A nil descriptor, an empty field or an unparsable address appends one error and keeps the transport. Otherwise the transport routes through the parsed `http://ip:port` carrying user and password. |
| `Requests.Client.Request` | request.go:37-53 | New state is `Assemble` of the old one (the corrected assembly, see Findings). On success the cookie is written into the client's own header map, which the request shares. Keeps `Valid()`. |
| `Requests.Client.SetCookie` | request.go:107-112 | An empty map leaves the cookie as it was. Otherwise the cookie becomes some entry of the map, name and value. Nothing else changes. |
| `Requests.Client.Query` | request.go:123-153 | New state is `Resolve(old state, data)`. Keeps `Valid()`. |
| `Requests.Client.MergeFormValues` | request.go:127-129 | The form becomes the old form with each key of the `url.Values` overwritten by its first value. Nothing else changes. |
| `Requests.Client.MergeFormEntries` | request.go:133-135 | The form becomes the old form with each key of the map overwritten by the `%v` of its value. Nothing else changes. |
| `Requests.Client.QueryFunc` | request.go:155-162 | A nil producer result appends `ProducerReturnedNil`. Any other result is resolved as `Query` resolves it. |
| `Requests.Client.Header` | request.go:164-167 | The canonical key of `k` now maps to the `%v` of the value. Every other field and header key is unchanged. Keys stay canonical. |
| `Requests.Client.Headers` | request.go:169-174 | The headers are the result of one `Header` call per entry, for some enumeration of the map's keys (Go's iteration order). Nothing else changes. |
| `Requests.Client.HeadersFunc` | request.go:175-178 | The headers are the result of the callback's `Header` calls, in order. Nothing else changes. |
| `Requests.Client.UrlSite` | request.go:179-185 | Faults exactly when the site lacks `"http"`, and then changes nothing. Otherwise sets the site and nothing else. |
| `Requests.Client.UrlPoint` | request.go:187-190 | Sets the point verbatim and nothing else. |
| `Requests.Client.GetUrl` | request.go:191-199 | Returns `JoinUrl(site, point).url`. The point becomes the repaired point, and the junction error, if any, is appended. |
| `Requests.Client.PostMethod` | request.go:200-202 | Always succeeds. The method becomes `"POST"` and nothing else changes. |
| `Requests.Client.GetMethod` | request.go:204-206 | Always succeeds. The method becomes `"GET"` and nothing else changes. |
| `Requests.Client.PutMethod` | request.go:208-210 | Always succeeds. The method becomes `"PUT"` and nothing else changes. |
| `Requests.Client.Method` | request.go:212-218 | Faults exactly when the verb contains `"POSTGETPUT"`, and then changes nothing. Otherwise sets the method verbatim and nothing else. |
| `Text.Contains` | request.go:180 | `strings.Contains`: the empty string occurs in every string, and a string never contains a longer one. |
| `Text.TrimSpace` | request.go:192 | `strings.TrimSpace`: the result is a piece of the string that neither starts nor ends with white space. Everything before and after that piece is white space. |
| `Text.ContainsAt` | request.go:180 | `Contains(s, sub)` holds exactly when `sub` occurs in `s` at some position, in both directions. |
| `Text.ContainsShorter` | request.go:213 | A string shorter than `sub` never contains it. |
| `Text.TrimSpaceBlank` | request.go:192 | `TrimSpace(s)` is empty exactly when every character of `s` is white space. |
| `Format.Sprint` | request.go:134 | `%v` of a string is the string. `%v` of an integer is non-empty, made of decimal digits after an optional leading `-`, and starts with `-` exactly when the integer is negative. Its digits read back to the absolute value. |
| `Format.Decimal` | request.go:165 | The `%v` digits of a number are non-empty, all decimal digits, with a leading `0` only for zero. |
| `Format.DecimalRoundTrip` | request.go:165 | Reading the decimal digits back gives the number. |
| `HttpHeader.CanonicalKey` | request.go:165 | `CanonicalMIMEHeaderKey` keeps the length of the key, and the result is a token key exactly when the key is. |
| `HttpHeader.SetHeader` | request.go:165 | `Header.Set` adds exactly the canonical key, which then holds the value, and keeps the keys canonical. |
| `HttpHeader.ApplyHeaders` | request.go:169-174 | A sequence of sets never removes a key, and keeps the keys canonical. |
| `HttpHeader.MapCalls` | request.go:170-172 | Ranging over a map in a given order makes one call per key of the order, each with that key's value from the map. |
| `HttpHeader.MapCallsAt` | request.go:170-172 | The calls follow the order exactly: call `i` sets key `order[i]` to its value. |
| `HttpHeader.CanonicalFromAt` | request.go:165 | Canonical case, position by position: upper case at the start and after `-`, lower case elsewhere. |
| `HttpHeader.CanonicalKeyIdempotent` | request.go:165 | Canonicalising a canonical key changes nothing. |
| `HttpHeader.SetHeaderKeepsCanonical` | request.go:165 | A set keeps all keys canonical. It leaves the presence and value of every other key alone. |
| `HttpHeader.ApplyHeadersLastWins` | request.go:169-174 | After a sequence of sets, a key holds the value of the last set on that canonical key. |
| `HttpHeader.ApplyHeadersUntouched` | request.go:169-174 | A key that no set names keeps its old presence and value. |
| `HttpHeader.ApplyHeadersOrderFree` | request.go:169-174 | Two orderings of the same sets on distinct canonical keys give the same header map. |
| `HttpHeader.HeadersMapOrderFree` | request.go:169-174 | `Headers` on a map whose keys canonicalise distinctly gives one result whatever the iteration order. |
| `HttpHeader.CollidingKeysOrderMatters` | request.go:169-174 | Keys differing only in case (`x-id`, `X-ID`) collide, and the two orders give different results. |
| `Builder.ShortMethodAccepted` | request.go:212-218 | Every method name shorter than `"POSTGETPUT"` is accepted. |
| `Builder.MethodAcceptance` | request.go:212-218 | GET, POST, PUT, DELETE, `""` and `"get"` are accepted. Any string with `"POSTGETPUT"` inside, whatever comes before and after, is rejected. |
| `Builder.SiteAcceptance` | request.go:179-185 | An `https://` site is accepted. Every site in which `"http"` occurs at no position is rejected. |
| `Builder.JoinUrl` | request.go:191-198 | The URL is site plus the resulting point. An error is recorded exactly when the point changes, and then the point is `"/" + point` and the error names site and point. The site and the new point are still joinable, so a second `GetUrl` cannot fault. |
| `Builder.JoinUrlRepairsExactly` | request.go:192-196 | There is a repair and an error exactly when the point is not blank and neither side of the junction has a `/`. Otherwise the URL is site plus point. |
| `Builder.JoinUrlIdempotent` | request.go:191-198 | A second join after the first returns the same URL, keeps the point and records nothing. |
| `Builder.JoinUrlExamples` | request.go:191-198 | `http://a.com` + `path` gives `http://a.com/path` with an error. `http://a.com/` + `/path` gives `http://a.com//path` without one. A blank point is kept. |
| `Builder.Resolve` | request.go:123-153 | Query changes only the headers, the form, the body and the errors. The errors stay as they were, except that a struct that fails to marshal appends its error. |
| `Builder.QueryFuncStep` | request.go:155-162 | QueryFunc changes only the headers, the form, the body and the errors, and appends at most one error. |
| `Builder.ContentTypeKeyCanonical` | request.go:126 | `"Content-Type"` is canonical, so the header lands under that key. |
| `Builder.ResolveKeepsConsistent` | request.go:123-153 | Every payload resolution keeps header keys canonical and a form body equal to the form. |
| `Builder.ResolveFormAccumulates` | request.go:125-136 | Form values and string maps overwrite their own keys (first value, or `%v`) and keep the other keys from earlier calls. They set the form content type and make the body the whole accumulated form. Nothing else changes. |
| `Builder.ResolveJsonCases` | request.go:137-150 | A braced string becomes the JSON body verbatim; an unbraced one changes nothing. A struct that marshals becomes the JSON body. In both JSON cases the JSON content type is set and nothing else changes. A struct that fails to marshal appends one error and changes nothing else. Other shapes change nothing. |
| `Builder.ResolveMapExample` | request.go:131-136 | The map `{"a": "1", "b": "2"}` gives a form body with both pairs, declared form-encoded. |
| `Builder.QueryFuncNilKeepsPayload` | request.go:158-160 | A nil producer result leaves form, body and headers alone and appends exactly one error. |
| `Builder.ProxyStep` | request.go:15-35 | SetProxy changes only the transport and the errors. Either no error is recorded, or exactly one is appended and the transport is kept. |
| `Builder.ProxyStepOutcome` | request.go:15-35 | A usable descriptor installs the proxy with credentials and records nothing. Any other call appends exactly one error and changes nothing else, the transport included. |
| `Builder.ProxyStepError` | request.go:16-29 | The appended error is `ProxyNil`, `ProxyFieldEmpty` or the parse error, by the first check that failed. |
| `Builder.CookieKeyCanonical` | request.go:49 | `"Cookie"` is canonical, so `AddCookie` reads and writes the header under that key. |
| `Builder.CookiePair` | request.go:49 | The pair `AddCookie` renders is the name, then `=`, then the value, each in its place. |
| `Builder.AddCookie` | request.go:49 | `Request.AddCookie` adds exactly the `Cookie` key. Its value is never empty, and it extends a non-empty earlier value after `"; "`. |
| `Builder.AddCookieHeader` | request.go:49 | `AddCookie` appends `name=value` after `"; "` to a non-empty `Cookie` header, or sets it when there is none. Every other header is left alone, and keys stay canonical. |
| `Builder.EffectiveMethod` | request.go:39-41 | The method used is never empty: an empty method becomes GET, and any other is kept. |
| `Builder.Prepare` | request.go:39-48 | Before construction, only the method, the point and the errors change. The method is not empty, the junction stays joinable, and the URL is site plus the new point. |
| `Builder.Pending` | request.go:42-48 | A built request never carries both a query and a body. Its method and URL are the ones given, and its header map is the client's. |
| `Builder.Assemble` | request.go:37-53 | Request changes only the method, the point, the headers, the errors and the pending request. A built request's header map is the client's own. |
| `Builder.AssembleAsWritten` | request.go:37-53 | As written, Request changes only the method, the point, the headers, the errors and the pending request. It avoids a fault exactly when construction succeeds and a cookie is set. |
| `Builder.AssembleShape` | request.go:37-53 | The method defaults to GET. A GET has no body and carries the form as its query. Other methods carry the resolved body. On success the cookie is written into the client's header map, which the request shares; on failure the headers are kept. The errors grow only by the junction error and a construction error. |
| `Builder.RepeatedRequestRepeatsCookie` | request.go:48-49 | Because the cookie is written into the client's own map, a second `Request` on a client with no `Cookie` header sends the cookie pair twice, joined by `"; "`. |
| `Builder.GetCarriesFormBody` | request.go:42-44 | On a consistent client, a GET assembled while a form body is resolved carries, as its query, the form that body encodes, and no body. |
| `Builder.AsWrittenLosesRequestError` | request.go:43-52 | As written, a construction error faults (nil request) and is never appended. The corrected assembly appends it. |
| `Builder.AsWrittenNeedsCookie` | request.go:49 | As written, a client without a cookie faults in `AddCookie`. The corrected assembly builds the request and leaves the headers as they were. |
| `Builder.AssembleAgreesWithCode` | request.go:37-53 | Wherever the code does not fault, the corrected assembly equals the code's. The request is built, and the client's header map is the old one with the cookie added by `AddCookie`. |
| `Builder.AssembleKeepsConsistent` | request.go:37-53 | Assembly keeps the client consistent. |

## Findings

| source | as written | input that shows it | evidently intended | confidence | as-written member | corrected member |
|---|---|---|---|---|---|---|
| request.go:43-52 | `http.NewRequest` returns a nil request together with its error, and line 44 (GET) or line 48 dereferences it before line 51 could record the error. The call panics and the error is never appended. | A method that `http.NewRequest` rejects, such as `"BAD VERB"` (accepted by `Method`), or a URL it cannot parse | Record the construction error and leave no request | high; not executed | `Builder.AsWrittenLosesRequestError` | `Builder.Assemble` |
| request.go:49 | `AddCookie(c.Cookie)` dereferences the cookie, which is nil on a client that never had `SetCookie` called with a non-empty map | `Request()` on a client with no cookie | Attach a cookie only when one is set | medium (depends on the client constructor, which is not part of this model); not executed | `Builder.AsWrittenNeedsCookie` | `Builder.Assemble` |

`Builder.AssembleAsWritten` is the assembly as written, and both as-written lemmas are about
it. `Requests.Client.Request` performs the corrected `Builder.Assemble`.

## Left out

- `Send`, `Stream`, `NewUpdateFile` (request.go:56-87, 114-122): network dispatch through
  `net/http`. `Stream` also runs a goroutine that pushes lines onto an unbuffered channel.
  Nothing about I/O or concurrency is modelled.
- `NewRequest` (request.go:88-105): `recover`-based panic handling and printing of the errors
  to standard output. Neither is modelled.
- `url.Values.Encode` (percent-encoding, sorted keys) is not modelled. The body and the GET
  query string hold the form itself.
- `json.Marshal` and the `reflect` kind test are not modelled. A `Struct` input carries the
  marshal outcome, and every non-struct dynamic type is `Other`.
- `url.Parse` and the validation inside `http.NewRequest` are parameters.
- `fmt.Sprintf("%v")` is modelled for strings, integers and booleans only. Any other value
  carries the text `%v` prints for it.
- The `http.Transport` object: only the proxy slot is modelled.
- Aliasing of the header map: `c.httpRequest.Header = c.httpHeaders` shares one Go map. At
  assembly the model gives the request and the client the same header value, the cookie
  written by `AddCookie` included. A later `Header` call changes the assembled request in Go,
  but in the model the request keeps the value it was given.
- `Builder.AddCookie`: Go's sanitising of the cookie name and value is not modelled. Go drops
  invalid bytes and quotes a value that holds a space or a comma; the model writes
  `name=value` as it is.
- The texts of the recorded errors and of the panic messages are not modelled. An error is
  identified by its kind and the values it names.
- Consumption of the body reader by a send is not modelled. The body is a value.
- Byte strings: strings are sequences of Unicode scalar values. The byte tests at
  request.go:138 and request.go:193 compare the ASCII characters `{`, `}` and `/`. On valid
  UTF-8 these agree with the character tests; invalid UTF-8 is not modelled.
- `Requests.Client.HeadersFunc`: the callback receives the whole client and may change any
  field. The model covers only a callback that sets headers.
- `Requests.Client.QueryFunc`: the producer's access to the client is not modelled. Its
  result is the parameter.
- The `Client` and `Proxy` struct definitions, the client constructor and the constants
  `ContentTypeForm` and `ContentTypeJson` are not part of this model. The model assumes:
  - a fresh client with empty maps and no cookie;
  - a proxy of four string fields `Ip`, `Port`, `UserName`, `Password`;
  - the constants `application/x-www-form-urlencoded` and `application/json`.
- Key canonicalisation follows the current Go rule: a key with a non-token character is kept
  as it is. Older Go releases treated spaces differently.
