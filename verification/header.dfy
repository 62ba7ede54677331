/**
 * The request's header map as http.Header.Set maintains it: every key is stored in the
 * canonical form of net/textproto's CanonicalMIMEHeaderKey, and a Set replaces whatever value
 * the canonical key held before (last write wins). Header field names are case-insensitive
 * (section 5.1 of RFC 9110), which is why differently spelled keys can land on one entry.
 */
module HttpHeader {
  import opened Format

  /** A character allowed in a header field name: a token character of section 5.6.2 of RFC 9110. */
  predicate IsTokenChar(c: char) {
    ('a' <= c <= 'z') || ('A' <= c <= 'Z') || ('0' <= c <= '9') || c in "!#$%&'*+-.^_`|~"
  }

  predicate IsTokenKey(k: string) {
    forall i | 0 <= i < |k| :: IsTokenChar(k[i])
  }

  function ToUpper(c: char): char {
    if 'a' <= c <= 'z' then (c as int - 32) as char else c
  }

  function ToLower(c: char): char {
    if 'A' <= c <= 'Z' then (c as int + 32) as char else c
  }

  /** Upper-cases the first letter and every letter after a '-', lower-cases all others;
      `upper` says whether the first character of `s` starts a word. */
  function CanonicalFrom(s: string, upper: bool): (r: string)
    ensures |r| == |s|
  {
    if s == [] then []
    else [if upper then ToUpper(s[0]) else ToLower(s[0])] + CanonicalFrom(s[1..], s[0] == '-')
  }

  /** Position by position: a character is upper-cased at the start of a word, lower-cased
      elsewhere. */
  lemma {:induction false} CanonicalFromAt(s: string, upper: bool, i: int)
    requires 0 <= i < |s|
    ensures CanonicalFrom(s, upper)[i]
         == if (i == 0 && upper) || (i > 0 && s[i - 1] == '-') then ToUpper(s[i]) else ToLower(s[i])
    decreases |s|
  {
    if i > 0 {
      CanonicalFromAt(s[1..], s[0] == '-', i - 1);
    }
  }

  /** CanonicalMIMEHeaderKey: a key with a character outside the token set is kept as it is;
      any other key is put in canonical case ("content-type" becomes "Content-Type"). */
  function CanonicalKey(k: string): (r: string)
    ensures |r| == |k|
    ensures IsTokenKey(r) <==> IsTokenKey(k)
  {
    if IsTokenKey(k) then
      CanonicalFromStable(k, true);
      CanonicalFrom(k, true)
    else k
  }

  lemma {:induction false} CanonicalFromStable(s: string, upper: bool)
    requires IsTokenKey(s)
    ensures IsTokenKey(CanonicalFrom(s, upper))
    ensures CanonicalFrom(CanonicalFrom(s, upper), upper) == CanonicalFrom(s, upper)
  {
    if s != [] {
      CanonicalFromStable(s[1..], s[0] == '-');
      var r := CanonicalFrom(s, upper);
      assert r[1..] == CanonicalFrom(s[1..], s[0] == '-');
      assert r[0] == '-' <==> s[0] == '-';
      assert forall i | 1 <= i < |r| :: r[i] == r[1..][i - 1];
    }
  }

  /** Canonicalising a canonical key changes nothing. */
  lemma CanonicalKeyIdempotent(k: string)
    ensures CanonicalKey(CanonicalKey(k)) == CanonicalKey(k)
  {
    if IsTokenKey(k) {
      CanonicalFromStable(k, true);
    }
  }

  /** Every key of the map is in canonical form. */
  predicate HeadersCanonical(h: map<string, string>) {
    forall k | k in h :: CanonicalKey(k) == k
  }

  /** http.Header.Set(k, v): the canonical form of `k` now maps to `v` alone. */
  function SetHeader(h: map<string, string>, k: string, v: string): (r: map<string, string>)
    ensures r.Keys == h.Keys + {CanonicalKey(k)} && r[CanonicalKey(k)] == v
    ensures HeadersCanonical(h) ==> HeadersCanonical(r)
  {
    CanonicalKeyIdempotent(k);
    h[CanonicalKey(k) := v]
  }

  /** A Set keeps every key canonical and touches no key other than CanonicalKey(k). */
  lemma SetHeaderKeepsCanonical(h: map<string, string>, k: string, v: string)
    requires HeadersCanonical(h)
    ensures HeadersCanonical(SetHeader(h, k, v))
    ensures forall c | c != CanonicalKey(k) :: (c in SetHeader(h, k, v) <==> c in h)
    ensures forall c | c in h && c != CanonicalKey(k) :: SetHeader(h, k, v)[c] == h[c]
  {
    CanonicalKeyIdempotent(k);
  }

  /** A header-setting call: a key and the value that is formatted with %v. */
  type Call = (string, Value)

  /** The header map after the calls Set(k, Sprint(v)), in order. */
  function ApplyHeaders(h: map<string, string>, calls: seq<Call>): (r: map<string, string>)
    ensures h.Keys <= r.Keys
    ensures HeadersCanonical(h) ==> HeadersCanonical(r)
    decreases |calls|
  {
    if calls == [] then h
    else
      var last := calls[|calls| - 1];
      SetHeader(ApplyHeaders(h, calls[..|calls| - 1]), last.0, Sprint(last.1))
  }

  /** Last write wins: the value under a key is that of the last call with that canonical key. */
  lemma {:induction false} ApplyHeadersLastWins(h: map<string, string>, calls: seq<Call>, j: int)
    requires 0 <= j < |calls|
    requires forall i | j < i < |calls| :: CanonicalKey(calls[i].0) != CanonicalKey(calls[j].0)
    ensures CanonicalKey(calls[j].0) in ApplyHeaders(h, calls)
    ensures ApplyHeaders(h, calls)[CanonicalKey(calls[j].0)] == Sprint(calls[j].1)
    decreases |calls|
  {
    if j < |calls| - 1 {
      var front := calls[..|calls| - 1];
      assert forall i | j < i < |front| :: front[i] == calls[i];
      ApplyHeadersLastWins(h, front, j);
    }
  }

  /** A key that no call names keeps its old presence and value. */
  lemma {:induction false} ApplyHeadersUntouched(h: map<string, string>, calls: seq<Call>, c: string)
    requires forall i | 0 <= i < |calls| :: CanonicalKey(calls[i].0) != c
    ensures c in ApplyHeaders(h, calls) <==> c in h
    ensures c in h ==> ApplyHeaders(h, calls)[c] == h[c]
    decreases |calls|
  {
    if calls != [] {
      var front := calls[..|calls| - 1];
      assert forall i | 0 <= i < |front| :: front[i] == calls[i];
      ApplyHeadersUntouched(h, front, c);
    }
  }

  /** No two calls name the same canonical key. */
  predicate DistinctKeys(calls: seq<Call>) {
    forall i, j | 0 <= i < j < |calls| :: CanonicalKey(calls[i].0) != CanonicalKey(calls[j].0)
  }

  /** Two orderings of the same calls on distinct keys agree on the key `c`. */
  lemma SameAtKey(h: map<string, string>, a: seq<Call>, b: seq<Call>, c: string)
    requires DistinctKeys(a) && DistinctKeys(b)
    requires forall e :: e in a <==> e in b
    ensures c in ApplyHeaders(h, a) <==> c in ApplyHeaders(h, b)
    ensures c in ApplyHeaders(h, a) ==> ApplyHeaders(h, a)[c] == ApplyHeaders(h, b)[c]
  {
    if i :| 0 <= i < |a| && CanonicalKey(a[i].0) == c {
      assert a[i] in b;
      var j :| 0 <= j < |b| && b[j] == a[i];
      ApplyHeadersLastWins(h, a, i);
      ApplyHeadersLastWins(h, b, j);
    } else {
      forall j | 0 <= j < |b| ensures CanonicalKey(b[j].0) != c {
        assert b[j] in a;
      }
      ApplyHeadersUntouched(h, a, c);
      ApplyHeadersUntouched(h, b, c);
    }
  }

  /** Calls on distinct keys commute: any two orderings of the same calls give the same map. */
  lemma ApplyHeadersOrderFree(h: map<string, string>, a: seq<Call>, b: seq<Call>)
    requires DistinctKeys(a) && DistinctKeys(b)
    requires forall e :: e in a <==> e in b
    ensures ApplyHeaders(h, a) == ApplyHeaders(h, b)
  {
    var ra, rb := ApplyHeaders(h, a), ApplyHeaders(h, b);
    forall c ensures (c in ra <==> c in rb) && (c in ra ==> ra[c] == rb[c]) {
      SameAtKey(h, a, b, c);
    }
    assert ra.Keys == rb.Keys;
  }

  /** The calls that ranging over the map `m` in the order `order` makes. */
  function MapCalls(m: map<string, Value>, order: seq<string>): (r: seq<Call>)
    requires forall k | k in order :: k in m
    ensures |r| == |order|
    ensures forall e | e in r :: e.0 in m && e.1 == m[e.0]
    decreases |order|
  {
    if order == [] then []
    else
      var k := order[|order| - 1];
      MapCalls(m, order[..|order| - 1]) + [(k, m[k])]
  }

  lemma {:induction false} MapCallsAt(m: map<string, Value>, order: seq<string>)
    requires forall k | k in order :: k in m
    ensures |MapCalls(m, order)| == |order|
    ensures forall i | 0 <= i < |order| :: MapCalls(m, order)[i] == (order[i], m[order[i]])
    decreases |order|
  {
    if order != [] {
      MapCallsAt(m, order[..|order| - 1]);
    }
  }

  /** `order` lists every key of `keys` exactly once: one possible Go map iteration order. */
  ghost predicate Enumerates(order: seq<string>, keys: set<string>) {
    (forall k :: k in order <==> k in keys)
    && forall i, j | 0 <= i < j < |order| :: order[i] != order[j]
  }

  /** No two distinct keys of the set share a canonical form. */
  ghost predicate CanonicalInjective(keys: set<string>) {
    forall k1, k2 | k1 in keys && k2 in keys && k1 != k2 :: CanonicalKey(k1) != CanonicalKey(k2)
  }

  /** The calls of an enumeration name distinct canonical keys when the map's keys do. */
  lemma MapCallsDistinct(m: map<string, Value>, order: seq<string>)
    requires Enumerates(order, m.Keys) && CanonicalInjective(m.Keys)
    ensures DistinctKeys(MapCalls(m, order))
  {
    MapCallsAt(m, order);
  }

  /** A call occurs in an enumeration's calls exactly when it pairs a key of the map with its value. */
  lemma MapCallsMembers(m: map<string, Value>, order: seq<string>, e: Call)
    requires Enumerates(order, m.Keys)
    ensures e in MapCalls(m, order) <==> e.0 in m && e.1 == m[e.0]
  {
    MapCallsAt(m, order);
    if e.0 in m && e.1 == m[e.0] {
      var i :| 0 <= i < |order| && order[i] == e.0;
      assert MapCalls(m, order)[i] == e;
    }
  }

  /** Setting the headers of a map whose keys have distinct canonical forms gives the same result
      whatever order the map is ranged over in. */
  lemma HeadersMapOrderFree(h: map<string, string>, m: map<string, Value>, o1: seq<string>, o2: seq<string>)
    requires Enumerates(o1, m.Keys) && Enumerates(o2, m.Keys)
    requires CanonicalInjective(m.Keys)
    ensures ApplyHeaders(h, MapCalls(m, o1)) == ApplyHeaders(h, MapCalls(m, o2))
  {
    MapCallsDistinct(m, o1);
    MapCallsDistinct(m, o2);
    forall e ensures e in MapCalls(m, o1) <==> e in MapCalls(m, o2) {
      MapCallsMembers(m, o1, e);
      MapCallsMembers(m, o2, e);
    }
    ApplyHeadersOrderFree(h, MapCalls(m, o1), MapCalls(m, o2));
  }

  /** Two keys that differ only in case land on one entry, so the map iteration order decides
      which value survives. */
  lemma CollidingKeysOrderMatters()
    ensures ApplyHeaders(map[], [("x-id", StringValue("1")), ("X-ID", StringValue("2"))])
         != ApplyHeaders(map[], [("X-ID", StringValue("2")), ("x-id", StringValue("1"))])
  {
    assert CanonicalFrom("d", false) == "d" && CanonicalFrom("D", false) == "d";
    assert CanonicalFrom("id", true) == "Id" && CanonicalFrom("ID", true) == "Id";
    assert CanonicalFrom("-id", false) == "-Id" && CanonicalFrom("-ID", false) == "-Id";
    assert IsTokenKey("x-id") && IsTokenKey("X-ID");
    assert CanonicalKey("x-id") == "X-Id";
    assert CanonicalKey("X-ID") == "X-Id";
    var a := [("x-id", StringValue("1")), ("X-ID", StringValue("2"))];
    var b := [("X-ID", StringValue("2")), ("x-id", StringValue("1"))];
    ApplyHeadersLastWins(map[], a, 1);
    ApplyHeadersLastWins(map[], b, 1);
  }
}
