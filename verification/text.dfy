/**
 * The two functions of Go's `strings` package that the request builder relies on:
 * `strings.Contains` (site and method validation) and `strings.TrimSpace` (the blank-point
 * test of GetUrl). Strings are sequences of Unicode scalar values.
 */
module Text {

  /** `sub` is a prefix of `s`. */
  predicate IsPrefix(sub: string, s: string) {
    |sub| <= |s| && s[..|sub|] == sub
  }

  /** strings.Contains(s, sub): `sub` starts at some position of `s`; "" occurs in every string. */
  predicate Contains(s: string, sub: string)
    ensures sub == [] ==> Contains(s, sub)
    ensures Contains(s, sub) ==> |sub| <= |s|
    decreases |s|
  {
    IsPrefix(sub, s) || (s != [] && Contains(s[1..], sub))
  }

  /** `sub` occurs in `s` starting at position `i`. */
  predicate OccursAt(s: string, sub: string, i: int) {
    0 <= i <= |s| - |sub| && s[i..i + |sub|] == sub
  }

  /** Contains is exactly "there is a position where sub occurs". */
  lemma {:induction false} ContainsAt(s: string, sub: string)
    ensures Contains(s, sub) <==> exists i :: OccursAt(s, sub, i)
    decreases |s|
  {
    if s != [] {
      ContainsAt(s[1..], sub);
    }
    if Contains(s, sub) {
      if IsPrefix(sub, s) {
        assert OccursAt(s, sub, 0);
      } else {
        var i :| OccursAt(s[1..], sub, i);
        assert s[i + 1..i + 1 + |sub|] == s[1..][i..i + |sub|];
        assert OccursAt(s, sub, i + 1);
      }
    }
    if exists i :: OccursAt(s, sub, i) {
      var i :| OccursAt(s, sub, i);
      if i == 0 {
        assert IsPrefix(sub, s);
      } else {
        assert s[1..][i - 1..i - 1 + |sub|] == s[i..i + |sub|];
        assert OccursAt(s[1..], sub, i - 1);
      }
    }
  }

  /** A string shorter than `sub` cannot contain it. */
  lemma {:induction false} ContainsShorter(s: string, sub: string)
    requires |s| < |sub|
    ensures !Contains(s, sub)
    decreases |s|
  {
    if s != [] {
      ContainsShorter(s[1..], sub);
    }
  }

  /** unicode.IsSpace: the Latin-1 spaces and the other code points with the White_Space property. */
  predicate IsSpace(c: char) {
    var n := c as int;
    (0x09 <= n <= 0x0D) || n == 0x20 || n == 0x85 || n == 0xA0 || n == 0x1680
    || (0x2000 <= n <= 0x200A) || n == 0x2028 || n == 0x2029 || n == 0x202F
    || n == 0x205F || n == 0x3000
  }

  /** Every character of `s` is white space (vacuously true of ""). */
  predicate AllSpace(s: string) {
    forall i | 0 <= i < |s| :: IsSpace(s[i])
  }

  /** Drops the leading white space. */
  function TrimLeft(s: string): string {
    if s != [] && IsSpace(s[0]) then TrimLeft(s[1..]) else s
  }

  /** Drops the trailing white space. */
  function TrimRight(s: string): string {
    if s != [] && IsSpace(s[|s| - 1]) then TrimRight(s[..|s| - 1]) else s
  }

  /** strings.TrimSpace: drops leading and trailing white space. What is left is a piece of `s`
      that neither starts nor ends with white space. */
  function TrimSpace(s: string): (r: string)
    ensures exists i :: OccursAt(s, r, i) && AllSpace(s[..i]) && AllSpace(s[i + |r|..])
    ensures r != [] ==> !IsSpace(r[0]) && !IsSpace(r[|r| - 1])
  {
    var t := TrimLeft(s);
    var r := TrimRight(t);
    TrimLeftCases(s);
    TrimRightCases(t);
    assert s[|s| - |t|..|s| - |t| + |r|] == t[..|r|];
    assert s[|s| - |t| + |r|..] == t[|r|..];
    assert OccursAt(s, r, |s| - |t|);
    r
  }

  lemma {:induction false} TrimLeftCases(s: string)
    ensures TrimLeft(s) == [] <==> AllSpace(s)
    ensures TrimLeft(s) != [] ==> !IsSpace(TrimLeft(s)[0])
    ensures |TrimLeft(s)| <= |s| && TrimLeft(s) == s[|s| - |TrimLeft(s)|..]
    ensures AllSpace(s[..|s| - |TrimLeft(s)|])
  {
    if s != [] && IsSpace(s[0]) {
      TrimLeftCases(s[1..]);
      var dropped := s[..|s| - |TrimLeft(s)|];
      var rest := s[1..][..|s[1..]| - |TrimLeft(s)|];
      forall i | 0 <= i < |dropped| ensures IsSpace(dropped[i]) {
        if i > 0 {
          assert dropped[i] == rest[i - 1];
        }
      }
      assert s[1..][|s[1..]| - |TrimLeft(s)|..] == s[|s| - |TrimLeft(s)|..];
      assert AllSpace(s) <==> AllSpace(s[1..]) by {
        if AllSpace(s[1..]) {
          forall i | 0 <= i < |s| ensures IsSpace(s[i]) {
            if i > 0 { assert s[i] == s[1..][i - 1]; }
          }
        }
      }
    }
  }

  /** TrimRight keeps a prefix of `s` that does not end in white space, and drops only white space. */
  lemma {:induction false} TrimRightCases(s: string)
    ensures |TrimRight(s)| <= |s| && TrimRight(s) == s[..|TrimRight(s)|]
    ensures TrimRight(s) != [] ==> !IsSpace(TrimRight(s)[|TrimRight(s)| - 1])
    ensures AllSpace(s[|TrimRight(s)|..])
    decreases |s|
  {
    if s != [] && IsSpace(s[|s| - 1]) {
      TrimRightCases(s[..|s| - 1]);
      assert forall i | 0 <= i < |s| - 1 - |TrimRight(s)| ::
        s[|TrimRight(s)|..][i] == s[..|s| - 1][|TrimRight(s)|..][i];
      assert s[..|s| - 1][..|TrimRight(s)|] == s[..|TrimRight(s)|];
    }
  }

  lemma {:induction false} TrimRightKeepsHead(s: string)
    requires s != [] && !IsSpace(s[0])
    ensures TrimRight(s) != [] && TrimRight(s)[0] == s[0]
    decreases |s|
  {
    if IsSpace(s[|s| - 1]) {
      assert |s| > 1;
      TrimRightKeepsHead(s[..|s| - 1]);
    }
  }

  /** TrimSpace(s) is empty exactly when `s` is blank: all white space, or "". */
  lemma TrimSpaceBlank(s: string)
    ensures TrimSpace(s) == [] <==> AllSpace(s)
  {
    TrimLeftCases(s);
    if TrimLeft(s) != [] {
      TrimRightKeepsHead(TrimLeft(s));
    }
  }
}
