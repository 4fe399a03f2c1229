/**
 * Reading the bearer token out of an `Authorization` header value
 * (`GetTokenFromHeader` in Program.cs), in the `Bearer <token>` form of
 * section 2.1 of RFC 6750: the scheme name is matched without regard to
 * case, and the rest of the value, trimmed of white space, is the token.
 */
module Auth {
  import opened Wrappers

  const Bearer: string := "Bearer "

  /**
   * `char.IsWhiteSpace`: the control characters TAB to CR, NEL, and the Unicode
   * space, line and paragraph separators. Among ASCII characters it holds for
   * exactly TAB, LF, VT, FF, CR and the space.
   */
  function IsWhiteSpace(c: char): (r: bool)
    ensures c < '\U{80}' ==> (r <==> c == ' ' || c == '\t' || c == '\n' || c == '\U{0B}' || c == '\U{0C}' || c == '\r')
    ensures r ==> !('0' <= c <= '9') && !('A' <= c <= 'Z') && !('a' <= c <= 'z')
  {
    || ('\t' <= c <= '\r')
    || c == ' '
    || c == '\U{85}'
    || c == '\U{A0}'
    || c == '\U{1680}'
    || ('\U{2000}' <= c <= '\U{200A}')
    || c == '\U{2028}'
    || c == '\U{2029}'
    || c == '\U{202F}'
    || c == '\U{205F}'
    || c == '\U{3000}'
  }

  /**
   * Upper-casing as ordinal case-insensitive comparison applies it. Only
   * ASCII letters are mapped: no other character upper-cases to a letter of
   * "Bearer ", so for that prefix the comparison is exact.
   */
  function ToUpper(c: char): (u: char)
    ensures 'a' <= c <= 'z' ==> 'A' <= u <= 'Z'
    ensures !('a' <= c <= 'z') ==> u == c
  {
    if 'a' <= c <= 'z' then (c as int - 32) as char else c
  }

  predicate EqualsIgnoreCase(a: string, b: string) {
    |a| == |b| && forall i | 0 <= i < |a| :: ToUpper(a[i]) == ToUpper(b[i])
  }

  /**
   * `s.StartsWith(prefix, StringComparison.OrdinalIgnoreCase)`. For the
   * prefix "Bearer ", each of the first six characters must be the letter of
   * "Bearer" in upper or lower case, and the seventh the space.
   */
  function StartsWithIgnoreCase(s: string, prefix: string): (r: bool)
    ensures r ==> |prefix| <= |s|
    ensures prefix == Bearer ==>
      (r <==> |s| >= |Bearer| && forall i | 0 <= i < |Bearer| :: s[i] == "BEARER "[i] || s[i] == "bearer "[i])
  {
    if |prefix| <= |s| then
      var head := s[..|prefix|];
      if prefix == Bearer then
        EqualsBearerCases(head);
        EqualsIgnoreCase(head, prefix)
      else EqualsIgnoreCase(head, prefix)
    else false
  }

  /** A character equals a character of "Bearer " ignoring case exactly when it is that letter in either case. */
  lemma BearerCharCases(c: char, i: nat)
    requires i < |Bearer|
    ensures ToUpper(c) == ToUpper(Bearer[i]) <==> c == "BEARER "[i] || c == "bearer "[i]
  {
    var u := "BEARER "[i];
    assert ToUpper(Bearer[i]) == u && ToUpper("bearer "[i]) == u;
    if 'a' <= c <= 'z' {
      assert ToUpper(c) as int == c as int - 32;
      if i < 6 {
        assert "bearer "[i] as int == u as int + 32;
      }
    }
  }

  lemma EqualsBearerCases(t: string)
    requires |t| == |Bearer|
    ensures EqualsIgnoreCase(t, Bearer) <==> forall i | 0 <= i < |Bearer| :: t[i] == "BEARER "[i] || t[i] == "bearer "[i]
  {
    forall i | 0 <= i < |Bearer| ensures ToUpper(t[i]) == ToUpper(Bearer[i]) <==> t[i] == "BEARER "[i] || t[i] == "bearer "[i] {
      BearerCharCases(t[i], i);
    }
  }

  /** `TrimStart()`: drops the leading white space and nothing else. */
  function TrimStart(s: string): (r: string)
    ensures |r| <= |s| && r == s[|s| - |r|..]
    ensures forall i | 0 <= i < |s| - |r| :: IsWhiteSpace(s[i])
    ensures r != [] ==> !IsWhiteSpace(r[0])
  {
    if |s| > 0 && IsWhiteSpace(s[0]) then TrimStart(s[1..]) else s
  }

  /** `TrimEnd()`: drops the trailing white space and nothing else. */
  function TrimEnd(s: string): (r: string)
    ensures |r| <= |s| && r == s[..|r|]
    ensures forall i | |r| <= i < |s| :: IsWhiteSpace(s[i])
    ensures r != [] ==> !IsWhiteSpace(r[|r| - 1])
  {
    if |s| > 0 && IsWhiteSpace(s[|s| - 1]) then TrimEnd(s[..|s| - 1]) else s
  }

  /**
   * `r` is what is left of `s` from position `lo` on once white space is cut
   * off on either side: it starts at `a`, and only white space lies between
   * `lo` and `a` and after `r`.
   */
  predicate TrimmedAt(s: string, lo: nat, r: string, a: int) {
    && lo <= a <= |s| - |r|
    && r == s[a..a + |r|]
    && (forall i | lo <= i < a :: IsWhiteSpace(s[i]))
    && (forall i | a + |r| <= i < |s| :: IsWhiteSpace(s[i]))
  }

  /**
   * `Trim()`: the result is a slice of `s` with only white space cut off on
   * either side, and it neither starts nor ends with white space.
   */
  function Trim(s: string): (r: string)
    ensures r != [] ==> !IsWhiteSpace(r[0]) && !IsWhiteSpace(r[|r| - 1])
    ensures exists a :: TrimmedAt(s, 0, r, a)
  {
    var t := TrimStart(s);
    var r := TrimEnd(t);
    var a := |s| - |t|;
    assert r == s[a..a + |r|];
    assert TrimmedAt(s, 0, r, a);
    r
  }

  lemma {:induction false} TrimStartAt(s: string, a: nat)
    requires a <= |s|
    requires forall i | 0 <= i < a :: IsWhiteSpace(s[i])
    requires a < |s| ==> !IsWhiteSpace(s[a])
    ensures TrimStart(s) == s[a..]
  {
    if a > 0 {
      TrimStartAt(s[1..], a - 1);
      assert s[1..][a - 1..] == s[a..];
    }
  }

  lemma {:induction false} TrimEndAt(s: string, b: nat)
    requires b <= |s|
    requires forall i | b <= i < |s| :: IsWhiteSpace(s[i])
    requires 0 < b ==> !IsWhiteSpace(s[b - 1])
    ensures TrimEnd(s) == s[..b]
  {
    if b < |s| {
      TrimEndAt(s[..|s| - 1], b);
      assert s[..|s| - 1][..b] == s[..b];
    }
  }

  lemma TrimEndAfter(s: string, a: nat, b: nat)
    requires a < b <= |s|
    requires forall i | b <= i < |s| :: IsWhiteSpace(s[i])
    requires !IsWhiteSpace(s[b - 1])
    ensures TrimEnd(s[a..]) == s[a..b]
  {
    var t := s[a..];
    forall i | b - a <= i < |t| ensures IsWhiteSpace(t[i]) {
      assert t[i] == s[a + i];
    }
    TrimEndAt(t, b - a);
    assert t[..b - a] == s[a..b];
  }

  lemma TrimSlice(s: string, a: nat, b: nat)
    requires a < b <= |s|
    requires forall i | 0 <= i < a :: IsWhiteSpace(s[i])
    requires forall i | b <= i < |s| :: IsWhiteSpace(s[i])
    requires !IsWhiteSpace(s[a]) && !IsWhiteSpace(s[b - 1])
    ensures TrimEnd(TrimStart(s)) == s[a..b]
  {
    TrimStartAt(s, a);
    TrimEndAfter(s, a, b);
  }

  /**
   * `Trim()` is determined by its contract: cutting only white space off
   * either end, down to non-white-space edges, gives exactly `Trim(s)`.
   */
  lemma TrimUnique(s: string, a: nat, b: nat)
    requires a <= b <= |s|
    requires forall i | 0 <= i < a :: IsWhiteSpace(s[i])
    requires forall i | b <= i < |s| :: IsWhiteSpace(s[i])
    requires a < b ==> !IsWhiteSpace(s[a]) && !IsWhiteSpace(s[b - 1])
    ensures Trim(s) == s[a..b]
  {
    if a < b {
      TrimSlice(s, a, b);
    } else {
      TrimStartAt(s, |s|);
    }
  }

  /** Trimming what follows the first `n` characters, seen from the whole string. */
  lemma TrimmedAtSuffix(s: string, n: nat, r: string, a: int)
    requires n <= |s| && TrimmedAt(s[n..], 0, r, a)
    ensures TrimmedAt(s, n, r, n + a)
  {
    assert r == s[n + a..n + a + |r|];
    forall i | n <= i < |s| ensures s[i] == s[n..][i - n] {
    }
  }

  /**
   * `GetTokenFromHeader`: null unless the value starts with "Bearer " in any
   * letter case; otherwise what follows those seven characters, trimmed.
   */
  function GetTokenFromHeader(headerValue: string): (r: Option<string>)
    ensures r.None? <==> !StartsWithIgnoreCase(headerValue, Bearer)
    ensures r.Some? ==> r.value != [] ==> !IsWhiteSpace(r.value[0]) && !IsWhiteSpace(r.value[|r.value| - 1])
    ensures r.Some? ==> exists a :: TrimmedAt(headerValue, |Bearer|, r.value, a)
  {
    if StartsWithIgnoreCase(headerValue, Bearer) then
      var rest := headerValue[|Bearer|..];
      var t := Trim(rest);
      var a :| TrimmedAt(rest, 0, t, a);
      TrimmedAtSuffix(headerValue, |Bearer|, t, a);
      Some(t)
    else None
  }

  /**
   * Formatting a token as a bearer credential and reading it back gives the
   * token, whatever the letter case of the scheme name and however much white
   * space follows it.
   */
  lemma ExtractAfterFormat(scheme: string, pad: string, token: string)
    requires EqualsIgnoreCase(scheme, Bearer)
    requires forall i | 0 <= i < |pad| :: IsWhiteSpace(pad[i])
    requires token != [] ==> !IsWhiteSpace(token[0]) && !IsWhiteSpace(token[|token| - 1])
    ensures GetTokenFromHeader(scheme + pad + token) == Some(token)
  {
    var h := scheme + pad + token;
    assert h[..|Bearer|] == scheme;
    assert StartsWithIgnoreCase(h, Bearer);
    var rest := h[|Bearer|..];
    assert rest == pad + token;
    assert rest[|pad|..|pad| + |token|] == token;
    TrimUnique(rest, |pad|, |pad| + |token|);
    assert Trim(rest) == token;
  }

  /** The lower-case scheme name is accepted: "bearer abc" yields "abc". */
  lemma LowerCaseSchemeAccepted()
    ensures GetTokenFromHeader("bearer abc") == Some("abc")
  {
    ExtractAfterFormat("bearer ", "", "abc");
  }

  /** The space after the scheme name is part of the prefix: "Bearer" alone and "Bearerabc" are refused. */
  lemma SpaceRequired()
    ensures GetTokenFromHeader("Bearer") == None
    ensures GetTokenFromHeader("Bearerabc") == None
  {
    assert ToUpper("Bearerabc"[6]) != ToUpper(Bearer[6]);
  }

  /** Another scheme is refused. */
  lemma OtherSchemeRefused()
    ensures GetTokenFromHeader("Basic YWxhZGRpbjpvcGVuc2VzYW1l") == None
  {
    assert ToUpper("Basic YWxhZGRpbjpvcGVuc2VzYW1l"[1]) != ToUpper(Bearer[1]);
  }
}
