/** Bearer authentication of the ingest endpoints (cf/src/auth.js): the
    `Authorization` header is matched against `/^Bearer\s+(.+)$/i` and the
    captured token must equal the configured `INGEST_TOKEN`. */
module Auth {
  import opened Js
  import opened Text
  import opened Http

  /** `\s` in a JavaScript regular expression: white space and line
      terminators. */
  predicate IsSpace(c: char) {
    c == ' ' || c == '\t' || c == '\n' || c == '\r' ||
    c as int == 0x0B || c as int == 0x0C || c as int == 0xA0 || c as int == 0x1680 ||
    (0x2000 <= c as int <= 0x200A) || c as int == 0x2028 || c as int == 0x2029 ||
    c as int == 0x202F || c as int == 0x205F || c as int == 0x3000 || c as int == 0xFEFF
  }

  /** The characters `.` does not match (without the `s` flag). */
  predicate IsLineTerminator(c: char) {
    c == '\n' || c == '\r' || c as int == 0x2028 || c as int == 0x2029
  }

  predicate NoLineTerminator(t: string) {
    forall i :: 0 <= i < |t| ==> !IsLineTerminator(t[i])
  }

  /** The scheme word, matched case-insensitively. */
  predicate IsBearerWord(w: string) {
    Lower(w) == "bearer"
  }

  /** `h` matches the pattern with the capture group starting at `k`:
      `h[..6]` is the scheme word, `h[6..k]` is a non-empty run of white
      space, and `h[k..]` is non-empty with no line terminator. */
  predicate IsBearerSplit(h: string, k: int) {
    7 <= k < |h| && IsBearerWord(h[..6]) &&
    (forall j :: 6 <= j < k ==> IsSpace(h[j])) &&
    NoLineTerminator(h[k..])
  }

  /** The end of the run of white space starting at `i`. */
  function SpaceEnd(h: string, i: nat): (e: nat)
    requires i <= |h|
    ensures i <= e <= |h|
    ensures forall j :: i <= j < e ==> IsSpace(h[j])
    ensures e == |h| || !IsSpace(h[e])
    decreases |h| - i
  {
    if i == |h| || !IsSpace(h[i]) then i else SpaceEnd(h, i + 1)
  }

  /** Every split has the scheme word and white space at index 6. */
  lemma SplitShape(h: string)
    ensures forall k :: IsBearerSplit(h, k) ==> |h| >= 8 && IsBearerWord(h[..6]) && IsSpace(h[6])
  {
    forall k | IsBearerSplit(h, k)
      ensures IsSpace(h[6])
    {
      assert 6 <= 6 < k;
    }
  }

  /** No split starts after the end `e` of the white-space run at 6, and
      when one starts at or before `k`, `h[k..]` has no line terminator. */
  lemma SplitBounds(h: string, e: nat, k: nat)
    requires 6 <= e <= |h| && (e == |h| || !IsSpace(h[e])) && k <= |h|
    ensures forall k2 :: IsBearerSplit(h, k2) ==> k2 <= e && (k2 <= k ==> NoLineTerminator(h[k..]))
  {
    forall k2 | IsBearerSplit(h, k2)
      ensures k2 <= e && (k2 <= k ==> NoLineTerminator(h[k..]))
    {
      forall i | 0 <= i < |h| - k && k2 <= k
        ensures !IsLineTerminator(h[k..][i])
      {
        assert h[k..][i] == h[k2..][i + k - k2];
      }
    }
  }

  /** `getBearerToken(request)`: the token of a well-formed header, else
      None. A header the pattern matches yields the capture of the greedy
      `\s+`: the text after the longest white-space run that still leaves
      at least one character. */
  function GetBearerToken(header: Option<string>): (r: Option<string>)
    ensures var h := header.GetOr("");
            (r.Some? <==> exists k :: IsBearerSplit(h, k)) &&
            (r.Some? ==> r.value != "" && IsBearerSplit(h, |h| - |r.value|) &&
                         r.value == h[|h| - |r.value|..] &&
                         forall k :: IsBearerSplit(h, k) ==> k <= |h| - |r.value|)
  {
    var h := header.GetOr("");
    SplitShape(h);
    if |h| < 8 || !IsBearerWord(h[..6]) || !IsSpace(h[6]) then None
    else
      var e := SpaceEnd(h, 6);
      var k := if e < |h| then e else |h| - 1;
      SplitBounds(h, e, k);
      if NoLineTerminator(h[k..]) then
        assert IsBearerSplit(h, k);
        Some(h[k..])
      else None
  }

  /** A header spelled `<scheme word> <token>` yields the token, whatever
      the case of the scheme word, when the token is non-empty, has no line
      terminator and does not start with white space. */
  lemma BearerTokenRoundTrip(word: string, t: string)
    requires IsBearerWord(word) && |word| == 6
    requires t != "" && NoLineTerminator(t) && !IsSpace(t[0])
    ensures GetBearerToken(Some(word + " " + t)) == Some(t)
  {
    var h := word + " " + t;
    assert h[..6] == word;
    assert IsBearerSplit(h, 7) by {
      assert h[7..] == t;
    }
    assert !IsSpace(h[7]);
  }

  /** The error every rejected ingest request gets: 401 `unauthorized`,
      built without the CORS headers. */
  const Unauthorized: Response := Response(401, Error("unauthorized", "Unauthorized"), false)

  /** `requireIngestAuth(request, env)`: None lets the request through. */
  function RequireIngestAuth(header: Option<string>, ingestToken: Option<string>): (r: Option<Response>)
    ensures r.None? <==> GetBearerToken(header).Some? && ingestToken.Some? &&
                         ingestToken.value != "" && GetBearerToken(header) == ingestToken
    ensures r.Some? ==> r.value == Unauthorized
    ensures ingestToken.None? || ingestToken.value == "" ==> r.Some?
  {
    var token := GetBearerToken(header);
    if token.None? || token.value == "" || ingestToken.None? || ingestToken.value == "" ||
       token.value != ingestToken.value
    then Some(Unauthorized)
    else None
  }
}
