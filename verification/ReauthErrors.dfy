/**
 Which Azure token errors mean that the credential is dead: the scan for AADSTS
 codes and the judgment built on it.
 */
module ReauthErrors {
  import opened Common

  const MARKER := "AADSTS"

  const REAUTH_AADSTS_CODES := [
    "50173", "70043", "700082", "50076", "50079", "50078", "700024", "7000222", "7000215"]

  const REAUTH_OAUTH_ERRORS := ["interaction_required", "invalid_grant"]

  // ---------------------------------------------------------------- text

  function UpperChar(c: char): char {
    if 'a' <= c <= 'z' then (c as int - 32) as char else c
  }

  function LowerChar(c: char): char {
    if 'A' <= c <= 'Z' then (c as int + 32) as char else c
  }

  function ToUpper(s: string): (r: string)
    ensures |r| == |s| && forall i :: 0 <= i < |s| ==> r[i] == UpperChar(s[i])
  {
    if s == "" then "" else [UpperChar(s[0])] + ToUpper(s[1..])
  }

  function ToLower(s: string): (r: string)
    ensures |r| == |s| && forall i :: 0 <= i < |s| ==> r[i] == LowerChar(s[i])
  {
    if s == "" then "" else [LowerChar(s[0])] + ToLower(s[1..])
  }

  predicate OccursAt(s: string, part: string, p: nat) {
    p + |part| <= |s| && s[p..p + |part|] == part
  }

  predicate Contains(s: string, part: string) {
    exists p: nat | p <= |s| :: OccursAt(s, part, p)
  }

  predicate IsDigit(c: char) {
    '0' <= c <= '9'
  }

  /** The longest prefix of digits. */
  function Digits(s: string): (d: string)
    ensures d <= s && (forall i :: 0 <= i < |d| ==> IsDigit(d[i]))
    ensures |d| < |s| ==> !IsDigit(s[|d|])
  {
    if s == "" || !IsDigit(s[0]) then "" else [s[0]] + Digits(s[1..])
  }

  // ---------------------------------------------------------------- the scan

  /** The digits behind a marker at `p`. */
  function CodeAt(s: string, p: nat): (code: Option<string>)
    requires p <= |s|
  {
    if OccursAt(s, MARKER, p) && Digits(s[p + |MARKER|..]) != "" then Some(Digits(s[p + |MARKER|..])) else None
  }

  /** The codes after all occurrences of the marker from position `p` on, whatever their distance. */
  function CodesFrom(s: string, p: nat): seq<string>
    requires p <= |s|
    decreases |s| - p
  {
    if p == |s| then []
    else (if CodeAt(s, p).Some? then [CodeAt(s, p).value] else []) + CodesFrom(s, p + 1)
  }

  lemma MarkerLetters(s: string, p: nat)
    ensures OccursAt(s, MARKER, p) ==>
              s[p] == 'A' && s[p + 1] == 'A' && s[p + 2] == 'D' && s[p + 3] == 'S' && s[p + 4] == 'T' && s[p + 5] == 'S'
  {
    if OccursAt(s, MARKER, p) {
      assert forall i :: 0 <= i < |MARKER| ==> s[p..p + |MARKER|][i] == MARKER[i];
    }
  }

  /** The marker cannot overlap itself. */
  lemma MarkersDoNotOverlap(s: string, p: nat, q: nat)
    requires OccursAt(s, MARKER, p) && p < q < p + |MARKER|
    ensures !OccursAt(s, MARKER, q)
  {
    MarkerLetters(s, p);
    MarkerLetters(s, q);
  }

  lemma {:induction false} NoCodesBetween(s: string, p: nat, q: nat)
    requires p <= q <= |s| && forall k :: p <= k < q ==> !OccursAt(s, MARKER, k)
    ensures CodesFrom(s, p) == CodesFrom(s, q)
    decreases q - p
  {
    if p < q {
      NoCodesBetween(s, p + 1, q);
      assert [] + CodesFrom(s, p + 1) == CodesFrom(s, p + 1);
    }
  }

  /** The first position at or after which `part` occurs, or the length when there is none. */
  method Find(s: string, part: string, from: nat) returns (at: nat)
    requires part != "" && from <= |s|
    ensures from <= at <= |s| && (forall k :: from <= k < at ==> !OccursAt(s, part, k))
    ensures at < |s| ==> OccursAt(s, part, at)
  {
    at := from;
    while at < |s| && !OccursAt(s, part, at)
      invariant from <= at <= |s| && forall k :: from <= k < at ==> !OccursAt(s, part, k)
    {
      at := at + 1;
    }
  }

  method AadstsCodes(text: string) returns (codes: seq<string>)
    ensures codes == CodesFrom(ToUpper(text), 0)
  {
    var upper := ToUpper(text);
    codes := [];
    var rest := 0;   // the part still to be searched starts here
    while true
      invariant rest <= |upper| && CodesFrom(upper, 0) == codes + CodesFrom(upper, rest)
      decreases |upper| - rest
    {
      var at := Find(upper, MARKER, rest);
      NoCodesBetween(upper, rest, at);
      if at == |upper| {
        assert codes + [] == codes;
        break;
      }
      var digits := Digits(upper[at + |MARKER|..]);
      CodesAfterMarker(upper, at, codes);
      if digits != "" {
        codes := codes + [digits];
      }
      rest := at + |MARKER|;
    }
  }

  /** Going on behind a marker misses no other one. */
  lemma CodesAfterMarker(s: string, at: nat, codes: seq<string>)
    requires OccursAt(s, MARKER, at)
    ensures var digits := Digits(s[at + |MARKER|..]);
            codes + CodesFrom(s, at) ==
            (if digits != "" then codes + [digits] else codes) + CodesFrom(s, at + |MARKER|)
  {
    forall k | at + 1 <= k < at + |MARKER| ensures !OccursAt(s, MARKER, k) {
      MarkersDoNotOverlap(s, at, k);
    }
    NoCodesBetween(s, at + 1, at + |MARKER|);
    var digits, more := Digits(s[at + |MARKER|..]), CodesFrom(s, at + 1);
    if digits != "" {
      assert codes + ([digits] + more) == codes + [digits] + more;
    } else {
      assert codes + ([] + more) == codes + more;
    }
  }

  /** The markers from `p` on that digits follow. */
  function MarkersFrom(s: string, p: nat): (at: seq<nat>)
    requires p <= |s|
    ensures forall k :: 0 <= k < |at| ==> p <= at[k] < |s|
    ensures forall j, k :: 0 <= j < k < |at| ==> at[j] < at[k]
    decreases |s| - p
  {
    if p == |s| then [] else (if CodeAt(s, p).Some? then [p] else []) + MarkersFrom(s, p + 1)
  }

  lemma {:induction false} CodesStandAtMarkers(s: string, p: nat)
    requires p <= |s|
    ensures var at, codes := MarkersFrom(s, p), CodesFrom(s, p);
            |codes| == |at| && forall k :: 0 <= k < |at| ==> CodeAt(s, at[k]) == Some(codes[k])
    decreases |s| - p
  {
    if p < |s| {
      CodesStandAtMarkers(s, p + 1);
    }
  }

  lemma CodeStandsBehindMarker(s: string, p: nat, code: string)
    requires p <= |s| && CodeAt(s, p) == Some(code)
    ensures OccursAt(s, "AADSTS", p) && code == Digits(s[p + 6..]) && code != ""
  {
  }

  /** The codes come in the order of their markers. */
  lemma CodesAreInOrder(s: string, k: nat)
    requires k < |CodesFrom(s, 0)|
    ensures |MarkersFrom(s, 0)| == |CodesFrom(s, 0)|
    ensures var at := MarkersFrom(s, 0)[k];
            OccursAt(s, "AADSTS", at) && CodesFrom(s, 0)[k] == Digits(s[at + 6..])
  {
    CodesStandAtMarkers(s, 0);
    CodeStandsBehindMarker(s, MarkersFrom(s, 0)[k], CodesFrom(s, 0)[k]);
  }

  // ---------------------------------------------------------------- the judgment

  function AnyListed(codes: seq<string>): bool {
    exists c | c in codes :: c in REAUTH_AADSTS_CODES
  }

  function NamesOAuthError(text: string): bool {
    exists e | e in REAUTH_OAUTH_ERRORS :: Contains(ToLower(text), e)
  }

  predicate TextIsReauth(text: string) {
    NamesOAuthError(text) || AnyListed(CodesFrom(ToUpper(text), 0))
  }

  /** `code` stands right after a marker, and no digit follows it. */
  predicate CodeStandsAt(s: string, code: string, p: nat) {
    OccursAt(s, MARKER, p) && OccursAt(s, code, p + |MARKER|) &&
    (p + |MARKER| + |code| < |s| ==> !IsDigit(s[p + |MARKER| + |code|]))
  }

  /** A listed code after a marker, as a whole digit run and in any letter case. */
  ghost predicate ListsCode(text: string) {
    exists p: nat, c :: c in REAUTH_AADSTS_CODES && CodeStandsAt(ToUpper(text), c, p)
  }

  lemma CodesFirst(s: string, p: nat, code: string)
    requires p < |s|
    ensures code in CodesFrom(s, p) <==> CodeAt(s, p) == Some(code) || code in CodesFrom(s, p + 1)
  {
    var here := CodeAt(s, p);
    assert here.Some? ==> here.value in CodesFrom(s, p);
  }

  lemma {:induction false} CodeIsThere(s: string, p: nat, q: nat, code: string)
    requires p <= q < |s| && CodeAt(s, q) == Some(code)
    ensures code in CodesFrom(s, p)
    decreases q - p
  {
    CodesFirst(s, p, code);
    if p < q {
      CodeIsThere(s, p + 1, q, code);
    }
  }

  lemma {:induction false} CodeStands(s: string, p: nat, code: string) returns (q: nat)
    requires p <= |s| && code in CodesFrom(s, p)
    ensures p <= q < |s| && CodeAt(s, q) == Some(code)
    decreases |s| - p
  {
    CodesFirst(s, p, code);
    q := p;
    if CodeAt(s, p) != Some(code) {
      q := CodeStands(s, p + 1, code);
    }
  }

  lemma CodeAtIff(s: string, q: nat, code: string)
    requires q <= |s|
    ensures CodeAt(s, q) == Some(code) <==> code != "" && OccursAt(s, MARKER, q) && Digits(s[q + |MARKER|..]) == code
  {
  }

  /** The codes are the digit runs behind markers, and no others. */
  lemma CodesAreRuns(s: string, p: nat, code: string)
    requires p <= |s|
    ensures code in CodesFrom(s, p) <==>
            code != "" && exists q :: p <= q < |s| && OccursAt(s, MARKER, q) && Digits(s[q + |MARKER|..]) == code
  {
    if code in CodesFrom(s, p) {
      var q := CodeStands(s, p, code);
      CodeAtIff(s, q, code);
    }
    if q :| p <= q < |s| && OccursAt(s, MARKER, q) && Digits(s[q + |MARKER|..]) == code && code != "" {
      CodeAtIff(s, q, code);
      CodeIsThere(s, p, q, code);
    }
  }

  lemma {:induction false} DigitsAre(s: string, code: string)
    requires code <= s && (forall i :: 0 <= i < |code| ==> IsDigit(code[i])) && (|code| < |s| ==> !IsDigit(s[|code|]))
    ensures Digits(s) == code
  {
    if code != "" {
      assert s[0] == code[0] && code[1..] <= s[1..];
      DigitsAre(s[1..], code[1..]);
      assert [s[0]] + code[1..] == code;
    }
  }

  lemma ListedCodesAreDigits(code: string)
    requires code in REAUTH_AADSTS_CODES
    ensures code != "" && forall i :: 0 <= i < |code| ==> IsDigit(code[i])
  {
  }

  lemma StandingCodesAreRuns(s: string, code: string, p: nat)
    requires code in REAUTH_AADSTS_CODES
    ensures CodeStandsAt(s, code, p) <==> OccursAt(s, MARKER, p) && Digits(s[p + |MARKER|..]) == code
  {
    ListedCodesAreDigits(code);
    if OccursAt(s, MARKER, p) {
      var rest := s[p + |MARKER|..];
      if CodeStandsAt(s, code, p) {
        assert rest[..|code|] == code;
        DigitsAre(rest, code);
      }
      if Digits(rest) == code {
        assert rest[..|code|] == code && s[p + |MARKER|..p + |MARKER| + |code|] == rest[..|code|];
      }
    }
  }

  // ---------------------------------------------------------------- the same, letter by letter

  /** The same letter but for its case, or the same character. */
  predicate Alike(c: char, d: char) {
    c == d || ('a' <= c <= 'z' && d as int + 32 == c as int) || ('a' <= d <= 'z' && c as int + 32 == d as int)
  }

  /** `part` stands at `p`, in any letter case. */
  predicate StandsAt(text: string, part: string, p: nat) {
    p + |part| <= |text| && forall i :: 0 <= i < |part| ==> Alike(text[p + i], part[i])
  }

  ghost predicate Holds(text: string, part: string) {
    exists p: nat :: StandsAt(text, part, p)
  }

  predicate IsLower(s: string) {
    forall i :: 0 <= i < |s| ==> !('A' <= s[i] <= 'Z')
  }

  predicate IsUpper(s: string) {
    forall i :: 0 <= i < |s| ==> !('a' <= s[i] <= 'z')
  }

  lemma LowerOccurs(text: string, part: string, p: nat)
    requires IsLower(part)
    ensures OccursAt(ToLower(text), part, p) <==> StandsAt(text, part, p)
  {
    var lower := ToLower(text);
    if p + |part| <= |text| {
      var piece := lower[p..p + |part|];
      assert forall i :: 0 <= i < |part| ==> piece[i] == LowerChar(text[p + i]);
      assert forall i :: 0 <= i < |part| ==> (LowerChar(text[p + i]) == part[i] <==> Alike(text[p + i], part[i]));
      if StandsAt(text, part, p) {
        assert lower[p..p + |part|] == part;
      }
    }
  }

  lemma UpperOccurs(text: string, part: string, p: nat)
    requires IsUpper(part)
    ensures OccursAt(ToUpper(text), part, p) <==> StandsAt(text, part, p)
  {
    var upper := ToUpper(text);
    if p + |part| <= |text| {
      var piece := upper[p..p + |part|];
      assert forall i :: 0 <= i < |part| ==> piece[i] == UpperChar(text[p + i]);
      assert forall i :: 0 <= i < |part| ==> (UpperChar(text[p + i]) == part[i] <==> Alike(text[p + i], part[i]));
      if StandsAt(text, part, p) {
        assert upper[p..p + |part|] == part;
      }
    }
  }

  lemma HoldsIffContains(text: string, part: string)
    requires IsLower(part)
    ensures Contains(ToLower(text), part) <==> Holds(text, part)
  {
    forall p: nat ensures OccursAt(ToLower(text), part, p) <==> StandsAt(text, part, p) {
      LowerOccurs(text, part, p);
    }
  }

  /** A code right behind a marker in any letter case, with no digit behind it. */
  predicate NamesCodeAt(text: string, code: string, p: nat) {
    StandsAt(text, "AADSTS", p) && p + 6 + |code| <= |text| && text[p + 6..p + 6 + |code|] == code &&
    (p + 6 + |code| < |text| ==> !('0' <= text[p + 6 + |code|] <= '9'))
  }

  /** What a text has to name for its error to be permanent. */
  ghost predicate NamesDeath(text: string) {
    || Holds(text, "interaction_required")
    || Holds(text, "invalid_grant")
    || (exists p: nat, code :: code in REAUTH_AADSTS_CODES && NamesCodeAt(text, code, p))
  }

  lemma UpperDigit(c: char, d: char)
    requires IsDigit(d)
    ensures UpperChar(c) == d <==> c == d
  {
  }

  lemma SameDigits(up: string, piece: string, code: string)
    requires |up| == |piece| == |code| && forall i :: 0 <= i < |code| ==> up[i] == UpperChar(piece[i]) && IsDigit(code[i])
    ensures up == code <==> piece == code
  {
    forall i | 0 <= i < |code| ensures up[i] == code[i] <==> piece[i] == code[i] {
      UpperDigit(piece[i], code[i]);
    }
  }

  lemma UpperPiece(text: string, q: nat, n: nat) returns (up: string, piece: string)
    requires q + n <= |text|
    ensures up == ToUpper(text)[q..q + n] && piece == text[q..q + n] && |up| == |piece| == n
    ensures forall i :: 0 <= i < n ==> up[i] == UpperChar(piece[i])
  {
    up, piece := ToUpper(text)[q..q + n], text[q..q + n];
  }

  lemma DigitsKeepCase(text: string, code: string, q: nat)
    requires q + |code| <= |text| && forall i :: 0 <= i < |code| ==> IsDigit(code[i])
    ensures ToUpper(text)[q..q + |code|] == code <==> text[q..q + |code|] == code
  {
    var up, piece := UpperPiece(text, q, |code|);
    SameDigits(up, piece, code);
    assert up == code <==> piece == code;
  }

  lemma DigitKeepsCase(text: string, q: nat)
    requires q < |text|
    ensures IsDigit(ToUpper(text)[q]) <==> '0' <= text[q] <= '9'
  {
  }

  lemma CodeStandsIffNamed(text: string, code: string, p: nat)
    requires code in REAUTH_AADSTS_CODES
    ensures CodeStandsAt(ToUpper(text), code, p) <==> NamesCodeAt(text, code, p)
  {
    ListedCodesAreDigits(code);
    UpperOccurs(text, MARKER, p);
    var q := p + |MARKER|;
    if q + |code| <= |text| {
      DigitsKeepCase(text, code, q);
    }
    if q + |code| < |text| {
      DigitKeepsCase(text, q + |code|);
    }
  }

  lemma ListsCodeIffNamed(text: string)
    ensures ListsCode(text) <==> exists p: nat, code :: code in REAUTH_AADSTS_CODES && NamesCodeAt(text, code, p)
  {
    forall p: nat, code | code in REAUTH_AADSTS_CODES
      ensures CodeStandsAt(ToUpper(text), code, p) <==> NamesCodeAt(text, code, p)
    {
      CodeStandsIffNamed(text, code, p);
    }
  }

  lemma TwoOAuthErrors(e: string)
    ensures e in REAUTH_OAUTH_ERRORS <==> e == "interaction_required" || e == "invalid_grant"
  {
    assert REAUTH_OAUTH_ERRORS[0] == "interaction_required" && REAUTH_OAUTH_ERRORS[1] == "invalid_grant";
  }

  lemma OAuthErrorIffNamed(text: string)
    ensures NamesOAuthError(text) <==> Holds(text, "interaction_required") || Holds(text, "invalid_grant")
  {
    var a, b := "interaction_required", "invalid_grant";
    HoldsIffContains(text, a);
    HoldsIffContains(text, b);
    TwoOAuthErrors(a);
    TwoOAuthErrors(b);
    if NamesOAuthError(text) {
      var e :| e in REAUTH_OAUTH_ERRORS && Contains(ToLower(text), e);
      TwoOAuthErrors(e);
    }
  }

  lemma ReauthIffListed(text: string)
    ensures TextIsReauth(text) <==> NamesOAuthError(text) || ListsCode(text)
  {
    var s := ToUpper(text);
    forall c | c in REAUTH_AADSTS_CODES
      ensures c in CodesFrom(s, 0) <==> exists p: nat :: CodeStandsAt(s, c, p)
    {
      CodesAreRuns(s, 0, c);
      ListedCodesAreDigits(c);
      forall p: nat ensures CodeStandsAt(s, c, p) <==> OccursAt(s, MARKER, p) && Digits(s[p + |MARKER|..]) == c {
        StandingCodesAreRuns(s, c, p);
      }
    }
  }

  /** A text is permanent exactly when it names a listed OAuth error or has a listed code as a whole digit run, in any letter case. */
  lemma ReauthIffNamed(text: string)
    ensures TextIsReauth(text) <==> NamesDeath(text)
  {
    ReauthIffListed(text);
    OAuthErrorIffNamed(text);
    ListsCodeIffNamed(text);
  }

  datatype AzureError = HttpError(status: nat, body: string) | CliError(stderr: string) | OtherError(text: string)

  predicate IsAzureReauth(err: AzureError) {
    match err
    case HttpError(status, body) => !(status >= 500 || status == 429) && TextIsReauth(body)
    case CliError(stderr) =>
      Contains(ToLower(stderr), "az login") || Contains(ToLower(stderr), "aadsts") || TextIsReauth(stderr)
    case OtherError(text) => TextIsReauth(text)
  }

  /** A token endpoint's error below 500 other than 429 is permanent exactly when its body says so; others never. */
  lemma HttpReauthIff(status: nat, body: string)
    ensures IsAzureReauth(HttpError(status, body)) <==> status < 500 && status != 429 && NamesDeath(body)
  {
    ReauthIffNamed(body);
  }

  /** A CLI error is permanent also when it asks to log in or names any AADSTS code; other errors only by their text. */
  lemma CliReauthIff(text: string)
    ensures IsAzureReauth(CliError(text)) <==> Holds(text, "az login") || Holds(text, "aadsts") || NamesDeath(text)
    ensures IsAzureReauth(OtherError(text)) <==> NamesDeath(text)
  {
    ReauthIffNamed(text);
    HoldsIffContains(text, "az login");
    HoldsIffContains(text, "aadsts");
  }
}
