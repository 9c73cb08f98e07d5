/** Printing and parsing document numbers. Letters are compared without case over ASCII. */
module NumberFormat {
  import opened Wrappers

  const MAX_DOCUMENT_SEQUENCE_NUMBER := 999_999_999
  const MAX_SEQUENCE_DIGITS := 9

  predicate IsLineBreak(c: char) { c == '\n' || c == '\r' || c == '\U{2028}' || c == '\U{2029}' }

  /** The white space that String.prototype.trim removes. */
  predicate IsSpace(c: char) {
    c == ' ' || '\t' <= c <= '\r' || c == '\U{A0}' || c == '\U{1680}' || '\U{2000}' <= c <= '\U{200A}'
    || c == '\U{2028}' || c == '\U{2029}' || c == '\U{202F}' || c == '\U{205F}' || c == '\U{3000}' || c == '\U{FEFF}'
  }

  function TrimStart(s: string): string {
    if s != [] && IsSpace(s[0]) then TrimStart(s[1..]) else s
  }

  function TrimEnd(s: string): (t: string)
    ensures t <= s && forall i :: |t| <= i < |s| ==> IsSpace(s[i])
    ensures t == [] || !IsSpace(t[|t| - 1])
  {
    if s != [] && IsSpace(s[|s| - 1]) then TrimEnd(s[..|s| - 1]) else s
  }

  function Trim(s: string): string { TrimEnd(TrimStart(s)) }

  function UpperChar(c: char): char {
    if 'a' <= c <= 'z' then (c as int - 'a' as int + 'A' as int) as char else c
  }
  function Upper(s: string): (u: string)
    ensures |u| == |s| && forall i :: 0 <= i < |s| ==> u[i] == UpperChar(s[i])
  {
    seq(|s|, i requires 0 <= i < |s| => UpperChar(s[i]))
  }

  // ---- Decimal digits ----

  function DigitChar(d: int): char
    requires 0 <= d <= 9
  {
    (d + '0' as int) as char
  }

  function Digits(n: nat): (s: string)
    ensures s != [] && forall i :: 0 <= i < |s| ==> IsDigit(s[i])
  {
    if n < 10 then [DigitChar(n)] else Digits(n / 10) + [DigitChar(n % 10)]
  }

  function DigitValue(c: char): nat
    requires IsDigit(c)
  {
    c as int - '0' as int
  }

  function Value(s: string): nat
    requires forall i :: 0 <= i < |s| ==> IsDigit(s[i])
  {
    if s == [] then 0 else Value(s[..|s| - 1]) * 10 + DigitValue(s[|s| - 1])
  }

  function Zeros(k: nat): (s: string)
    ensures |s| == k && forall i :: 0 <= i < k ==> s[i] == '0'
  {
    seq(k, _ => '0')
  }

  function PadStart(s: string, width: nat): string {
    if |s| >= width then s else Zeros(width - |s|) + s
  }

  ghost predicate AllDigits(s: string) { forall i :: 0 <= i < |s| ==> IsDigit(s[i]) }

  lemma {:induction false} ValueOfDigits(n: nat)
    ensures Value(Digits(n)) == n
  {
    if n >= 10 {
      ValueOfDigits(n / 10);
      var s := Digits(n);
      assert s[..|s| - 1] == Digits(n / 10);
    }
  }

  lemma {:induction false} ValueOfPadded(k: nat, s: string)
    requires AllDigits(s)
    ensures AllDigits(Zeros(k) + s) && Value(Zeros(k) + s) == Value(s)
  {
    var t := Zeros(k) + s;
    if s == [] {
      if k > 0 {
        assert t[..|t| - 1] == Zeros(k - 1) + [];
        ValueOfPadded(k - 1, []);
      }
    } else {
      assert t[..|t| - 1] == Zeros(k) + s[..|s| - 1];
      ValueOfPadded(k, s[..|s| - 1]);
    }
  }

  lemma {:induction false} ValueGrows(a: string, b: string)
    requires AllDigits(a) && AllDigits(b) && b != []
    ensures AllDigits(a + b) && Value(a + b) >= Value(a) * 10
  {
    var t := a + b;
    assert t[..|t| - 1] == a + b[..|b| - 1];
    if |b| == 1 {
      assert a + b[..0] == a;
    } else {
      ValueGrows(a, b[..|b| - 1]);
    }
  }

  // ---- formatDocumentNumber ----

  predicate Plausible(n: int) { 1 <= n <= MAX_DOCUMENT_SEQUENCE_NUMBER }

  function Body(n: nat, padding: int): string {
    if padding > 0 then PadStart(Digits(n), if padding < 10 then padding else 10) else Digits(n)
  }

  /** None where formatDocumentNumber throws. */
  function Format(prefix: string, n: int, padding: int, suffix: string): Option<string> {
    if !Plausible(n) then None else Some(prefix + Body(n, padding) + suffix)
  }

  // ---- extractTrailingSequenceNumber ----

  function LeadingRun(s: string): (k: nat)
    ensures k <= |s| && forall i :: 0 <= i < k ==> IsDigit(s[i])
    ensures k < |s| ==> !IsDigit(s[k])
  {
    if s == [] || !IsDigit(s[0]) then 0 else 1 + LeadingRun(s[1..])
  }

  function TrailingRun(s: string): (k: nat)
    ensures k <= |s| && forall i :: |s| - k <= i < |s| ==> IsDigit(s[i])
    ensures k < |s| ==> !IsDigit(s[|s| - k - 1])
  {
    if s == [] || !IsDigit(s[|s| - 1]) then 0 else 1 + TrailingRun(s[..|s| - 1])
  }

  predicate NoLineBreak(s: string) { forall i :: 0 <= i < |s| ==> !IsLineBreak(s[i]) }

  /** The digits that the pattern of one to nine digits and an optional non-digit tail captures. */
  function MatchBody(body: string): Option<string> {
    var k := LeadingRun(body);
    if 1 <= k <= MAX_SEQUENCE_DIGITS && (k == |body| || NoLineBreak(body[k + 1..])) then Some(body[..k]) else None
  }

  function ExtractFrom(digits: string): Option<nat>
    requires AllDigits(digits)
  {
    if Plausible(Value(digits)) then Some(Value(digits)) else None
  }

  /** The number that begins the rest of a text after its prefix. */
  function ReadBody(body: string): Option<nat> {
    if MatchBody(body).Some? then ExtractFrom(body[..LeadingRun(body)]) else None
  }

  /** The number that ends a text: its last one to nine digits, and none when there are more. */
  function TrailingNumber(t: string): Option<nat> {
    var k := TrailingRun(t);
    if k == 0 || k >= 10 then None else ExtractFrom(t[|t| - k..])
  }

  function Extract(documentNo: string, prefix: string): Option<nat> {
    var raw, p := Trim(documentNo), Trim(prefix);
    if raw == [] then None
    else if p == [] then TrailingNumber(raw)
    else if Upper(p) <= Upper(raw) then ReadBody(raw[|p|..])
    else None
  }

  /** What the pattern accepts, said without its algorithm. */
  ghost predicate Accepts(body: string, digits: string) {
    && AllDigits(digits) && 1 <= |digits| <= 9 && digits <= body
    && var rest := body[|digits|..];
       rest == [] || (!IsDigit(rest[0]) && forall i :: 1 <= i < |rest| ==> !IsLineBreak(rest[i]))
  }

  lemma MatchBodyIff(body: string, digits: string)
    ensures MatchBody(body) == Some(digits) <==> Accepts(body, digits)
  {
    var k := LeadingRun(body);
    var d := |digits|;
    if Accepts(body, digits) {
      assert forall i :: 0 <= i < d ==> body[i] == digits[i];
      assert d < |body| ==> body[d..][0] == body[d];
      assert k == d && body[..d] == digits;
      if d < |body| {
        assert body[d + 1..] == body[d..][1..];
      }
    }
    if MatchBody(body) == Some(digits) {
      assert forall i :: 1 <= i < |body| - k ==> body[k..][i] == body[k + 1..][i - 1];
    }
  }

  // ---- Parsing undoes printing ----

  lemma {:induction false} TrimEndAppend(a: string, b: string)
    requires a != [] && !IsSpace(a[|a| - 1])
    ensures TrimEnd(a + b) == a + TrimEnd(b)
  {
    if b == [] {
      assert a + b == a;
    } else if IsSpace(b[|b| - 1]) {
      assert (a + b)[..|a + b| - 1] == a + b[..|b| - 1];
      TrimEndAppend(a, b[..|b| - 1]);
    }
  }

  /** A prefix as it is stored: not empty, and with no white space at either end. */
  predicate StoredPrefix(prefix: string) { prefix != [] && Trim(prefix) == prefix }

  /** The prefix does not end in white space. */
  predicate EndsTight(prefix: string) { prefix != [] && !IsSpace(prefix[|prefix| - 1]) }

  lemma {:induction false} TrimStartIs(s: string)
    ensures var t := TrimStart(s);
      && |t| <= |s| && s[|s| - |t|..] == t && (t != [] ==> !IsSpace(t[0]))
      && (TrimEnd(t) == [] ==> t == [])
  {
    if s != [] && IsSpace(s[0]) { TrimStartIs(s[1..]); }
  }

  lemma {:induction false} TrimStartAppend(a: string, b: string)
    ensures TrimStart(a + b) == if TrimStart(a) == [] then TrimStart(b) else TrimStart(a) + b
  {
    if a == [] {
      assert a + b == b;
    } else if IsSpace(a[0]) {
      assert (a + b)[1..] == a[1..] + b;
      TrimStartAppend(a[1..], b);
    }
  }

  lemma BodyDigits(n: nat, padding: int)
    ensures AllDigits(Body(n, padding)) && Body(n, padding) != [] && Value(Body(n, padding)) == n
    ensures padding <= 9 && |Digits(n)| <= 9 ==> |Body(n, padding)| <= 9
    ensures padding > 9 ==> |Body(n, padding)| >= 10
  {
    hide Digits, Value;
    ValueOfDigits(n);
    var width := if padding < 10 then padding else 10;
    if padding > 0 && |Digits(n)| < width { ValueOfPadded(width - |Digits(n)|, Digits(n)); }
  }

  lemma {:induction false} DigitsShort(n: nat, k: nat)
    requires 1 <= k && n < Pow10(k)
    ensures |Digits(n)| <= k
  {
    if n >= 10 { DigitsShort(n / 10, k - 1); }
  }

  function Pow10(k: nat): nat { if k == 0 then 1 else 10 * Pow10(k - 1) }

  lemma PlausibleDigits(n: nat)
    requires Plausible(n)
    ensures |Digits(n)| <= 9
  {
    assert Pow10(9) == 1_000_000_000 by { assert Pow10(3) == 1000; assert Pow10(6) == 1_000_000; }
    DigitsShort(n, 9);
  }

  /** The printed number as the parser sees it: without the white space in front of the prefix and behind the suffix. */
  lemma TrimmedNumber(prefix: string, body: string, suffix: string)
    requires AllDigits(body) && body != []
    ensures Trim(prefix + body + suffix) == TrimStart(prefix) + body + TrimEnd(suffix)
  {
    hide TrimEnd, TrimStart, IsSpace;
    var start, rest := TrimStart(prefix), body + suffix;
    assert prefix + body + suffix == prefix + rest;
    TrimStartAppend(prefix, rest);
    DigitsFirst(body, suffix);
    var head := start + body;
    assert start + rest == head + suffix && head[|head| - 1] == body[|body| - 1];
    NotSpace(body[|body| - 1]);
    TrimEndAppend(head, suffix);
  }

  lemma NotSpace(c: char)
    requires IsDigit(c)
    ensures !IsSpace(c)
  {
  }

  lemma DigitsFirst(body: string, suffix: string)
    requires AllDigits(body) && body != []
    ensures TrimStart(body + suffix) == body + suffix
  {
    assert (body + suffix)[0] == body[0];
  }

  /** What follows the trimmed prefix: the white space that ended it, if any, and then the number. */
  lemma AfterPrefix(prefix: string, rest: string)
    requires Trim(prefix) != []
    ensures var (start, p) := (TrimStart(prefix), Trim(prefix));
      && |p| <= |start| && (start + rest)[|p|..] == start[|p|..] + rest && Upper(p) <= Upper(start + rest)
      && (start[|p|..] == [] <==> EndsTight(prefix)) && (start[|p|..] != [] ==> IsSpace(start[|p|]))
  {
    hide TrimEnd, TrimStart;
    TrimStartIs(prefix);
    var start, p := TrimStart(prefix), Trim(prefix);
    assert Upper(start + rest)[..|p|] == Upper(p);
    assert prefix[|prefix| - 1] == start[|start| - 1];
  }

  /** The suffixes the parser can step over. */
  predicate SuffixParses(suffix: string) {
    var t := TrimEnd(suffix);
    t == [] || (!IsDigit(t[0]) && NoLineBreak(t[1..]))
  }

  lemma {:induction false} RunOfBody(body: string, t: string)
    requires AllDigits(body)
    ensures LeadingRun(body + t) == |body| + LeadingRun(t)
  {
    if body == [] {
      assert body + t == t;
    } else {
      assert (body + t)[1..] == body[1..] + t;
      RunOfBody(body[1..], t);
    }
  }

  lemma StartOf(body: string, t: string, k: nat)
    requires k <= |t|
    ensures (body + t)[..|body| + k] == body + t[..k]
    ensures k < |t| ==> (body + t)[|body| + k + 1..] == t[k + 1..]
  {
  }

  lemma MatchNumber(body: string, t: string)
    requires AllDigits(body) && body != []
    ensures var k := LeadingRun(t);
      && LeadingRun(body + t) == |body| + k && (body + t)[..|body| + k] == body + t[..k]
      && (MatchBody(body + t).Some?
          <==> |body| + k <= 9 && (k == |t| || NoLineBreak(t[k + 1..])))
  {
    hide LeadingRun, NoLineBreak, MatchBody, AllDigits, IsDigit;
    var k := LeadingRun(t);
    RunOfBody(body, t);
    StartOf(body, t, k);
    MatchAt(body + t, |body| + k, if k < |t| then t[k + 1..] else []);
  }

  lemma MatchAt(s: string, k: nat, tail: string)
    requires LeadingRun(s) == k && (k < |s| ==> s[k + 1..] == tail)
    ensures MatchBody(s).Some? <==> 1 <= k <= 9 && (k == |s| || NoLineBreak(tail))
  {
    hide LeadingRun, NoLineBreak, IsDigit;
  }

  /** What is read after a prefix that is not blank: nothing if the prefix ends in white space. */
  lemma ReadAfterPrefix(prefix: string, body: string, suffix: string)
    requires Trim(prefix) != [] && AllDigits(body) && body != []
    ensures Extract(prefix + body + suffix, prefix) == if EndsTight(prefix) then ReadBody(body + TrimEnd(suffix)) else None
  {
    hide TrimEnd, TrimStart, Trim, Upper, MatchBody, Value, LeadingRun, EndsTight, ReadBody;
    var start, rest := TrimStart(prefix), body + TrimEnd(suffix);
    TrimmedNumber(prefix, body, suffix);
    assert start + body + TrimEnd(suffix) == start + rest;
    AfterPrefix(prefix, rest);
    assert start + rest != [];
    if EndsTight(prefix) {
      assert [] + rest == rest;
    } else {
      SpaceFirst(start[|Trim(prefix)|..] + rest);
    }
  }

  lemma ReadNumber(body: string, t: string, n: nat)
    requires AllDigits(body) && body != [] && Value(body) == n && Plausible(n)
    ensures ReadBody(body + t) == Some(n) <==> |body| <= 9 && (t == [] || (!IsDigit(t[0]) && NoLineBreak(t[1..])))
  {
    hide MatchBody, Value, LeadingRun;
    var k := LeadingRun(t);
    MatchNumber(body, t);
    if k == 0 {
      assert t[..0] == [] && body + [] == body;
    } else {
      ValueGrows(body, t[..k]);
    }
  }

  /**
   For every prefix that is not blank and every number in range, parsing gives back
   the number that was printed exactly when the prefix does not end in white space,
   the padding is at most nine and the suffix can be stepped over.
   */
  lemma RoundTripIff(prefix: string, n: int, padding: int, suffix: string)
    requires Trim(prefix) != [] && Plausible(n)
    ensures Extract(Format(prefix, n, padding, suffix).value, prefix) == Some(n)
      <==> EndsTight(prefix) && padding <= 9 && SuffixParses(suffix)
  {
    hide TrimEnd, Trim, Body, Digits, Value, EndsTight, ReadBody, Extract;
    BodyDigits(n, padding);
    PlausibleDigits(n);
    ReadAfterPrefix(prefix, Body(n, padding), suffix);
    ReadNumber(Body(n, padding), TrimEnd(suffix), n);
  }

  lemma SpaceFirst(body: string)
    requires body != [] && IsSpace(body[0])
    ensures ReadBody(body) == None
  {
  }

  lemma {:induction false} RunOfDigits(s: string)
    requires AllDigits(s)
    ensures TrailingRun(s) == |s|
  {
    if s != [] { RunOfDigits(s[..|s| - 1]); }
  }

  lemma {:induction false} RunAtEnd(body: string, t: string)
    requires AllDigits(body)
    ensures TrailingRun(body + t) == if TrailingRun(t) == |t| then |body| + |t| else TrailingRun(t)
  {
    if t == [] {
      assert body + t == body;
      RunOfDigits(body);
    } else {
      var init := t[..|t| - 1];
      assert (body + t)[..|body + t| - 1] == body + init;
      RunAtEnd(body, init);
    }
  }

  /**
   For a blank prefix, exactly when nothing but white space follows and the padding
   is at most nine, or the suffix ends, after something else, in that very number.
   */
  lemma BlankPrefixRoundTripIff(prefix: string, n: int, padding: int, suffix: string)
    requires Trim(prefix) == [] && Plausible(n)
    ensures var t := TrimEnd(suffix);
      Extract(Format(prefix, n, padding, suffix).value, prefix) == Some(n)
      <==> (if TrailingRun(t) == |t| then t == [] && padding <= 9 else TrailingNumber(t) == Some(n))
  {
    hide TrimEnd, TrimStart, Body, Digits, Value, TrailingRun, TrailingNumber;
    var body, t := Body(n, padding), TrimEnd(suffix);
    BodyDigits(n, padding);
    PlausibleDigits(n);
    TrimmedNumber(prefix, body, suffix);
    TrimStartIs(prefix);
    assert [] + body + t == body + t;
    ReadAtEnd(body, t, n);
  }

  lemma ReadAtEnd(body: string, t: string, n: nat)
    requires AllDigits(body) && body != [] && Value(body) == n && Plausible(n)
    ensures TrailingNumber(body + t) == Some(n)
      <==> (if TrailingRun(t) == |t| then t == [] && |body| <= 9 else TrailingNumber(t) == Some(n))
  {
    hide Value, TrailingRun, TrailingNumber;
    if t == [] {
      assert body + t == body;
      ReadAllDigits(body);
    } else if TrailingRun(t) == |t| {
      ValueGrows(body, t);
      ReadAllDigits(body + t);
    } else {
      ReadOfTail(body, t);
    }
  }

  lemma ReadAllDigits(s: string)
    requires AllDigits(s) && s != []
    ensures TrailingNumber(s) == if |s| <= 9 then ExtractFrom(s) else None
  {
    hide Value;
    RunAtEnd(s, []);
    assert s + [] == s && s[|s| - |s|..] == s;
  }

  lemma ReadOfTail(body: string, t: string)
    requires AllDigits(body) && TrailingRun(t) < |t|
    ensures TrailingNumber(body + t) == TrailingNumber(t)
  {
    hide TrailingRun, TrailingNumber, AllDigits, IsDigit;
    RunAtEnd(body, t);
    EndOf(body, t, TrailingRun(t));
    SameTail(body + t, t, TrailingRun(t));
  }

  lemma SameTail(s: string, t: string, k: nat)
    requires TrailingRun(s) == k && TrailingRun(t) == k && k <= |s| && k <= |t| && s[|s| - k..] == t[|t| - k..]
    ensures TrailingNumber(s) == TrailingNumber(t)
  {
    hide TrailingRun, ExtractFrom, IsDigit;
  }

  lemma EndOf(body: string, t: string, k: nat)
    requires k <= |t|
    ensures (body + t)[|body + t| - k..] == t[|t| - k..]
  {
  }

  lemma StoredPrefixIs(prefix: string)
    requires StoredPrefix(prefix)
    ensures Trim(prefix) == prefix && prefix != [] && EndsTight(prefix)
  {
    TrimStartIs(prefix);
  }

  /** With a padding of ten nothing is read back at all. */
  lemma PaddingTenUnread(prefix: string, n: int, suffix: string)
    requires Trim(prefix) != [] && Plausible(n)
    ensures Extract(Format(prefix, n, 10, suffix).value, prefix) == None
  {
    hide TrimEnd, Trim, Body, Digits, Value, EndsTight, Extract, MatchBody;
    BodyDigits(n, 10);
    ReadAfterPrefix(prefix, Body(n, 10), suffix);
    MatchNumber(Body(n, 10), TrimEnd(suffix));
  }

  /** Different numbers print differently, whatever the settings. */
  lemma FormatInjective(prefix: string, m: int, n: int, padding: int, suffix: string)
    requires Plausible(m) && Plausible(n)
    requires Format(prefix, m, padding, suffix) == Format(prefix, n, padding, suffix)
    ensures m == n
  {
    hide Body, Value;
    var a, b := Body(m, padding), Body(n, padding);
    BodyDigits(m, padding);
    BodyDigits(n, padding);
    var printed := prefix + a + suffix;
    assert printed == prefix + b + suffix;
    assert |a| == |b| && printed[|prefix|..|prefix| + |a|] == a && printed[|prefix|..|prefix| + |b|] == b;
  }

  // ---- The database's own formatter ----

  /** lpad: it also cuts a text that is longer than the width. */
  function Lpad(s: string, width: nat): string {
    if |s| >= width then s[..width] else Zeros(width - |s|) + s
  }

  function DbFormat(prefix: string, n: nat, padding: int, suffix: string): string {
    prefix + (if padding <= 0 then Digits(n) else Lpad(Digits(n), padding)) + suffix
  }

  /** The two formatters agree exactly when the number is no longer than its padding. */
  lemma FormattersAgreeIff(prefix: string, n: int, padding: int, suffix: string)
    requires Plausible(n) && 0 <= padding <= 10
    ensures Format(prefix, n, padding, suffix) == Some(DbFormat(prefix, n, padding, suffix))
      <==> padding == 0 || |Digits(n)| <= padding
  {
    hide Digits;
    assert |Digits(n)| == padding ==> Digits(n)[..padding] == Digits(n);
    if padding > 0 && |Digits(n)| > padding {
      assert |Format(prefix, n, padding, suffix).value| == |prefix| + |Digits(n)| + |suffix|;
      assert |DbFormat(prefix, n, padding, suffix)| == |prefix| + padding + |suffix|;
    }
  }

  /** A number longer than its padding prints like an earlier one that is not. */
  lemma {:induction false} OverflowRepeats(prefix: string, n: nat, padding: nat, suffix: string) returns (m: nat)
    requires 1 <= padding < |Digits(n)|
    ensures 1 <= m < n && |Digits(m)| <= padding
    ensures DbFormat(prefix, m, padding, suffix) == DbFormat(prefix, n, padding, suffix)
  {
    assert n >= 10;
    m := n / 10;
    assert Digits(n)[..|Digits(n)| - 1] == Digits(m);
    if |Digits(m)| > padding {
      assert Digits(n)[..padding] == Digits(m)[..padding];
      m := OverflowRepeats(prefix, m, padding, suffix);
    } else {
      assert Digits(n)[..padding] == Digits(m);
    }
  }
}
