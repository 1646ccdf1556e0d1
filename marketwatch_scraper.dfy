/** The MarketWatch scraper: the two text parsers (percentages and market
    capitalisations) and the row-folding of `get_scrapping_data`. The HTML
    navigation is abstracted: a page is its raw text plus the cell texts of
    the rows the navigation selects. */
module MarketwatchScraper {
  import opened Values
  import opened Text

  // ---------------------------------------------------------------------
  // Scanning helpers

  /** Length of the longest prefix of s whose characters are all in the class. */
  function LeadingRun(s: string, inClass: char -> bool): (n: nat)
    ensures n <= |s|
    ensures n == |s| || !inClass(s[n])
  {
    if s != [] && inClass(s[0]) then 1 + LeadingRun(s[1..], inClass) else 0
  }

  /** Every character of the run is in the class. */
  lemma {:induction false} LeadingRunInClass(s: string, inClass: char -> bool)
    ensures forall k :: 0 <= k < LeadingRun(s, inClass) ==> inClass(s[k])
  {
    if s != [] && inClass(s[0]) {
      LeadingRunInClass(s[1..], inClass);
      assert forall k :: 1 <= k < LeadingRun(s, inClass) ==> s[k] == s[1..][k - 1];
    }
  }

  /** A run of class characters followed by a non-class character (or the end)
      is exactly what LeadingRun measures. */
  lemma {:induction false} LeadingRunOfConcat(a: string, b: string, inClass: char -> bool)
    requires forall k :: 0 <= k < |a| ==> inClass(a[k])
    requires b == [] || !inClass(b[0])
    ensures LeadingRun(a + b, inClass) == |a|
  {
    if a == [] {
      assert a + b == b;
    } else {
      assert (a + b)[0] == a[0];
      assert (a + b)[1..] == a[1..] + b;
      LeadingRunOfConcat(a[1..], b, inClass);
    }
  }

  /** `t.replace(a, b)` distributes over concatenation and leaves texts without
      `a` alone. */
  lemma {:induction false} ReplaceCharConcat(x: string, y: string, a: char, b: char)
    ensures ReplaceChar(x + y, a, b) == ReplaceChar(x, a, b) + ReplaceChar(y, a, b)
  {
  }

  // ---------------------------------------------------------------------
  // _pct_to_float

  const MinusSign: char := '\U{2212}'

  predicate IsSign(c: char)
  {
    c == '+' || c == '-'
  }

  predicate IsSeparator(c: char)
  {
    c == '.' || c == ','
  }

  /** The decimal a sign, whole digits and fraction digits denote; `float()`
      after the comma has become a point. */
  function SignedDecimal(negative: bool, whole: string, fraction: string): Dec
    requires AllDigits(whole) && AllDigits(fraction)
  {
    var magnitude := DigitsValue(whole) * Pow10(|fraction|) + DigitsValue(fraction);
    Dec(if negative then -magnitude else magnitude, |fraction|)
  }

  /** `[.,]\d+`: a separator and at least one digit, or nothing at all. */
  predicate IsFractionPart(frac: string)
  {
    frac == [] || (|frac| >= 2 && IsSeparator(frac[0]) && AllDigits(frac[1..]))
  }

  /** The digits after the decimal separator of a fraction part. */
  function FractionDigits(frac: string): (d: string)
    requires IsFractionPart(frac)
    ensures AllDigits(d)
  {
    if frac == [] then [] else frac[1..]
  }

  /** Length of the optional `(?:[.,]\d+)` group at the start of r: a
      separator counts only when a digit follows it. */
  function FractionLength(r: string): (f: nat)
    ensures f <= |r|
    ensures IsFractionPart(r[..f])
  {
    if |r| >= 2 && IsSeparator(r[0]) && IsDigit(r[1]) then
      var n := LeadingRun(r[1..], IsDigit);
      LeadingRunInClass(r[1..], IsDigit);
      assert r[..1 + n][1..] == r[1..][..n];
      1 + n
    else 0
  }

  /** `\s*%` matches at the start of u. */
  predicate PercentFollows(u: string)
  {
    var sp := LeadingRun(u, IsSpace);
    sp < |u| && u[sp] == '%'
  }

  /** What `\d+(?:[.,]\d+)?\s*%` reads at the start of body, the sign already
      consumed. Every quantifier is greedy and no backtracking can succeed
      where the greedy reading fails: a shorter digit run leaves a digit where
      `[.,]`, `\s` or `%` is needed. */
  function PctMatchBody(negative: bool, body: string): Option<Dec>
  {
    var w := LeadingRun(body, IsDigit);
    if w == 0 then None
    else
      var r := body[w..];
      var f := FractionLength(r);
      if PercentFollows(r[f..]) then
        LeadingRunInClass(body, IsDigit);
        assert AllDigits(body[..w]);
        Some(SignedDecimal(negative, body[..w], FractionDigits(r[..f])))
      else None
  }

  /** The number `[+-]?\d+(?:[.,]\d+)?\s*%` reads when matched at the start
      of s, or None when it does not match there. */
  function PctMatchHere(s: string): Option<Dec>
  {
    if s != [] && IsSign(s[0]) then PctMatchBody(s[0] == '-', s[1..])
    else PctMatchBody(false, s)
  }

  /** `re.search`: the match at the leftmost position where there is one. */
  function PctSearch(s: string): Option<Dec>
  {
    if s == [] then None
    else if PctMatchHere(s).Some? then PctMatchHere(s)
    else PctSearch(s[1..])
  }

  /** `_pct_to_float(txt)`; None stands for a missing text. A missing text,
      or one without a percent sign, reads as None. */
  function PctToFloat(txt: Option<string>): (r: Option<Dec>)
    ensures txt.None? || '%' !in txt.value ==> r == None
  {
    var t := if txt.Some? then txt.value else "";
    var s := ReplaceChar(t, MinusSign, '-');
    if '%' !in t then
      PctSearchNeedsPercent(s);
      PctSearch(s)
    else PctSearch(s)
  }

  /** `re.search` gives the leftmost match: None exactly when the pattern
      matches at no position (no token starts anywhere), otherwise the
      reading at the first position where it matches. */
  lemma {:induction false} PctSearchIsLeftmost(s: string)
    ensures PctSearch(s).None? <==> forall i :: 0 <= i < |s| ==> PctMatchHere(s[i..]).None?
    ensures PctSearch(s).Some? ==>
      exists i :: 0 <= i < |s| && PctSearch(s) == PctMatchHere(s[i..])
                  && forall j :: 0 <= j < i ==> PctMatchHere(s[j..]).None?
    ensures PctSearch(s).None? <==> forall i :: 0 <= i < |s| ==> !PctTokenAt(s[i..])
    ensures PctSearch(s).Some? ==>
      exists i :: 0 <= i < |s| && PctTokenAt(s[i..]) && PctSearch(s) == PctMatchHere(s[i..])
                  && forall j :: 0 <= j < i ==> !PctTokenAt(s[j..])
  {
    PctSearchNone(s);
    PctTokensAgree(s);
    if PctSearch(s).Some? {
      var i := PctSearchPosition(s);
    }
  }

  /** At every position the matcher succeeds exactly where a token starts. */
  lemma {:induction false} PctTokensAgree(s: string)
    ensures forall i :: 0 <= i < |s| ==> (PctMatchHere(s[i..]).Some? <==> PctTokenAt(s[i..]))
  {
    forall i | 0 <= i < |s|
      ensures PctMatchHere(s[i..]).Some? <==> PctTokenAt(s[i..])
    {
      PctMatchHereExact(s[i..]);
    }
  }

  lemma {:induction false} PctSearchNone(s: string)
    ensures PctSearch(s).None? <==> forall i :: 0 <= i < |s| ==> PctMatchHere(s[i..]).None?
  {
    if s != [] {
      assert s[0..] == s;
      if PctMatchHere(s).None? {
        PctSearchNone(s[1..]);
        assert forall i :: 1 <= i < |s| ==> s[i..] == s[1..][i - 1..];
      }
    }
  }

  /** The position of the match `re.search` reports. */
  lemma {:induction false} PctSearchPosition(s: string) returns (i: int)
    requires PctSearch(s).Some?
    ensures 0 <= i < |s| && PctSearch(s) == PctMatchHere(s[i..])
    ensures forall j :: 0 <= j < i ==> PctMatchHere(s[j..]).None?
  {
    assert s[0..] == s;
    if PctMatchHere(s).Some? {
      i := 0;
    } else {
      var k := PctSearchPosition(s[1..]);
      i := k + 1;
      assert s[i..] == s[1..][k..];
      assert forall j :: 1 <= j < i ==> s[j..] == s[1..][j - 1..];
    }
  }

  /** Positions at which the pattern does not match are passed over. */
  lemma {:induction false} PctSearchFrom(s: string, k: int)
    requires 0 <= k <= |s|
    requires forall i :: 0 <= i < k ==> PctMatchHere(s[i..]).None?
    ensures PctSearch(s) == PctSearch(s[k..])
  {
    if k > 0 {
      assert s[0..] == s;
      assert forall i :: 0 <= i < k - 1 ==> s[1..][i..] == s[i + 1..];
      PctSearchFrom(s[1..], k - 1);
      assert s[1..][k - 1..] == s[k..];
    }
  }

  lemma {:induction false} FractionLengthOf(frac: string, rest: string)
    requires IsFractionPart(frac)
    requires rest == [] || !IsDigit(rest[0])
    requires frac == [] ==> rest == [] || !IsSeparator(rest[0])
    ensures FractionLength(frac + rest) == |frac|
    ensures (frac + rest)[|frac|..] == rest
    ensures (frac + rest)[..|frac|] == frac
  {
    var r := frac + rest;
    if frac == [] {
      assert r == rest;
    } else {
      assert r[0] == frac[0] && r[1] == frac[1];
      assert r[1..] == frac[1..] + rest;
      LeadingRunOfConcat(frac[1..], rest, IsDigit);
    }
  }

  lemma {:induction false} PercentFollowsOf(u: string, w: string, rest: string)
    requires AllSpaces(w)
    requires u == w + ("%" + rest)
    ensures PercentFollows(u)
  {
    LeadingRunOfConcat(w, "%" + rest, IsSpace);
    assert u[|w|] == '%';
  }

  /** After the sign, digits, an optional fraction, spaces and a percent sign
      read as exactly that number. */
  lemma {:induction false} PctMatchBodyReads(negative: bool, body: string, whole: string, frac: string, w: string, rest: string)
    requires |whole| > 0 && AllDigits(whole)
    requires IsFractionPart(frac)
    requires AllSpaces(w)
    requires body == whole + (frac + (w + ("%" + rest)))
    ensures PctMatchBody(negative, body) == Some(SignedDecimal(negative, whole, FractionDigits(frac)))
  {
    var a := w + ("%" + rest);
    var r := frac + a;
    assert a == [] || (!IsDigit(a[0]) && !IsSeparator(a[0])) by {
      if w != [] { assert a[0] == w[0]; } else { assert a[0] == '%'; }
    }
    FractionLengthOf(frac, a);
    PercentFollowsOf(a, w, rest);
    assert r == [] || !IsDigit(r[0]) by {
      if frac != [] { assert r[0] == frac[0]; } else { assert r == a; }
    }
    LeadingRunOfConcat(whole, r, IsDigit);
    assert body[|whole|..] == r && body[..|whole|] == whole;
  }

  /** The pattern matches at the start of a sign, digits, an optional
      fraction, spaces and a percent sign, and reads exactly that number. */
  lemma {:induction false} PctMatchesToken(sign: string, whole: string, frac: string, w: string, rest: string)
    requires sign == "" || sign == "+" || sign == "-"
    requires |whole| > 0 && AllDigits(whole)
    requires IsFractionPart(frac)
    requires AllSpaces(w)
    ensures PctMatchHere(sign + (whole + (frac + (w + ("%" + rest)))))
         == Some(SignedDecimal(sign == "-", whole, FractionDigits(frac)))
  {
    var body := whole + (frac + (w + ("%" + rest)));
    PctMatchBodyReads(sign == "-", body, whole, frac, w, rest);
    assert body[0] == whole[0];
    PctMatchHereOfSign(sign, body);
  }

  /** The pieces of a `[+-]?\d+(?:[.,]\d+)?\s*%` token: an optional sign,
      digits, an optional fraction part and spaces before the `%`. */
  predicate PctTokenPieces(sign: string, whole: string, frac: string, w: string)
  {
    (sign == "" || sign == "+" || sign == "-")
    && |whole| > 0 && AllDigits(whole) && IsFractionPart(frac) && AllSpaces(w)
  }

  /** The texts the pattern matches at the start of: a token, then anything. */
  ghost predicate PctTokenAt(s: string)
  {
    exists sign, whole, frac, w, rest :: PctTokenPieces(sign, whole, frac, w)
      && s == sign + (whole + (frac + (w + ("%" + rest))))
  }

  /** The matcher succeeds exactly at the start of a token, and then reads
      that token's number. */
  lemma {:induction false} PctMatchHereExact(s: string)
    ensures PctMatchHere(s).Some? <==> PctTokenAt(s)
    ensures PctMatchHere(s).Some? ==>
      exists sign, whole, frac, w, rest :: PctTokenPieces(sign, whole, frac, w)
        && s == sign + (whole + (frac + (w + ("%" + rest))))
        && PctMatchHere(s) == Some(SignedDecimal(sign == "-", whole, FractionDigits(frac)))
  {
    if PctMatchHere(s).Some? {
      var sign, whole, frac, w, rest := PctTokenSplit(s);
      PctMatchesToken(sign, whole, frac, w, rest);
    }
    if PctTokenAt(s) {
      var sign, whole, frac, w, rest :| PctTokenPieces(sign, whole, frac, w)
        && s == sign + (whole + (frac + (w + ("%" + rest))));
      PctMatchesToken(sign, whole, frac, w, rest);
    }
  }

  /** A successful match splits the text into the token's pieces. */
  lemma {:induction false} PctTokenSplit(s: string) returns (sign: string, whole: string, frac: string, w: string, rest: string)
    requires PctMatchHere(s).Some?
    ensures PctTokenPieces(sign, whole, frac, w)
    ensures s == sign + (whole + (frac + (w + ("%" + rest))))
  {
    var negative, body;
    sign, negative, body := PctSignSplit(s);
    PctMatchBodySome(negative, body);
    whole, frac, w, rest := PctBodySplit(body);
  }

  /** The matcher splits off an optional sign and matches the body after it. */
  lemma {:induction false} PctSignSplit(s: string) returns (sign: string, negative: bool, body: string)
    ensures (sign == "" || sign == "+" || sign == "-") && s == sign + body
    ensures PctMatchHere(s) == PctMatchBody(negative, body)
  {
    if s != [] && IsSign(s[0]) {
      sign, negative, body := [s[0]], s[0] == '-', s[1..];
      assert s == sign + body;
    } else {
      sign, negative, body := "", false, s;
    }
  }

  /** What a successful match of the body says about its runs. */
  lemma {:induction false} PctMatchBodySome(negative: bool, body: string)
    requires PctMatchBody(negative, body).Some?
    ensures LeadingRun(body, IsDigit) > 0
    ensures PercentFollows(body[LeadingRun(body, IsDigit)..][FractionLength(body[LeadingRun(body, IsDigit)..])..])
  {
  }

  lemma {:induction false} PctBodySplit(body: string) returns (whole: string, frac: string, w: string, rest: string)
    requires LeadingRun(body, IsDigit) > 0
    requires PercentFollows(body[LeadingRun(body, IsDigit)..][FractionLength(body[LeadingRun(body, IsDigit)..])..])
    ensures |whole| > 0 && AllDigits(whole) && IsFractionPart(frac) && AllSpaces(w)
    ensures body == whole + (frac + (w + ("%" + rest)))
  {
    var n := LeadingRun(body, IsDigit);
    DigitRunSplit(body, n);
    whole := body[..n];
    frac, w, rest := PctTailSplit(body[n..]);
  }

  lemma {:induction false} DigitRunSplit(body: string, n: nat)
    requires n == LeadingRun(body, IsDigit)
    ensures n <= |body| && AllDigits(body[..n]) && body == body[..n] + body[n..]
  {
    LeadingRunInClass(body, IsDigit);
  }

  lemma {:induction false} PctTailSplit(r: string) returns (frac: string, w: string, rest: string)
    requires PercentFollows(r[FractionLength(r)..])
    ensures IsFractionPart(frac) && AllSpaces(w)
    ensures r == frac + (w + ("%" + rest))
  {
    var f := FractionLength(r);
    frac := r[..f];
    w, rest := PercentSplit(r[f..]);
    assert r == frac + r[f..];
  }

  lemma {:induction false} PercentSplit(u: string) returns (w: string, rest: string)
    requires PercentFollows(u)
    ensures AllSpaces(w) && u == w + ("%" + rest)
  {
    var sp := LeadingRun(u, IsSpace);
    LeadingRunInClass(u, IsSpace);
    w := u[..sp];
    rest := u[sp + 1..];
    assert u == w + ("%" + rest);
  }

  /** A sign in front of a digit is consumed by `[+-]?`; without one the
      match starts at the digit. */
  lemma {:induction false} PctMatchHereOfSign(sign: string, body: string)
    requires sign == "" || sign == "+" || sign == "-"
    requires body != [] && IsDigit(body[0])
    ensures PctMatchHere(sign + body) == PctMatchBody(sign == "-", body)
  {
    var s := sign + body;
    if sign == "" {
      assert s == body;
      assert !IsSign(s[0]);
      assert PctMatchHere(s) == PctMatchBody(false, body);
    } else {
      assert s[0] == sign[0];
      assert s[1..] == body;
      assert IsSign(s[0]);
      assert (s[0] == '-') == (sign == "-");
      assert PctMatchHere(s) == PctMatchBody(s[0] == '-', s[1..]);
    }
  }

  /** Text in which no match can start (no digit, no sign) is skipped. */
  lemma {:induction false} PctSearchSkips(p: string, s: string)
    requires forall k :: 0 <= k < |p| ==> !IsDigit(p[k]) && !IsSign(p[k])
    ensures PctSearch(p + s) == PctSearch(s)
  {
    forall i | 0 <= i < |p|
      ensures PctMatchHere((p + s)[i..]).None?
    {
      assert (p + s)[i..][0] == p[i];
    }
    PctSearchFrom(p + s, |p|);
    assert (p + s)[|p|..] == s;
  }

  lemma {:induction false} ReplaceCharKeeps(x: string, a: char, b: char)
    requires forall k :: 0 <= k < |x| ==> x[k] != a
    ensures ReplaceChar(x, a, b) == x
  {
  }

  /** The number token itself holds no U+2212, so the replacement keeps it. */
  lemma {:induction false} TokenKeptByReplace(whole: string, frac: string, w: string, rest: string)
    requires AllDigits(whole) && IsFractionPart(frac) && AllSpaces(w)
    ensures ReplaceChar(whole + (frac + (w + ("%" + rest))), MinusSign, '-')
         == whole + (frac + (w + ("%" + ReplaceChar(rest, MinusSign, '-'))))
  {
    ReplaceCharKeeps(whole, MinusSign, '-');
    assert frac != [] ==> frac == [frac[0]] + frac[1..];
    if frac != [] {
      ReplaceCharKeeps(frac[1..], MinusSign, '-');
      ReplaceCharConcat([frac[0]], frac[1..], MinusSign, '-');
    }
    ReplaceCharKeeps(frac, MinusSign, '-');
    ReplaceCharKeeps(w, MinusSign, '-');
    ReplaceCharConcat("%", rest, MinusSign, '-');
    ReplaceCharConcat(w, "%" + rest, MinusSign, '-');
    ReplaceCharConcat(frac, w + ("%" + rest), MinusSign, '-');
    ReplaceCharConcat(whole, frac + (w + ("%" + rest)), MinusSign, '-');
  }

  /** `_pct_to_float` reads the first signed number followed by optional
      whitespace and `%`: text before it in which the pattern matches
      nowhere (after U+2212 has become '-') is passed over, U+2212 counts as
      a minus sign, a comma as the decimal point, and whatever follows the
      `%` does not matter. */
  lemma {:induction false} PctToFloatReadsFirstNumber(txt: string, p: string, sign: string, whole: string, frac: string, w: string, rest: string)
    requires txt == p + (sign + (whole + (frac + (w + ("%" + rest)))))
    requires forall i :: 0 <= i < |p| ==> PctMatchHere(ReplaceChar(txt, MinusSign, '-')[i..]).None?
    requires sign == "" || sign == "+" || sign == "-" || sign == [MinusSign]
    requires |whole| > 0 && AllDigits(whole)
    requires IsFractionPart(frac)
    requires AllSpaces(w)
    ensures PctToFloat(Some(txt)) == Some(SignedDecimal(sign == "-" || sign == [MinusSign], whole, FractionDigits(frac)))
  {
    var token := whole + (frac + (w + ("%" + rest)));
    var token' := whole + (frac + (w + ("%" + ReplaceChar(rest, MinusSign, '-'))));
    TokenKeptByReplace(whole, frac, w, rest);
    var sign' := if sign == [MinusSign] then "-" else sign;
    assert ReplaceChar(sign, MinusSign, '-') == sign';
    ReplaceCharConcat(sign, token, MinusSign, '-');
    ReplaceCharConcat(p, sign + token, MinusSign, '-');
    var t := ReplaceChar(txt, MinusSign, '-');
    assert t == ReplaceChar(p, MinusSign, '-') + (sign' + token');
    PctSearchFrom(t, |p|);
    assert t[|p|..] == sign' + token';
    PctMatchesToken(sign', whole, frac, w, ReplaceChar(rest, MinusSign, '-'));
    assert (sign' + token')[0] == if sign' == "" then whole[0] else sign'[0];
  }

  /** Without a percent sign there is no match. */
  lemma {:induction false} PctSearchNeedsPercent(s: string)
    requires '%' !in s
    ensures PctSearch(s) == None
  {
    if s != [] {
      PctSearchNeedsPercent(s[1..]);
    }
  }

  /** The scraper's own test values. */
  lemma {:induction false} PctToFloatTestValues()
    ensures PctToFloat(Some("+3.25%")) == Some(Dec(325, 2))
    ensures PctToFloat(Some("0 %")) == Some(Dec(0, 0))
    ensures PctToFloat(Some("n/a")) == None
    ensures PctToFloat(Some("")) == None
    ensures PctToFloat(None) == None
  {
    assert SignedDecimal(false, "3", FractionDigits(".25")) == Dec(325, 2) by {
      assert ".25"[1..] == "25";
      assert DigitsValue("25") == 25;
    }
    PctToFloatReadsFirstNumber("+3.25%", "", "+", "3", ".25", "", "");
    assert SignedDecimal(false, "0", FractionDigits("")) == Dec(0, 0);
    PctToFloatReadsFirstNumber("0 %", "", "", "0", "", " ", "");
  }

  /** U+2212 reads as a minus sign and a comma as the decimal point. */
  lemma {:induction false} PctToFloatUnicodeMinus()
    ensures PctToFloat(Some([MinusSign] + "1,5 %")) == Some(Dec(-15, 1))
  {
    assert SignedDecimal(true, "1", FractionDigits(",5")) == Dec(-15, 1) by {
      assert ",5"[1..] == "5";
    }
    PctToFloatReadsFirstNumber([MinusSign] + "1,5 %", "", [MinusSign], "1", ",5", " ", "");
  }

  /** An earlier number that `%` does not follow is passed over: in
      "5 x+1.2%" the reading is +1.2. */
  lemma {:induction false} PctToFloatSkipsEarlierNumber(txt: string)
    requires txt == "5 x+1.2%"
    ensures PctToFloat(Some(txt)) == Some(Dec(12, 1))
  {
    ReplaceCharKeeps(txt, MinusSign, '-');
    NoMatchBeforePlus(txt);
    assert txt == "5 x" + ("+" + ("1" + (".2" + ("" + ("%" + "")))));
    assert SignedDecimal(false, "1", FractionDigits(".2")) == Dec(12, 1) by {
      assert ".2"[1..] == "2";
    }
    PctToFloatReadsFirstNumber(txt, "5 x", "+", "1", ".2", "", "");
  }

  lemma {:induction false} NoMatchBeforePlus(txt: string)
    requires txt == "5 x+1.2%"
    ensures forall i :: 0 <= i < 3 ==> PctMatchHere(txt[i..]).None?
  {
    assert txt[0..] == txt;
    var r := txt[1..];
    assert r == " x+1.2%";
    assert LeadingRun(txt, IsDigit) == 1 by {
      assert LeadingRun(r, IsDigit) == 0;
    }
    assert FractionLength(r) == 0;
    assert LeadingRun(r, IsSpace) == 1 by {
      assert r[1..] == "x+1.2%";
      assert LeadingRun(r[1..], IsSpace) == 0;
    }
    assert !PercentFollows(r);
    assert LeadingRun(txt[1..], IsDigit) == 0;
    assert LeadingRun(txt[2..], IsDigit) == 0;
  }

  /** A number not followed by whitespace or `%` does not match where it
      starts. */
  lemma {:induction false} PctMatchBodyNeedsPercent(negative: bool, body: string, whole: string, frac: string, rest: string)
    requires |whole| > 0 && AllDigits(whole)
    requires IsFractionPart(frac)
    requires rest == [] || (!IsDigit(rest[0]) && !IsSpace(rest[0]) && rest[0] != '%')
    requires frac == [] ==> rest == [] || !IsSeparator(rest[0])
    requires body == whole + (frac + rest)
    ensures PctMatchBody(negative, body) == None
  {
    var r := frac + rest;
    FractionLengthOf(frac, rest);
    assert r == [] || !IsDigit(r[0]) by {
      if frac != [] { assert r[0] == frac[0]; } else { assert r == rest; }
    }
    LeadingRunOfConcat(whole, r, IsDigit);
    assert body[|whole|..] == r;
    assert !PercentFollows(rest) by {
      if rest != [] { assert LeadingRun(rest, IsSpace) == 0; }
    }
  }

  /** `re.search` takes the leftmost match: in "1.2.3%" the "1.2" is not
      followed by `%`, so the match is "2.3%". */
  lemma {:induction false} PctToFloatLeftmostMatch()
    ensures PctToFloat(Some("1.2.3%")) == Some(Dec(23, 1))
  {
    ReplaceCharKeeps("1.2.3%", MinusSign, '-');
    LeftmostExample("1.2.3%");
  }

  lemma {:induction false} LeftmostExample(s: string)
    requires s == "1.2.3%"
    ensures PctSearch(s) == Some(Dec(23, 1))
  {
    var t := s[1..];
    var u := t[1..];
    assert t == ".2.3%" && u == "2.3%";
    NoMatchAtOnePointTwo(s);
    NoMatchAtPoint(t);
    MatchAtTwoPointThree(u);
    assert PctSearch(u) == PctMatchHere(u);
    assert PctSearch(t) == PctSearch(u);
  }

  lemma {:induction false} NoMatchAtOnePointTwo(s: string)
    requires s == "1.2.3%"
    ensures PctMatchHere(s) == None
  {
    assert s == "1" + (".2" + ".3%");
    PctMatchBodyNeedsPercent(false, s, "1", ".2", ".3%");
  }

  lemma {:induction false} NoMatchAtPoint(t: string)
    requires t == ".2.3%"
    ensures PctMatchHere(t) == None
  {
    assert LeadingRun(t, IsDigit) == 0;
  }

  lemma {:induction false} MatchAtTwoPointThree(u: string)
    requires u == "2.3%"
    ensures PctMatchHere(u) == Some(Dec(23, 1))
  {
    assert SignedDecimal(false, "2", FractionDigits(".3")) == Dec(23, 1) by {
      assert ".3"[1..] == "3";
    }
    assert u == "" + ("2" + (".3" + ("" + ("%" + ""))));
    PctMatchesToken("", "2", ".3", "", "");
  }

  // ---------------------------------------------------------------------
  // _parse_market_cap

  const EmDash: char := '\U{2014}'
  const NoBreakSpace: char := '\U{00A0}'
  /** U+212A KELVIN SIGN: `re.I` lets it match `K`, but its `.upper()` is itself. */
  const KelvinSign: char := '\U{212A}'

  /** A competitor's market capitalisation: the currency text and the value,
      each missing when the text does not say. */
  datatype MarketCap = MarketCap(currency: Option<string>, value: Option<Dec>)

  const NoMarketCap := MarketCap(None, None)

  /** The texts that stand for "no value". */
  predicate IsPlaceholder(s: string)
  {
    s == [EmDash] || s == "-" || s == "N/A"
  }

  /** `[^\d.,-]` */
  predicate IsCurrencyChar(c: char)
  {
    !IsDigit(c) && c != '.' && c != ',' && c != '-'
  }

  /** `[\d.,]` */
  predicate IsNumberChar(c: char)
  {
    IsDigit(c) || c == '.' || c == ','
  }

  /** `[KMBT]` under `re.I`. */
  predicate IsSuffixChar(c: char)
  {
    c in "KMBTkmbt" || c == KelvinSign
  }

  /** The power of ten `mult.get(suf.upper(), 1.0)` stands for. */
  function SuffixExponent(suffix: Option<char>): (e: nat)
    ensures e in {0, 3, 6, 9, 12}
  {
    match suffix
    case None => 0
    case Some(c) =>
      var u := UpperChar(c);
      if u == 'K' then 3 else if u == 'M' then 6 else if u == 'B' then 9 else if u == 'T' then 12 else 0
  }

  predicate IsDigitOrPoint(c: char)
  {
    IsDigit(c) || c == '.'
  }

  /** `s.replace(",", "")`. */
  function RemoveCommas(s: string): (r: string)
    ensures (forall k :: 0 <= k < |s| ==> IsNumberChar(s[k])) ==> (forall k :: 0 <= k < |r| ==> IsDigitOrPoint(r[k]))
  {
    if s == [] then []
    else
      assert forall k :: 0 <= k < |s| - 1 ==> s[1..][k] == s[k + 1];
      (if s[0] == ',' then [] else [s[0]]) + RemoveCommas(s[1..])
  }

  function FloatError(s: string): string
  {
    "could not convert string to float: '" + s + "'"
  }

  /** `float(s)` for a text of digits and points: at least one digit and at
      most one point, else the ValueError escapes. */
  function ParseFloat(s: string): (r: Outcome<Dec>)
    requires forall k :: 0 <= k < |s| ==> IsDigitOrPoint(s[k])
    ensures r.Raised? ==> r.error == FloatError(s)
  {
    var i := LeadingRun(s, IsDigit);
    LeadingRunInClass(s, IsDigit);
    var whole := s[..i];
    var frac := if i < |s| then s[i + 1..] else "";
    if (i < |s| && !AllDigits(frac)) || (whole == [] && frac == []) then Raised(FloatError(s))
    else Returned(SignedDecimal(false, whole, frac))
  }

  /** The groups of a match: `cur` (possibly empty), `num` and `suf`. */
  datatype MarketCapGroups = MarketCapGroups(cur: string, num: string, suffix: Option<char>)

  /** `re.match(r"^(?P<cur>[^\d.,-]+)?\s*(?P<num>[\d.,]+)\s*(?P<suf>[KMBT])?$", t, re.I)`
      on a stripped text, read left to right. The text starts with no
      whitespace, so the currency run ends where the number starts; neither
      the number run nor the trailing space run can give a character back,
      since what follows must then be whitespace, a suffix or the end. */
  function MarketCapMatch(t: string): (m: Option<MarketCapGroups>)
    ensures m.Some? ==> m.value.num != [] && forall k :: 0 <= k < |m.value.num| ==> IsNumberChar(m.value.num[k])
  {
    var c := LeadingRun(t, IsCurrencyChar);
    var rest := t[c..];
    var n := LeadingRun(rest, IsNumberChar);
    var after := rest[n..];
    var e := LeadingRun(after, IsSpace);
    if n == 0 || !(e == |after| || (e + 1 == |after| && IsSuffixChar(after[e]))) then None
    else
      LeadingRunInClass(rest, IsNumberChar);
      Some(MarketCapGroups(t[..c], rest[..n], if e < |after| then Some(after[e]) else None))
  }

  /** The currency and value a match stands for; `float` may raise. */
  function MarketCapOf(g: MarketCapGroups): Outcome<MarketCap>
    requires forall k :: 0 <= k < |g.num| ==> IsNumberChar(g.num[k])
  {
    match ParseFloat(RemoveCommas(g.num))
    case Raised(err) => Raised(err)
    case Returned(v) => Returned(MarketCap(CurrencyOf(g.cur), Some(ShiftLeft(v, SuffixExponent(g.suffix)))))
  }

  /** The currency the regex reads from a prefix: stripped, None when blank. */
  function CurrencyOf(cur: string): Option<string>
  {
    if Strip(cur) == [] then None else Some(Strip(cur))
  }

  /** `_parse_market_cap(txt)`. */
  function ParseMarketCap(txt: string): Outcome<MarketCap>
  {
    if txt == [] || IsPlaceholder(Strip(txt)) then Returned(NoMarketCap)
    else
      match MarketCapMatch(ReplaceChar(Strip(txt), NoBreakSpace, ' '))
      case None => Returned(NoMarketCap)
      case Some(g) => MarketCapOf(g)
  }

  /** A text with no surrounding whitespace is its own strip. */
  lemma {:induction false} StripKeeps(s: string)
    requires s != [] && !IsSpace(s[0]) && !IsSpace(s[|s| - 1])
    ensures Strip(s) == s
  {
    assert TrimLeft(s) == s;
  }

  /** The empty text and the placeholders, however padded, carry no market cap. */
  lemma {:induction false} ParseMarketCapPlaceholder(txt: string)
    requires txt == [] || IsPlaceholder(Strip(txt))
    ensures ParseMarketCap(txt) == Returned(NoMarketCap)
  {
  }

  lemma {:induction false} ParseMarketCapPlaceholderExamples()
    ensures ParseMarketCap("") == Returned(NoMarketCap)
    ensures ParseMarketCap("N/A") == Returned(NoMarketCap)
    ensures ParseMarketCap([EmDash]) == Returned(NoMarketCap)
  {
    ParseMarketCapPlaceholder("");
    PlaceholderStrip("N/A");
    PlaceholderStrip([EmDash]);
  }

  lemma {:induction false} PlaceholderStrip(txt: string)
    requires IsPlaceholder(txt)
    ensures ParseMarketCap(txt) == Returned(NoMarketCap)
  {
    StripKeeps(txt);
    ParseMarketCapPlaceholder(txt);
  }

  lemma {:induction false} RemoveCommasConcat(a: string, b: string)
    ensures RemoveCommas(a + b) == RemoveCommas(a) + RemoveCommas(b)
  {
    if a != [] {
      assert (a + b)[0] == a[0];
      assert (a + b)[1..] == a[1..] + b;
      RemoveCommasConcat(a[1..], b);
    } else {
      assert a + b == b;
    }
  }

  /** Commas are dropped wherever they stand; nothing else changes. */
  lemma {:induction false} RemoveCommasKeeps(a: string)
    requires forall k :: 0 <= k < |a| ==> a[k] != ','
    ensures RemoveCommas(a) == a
  {
    if a != [] {
      RemoveCommasKeeps(a[1..]);
    }
  }

  /** `float` of a digit string. */
  lemma {:induction false} ParseFloatWhole(s: string)
    requires s != [] && AllDigits(s)
    ensures ParseFloat(s) == Returned(SignedDecimal(false, s, ""))
  {
    assert s + "" == s;
    LeadingRunOfConcat(s, "", IsDigit);
  }

  /** `float` of digits, a point and digits; either side may be empty, not both. */
  lemma {:induction false} ParseFloatPointed(s: string, whole: string, frac: string)
    requires AllDigits(whole) && AllDigits(frac) && (whole != [] || frac != [])
    requires s == whole + ("." + frac)
    ensures forall k :: 0 <= k < |s| ==> IsDigitOrPoint(s[k])
    ensures ParseFloat(s) == Returned(SignedDecimal(false, whole, frac))
  {
    LeadingRunOfConcat(whole, "." + frac, IsDigit);
    assert s[..|whole|] == whole && s[|whole| + 1..] == frac;
  }

  /** Two decimal points make `float` raise. */
  lemma {:induction false} ParseFloatTwoPoints(s: string, i: int, j: int)
    requires forall k :: 0 <= k < |s| ==> IsDigitOrPoint(s[k])
    requires 0 <= i < j < |s| && s[i] == '.' && s[j] == '.'
    ensures ParseFloat(s) == Raised(FloatError(s))
  {
    var m := LeadingRun(s, IsDigit);
    LeadingRunInClass(s, IsDigit);
    assert m <= i;
    var frac := s[m + 1..];
    assert frac[j - m - 1] == '.';
  }

  /** Without a digit `float` raises. */
  lemma {:induction false} ParseFloatNeedsDigit(s: string)
    requires forall k :: 0 <= k < |s| ==> s[k] == '.'
    ensures ParseFloat(s) == Raised(FloatError(s))
  {
    if s != [] {
      assert LeadingRun(s, IsDigit) == 0;
      if |s| > 1 {
        assert s[1..][0] == '.';
      }
    }
  }

  /** The text of an optional suffix. */
  function SuffixText(suffix: Option<char>): string
  {
    if suffix.Some? then [suffix.value] else ""
  }

  /** The text a currency prefix, a number, spaces and a suffix spell. */
  function MarketCapText(cur: string, num: string, sp: string, suffix: Option<char>): string
  {
    cur + (num + (sp + SuffixText(suffix)))
  }

  /** Pieces of a text the whole pattern matches: a run of `[^\d.,-]` (the
      optional currency together with the `\s*` after it, whitespace being
      in that class too), a non-empty `[\d.,]+`, then `\s*` and an optional
      suffix before the end. */
  predicate PatternPieces(cur: string, num: string, sp: string, suffix: Option<char>)
  {
    (forall k :: 0 <= k < |cur| ==> IsCurrencyChar(cur[k]))
    && num != [] && (forall k :: 0 <= k < |num| ==> IsNumberChar(num[k]))
    && AllSpaces(sp)
    && (suffix.Some? ==> IsSuffixChar(suffix.value))
  }

  /** The texts `re.match` with the anchored pattern accepts. */
  ghost predicate MatchesMarketCapPattern(t: string)
  {
    exists cur, num, sp, suffix :: PatternPieces(cur, num, sp, suffix) && t == MarketCapText(cur, num, sp, suffix)
  }

  /** Pattern pieces that spell a text as the parser sees it: no no-break
      space, a currency prefix that starts with no whitespace, and spaces
      only before a suffix (the text is already stripped). */
  predicate MarketCapPieces(cur: string, num: string, sp: string, suffix: Option<char>)
  {
    PatternPieces(cur, num, sp, suffix)
    && (forall k :: 0 <= k < |cur| ==> cur[k] != NoBreakSpace)
    && (cur == [] || !IsSpace(cur[0]))
    && (forall k :: 0 <= k < |sp| ==> sp[k] != NoBreakSpace)
    && (suffix.None? ==> sp == [])
  }

  /** The regex matches such a text with exactly those groups: the currency
      run stops at the number's first character, the number run at the first
      space or the suffix, and the space run at the suffix. */
  lemma {:induction false} MarketCapMatchOf(cur: string, num: string, sp: string, suffix: Option<char>)
    requires PatternPieces(cur, num, sp, suffix)
    ensures MarketCapMatch(MarketCapText(cur, num, sp, suffix)) == Some(MarketCapGroups(cur, num, suffix))
  {
    MarketCapRuns(cur, num, sp, suffix);
    var after := sp + SuffixText(suffix);
    assert MarketCapText(cur, num, sp, suffix)[|cur|..] == num + after;
    assert MarketCapText(cur, num, sp, suffix)[..|cur|] == cur;
    assert (num + after)[..|num|] == num;
  }

  /** The greedy reading finds a match exactly when the pattern matches the
      whole text. */
  lemma {:induction false} MarketCapMatchExact(t: string)
    ensures MarketCapMatch(t).Some? <==> MatchesMarketCapPattern(t)
  {
    if MarketCapMatch(t).Some? {
      MarketCapMatchSound(t);
    }
    if MatchesMarketCapPattern(t) {
      var cur, num, sp, suffix :| PatternPieces(cur, num, sp, suffix) && t == MarketCapText(cur, num, sp, suffix);
      MarketCapMatchOf(cur, num, sp, suffix);
    }
  }

  /** What the greedy reading accepts splits into pattern pieces. */
  lemma {:induction false} MarketCapMatchSound(t: string)
    requires MarketCapMatch(t).Some?
    ensures MatchesMarketCapPattern(t)
  {
    var c, n, e := MarketCapMatchRuns(t);
    var after := t[c..][n..];
    var suffix := if e < |after| then Some(after[e]) else None;
    MarketCapSplit(t, c, n, e, suffix);
    MarketCapRunPieces(t, c, n, e, suffix);
    assert PatternPieces(t[..c], t[c..][..n], after[..e], suffix) && t == MarketCapText(t[..c], t[c..][..n], after[..e], suffix);
  }

  /** The three runs the matcher reads, and when it succeeds: a non-empty
      number run, then spaces up to the end or to a final suffix letter. */
  lemma {:induction false} MarketCapMatchRuns(t: string) returns (c: nat, n: nat, e: nat)
    ensures c == LeadingRun(t, IsCurrencyChar)
    ensures n == LeadingRun(t[c..], IsNumberChar)
    ensures e == LeadingRun(t[c..][n..], IsSpace)
    ensures MarketCapMatch(t).Some? <==> n > 0 && (e == |t[c..][n..]| || (e + 1 == |t[c..][n..]| && IsSuffixChar(t[c..][n..][e])))
  {
    c := LeadingRun(t, IsCurrencyChar);
    n := LeadingRun(t[c..], IsNumberChar);
    e := LeadingRun(t[c..][n..], IsSpace);
  }

  lemma {:induction false} MarketCapRunPieces(t: string, c: nat, n: nat, e: nat, suffix: Option<char>)
    requires c == LeadingRun(t, IsCurrencyChar)
    requires n == LeadingRun(t[c..], IsNumberChar) && n > 0
    requires e == LeadingRun(t[c..][n..], IsSpace)
    requires e == |t[c..][n..]| || (e + 1 == |t[c..][n..]| && IsSuffixChar(t[c..][n..][e]))
    requires suffix == if e < |t[c..][n..]| then Some(t[c..][n..][e]) else None
    ensures PatternPieces(t[..c], t[c..][..n], t[c..][n..][..e], suffix)
  {
    LeadingRunInClass(t, IsCurrencyChar);
    LeadingRunInClass(t[c..], IsNumberChar);
    LeadingRunInClass(t[c..][n..], IsSpace);
  }

  lemma {:induction false} MarketCapSplit(t: string, c: nat, n: nat, e: nat, suffix: Option<char>)
    requires c <= |t| && n <= |t[c..]| && e <= |t[c..][n..]|
    requires e == |t[c..][n..]| || e + 1 == |t[c..][n..]|
    requires suffix == if e < |t[c..][n..]| then Some(t[c..][n..][e]) else None
    ensures t == MarketCapText(t[..c], t[c..][..n], t[c..][n..][..e], suffix)
  {
    var rest := t[c..];
    var after := rest[n..];
    assert after == after[..e] + SuffixText(suffix);
    assert rest == rest[..n] + after;
    assert t == t[..c] + rest;
  }

  /** `(None, None)` comes exactly from an empty text, a placeholder, or a
      text the pattern does not match as a whole (once stripped and its
      no-break spaces replaced); a text it matches gives a value or raises. */
  lemma {:induction false} ParseMarketCapGivesNothing(txt: string)
    ensures ParseMarketCap(txt) == Returned(NoMarketCap) <==>
      txt == [] || IsPlaceholder(Strip(txt)) || !MatchesMarketCapPattern(ReplaceChar(Strip(txt), NoBreakSpace, ' '))
    ensures ParseMarketCap(txt).Raised? ==> MatchesMarketCapPattern(ReplaceChar(Strip(txt), NoBreakSpace, ' '))
  {
    if !(txt == [] || IsPlaceholder(Strip(txt))) {
      MarketCapMatchExact(ReplaceChar(Strip(txt), NoBreakSpace, ' '));
    }
  }

  lemma {:induction false} MarketCapRuns(cur: string, num: string, sp: string, suffix: Option<char>)
    requires PatternPieces(cur, num, sp, suffix)
    ensures LeadingRun(cur + (num + (sp + SuffixText(suffix))), IsCurrencyChar) == |cur|
    ensures LeadingRun(num + (sp + SuffixText(suffix)), IsNumberChar) == |num|
    ensures LeadingRun(sp + SuffixText(suffix), IsSpace) == |sp|
  {
    var sfx := SuffixText(suffix);
    var after := sp + sfx;
    var rest := num + after;
    assert rest[0] == num[0];
    LeadingRunOfConcat(cur, rest, IsCurrencyChar);
    assert after == [] || !IsNumberChar(after[0]) by {
      if sp != [] { assert after[0] == sp[0]; } else if sfx != [] { assert after[0] == sfx[0]; }
    }
    LeadingRunOfConcat(num, after, IsNumberChar);
    LeadingRunOfConcat(sp, sfx, IsSpace);
  }

  /** No character of the pieces is a no-break space, so the replacement
      keeps the text. */
  lemma {:induction false} MarketCapReplaceKeeps(cur: string, num: string, sp: string, suffix: Option<char>)
    requires MarketCapPieces(cur, num, sp, suffix)
    ensures ReplaceChar(MarketCapText(cur, num, sp, suffix), NoBreakSpace, ' ') == MarketCapText(cur, num, sp, suffix)
  {
    var sfx := SuffixText(suffix);
    ReplaceCharKeeps(cur, NoBreakSpace, ' ');
    ReplaceCharKeeps(num, NoBreakSpace, ' ');
    ReplaceCharKeeps(sp, NoBreakSpace, ' ');
    ReplaceCharKeeps(sfx, NoBreakSpace, ' ');
    ReplaceCharConcat(sp, sfx, NoBreakSpace, ' ');
    ReplaceCharConcat(num, sp + sfx, NoBreakSpace, ' ');
    ReplaceCharConcat(cur, num + (sp + sfx), NoBreakSpace, ' ');
  }

  /** A placeholder holds no digit, point or comma. */
  lemma {:induction false} NumberRulesOutPlaceholder(s: string, i: int)
    requires 0 <= i < |s| && IsNumberChar(s[i])
    ensures !IsPlaceholder(s)
  {
    if |s| == 3 {
      assert s[i] in s;
    }
  }

  /** Such a text is no placeholder and has nothing to strip. */
  lemma {:induction false} MarketCapTextClean(cur: string, num: string, sp: string, suffix: Option<char>)
    requires MarketCapPieces(cur, num, sp, suffix)
    ensures var txt := MarketCapText(cur, num, sp, suffix);
      txt != [] && Strip(txt) == txt && !IsPlaceholder(txt)
  {
    var txt := MarketCapText(cur, num, sp, suffix);
    MarketCapTextEnds(cur, num, sp, suffix);
    NumberRulesOutPlaceholder(txt, |cur|);
    StripKeeps(txt);
  }

  /** The characters at the ends of such a text and where the number starts. */
  lemma {:induction false} MarketCapTextEnds(cur: string, num: string, sp: string, suffix: Option<char>)
    requires num != [] && (suffix.None? ==> sp == [])
    ensures var txt := MarketCapText(cur, num, sp, suffix);
      |txt| > |cur| && txt[|cur|] == num[0]
      && txt[0] == (if cur == [] then num[0] else cur[0])
      && txt[|txt| - 1] == (if suffix.Some? then suffix.value else num[|num| - 1])
  {
    var txt := MarketCapText(cur, num, sp, suffix);
    assert txt == cur + (num + (sp + SuffixText(suffix)));
    if suffix.None? {
      assert txt == cur + num;
    }
  }

  /** A currency prefix, a number, spaces and an optional suffix match the
      regex with exactly those groups, so the parse gives the stripped prefix
      (None when blank) and the number, commas removed, times the suffix's
      power of ten, or raises when `float` refuses the number. */
  lemma {:induction false} ParseMarketCapReads(cur: string, num: string, sp: string, suffix: Option<char>)
    requires MarketCapPieces(cur, num, sp, suffix)
    ensures ParseMarketCap(MarketCapText(cur, num, sp, suffix)) == MarketCapOf(MarketCapGroups(cur, num, suffix))
  {
    MarketCapTextClean(cur, num, sp, suffix);
    MarketCapReplaceKeeps(cur, num, sp, suffix);
    MarketCapMatchOf(cur, num, sp, suffix);
  }

  /** A number with two decimal points matches the regex, and `float` then
      raises instead of the parse giving `(None, None)`. */
  lemma {:induction false} ParseMarketCapTwoPointsRaises(cur: string, num: string, sp: string, suffix: Option<char>, i: int, j: int)
    requires MarketCapPieces(cur, num, sp, suffix)
    requires 0 <= i < j < |num| && num[i] == '.' && num[j] == '.'
    requires forall k :: 0 <= k < |num| ==> num[k] != ','
    ensures ParseMarketCap(MarketCapText(cur, num, sp, suffix)) == Raised(FloatError(num))
  {
    ParseMarketCapReads(cur, num, sp, suffix);
    RemoveCommasKeeps(num);
    ParseFloatTwoPoints(num, i, j);
  }

  /** A number without commas and with one point reads as its digits. */
  lemma {:induction false} MarketCapOfPointed(g: MarketCapGroups, whole: string, frac: string)
    requires AllDigits(whole) && AllDigits(frac) && whole != []
    requires g.num == whole + ("." + frac)
    ensures forall k :: 0 <= k < |g.num| ==> IsNumberChar(g.num[k])
    ensures MarketCapOf(g) == Returned(MarketCap(CurrencyOf(g.cur),
      Some(ShiftLeft(SignedDecimal(false, whole, frac), SuffixExponent(g.suffix)))))
  {
    ParseFloatPointed(g.num, whole, frac);
    RemoveCommasKeeps(g.num);
  }

  /** A currency prefix, digits, a point, digits and an optional suffix: the
      value is that decimal shifted by the suffix's power of ten (`$3.75T` is
      3.75e12 in `$`, `US$ 2.37T` is 2.37e12 in `US$`). */
  lemma {:induction false} ParseMarketCapPointed(cur: string, whole: string, frac: string, suffix: Option<char>)
    requires MarketCapPieces(cur, whole + ("." + frac), "", suffix)
    requires AllDigits(whole) && AllDigits(frac) && whole != []
    ensures ParseMarketCap(MarketCapText(cur, whole + ("." + frac), "", suffix))
         == Returned(MarketCap(CurrencyOf(cur), Some(ShiftLeft(SignedDecimal(false, whole, frac), SuffixExponent(suffix)))))
  {
    ParseMarketCapReads(cur, whole + ("." + frac), "", suffix);
    MarketCapOfPointed(MarketCapGroups(cur, whole + ("." + frac), suffix), whole, frac);
  }

  /** Thousands separators are dropped before `float`: digits, a comma and
      digits read as the digits joined, shifted by the suffix. */
  lemma {:induction false} ParseMarketCapGrouped(cur: string, a: string, b: string, suffix: Option<char>)
    requires MarketCapPieces(cur, a + ("," + b), "", suffix)
    requires AllDigits(a) && AllDigits(b) && a != []
    ensures ParseMarketCap(MarketCapText(cur, a + ("," + b), "", suffix))
         == Returned(MarketCap(CurrencyOf(cur),
              Some(ShiftLeft(Dec(DigitsValue(a) * Pow10(|b|) + DigitsValue(b), 0), SuffixExponent(suffix)))))
  {
    var num := a + ("," + b);
    ParseMarketCapReads(cur, num, "", suffix);
    RemoveCommasGrouped(a, b);
    ParseFloatJoined(a, b);
  }

  lemma {:induction false} RemoveCommasGrouped(a: string, b: string)
    requires AllDigits(a) && AllDigits(b)
    ensures RemoveCommas(a + ("," + b)) == a + b
  {
    RemoveCommasConcat(a, "," + b);
    RemoveCommaFirst(b);
    RemoveCommasKeeps(a);
  }

  lemma {:induction false} RemoveCommaFirst(b: string)
    requires AllDigits(b)
    ensures RemoveCommas("," + b) == b
  {
    var s := "," + b;
    assert s[1..] == b;
    RemoveCommasKeeps(b);
  }

  lemma {:induction false} ParseFloatJoined(a: string, b: string)
    requires AllDigits(a) && AllDigits(b) && a != []
    ensures forall k :: 0 <= k < |a + b| ==> IsDigitOrPoint((a + b)[k])
    ensures ParseFloat(a + b) == Returned(Dec(DigitsValue(a) * Pow10(|b|) + DigitsValue(b), 0))
  {
    DigitsValueAppend(a, b);
    ParseFloatWhole(a + b);
  }

  lemma Pow10Values()
    ensures Pow10(9) == 1000000000 && Pow10(12) == 1000000000000
  {
    assert Pow10(3) == 1000;
    assert Pow10(6) == 1000 * Pow10(3) by {
      assert Pow10(6) == 10 * Pow10(5) && Pow10(5) == 10 * Pow10(4) && Pow10(4) == 10 * Pow10(3);
    }
    assert Pow10(9) == 1000 * Pow10(6) by {
      assert Pow10(9) == 10 * Pow10(8) && Pow10(8) == 10 * Pow10(7) && Pow10(7) == 10 * Pow10(6);
    }
    assert Pow10(12) == 1000 * Pow10(9) by {
      assert Pow10(12) == 10 * Pow10(11) && Pow10(11) == 10 * Pow10(10) && Pow10(10) == 10 * Pow10(9);
    }
  }

  /** A currency prefix, digits, a point, digits and a suffix letter, as
      the documented examples are written. */
  lemma {:induction false} PointedWithSuffix(cur: string, num: string, c: char, whole: string, frac: string)
    requires MarketCapPieces(cur, num, "", Some(c))
    requires AllDigits(whole) && AllDigits(frac) && whole != []
    requires num == whole + ("." + frac)
    ensures ParseMarketCap(cur + num + [c])
         == Returned(MarketCap(CurrencyOf(cur), Some(ShiftLeft(SignedDecimal(false, whole, frac), SuffixExponent(Some(c))))))
  {
    assert cur + num + [c] == MarketCapText(cur, num, "", Some(c));
    ParseMarketCapReads(cur, num, "", Some(c));
    MarketCapOfPointed(MarketCapGroups(cur, num, Some(c)), whole, frac);
  }

  /** A currency run the pattern reads as it stands: currency characters,
      no no-break space, and no leading space. */
  predicate CurrencyPrefix(cur: string)
  {
    (forall k :: 0 <= k < |cur| ==> IsCurrencyChar(cur[k]) && cur[k] != NoBreakSpace)
    && (cur == [] || !IsSpace(cur[0]))
  }

  lemma {:induction false} PointedPieces(cur: string, whole: string, frac: string, c: char)
    requires CurrencyPrefix(cur) && IsSuffixChar(c)
    requires AllDigits(whole) && AllDigits(frac)
    ensures MarketCapPieces(cur, whole + ("." + frac), "", Some(c))
  {
    var num := whole + ("." + frac);
    forall k | 0 <= k < |num| ensures IsNumberChar(num[k]) {
      if k < |whole| { assert num[k] == whole[k]; }
      else if k > |whole| { assert num[k] == frac[k - |whole| - 1]; }
    }
  }

  /** Digits, a point, digits and a suffix letter after a currency read as
      the digits, scaled by the fraction's length, times the suffix's power
      of ten. */
  lemma {:induction false} PointedValue(cur: string, whole: string, frac: string, c: char, currency: Option<string>, m: int)
    requires CurrencyPrefix(cur) && IsSuffixChar(c)
    requires AllDigits(whole) && AllDigits(frac) && whole != []
    requires CurrencyOf(cur) == currency
    requires (DigitsValue(whole) * Pow10(|frac|) + DigitsValue(frac)) * Pow10(SuffixExponent(Some(c))) == m
    ensures ParseMarketCap(cur + (whole + ("." + frac)) + [c]) == Returned(MarketCap(currency, Some(Dec(m, |frac|))))
  {
    PointedPieces(cur, whole, frac, c);
    PointedWithSuffix(cur, whole + ("." + frac), c, whole, frac);
    ShiftedDigits(whole, frac, SuffixExponent(Some(c)));
  }

  lemma {:induction false} ShiftedDigits(whole: string, frac: string, e: nat)
    requires AllDigits(whole) && AllDigits(frac)
    ensures ShiftLeft(SignedDecimal(false, whole, frac), e) == Dec((DigitsValue(whole) * Pow10(|frac|) + DigitsValue(frac)) * Pow10(e), |frac|)
  {
  }

  /** The values of the documented results, as plain reals. */
  lemma DocumentedValues()
    ensures Value(Dec(375000000000000, 2)) == 3750000000000.0
    ensures Value(Dec(237000000000000, 2)) == 2370000000000.0
    ensures Value(Dec(46545000000000000, 2)) == 465450000000000.0
    ensures Value(Dec(5123000000000, 1)) == 512300000000.0
  {
  }

  /** "$3.75T" gives ("$", 3.75e12). */
  lemma {:induction false} DollarTrillions(cur: string, whole: string, frac: string)
    requires cur == "$" && whole == "3" && frac == "75"
    ensures ParseMarketCap(cur + (whole + ("." + frac)) + "T") == Returned(MarketCap(Some("$"), Some(Dec(375000000000000, 2))))
  {
    DollarCurrency(cur);
    DollarDigits(whole, frac);
    PointedValue(cur, whole, frac, 'T', Some("$"), 375000000000000);
  }

  lemma {:induction false} DollarCurrency(cur: string)
    requires cur == "$"
    ensures CurrencyPrefix(cur) && CurrencyOf(cur) == Some("$")
  {
    assert CurrencyPrefix(cur);
    SingleCurrency('$');
  }

  lemma {:induction false} DollarDigits(whole: string, frac: string)
    requires whole == "3" && frac == "75"
    ensures AllDigits(whole) && AllDigits(frac)
    ensures (DigitsValue(whole) * Pow10(|frac|) + DigitsValue(frac)) * Pow10(SuffixExponent(Some('T'))) == 375000000000000
  {
    OneDigit(whole);
    TwoDigits(frac);
    Pow10Values();
  }

  /** "US$ 2.37T" gives ("US$", 2.37e12): the space after the currency
      is stripped from it. */
  lemma {:induction false} UsDollarTrillions(cur: string, whole: string, frac: string)
    requires cur == "US$ " && whole == "2" && frac == "37"
    ensures ParseMarketCap(cur + (whole + ("." + frac)) + "T") == Returned(MarketCap(Some("US$"), Some(Dec(237000000000000, 2))))
  {
    UsDollarCurrency(cur);
    UsDollarDigits(whole, frac);
    PointedValue(cur, whole, frac, 'T', Some("US$"), 237000000000000);
  }

  lemma {:induction false} UsDollarCurrency(cur: string)
    requires cur == "US$ "
    ensures CurrencyPrefix(cur) && CurrencyOf(cur) == Some("US$")
  {
    assert CurrencyPrefix(cur);
    assert cur == cur[..3] + cur[3..] && cur[..3] == "US$";
    StripTrailingSpaces(cur[..3], cur[3..]);
  }

  lemma {:induction false} UsDollarDigits(whole: string, frac: string)
    requires whole == "2" && frac == "37"
    ensures AllDigits(whole) && AllDigits(frac)
    ensures (DigitsValue(whole) * Pow10(|frac|) + DigitsValue(frac)) * Pow10(SuffixExponent(Some('T'))) == 237000000000000
  {
    OneDigit(whole);
    TwoDigits(frac);
    Pow10Values();
  }

  /** "\u20A9465.45T" gives ("\u20A9", 4.6545e14). */
  lemma {:induction false} WonTrillions(cur: string, whole: string, frac: string)
    requires cur == "\U{20A9}" && whole == "465" && frac == "45"
    ensures ParseMarketCap(cur + (whole + ("." + frac)) + "T") == Returned(MarketCap(Some("\U{20A9}"), Some(Dec(46545000000000000, 2))))
  {
    WonCurrency(cur);
    WonDigits(whole, frac);
    PointedValue(cur, whole, frac, 'T', Some("\U{20A9}"), 46545000000000000);
  }

  lemma {:induction false} WonCurrency(cur: string)
    requires cur == "\U{20A9}"
    ensures CurrencyPrefix(cur) && CurrencyOf(cur) == Some("\U{20A9}")
  {
    assert CurrencyPrefix(cur);
    SingleCurrency('\U{20A9}');
  }

  lemma {:induction false} WonDigits(whole: string, frac: string)
    requires whole == "465" && frac == "45"
    ensures AllDigits(whole) && AllDigits(frac)
    ensures (DigitsValue(whole) * Pow10(|frac|) + DigitsValue(frac)) * Pow10(SuffixExponent(Some('T'))) == 46545000000000000
  {
    ThreeDigits(whole);
    TwoDigits(frac);
    Pow10Values();
  }

  /** "\u20AC512.3B" gives ("\u20AC", 5.123e11). */
  lemma {:induction false} EuroBillions(cur: string, whole: string, frac: string)
    requires cur == "\U{20AC}" && whole == "512" && frac == "3"
    ensures ParseMarketCap(cur + (whole + ("." + frac)) + "B") == Returned(MarketCap(Some("\U{20AC}"), Some(Dec(5123000000000, 1))))
  {
    EuroCurrency(cur);
    EuroDigits(whole, frac);
    PointedValue(cur, whole, frac, 'B', Some("\U{20AC}"), 5123000000000);
  }

  lemma {:induction false} EuroCurrency(cur: string)
    requires cur == "\U{20AC}"
    ensures CurrencyPrefix(cur) && CurrencyOf(cur) == Some("\U{20AC}")
  {
    assert CurrencyPrefix(cur);
    SingleCurrency('\U{20AC}');
  }

  lemma {:induction false} EuroDigits(whole: string, frac: string)
    requires whole == "512" && frac == "3"
    ensures AllDigits(whole) && AllDigits(frac)
    ensures (DigitsValue(whole) * Pow10(|frac|) + DigitsValue(frac)) * Pow10(SuffixExponent(Some('B'))) == 5123000000000
  {
    ThreeDigits(whole);
    OneDigit(frac);
    Pow10Values();
  }

  /** The suffix is case-insensitive, and no suffix means a factor of one. */
  lemma SuffixIgnoresCase(c: char)
    requires IsSuffixChar(c) && c != KelvinSign
    ensures SuffixExponent(Some(c)) == SuffixExponent(Some(UpperChar(c))) > 0
    ensures SuffixExponent(None) == 0
  {
  }

  /** `re.I` lets the Kelvin sign match `[KMBT]`, but it misses the
      multiplier table, so it scales by one rather than a thousand. */
  lemma KelvinSignScalesByOne()
    ensures IsSuffixChar(KelvinSign) && SuffixExponent(Some(KelvinSign)) == 0
  {
  }

  /** `1.2.3B` matches the regex and then `float("1.2.3")` raises. */
  lemma {:induction false} ParseMarketCapTwoPointsExample(num: string)
    requires num == "1.2.3"
    ensures ParseMarketCap(MarketCapText("", num, "", Some('B'))) == Raised(FloatError(num))
  {
    TwoPointsPieces(num);
    ParseMarketCapTwoPointsRaises("", num, "", Some('B'), 1, 3);
  }

  lemma {:induction false} TwoPointsPieces(num: string)
    requires num == "1.2.3"
    ensures MarketCapPieces("", num, "", Some('B'))
    ensures num[1] == '.' && num[3] == '.' && forall k :: 0 <= k < |num| ==> num[k] != ','
  {
  }

  lemma {:induction false} SingleCurrency(c: char)
    requires !IsSpace(c)
    ensures CurrencyOf([c]) == Some([c])
  {
    StripKeeps([c]);
  }

  /** Spaces after a currency are stripped. */
  lemma {:induction false} StripTrailingSpaces(a: string, sp: string)
    requires a != [] && !IsSpace(a[0]) && !IsSpace(a[|a| - 1])
    requires AllSpaces(sp)
    ensures Strip(a + sp) == a
  {
    assert TrimLeft(a + sp) == a + sp by {
      assert (a + sp)[0] == a[0];
    }
    TrimRightSpaces(a, sp);
  }

  lemma {:induction false} TrimRightSpaces(a: string, sp: string)
    requires a != [] && !IsSpace(a[|a| - 1])
    requires AllSpaces(sp)
    ensures TrimRight(a + sp) == a
  {
    if sp == [] {
      assert a + sp == a;
    } else {
      var sp' := sp[..|sp| - 1];
      assert (a + sp)[..|a + sp| - 1] == a + sp';
      assert (a + sp)[|a + sp| - 1] == sp[|sp| - 1];
      TrimRightSpaces(a, sp');
    }
  }

  // ---------------------------------------------------------------------
  // get_scrapping_data

  /** The five performance entries. */
  datatype PerfKey = FiveDays | OneMonth | ThreeMonths | YearToDate | OneYear

  /** `_LABEL_TO_KEY.get(label)`. */
  function KeyForLabel(caption: string): (key: Option<PerfKey>)
    ensures key.Some? <==> caption in {"5 Day", "1 Month", "3 Month", "YTD", "1 Year"}
  {
    if caption == "5 Day" then Some(FiveDays)
    else if caption == "1 Month" then Some(OneMonth)
    else if caption == "3 Month" then Some(ThreeMonths)
    else if caption == "YTD" then Some(YearToDate)
    else if caption == "1 Year" then Some(OneYear)
    else None
  }

  const AllPerfKeys: set<PerfKey> := {FiveDays, OneMonth, ThreeMonths, YearToDate, OneYear}

  /** The performance dictionary: every key present, None for "no value". */
  type Performance = map<PerfKey, Option<Dec>>

  /** `{v: None for v in _LABEL_TO_KEY.values()}`. */
  function NoPerformance(): (p: Performance)
    ensures p.Keys == AllPerfKeys
    ensures forall key :: key in p ==> p[key] == None
  {
    map key | key in AllPerfKeys :: None
  }

  /** The performance key a row sets: rows with fewer than two cells or with
      a label (whitespace collapsed) outside the table set nothing. */
  function RowKey(cells: seq<string>): (key: Option<PerfKey>)
    ensures key.Some? ==> |cells| >= 2
  {
    if |cells| < 2 then None else KeyForLabel(CollapseSpaces(cells[0]))
  }

  /** One pass of the performance loop; the second cell's text is the value
      container's text. */
  function ApplyPerformanceRow(p: Performance, cells: seq<string>): Performance
  {
    match RowKey(cells)
    case None => p
    case Some(key) => p[key := PctToFloat(Some(cells[1]))]
  }

  /** The performance dictionary after the loop has seen the rows in order. */
  function PerformanceOf(rows: seq<seq<string>>): Performance
  {
    if rows == [] then NoPerformance()
    else ApplyPerformanceRow(PerformanceOf(rows[..|rows| - 1]), rows[|rows| - 1])
  }

  /** A competitor entry: `{"name": ..., "market_cap": {"currency": ..., "value": ...}}`. */
  datatype Competitor = Competitor(name: string, marketCap: MarketCap)

  /** The market-cap text of a competitor row: the last cell when the row has
      at least three cells, else "". */
  function CapText(cells: seq<string>): string
  {
    if |cells| >= 3 then cells[|cells| - 1] else ""
  }

  /** One pass of the competitor loop: the entries it appends (none or one).
      The market cap is parsed before the name is tested, so a row with an
      empty name can still raise. */
  function CompetitorRow(cells: seq<string>): Outcome<seq<Competitor>>
  {
    if |cells| < 1 then Returned([])
    else
      match ParseMarketCap(CapText(cells))
      case Raised(err) => Raised(err)
      case Returned(cap) => Returned(if cells[0] != [] then [Competitor(cells[0], cap)] else [])
  }

  /** A row with cells, given what its market cap parses to. */
  lemma {:induction false} CompetitorRowOf(cells: seq<string>, cap: Outcome<MarketCap>)
    requires |cells| >= 1 && cap == ParseMarketCap(CapText(cells))
    ensures cap.Raised? ==> CompetitorRow(cells) == Raised(cap.error)
    ensures cap.Returned? ==> CompetitorRow(cells) == Returned(if cells[0] != [] then [Competitor(cells[0], cap.value)] else [])
  {
  }

  /** The row loop over the rows' outcomes, in order: the first raise
      escapes, otherwise the rows' entries are concatenated. */
  function Collect(outcomes: seq<Outcome<seq<Competitor>>>): Outcome<seq<Competitor>>
  {
    if outcomes == [] then Returned([])
    else
      match Collect(outcomes[..|outcomes| - 1])
      case Raised(err) => Raised(err)
      case Returned(cs) =>
        match outcomes[|outcomes| - 1]
        case Raised(err) => Raised(err)
        case Returned(c) => Returned(cs + c)
  }

  /** What each row of the table gives, in table order. */
  function RowOutcomes(rows: seq<seq<string>>): (os: seq<Outcome<seq<Competitor>>>)
    ensures |os| == |rows|
  {
    if rows == [] then []
    else RowOutcomes(rows[..|rows| - 1]) + [CompetitorRow(rows[|rows| - 1])]
  }

  /** The outcome at each position is that row's. */
  lemma {:induction false} RowOutcomeAt(rows: seq<seq<string>>, k: int)
    requires 0 <= k < |rows|
    ensures RowOutcomes(rows)[k] == CompetitorRow(rows[k])
  {
    var init := rows[..|rows| - 1];
    if k < |rows| - 1 {
      RowOutcomeAt(init, k);
    }
  }

  /** The competitor list after the loop has seen the rows in order, or the
      error that escaped it. */
  function CompetitorsOf(rows: seq<seq<string>>): Outcome<seq<Competitor>>
  {
    Collect(RowOutcomes(rows))
  }

  /** What `get_scrapping_data` returns. */
  datatype ScrapeData = ScrapeData(performance: Performance, competitors: seq<Competitor>)

  /** A fetched page: its raw text, and the cell texts of the rows found in the
      performance box and in the competitor table (no rows when either is
      missing). */
  datatype MarketwatchPage = MarketwatchPage(html: string, performanceRows: seq<seq<string>>, competitorRows: seq<seq<string>>)

  /** The outcome of `requests.get(url, ...).text`. */
  datatype PageFetch = PageFetched(page: MarketwatchPage) | FetchRaised(error: string)

  const JsWallMarker := "Please enable JS and disable any ad blocker"
  const CaptchaMarker := "captcha-delivery.com"
  const DataDomeMarker := "datadome"

  /** The anti-bot check. Lower-casing ASCII letters is enough: no other
      character lower-cases to a letter of "datadome". */
  predicate IsBotWall(html: string)
  {
    Contains(html, JsWallMarker) || Contains(html, CaptchaMarker) || Contains(Lower(html), DataDomeMarker)
  }

  /** The page address for a symbol. */
  function PageUrl(symbol: string): string
  {
    "https://www.marketwatch.com/investing/stock/" + Lower(symbol)
  }

  /** `get_scrapping_data` on what the fetch gave back. */
  function Scrape(fetch: PageFetch): Outcome<ScrapeData>
  {
    match fetch
    case FetchRaised(err) => Raised(err)
    case PageFetched(page) =>
      if IsBotWall(page.html) then Returned(ScrapeData(NoPerformance(), []))
      else
        match CompetitorsOf(page.competitorRows)
        case Raised(err) => Raised(err)
        case Returned(cs) => Returned(ScrapeData(PerformanceOf(page.performanceRows), cs))
  }

  /** `get_scrapping_data(symbol)`: fetches the page, gives the defaults on an
      anti-bot page, else fills the performance dictionary row by row and
      appends the competitors row by row. */
  method GetScrappingData(symbol: string, fetch: string -> PageFetch) returns (r: Outcome<ScrapeData>)
    ensures r == Scrape(fetch(PageUrl(symbol)))
  {
    var performance := NoPerformance();
    var competitors: seq<Competitor> := [];
    var got := fetch(PageUrl(symbol));
    if got.FetchRaised? {
      return Raised(got.error);
    }
    var page := got.page;
    if IsBotWall(page.html) {
      return Returned(ScrapeData(performance, competitors));
    }
    var rows := page.performanceRows;
    var i := 0;
    while i < |rows|
      invariant 0 <= i <= |rows|
      invariant performance == PerformanceOf(rows[..i])
    {
      assert rows[..i + 1][..i] == rows[..i];
      var cells := rows[i];
      assert PerformanceOf(rows[..i + 1]) == ApplyPerformanceRow(performance, cells);
      if |cells| >= 2 {
        var key := KeyForLabel(CollapseSpaces(cells[0]));
        if key.Some? {
          performance := performance[key.value := PctToFloat(Some(cells[1]))];
        }
      }
      i := i + 1;
    }
    assert rows[..i] == rows;
    var table := page.competitorRows;
    ghost var outcomes := RowOutcomes(table);
    var j := 0;
    while j < |table|
      invariant 0 <= j <= |table|
      invariant Collect(outcomes[..j]) == Returned(competitors)
    {
      var tds := table[j];
      CollectStep(outcomes, j);
      RowOutcomeAt(table, j);
      if |tds| >= 1 {
        var name := tds[0];
        var cap := ParseMarketCap(CapText(tds));
        CompetitorRowOf(tds, cap);
        if cap.Raised? {
          assert outcomes[j] == Raised(cap.error);
          RaiseEndsLoop(outcomes, j + 1);
          return Raised(cap.error);
        }
        if name != [] {
          assert outcomes[j] == Returned([Competitor(name, cap.value)]);
          competitors := competitors + [Competitor(name, cap.value)];
        } else {
          assert outcomes[j] == Returned([]);
          assert competitors + [] == competitors;
        }
      } else {
        assert outcomes[j] == Returned([]);
        assert competitors + [] == competitors;
      }
      j := j + 1;
    }
    assert outcomes[..j] == outcomes;
    return Returned(ScrapeData(performance, competitors));
  }

  /** `pat in p + pat + q`. */
  lemma {:induction false} ContainsMiddle(p: string, pat: string, q: string)
    ensures Contains(p + (pat + q), pat)
  {
    if p != [] {
      assert (p + (pat + q))[1..] == p[1..] + (pat + q);
      ContainsMiddle(p[1..], pat, q);
    }
  }

  /** A page carrying an anti-bot marker anywhere (the third in any case)
      gives all five performance entries as None and no competitors,
      whatever its rows. */
  lemma {:induction false} BotWallGivesDefaults(page: MarketwatchPage, p: string, q: string)
    requires page.html == p + (JsWallMarker + q) || page.html == p + (CaptchaMarker + q)
          || Lower(page.html) == p + (DataDomeMarker + q)
    ensures Scrape(PageFetched(page)) == Returned(ScrapeData(NoPerformance(), []))
    ensures NoPerformance().Keys == AllPerfKeys && forall key :: key in NoPerformance() ==> NoPerformance()[key] == None
  {
    if page.html == p + (JsWallMarker + q) {
      ContainsMiddle(p, JsWallMarker, q);
    } else if page.html == p + (CaptchaMarker + q) {
      ContainsMiddle(p, CaptchaMarker, q);
    } else {
      ContainsMiddle(p, DataDomeMarker, q);
    }
  }

  /** A page with neither section gives the same defaults without raising. */
  lemma {:induction false} MissingSectionsGiveDefaults(html: string)
    ensures Scrape(PageFetched(MarketwatchPage(html, [], []))) == Returned(ScrapeData(NoPerformance(), []))
  {
  }

  /** The loop only overwrites entries: all five keys stay present. */
  lemma {:induction false} PerformanceKeys(rows: seq<seq<string>>)
    ensures PerformanceOf(rows).Keys == AllPerfKeys
  {
    if rows != [] {
      PerformanceKeys(rows[..|rows| - 1]);
    }
  }

  /** An entry no row sets stays None. */
  lemma {:induction false} UnsetKeyStaysNone(rows: seq<seq<string>>, key: PerfKey)
    requires forall i :: 0 <= i < |rows| ==> RowKey(rows[i]) != Some(key)
    ensures key in PerformanceOf(rows) && PerformanceOf(rows)[key] == None
  {
    PerformanceKeys(rows);
    if rows != [] {
      var init := rows[..|rows| - 1];
      assert forall i :: 0 <= i < |init| ==> init[i] == rows[i];
      UnsetKeyStaysNone(init, key);
    }
  }

  /** An entry holds the percentage of the last row labelled with it. */
  lemma {:induction false} LastLabelledRowWins(rows: seq<seq<string>>, i: int, key: PerfKey)
    requires 0 <= i < |rows| && RowKey(rows[i]) == Some(key)
    requires forall j :: i < j < |rows| ==> RowKey(rows[j]) != Some(key)
    ensures key in PerformanceOf(rows) && PerformanceOf(rows)[key] == PctToFloat(Some(rows[i][1]))
  {
    PerformanceKeys(rows);
    var init := rows[..|rows| - 1];
    if i < |rows| - 1 {
      assert forall j :: 0 <= j < |init| ==> init[j] == rows[j];
      LastLabelledRowWins(init, i, key);
    }
  }

  /** The names of a competitor list, in order. */
  /** The rows with a non-empty first cell, in table order. */
  function NamedRows(rows: seq<seq<string>>): (named: seq<seq<string>>)
    ensures forall k :: 0 <= k < |named| ==> |named[k]| >= 1 && named[k][0] != []
    ensures forall k :: 0 <= k < |named| ==> named[k] in rows
  {
    if rows == [] then []
    else
      var last := rows[|rows| - 1];
      NamedRows(rows[..|rows| - 1]) + (if |last| >= 1 && last[0] != [] then [last] else [])
  }

  /** A returning row contributes one entry when its first cell is
      non-empty and none otherwise. */
  lemma {:induction false} RowEntries(cells: seq<string>, o: Outcome<seq<Competitor>>)
    requires o == CompetitorRow(cells) && o.Returned?
    ensures |o.value| == if |cells| >= 1 && cells[0] != [] then 1 else 0
  {
  }

  /** The entry a row contributes is its first cell with the market cap
      parsed from its last cell. */
  lemma {:induction false} RowEntry(cells: seq<string>, c: Competitor)
    requires CompetitorRow(cells) == Returned([c])
    ensures |cells| >= 1 && ParseMarketCap(CapText(cells)).Returned?
    ensures c == Competitor(cells[0], ParseMarketCap(CapText(cells)).value) && c.name != []
  {
  }

  /** When nothing raises, the competitors are the rows with a non-empty
      first cell, in table order, one entry each: entry k is exactly what
      the k-th such row gives on its own (see RowEntry). */
  lemma {:induction false} CompetitorsInTableOrder(rows: seq<seq<string>>)
    requires CompetitorsOf(rows).Returned?
    ensures |CompetitorsOf(rows).value| == |NamedRows(rows)|
    ensures forall k :: 0 <= k < |NamedRows(rows)| ==>
              CompetitorRow(NamedRows(rows)[k]) == Returned([CompetitorsOf(rows).value[k]])
  {
    if rows != [] {
      var n := |rows|;
      var init := rows[..n - 1];
      var outcomes := RowOutcomes(rows);
      assert outcomes == RowOutcomes(init) + [CompetitorRow(rows[n - 1])];
      assert outcomes[..n - 1] == RowOutcomes(init);
      CollectStep(outcomes, n - 1);
      assert outcomes[..n] == outcomes;
      CompetitorsInTableOrder(init);
      var cs := CompetitorsOf(init).value;
      var c := outcomes[n - 1].value;
      RowEntries(rows[n - 1], outcomes[n - 1]);
      var named := NamedRows(rows);
      assert CompetitorsOf(rows).value == cs + c;
      forall k | 0 <= k < |named|
        ensures CompetitorRow(named[k]) == Returned([(cs + c)[k]])
      {
        if k < |cs| {
          assert named[k] == NamedRows(init)[k];
        } else {
          assert c == [c[0]];
        }
      }
    }
  }

  /** One more outcome: a raise so far stays, otherwise the next outcome's
      raise escapes or its entries are appended. */
  lemma {:induction false} CollectStep(outcomes: seq<Outcome<seq<Competitor>>>, j: int)
    requires 0 <= j < |outcomes|
    ensures Collect(outcomes[..j + 1]) == match Collect(outcomes[..j])
      case Raised(err) => Raised(err)
      case Returned(cs) =>
        match outcomes[j]
        case Raised(err) => Raised(err)
        case Returned(c) => Returned(cs + c)
  {
    assert outcomes[..j + 1][..j] == outcomes[..j];
  }

  /** Once the loop raises, later rows change nothing: the error escapes. */
  lemma {:induction false} RaiseEndsLoop(outcomes: seq<Outcome<seq<Competitor>>>, n: int)
    requires 0 <= n <= |outcomes| && Collect(outcomes[..n]).Raised?
    ensures Collect(outcomes) == Collect(outcomes[..n])
  {
    if n < |outcomes| {
      var init := outcomes[..|outcomes| - 1];
      assert init[..n] == outcomes[..n];
      RaiseEndsLoop(init, n);
    } else {
      assert outcomes[..n] == outcomes;
    }
  }

  /** A row whose market cap raises makes the whole scrape raise, with the
      first such row's error, whatever rows come after it. */
  lemma {:induction false} RaisingRowRaises(rows: seq<seq<string>>, i: int)
    requires 0 <= i < |rows| && CompetitorRow(rows[i]).Raised?
    requires forall j :: 0 <= j < i ==> CompetitorRow(rows[j]).Returned?
    ensures CompetitorsOf(rows) == Raised(CompetitorRow(rows[i]).error)
  {
    var outcomes := RowOutcomes(rows);
    forall j | 0 <= j <= i
      ensures outcomes[j] == CompetitorRow(rows[j])
    {
      RowOutcomeAt(rows, j);
    }
    FirstRaiseEscapes(outcomes, i);
  }

  /** The same over outcomes: the first raised one is what the loop gives. */
  lemma {:induction false} FirstRaiseEscapes(outcomes: seq<Outcome<seq<Competitor>>>, i: int)
    requires 0 <= i < |outcomes| && outcomes[i].Raised?
    requires forall j :: 0 <= j < i ==> outcomes[j].Returned?
    ensures Collect(outcomes) == Raised(outcomes[i].error)
  {
    var upto := outcomes[..i + 1];
    assert upto[..|upto| - 1] == outcomes[..i];
    AllReturn(outcomes[..i]);
    RaiseEndsLoop(outcomes, i + 1);
  }

  /** Outcomes that each return make the loop return. */
  lemma {:induction false} AllReturn(outcomes: seq<Outcome<seq<Competitor>>>)
    requires forall j :: 0 <= j < |outcomes| ==> outcomes[j].Returned?
    ensures Collect(outcomes).Returned?
  {
    if outcomes != [] {
      AllReturn(outcomes[..|outcomes| - 1]);
    }
  }

  /** A named row with fewer than three cells has no market cap. */
  lemma {:induction false} ShortRowHasNoMarketCap(cells: seq<string>)
    requires 1 <= |cells| < 3 && cells[0] != []
    ensures CompetitorRow(cells) == Returned([Competitor(cells[0], NoMarketCap)])
  {
    ParseMarketCapPlaceholder("");
  }
}
