/**
 * The string handling of Rust's standard library that the attribute codecs rely on:
 * `str::trim`, `str::split_whitespace`, `u8::from_str` and `u8::to_string`.
 */
module Text {
  import opened Prelude

  /** Unicode White_Space, the set `char::is_whitespace` tests (and so `trim` and `split_whitespace`). */
  predicate IsWhitespace(c: char) {
    || ('\t' <= c <= '\r')
    || c == ' '
    || c == '\U{85}'
    || c == '\U{A0}'
    || c == '\U{1680}'
    || ('\U{2000}' <= c <= '\U{200A}')
    || c == '\U{2028}'
    || c == '\U{2029}'
    || c == '\U{202F}'
    || c == '\U{205F}'
    || c == '\U{3000}'
  }

  predicate AllWhitespace(s: string) {
    forall i | 0 <= i < |s| :: IsWhitespace(s[i])
  }

  // ---------------------------------------------------------------- trim

  /** The length of the longest all-whitespace prefix of `s`. */
  function LeadingWhitespace(s: string): (n: nat)
    ensures n <= |s|
    ensures forall i | 0 <= i < n :: IsWhitespace(s[i])
    ensures n < |s| ==> !IsWhitespace(s[n])
  {
    if s == [] || !IsWhitespace(s[0]) then 0 else 1 + LeadingWhitespace(s[1..])
  }

  /** The length of the longest all-whitespace suffix of `s`. */
  function TrailingWhitespace(s: string): (n: nat)
    ensures n <= |s|
    ensures forall i | |s| - n <= i < |s| :: IsWhitespace(s[i])
    ensures n < |s| ==> !IsWhitespace(s[|s| - 1 - n])
  {
    if s == [] || !IsWhitespace(s[|s| - 1]) then 0 else 1 + TrailingWhitespace(s[..|s| - 1])
  }

  /** `str::trim`: `s` without its whitespace prefix and suffix. */
  function Trim(s: string): string {
    var rest := s[LeadingWhitespace(s)..];
    rest[..|rest| - TrailingWhitespace(rest)]
  }

  /**
   * What `Trim` keeps: the infix of `s` that starts after the leading whitespace, is
   * followed only by whitespace, and neither starts nor ends with whitespace.
   */
  lemma {:induction false} TrimKeepsInfix(s: string)
    ensures var r := Trim(s);
            && LeadingWhitespace(s) + |r| <= |s|
            && r == s[LeadingWhitespace(s)..LeadingWhitespace(s) + |r|]
            && AllWhitespace(s[..LeadingWhitespace(s)])
            && AllWhitespace(s[LeadingWhitespace(s) + |r|..])
            && (r == [] || (!IsWhitespace(r[0]) && !IsWhitespace(r[|r| - 1])))
  {
    var n := LeadingWhitespace(s);
    var rest := s[n..];
    var m := TrailingWhitespace(rest);
    var r := rest[..|rest| - m];
    assert r == Trim(s);
    assert r == s[n..n + |r|];
    assert forall i | 0 <= i < n :: s[..n][i] == s[i];
    var tail := s[n + |r|..];
    assert tail == rest[|rest| - m..];
    if r != [] {
      assert r[0] == rest[0];
      assert r[|r| - 1] == rest[|rest| - 1 - m];
    }
  }

  /** Trimming removes exactly the whitespace around a text that has none at its ends. */
  lemma {:induction false} TrimFramed(a: string, t: string, b: string)
    requires AllWhitespace(a) && AllWhitespace(b)
    requires t == [] || (!IsWhitespace(t[0]) && !IsWhitespace(t[|t| - 1]))
    ensures Trim(a + t + b) == t
  {
    var s := a + t + b;
    var n := LeadingWhitespace(s);
    if t == [] {
      assert s == a + b;
      assert forall i | 0 <= i < |s| :: IsWhitespace(s[i]);
    } else {
      assert forall i | 0 <= i < |a| :: s[i] == a[i];
      assert s[|a|] == t[0];
      assert n == |a|;
      var rest := s[n..];
      assert rest == t + b;
      var m := TrailingWhitespace(rest);
      assert forall i | 0 <= i < |b| :: rest[|t| + i] == b[i];
      assert rest[|t| - 1] == t[|t| - 1];
      assert m == |b|;
      assert rest[..|rest| - m] == t;
    }
  }

  // ---------------------------------------------------------------- split_whitespace

  /** A token of `split_whitespace`: non-empty, without whitespace. */
  predicate IsWord(w: string) {
    w != [] && forall i | 0 <= i < |w| :: !IsWhitespace(w[i])
  }

  /** The length of the longest whitespace-free prefix of `s`. */
  function WordLength(s: string): (n: nat)
    ensures n <= |s|
    ensures forall i | 0 <= i < n :: !IsWhitespace(s[i])
    ensures n < |s| ==> IsWhitespace(s[n])
  {
    if s == [] || IsWhitespace(s[0]) then 0 else 1 + WordLength(s[1..])
  }

  /** `str::split_whitespace`: the maximal whitespace-free runs of `s`, in order. */
  function SplitWhitespace(s: string): (words: seq<string>)
    ensures forall k | 0 <= k < |words| :: IsWord(words[k])
    decreases |s|
  {
    if s == [] then []
    else if IsWhitespace(s[0]) then SplitWhitespace(s[1..])
    else
      var n := WordLength(s);
      [s[..n]] + SplitWhitespace(s[n..])
  }

  /** A word followed by a whitespace character (or nothing) is split off as one token. */
  lemma {:induction false} SplitWordThenRest(w: string, t: string)
    requires IsWord(w)
    requires t == [] || IsWhitespace(t[0])
    ensures SplitWhitespace(w + t) == [w] + SplitWhitespace(t)
  {
    var s := w + t;
    var n := WordLength(s);
    assert forall i | 0 <= i < |w| :: s[i] == w[i];
    assert |w| < |s| ==> s[|w|] == t[0];
    assert n == |w|;
    assert s[..n] == w && s[n..] == t;
  }

  /** `split_whitespace` skips a whitespace prefix, however long. */
  lemma {:induction false} SplitSkipsWhitespace(sep: string, t: string)
    requires AllWhitespace(sep)
    ensures SplitWhitespace(sep + t) == SplitWhitespace(t)
    decreases |sep|
  {
    if sep != [] {
      assert (sep + t)[0] == sep[0];
      assert (sep + t)[1..] == sep[1..] + t;
      SplitSkipsWhitespace(sep[1..], t);
    } else {
      assert sep + t == t;
    }
  }

  /** What separates two tokens: a non-empty run of any whitespace. */
  predicate IsSeparator(sep: string) {
    sep != [] && AllWhitespace(sep)
  }

  /** A word followed by a separator is split off as one token, whatever the separator. */
  lemma {:induction false} SplitWordThenSeparator(w: string, sep: string, t: string)
    requires IsWord(w) && IsSeparator(sep)
    ensures SplitWhitespace(w + sep + t) == [w] + SplitWhitespace(t)
  {
    assert w + sep + t == w + (sep + t);
    SplitWordThenRest(w, sep + t);
    SplitSkipsWhitespace(sep, t);
  }

  /** The words laid out with the given separators between them: `w0 + s0 + w1 + ... + wn`. */
  function JoinWith(words: seq<string>, seps: seq<string>): string
    requires |words| == |seps| + 1
    decreases |seps|
  {
    if seps == [] then words[0] else words[0] + seps[0] + JoinWith(words[1..], seps[1..])
  }

  /** Splitting words laid out with any separators gives back the words, in order. */
  lemma {:induction false} SplitJoinWith(words: seq<string>, seps: seq<string>)
    requires |words| == |seps| + 1
    requires forall k | 0 <= k < |words| :: IsWord(words[k])
    requires forall k | 0 <= k < |seps| :: IsSeparator(seps[k])
    ensures SplitWhitespace(JoinWith(words, seps)) == words
    decreases |seps|
  {
    if seps == [] {
      SplitWordThenRest(words[0], "");
      assert words[0] + "" == words[0];
      assert words == [words[0]];
    } else {
      SplitJoinWith(words[1..], seps[1..]);
      SplitWordThenSeparator(words[0], seps[0], JoinWith(words[1..], seps[1..]));
      assert words == [words[0]] + words[1..];
    }
  }

  /** Laid-out words neither start nor end with whitespace, so trimming leaves them as they are. */
  lemma {:induction false} JoinWithEdges(words: seq<string>, seps: seq<string>)
    requires |words| == |seps| + 1
    requires forall k | 0 <= k < |words| :: IsWord(words[k])
    ensures var t := JoinWith(words, seps);
            t != [] && !IsWhitespace(t[0]) && !IsWhitespace(t[|t| - 1])
    decreases |seps|
  {
    assert IsWord(words[0]);
    if seps != [] {
      JoinWithEdges(words[1..], seps[1..]);
      var t := JoinWith(words, seps);
      var u := JoinWith(words[1..], seps[1..]);
      assert t == (words[0] + seps[0]) + u;
      assert t[0] == words[0][0];
      assert t[|t| - 1] == u[|u| - 1];
    }
  }

  /**
   * `trim` then `split_whitespace` of words laid out with any separators, and framed by
   * any whitespace, gives the words back.
   */
  lemma {:induction false} SplitFramedJoin(s: string, words: seq<string>, seps: seq<string>, a: string, b: string)
    requires |words| == |seps| + 1
    requires forall k | 0 <= k < |words| :: IsWord(words[k])
    requires forall k | 0 <= k < |seps| :: IsSeparator(seps[k])
    requires AllWhitespace(a) && AllWhitespace(b)
    requires s == a + JoinWith(words, seps) + b
    ensures SplitWhitespace(Trim(s)) == words
  {
    JoinWithEdges(words, seps);
    TrimFramed(a, JoinWith(words, seps), b);
    SplitJoinWith(words, seps);
  }

  // ---------------------------------------------------------------- decimal digits

  predicate IsDigit(c: char) { '0' <= c <= '9' }

  predicate AllDigits(s: string) {
    forall i | 0 <= i < |s| :: IsDigit(s[i])
  }

  function DigitChar(d: nat): (c: char)
    requires d < 10
    ensures IsDigit(c)
  {
    ('0' as int + d) as char
  }

  function DigitValue(c: char): (d: nat)
    requires IsDigit(c)
    ensures d < 10 && DigitChar(d) == c
  {
    c as int - '0' as int
  }

  /** The value of a string of decimal digits, read most significant digit first. */
  function DigitsValue(s: string): nat
    requires AllDigits(s)
  {
    if s == [] then 0 else 10 * DigitsValue(s[..|s| - 1]) + DigitValue(s[|s| - 1])
  }

  /** The canonical decimal spelling: digits only, no leading zero except in "0" itself. */
  predicate Canonical(s: string) {
    s != [] && AllDigits(s) && (s[0] == '0' ==> |s| == 1)
  }

  /** `to_string` of an unsigned integer: its canonical decimal spelling. */
  function Decimal(n: nat): (s: string)
    ensures Canonical(s)
    ensures IsWord(s)
  {
    if n < 10 then [DigitChar(n)] else Decimal(n / 10) + [DigitChar(n % 10)]
  }

  /** `Decimal` spells its argument. */
  lemma {:induction false} DecimalValue(n: nat)
    ensures DigitsValue(Decimal(n)) == n
  {
    if n >= 10 {
      var s := Decimal(n);
      assert s[..|s| - 1] == Decimal(n / 10);
      DecimalValue(n / 10);
    }
  }

  /** A digit string that does not start with '0' has a positive value. */
  lemma {:induction false} NoLeadingZeroPositive(s: string)
    requires s != [] && AllDigits(s) && s[0] != '0'
    ensures DigitsValue(s) >= 1
  {
    if |s| > 1 {
      NoLeadingZeroPositive(s[..|s| - 1]);
    }
  }

  /** The canonical spellings are exactly the images of `Decimal`. */
  lemma {:induction false} CanonicalIsDecimal(s: string)
    requires Canonical(s)
    ensures Decimal(DigitsValue(s)) == s
  {
    if |s| > 1 {
      var p := s[..|s| - 1];
      CanonicalIsDecimal(p);
      NoLeadingZeroPositive(p);
      var n := DigitsValue(s);
      assert n / 10 == DigitsValue(p) && n % 10 == DigitValue(s[|s| - 1]);
      assert s == p + [s[|s| - 1]];
    }
  }

  /** A leading zero does not change the value of a digit string. */
  lemma {:induction false} LeadingZeroValue(s: string)
    requires AllDigits(s)
    ensures AllDigits("0" + s) && DigitsValue("0" + s) == DigitsValue(s)
  {
    if s != [] {
      var z := "0" + s;
      assert z[..|z| - 1] == "0" + s[..|s| - 1];
      LeadingZeroValue(s[..|s| - 1]);
    }
  }

  // ---------------------------------------------------------------- u8::from_str

  /**
   * `u8::from_str`: an optional '+' followed by at least one decimal digit, whose value
   * is at most 255. Leading zeros are allowed; a '-' sign, an empty string, a lone '+'
   * and any other character are refused.
   */
  function ParseU8(s: string): (r: Option<uint8>)
    ensures r.Some? ==> s != [] && var digits := if s[0] == '+' then s[1..] else s;
                          digits != [] && AllDigits(digits)
  {
    var digits := if s != [] && s[0] == '+' then s[1..] else s;
    if digits != [] && AllDigits(digits) && DigitsValue(digits) < 0x100
    then Some(DigitsValue(digits))
    else None
  }

  /** Parsing what `to_string` wrote gives the number back. */
  lemma {:induction false} ParseDecimal(n: uint8)
    ensures ParseU8(Decimal(n)) == Some(n)
  {
    DecimalValue(n);
  }

  /** On canonical spellings, parsing and `to_string` are mutual inverses. */
  lemma {:induction false} ParseCanonical(s: string)
    requires Canonical(s)
    ensures ParseU8(s).Some? ==> Decimal(ParseU8(s).value) == s
  {
    CanonicalIsDecimal(s);
  }

  /** Parsing accepts a leading zero and a leading '+' without changing the value. */
  lemma {:induction false} ParseIgnoresZeroAndPlus(s: string)
    requires s == [] || s[0] != '+'
    ensures ParseU8("+" + s) == ParseU8(s)
    ensures s != [] && AllDigits(s) ==> ParseU8("0" + s) == ParseU8(s)
  {
    assert ("+" + s)[1..] == s;
    if s != [] && AllDigits(s) {
      LeadingZeroValue(s);
    }
  }

  /** Sample inputs: what `u8::from_str` accepts and refuses. */
  lemma {:induction false} ParseSamples()
    ensures ParseU8("255") == Some(255)
    ensures ParseU8("+7") == Some(7)
    ensures ParseU8("007") == Some(7)
    ensures ParseU8("256") == None
    ensures ParseU8("-1") == None
    ensures ParseU8("") == None
    ensures ParseU8("+") == None
    ensures ParseU8("1 2") == None
  {
    assert "255"[..2] == "25" && "25"[..1] == "2" && "2"[..0] == "";
    assert DigitsValue("2") == 2 && DigitsValue("25") == 25 && DigitsValue("255") == 255;
    assert "007"[..2] == "00" && "00"[..1] == "0";
    assert "+7"[1..] == "7" && "+"[1..] == [];
    assert "256"[..2] == "25" && "25"[..1] == "2";
    assert !IsDigit("-1"[0]) && !IsDigit("1 2"[1]);
  }
}
