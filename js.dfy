/** The JavaScript built-ins the tool's string handling relies on, with the
    semantics the ECMAScript standard gives them: `String.prototype.trim`,
    `split(/\s+/)`, `split(c)`, `Array.prototype.join`, `Number.prototype.toString`
    on integers, `parseInt(s, 10)`, `padStart` and the value NaN. */
module Js {

  /** WhiteSpace and LineTerminator code points: what `trim` removes and what
      `\s` matches in a regular expression. */
  predicate IsSpace(c: char) {
    || c == ' ' || c == '\t' || c == '\n' || c == '\r' || c == '\U{B}' || c == '\U{C}'
    || c == '\U{A0}' || c == '\U{1680}' || ('\U{2000}' <= c <= '\U{200A}')
    || c == '\U{2028}' || c == '\U{2029}' || c == '\U{202F}' || c == '\U{205F}'
    || c == '\U{3000}' || c == '\U{FEFF}'
  }

  predicate AllSpace(s: string) {
    forall k :: 0 <= k < |s| ==> IsSpace(s[k])
  }

  predicate SpaceFree(s: string) {
    forall k :: 0 <= k < |s| ==> !IsSpace(s[k])
  }

  /** A string that `trim` leaves alone: empty, or neither end is white space. */
  predicate Trimmed(s: string) {
    s == [] || (!IsSpace(s[0]) && !IsSpace(s[|s| - 1]))
  }

  // ---------------------------------------------------------------- trim

  /** Length of the run of white space at the front of `s`. */
  function LeadingSpaces(s: string): (n: nat)
    ensures n <= |s|
    ensures forall k :: 0 <= k < n ==> IsSpace(s[k])
    ensures n < |s| ==> !IsSpace(s[n])
  {
    if s != [] && IsSpace(s[0]) then 1 + LeadingSpaces(s[1..]) else 0
  }

  /** Length of the run of white space at the back of `s`. */
  function TrailingSpaces(s: string): (n: nat)
    ensures n <= |s|
    ensures forall k :: |s| - n <= k < |s| ==> IsSpace(s[k])
    ensures n < |s| ==> !IsSpace(s[|s| - 1 - n])
  {
    if s != [] && IsSpace(s[|s| - 1]) then 1 + TrailingSpaces(s[..|s| - 1]) else 0
  }

  /** `s.trim()`: the slice of `s` left after removing white space at both
      ends; it is empty exactly when `s` is all white space. */
  function Trim(s: string): (r: string)
    ensures Trimmed(r)
    ensures r == [] <==> AllSpace(s)
    ensures exists i, j :: 0 <= i <= j <= |s| && r == s[i..j] && AllSpace(s[..i]) && AllSpace(s[j..])
  {
    var a := LeadingSpaces(s);
    if a == |s| then
      assert s[..a] == s && s[a..] == [];
      []
    else
      var b := |s| - TrailingSpaces(s);
      assert a < b;
      assert AllSpace(s[..a]) && AllSpace(s[b..]);
      s[a..b]
  }

  lemma TrimTrimmed(s: string)
    requires Trimmed(s)
    ensures Trim(s) == s
  {
    if s != [] {
      assert LeadingSpaces(s) == 0;
      assert TrailingSpaces(s) == 0;
    }
  }

  lemma TrimIdempotent(s: string)
    ensures Trim(Trim(s)) == Trim(s)
  {
    TrimTrimmed(Trim(s));
  }
  lemma {:induction false} LeadingSpacesAfterSpace(pre: string, t: string)
    requires AllSpace(pre)
    ensures LeadingSpaces(pre + t) == |pre| + LeadingSpaces(t)
    decreases |pre|
  {
    if pre != [] {
      assert (pre + t)[1..] == pre[1..] + t;
      LeadingSpacesAfterSpace(pre[1..], t);
    } else {
      assert pre + t == t;
    }
  }

  lemma {:induction false} TrailingSpacesBeforeSpace(t: string, post: string)
    requires AllSpace(post)
    ensures TrailingSpaces(t + post) == |post| + TrailingSpaces(t)
    decreases |post|
  {
    if post != [] {
      assert (t + post)[..|t + post| - 1] == t + post[..|post| - 1];
      TrailingSpacesBeforeSpace(t, post[..|post| - 1]);
    } else {
      assert t + post == t;
    }
  }

  /** `trim` removes exactly the white space around a word that has none at
      its ends. */
  lemma TrimPadded(pre: string, w: string, post: string)
    requires AllSpace(pre) && AllSpace(post) && Trimmed(w)
    ensures Trim(pre + w + post) == w
  {
    var s := pre + w + post;
    if w == [] {
      assert s == pre + post;
      assert forall k :: 0 <= k < |s| ==> IsSpace(s[k]) by {
        forall k | 0 <= k < |s|
          ensures IsSpace(s[k])
        {
          if k < |pre| {
            assert s[k] == pre[k];
          } else {
            assert s[k] == post[k - |pre|];
          }
        }
      }
    } else {
      var front := w + post;
      var back := pre + w;
      assert s == pre + front && s == back + post;
      assert front[0] == w[0] && back[|back| - 1] == w[|w| - 1];
      LeadingSpacesAfterSpace(pre, front);
      TrailingSpacesBeforeSpace(back, post);
      assert LeadingSpaces(s) == |pre| && TrailingSpaces(s) == |post|;
      assert s[|pre|..|s| - |post|] == w;
    }
  }

  // ------------------------------------------------------ split(/\s+/)

  /** `s.split(/\s+/)`: the pieces between maximal runs of white space.  White
      space at the front gives an empty first piece, at the back an empty last
      piece, and the empty string gives `[""]`. */
  function SplitWs(s: string): (r: seq<string>)
    ensures |r| >= 1
    decreases |s|
  {
    if s == [] then [""]
    else if IsSpace(s[0]) then [""] + SplitWs(s[LeadingSpaces(s)..])
    else
      var rest := SplitWs(s[1..]);
      [[s[0]] + rest[0]] + rest[1..]
  }

  /** `parts.join(sep)`. */
  function Join(parts: seq<string>, sep: string): string {
    if parts == [] then ""
    else if |parts| == 1 then parts[0]
    else parts[0] + sep + Join(parts[1..], sep)
  }

  /** A prefix of a prefix is a prefix. */
  lemma PrefixTrans(a: string, b: string, c: string)
    requires a <= b && b <= c
    ensures a <= c
  {
    assert c[..|b|][..|a|] == c[..|a|];
  }

  /** A prefix of a string stays a prefix when text is appended. */
  lemma PrefixExtends(a: string, b: string, c: string)
    requires a <= b
    ensures a <= b + c
  {
    assert (b + c)[..|a|] == b[..|a|];
  }

  lemma JoinStartsWithFirst(parts: seq<string>, sep: string)
    requires |parts| >= 1
    ensures |Join(parts, sep)| >= |parts[0]|
    ensures Join(parts, sep)[..|parts[0]|] == parts[0]
  {
  }

  lemma {:induction false} SplitWsWord(w: string)
    requires SpaceFree(w)
    ensures SplitWs(w) == [w]
    decreases |w|
  {
    if w != [] {
      SplitWsWord(w[1..]);
      assert [w[0]] + w[1..] == w;
    }
  }

  lemma {:induction false} SplitWsAfterWord(w: string, t: string)
    requires SpaceFree(w)
    requires t == [] || !IsSpace(t[0])
    ensures SplitWs(w + " " + t) == [w] + SplitWs(t)
    decreases |w|
  {
    var s := w + " " + t;
    if w == [] {
      assert s == " " + t;
      assert s[1..] == t;
      assert LeadingSpaces(s) == 1 + LeadingSpaces(t);
      assert LeadingSpaces(t) == 0;
      assert s[LeadingSpaces(s)..] == t;
    } else {
      assert s[1..] == w[1..] + " " + t;
      SplitWsAfterWord(w[1..], t);
      assert [w[0]] + w[1..] == w;
    }
  }

  /** Splitting on white space undoes joining white-space-free, non-empty
      tokens with single spaces. */
  lemma {:induction false} SplitWsJoin(tokens: seq<string>)
    requires |tokens| >= 1
    requires forall k :: 0 <= k < |tokens| ==> tokens[k] != [] && SpaceFree(tokens[k])
    ensures SplitWs(Join(tokens, " ")) == tokens
    decreases |tokens|
  {
    if |tokens| == 1 {
      SplitWsWord(tokens[0]);
    } else {
      var t := Join(tokens[1..], " ");
      JoinStartsWithFirst(tokens[1..], " ");
      assert t[0] == tokens[1][0];
      SplitWsAfterWord(tokens[0], t);
      SplitWsJoin(tokens[1..]);
      assert [tokens[0]] + tokens[1..] == tokens;
    }
  }

  /** Every piece is a non-empty word without white space. */
  predicate Tokens(r: seq<string>) {
    forall k :: 0 <= k < |r| ==> r[k] != [] && SpaceFree(r[k])
  }

  lemma TokensCons(w: string, rest: seq<string>)
    requires w != [] && SpaceFree(w) && Tokens(rest)
    ensures Tokens([w] + rest)
  {
    forall k | 0 <= k < |[w] + rest| ensures ([w] + rest)[k] != [] && SpaceFree(([w] + rest)[k]) {
      if k > 0 {
        assert ([w] + rest)[k] == rest[k - 1];
      }
    }
  }

  lemma TokensGrowHead(c: char, rest: seq<string>)
    requires !IsSpace(c) && |rest| >= 1 && Tokens(rest)
    ensures Tokens([[c] + rest[0]] + rest[1..])
  {
    var r := [[c] + rest[0]] + rest[1..];
    forall k | 0 <= k < |r| ensures r[k] != [] && SpaceFree(r[k]) {
      if k == 0 {
        assert SpaceFree(rest[0]);
      } else {
        assert r[k] == rest[k];
      }
    }
  }

  /** A string that is trimmed and not empty splits into non-empty,
      white-space-free tokens. */
  lemma {:induction false} SplitWsTokens(s: string)
    requires s != [] && !IsSpace(s[0]) && !IsSpace(s[|s| - 1])
    ensures Tokens(SplitWs(s))
    decreases |s|
  {
    if |s| == 1 {
      assert SplitWs(s[1..]) == [""];
      assert [s[0]] + "" == [s[0]];
      assert SplitWs(s) == [[s[0]]] + [];
      TokensCons([s[0]], []);
    } else if IsSpace(s[1]) {
      var t := s[1..];
      var u := t[LeadingSpaces(t)..];
      assert LeadingSpaces(t) < |t|;
      assert u[|u| - 1] == s[|s| - 1];
      SplitWsTokens(u);
      var rest := SplitWs(t);
      assert rest == [""] + SplitWs(u);
      assert rest[0] == "" && rest[1..] == SplitWs(u);
      assert [s[0]] + rest[0] == [s[0]];
      TokensCons([s[0]], SplitWs(u));
    } else {
      SplitWsTokens(s[1..]);
      TokensGrowHead(s[0], SplitWs(s[1..]));
    }
  }

  // --------------------------------------------------------- split(c)

  /** `s.split(c)` for a one-character separator. */
  function SplitOn(s: string, c: char): (r: seq<string>)
    ensures |r| >= 1
    ensures forall k :: 0 <= k < |r| ==> c !in r[k]
  {
    if s == [] then [""]
    else if s[0] == c then [""] + SplitOn(s[1..], c)
    else
      var rest := SplitOn(s[1..], c);
      assert forall k :: 1 <= k < |rest| ==> c !in rest[k];
      [[s[0]] + rest[0]] + rest[1..]
  }

  lemma {:induction false} SplitOnWord(w: string, c: char)
    requires c !in w
    ensures SplitOn(w, c) == [w]
    decreases |w|
  {
    if w != [] {
      assert w[0] != c;
      SplitOnWord(w[1..], c);
      assert [w[0]] + w[1..] == w;
    }
  }

  lemma {:induction false} SplitOnAfterWord(w: string, c: char, t: string)
    requires c !in w
    ensures SplitOn(w + [c] + t, c) == [w] + SplitOn(t, c)
    decreases |w|
  {
    var s := w + [c] + t;
    if w == [] {
      assert s[1..] == t;
    } else {
      assert s[0] == w[0] && w[0] != c;
      assert s[1..] == w[1..] + [c] + t;
      SplitOnAfterWord(w[1..], c, t);
      assert [w[0]] + w[1..] == w;
    }
  }

  /** Splitting on `c` undoes joining pieces that do not contain `c`. */
  lemma {:induction false} SplitOnJoin(parts: seq<string>, c: char)
    requires |parts| >= 1
    requires forall k :: 0 <= k < |parts| ==> c !in parts[k]
    ensures SplitOn(Join(parts, [c]), c) == parts
    decreases |parts|
  {
    if |parts| == 1 {
      SplitOnWord(parts[0], c);
    } else {
      SplitOnAfterWord(parts[0], c, Join(parts[1..], [c]));
      SplitOnJoin(parts[1..], c);
      assert [parts[0]] + parts[1..] == parts;
    }
  }

  /** Joining with `c` undoes splitting on `c`. */
  lemma {:induction false} JoinSplitOn(s: string, c: char)
    ensures Join(SplitOn(s, c), [c]) == s
    decreases |s|
  {
    if s != [] {
      JoinSplitOn(s[1..], c);
      var rest := SplitOn(s[1..], c);
      if s[0] == c {
        assert SplitOn(s, c) == [""] + rest;
        assert ([""] + rest)[1..] == rest;
      } else {
        var r := SplitOn(s, c);
        assert r == [[s[0]] + rest[0]] + rest[1..];
        if |rest| == 1 {
          assert Join(rest, [c]) == rest[0];
        } else {
          assert r[1..] == rest[1..];
          assert Join(rest, [c]) == rest[0] + [c] + Join(rest[1..], [c]);
        }
      }
    }
  }

  // --------------------------------------------------- numbers as text

  predicate IsDigit(c: char) {
    '0' <= c <= '9'
  }

  predicate AllDigits(s: string) {
    forall k :: 0 <= k < |s| ==> IsDigit(s[k])
  }

  function DigitChar(d: nat): (c: char)
    requires d < 10
    ensures IsDigit(c)
  {
    ('0' as int + d) as char
  }

  function DigitValue(c: char): (d: nat)
    requires IsDigit(c)
    ensures d < 10
  {
    c as int - '0' as int
  }

  /** Decimal rendering of a natural number, without leading zeros. */
  function NatToString(n: nat): (r: string)
    ensures |r| >= 1 && AllDigits(r)
    ensures r[0] == '0' ==> n == 0
  {
    if n < 10 then [DigitChar(n)] else NatToString(n / 10) + [DigitChar(n % 10)]
  }

  /** `String(i)` for an integer `i` that JavaScript prints without an exponent. */
  function IntToString(i: int): (r: string)
    ensures |r| >= 1 && !IsSpace(r[0]) && SpaceFree(r)
  {
    if i < 0 then "-" + NatToString(-i) else NatToString(i)
  }

  /** A larger number never has fewer digits. */
  lemma {:induction false} NatToStringLengthMonotone(a: nat, b: nat)
    requires a <= b
    ensures |NatToString(a)| <= |NatToString(b)|
    decreases b
  {
    if a >= 10 {
      NatToStringLengthMonotone(a / 10, b / 10);
    }
  }

  /** The value of a string of decimal digits; leading zeros are allowed. */
  function DigitsValue(ds: string): nat
    requires AllDigits(ds)
  {
    if ds == [] then 0 else DigitsValue(ds[..|ds| - 1]) * 10 + DigitValue(ds[|ds| - 1])
  }

  lemma {:induction false} DigitsValueOfNat(n: nat)
    ensures DigitsValue(NatToString(n)) == n
  {
    var r := NatToString(n);
    if n >= 10 {
      DigitsValueOfNat(n / 10);
      assert r[..|r| - 1] == NatToString(n / 10);
    }
  }

  lemma {:induction false} DigitsValueLeadingZero(ds: string)
    requires AllDigits(ds)
    ensures AllDigits("0" + ds) && DigitsValue("0" + ds) == DigitsValue(ds)
    decreases |ds|
  {
    if ds != [] {
      var z := "0" + ds;
      assert z[..|z| - 1] == "0" + ds[..|ds| - 1];
      DigitsValueLeadingZero(ds[..|ds| - 1]);
    }
  }

  /** Length of the run of decimal digits at the front of `s`. */
  function DigitPrefix(s: string): (n: nat)
    ensures n <= |s|
    ensures forall k :: 0 <= k < n ==> IsDigit(s[k])
    ensures n < |s| ==> !IsDigit(s[n])
  {
    if s != [] && IsDigit(s[0]) then 1 + DigitPrefix(s[1..]) else 0
  }

  /** A JavaScript number as this tool meets it: an integer or NaN. */
  datatype JsNum = Num(value: int) | NaN

  /** `parseInt(s, 10)`: skip leading white space, read an optional sign and the
      longest run of digits after it; NaN when there is no digit there. */
  function ParseInt(s: string): (r: JsNum)
    ensures r.Num? <==>
      var t := s[LeadingSpaces(s)..];
      var u := if t != [] && (t[0] == '-' || t[0] == '+') then t[1..] else t;
      u != [] && IsDigit(u[0])
  {
    var t := s[LeadingSpaces(s)..];
    var negative := t != [] && t[0] == '-';
    var u := if t != [] && (t[0] == '-' || t[0] == '+') then t[1..] else t;
    var n := DigitPrefix(u);
    if n == 0 then NaN
    else
      var v: int := DigitsValue(u[..n]);
      Num(if negative then -v else v)
  }

  lemma AllDigitsPrefix(s: string)
    requires AllDigits(s)
    ensures DigitPrefix(s) == |s|
  {
  }

  /** `parseInt` reads back what `String` prints. */
  lemma ParseIntOfIntToString(i: int)
    ensures ParseInt(IntToString(i)) == Num(i)
  {
    var s := IntToString(i);
    assert LeadingSpaces(s) == 0;
    assert s[0..] == s;
    var n: nat := if i < 0 then -i else i;
    var ds := NatToString(n);
    if i < 0 {
      assert s[1..] == ds;
    }
    AllDigitsPrefix(ds);
    assert ds[..|ds|] == ds;
    DigitsValueOfNat(n);
  }

  /** A string of `n` copies of `c`. */
  function Repeat(c: char, n: nat): (r: string)
    ensures |r| == n && forall k :: 0 <= k < n ==> r[k] == c
  {
    seq(n, _ => c)
  }

  /** `s.padStart(width, fill)`: `s` preceded by enough `fill` characters to
      reach `width`; a string already that long is returned as it is. */
  function PadStart(s: string, width: int, fill: char): (r: string)
    ensures |r| == if |s| >= width then |s| else width
    ensures r[|r| - |s|..] == s
    ensures forall k :: 0 <= k < |r| - |s| ==> r[k] == fill
  {
    if |s| >= width then s else Repeat(fill, width - |s|) + s
  }

  /** Leading zeros do not change the value `parseInt` reads. */
  lemma ParseIntZeroPadded(k: nat, n: nat)
    ensures ParseInt(Repeat('0', k) + NatToString(n)) == Num(n)
  {
    var ds := NatToString(n);
    ZeroPaddedValue(k, ds);
    ParseIntDigits(Repeat('0', k) + ds);
    DigitsValueOfNat(n);
  }

  /** `parseInt` of a non-empty string of digits is its decimal value. */
  lemma ParseIntDigits(s: string)
    requires s != [] && AllDigits(s)
    ensures ParseInt(s) == Num(DigitsValue(s))
  {
    assert !IsSpace(s[0]);
    assert LeadingSpaces(s) == 0;
    assert s[0..] == s;
    AllDigitsPrefix(s);
    assert s[..|s|] == s;
  }

  lemma ZeroPaddedDigits(k: nat, ds: string)
    requires AllDigits(ds)
    ensures AllDigits(Repeat('0', k) + ds)
  {
    var z := Repeat('0', k) + ds;
    forall i | 0 <= i < |z| ensures IsDigit(z[i]) {
      if i < k {
        assert z[i] == '0';
      } else {
        assert z[i] == ds[i - k];
      }
    }
  }

  lemma {:induction false} ZeroPaddedValue(k: nat, ds: string)
    requires AllDigits(ds)
    ensures AllDigits(Repeat('0', k) + ds)
    ensures DigitsValue(Repeat('0', k) + ds) == DigitsValue(ds)
    decreases k
  {
    ZeroPaddedDigits(k, ds);
    if k > 0 {
      ZeroPaddedValue(k - 1, ds);
      var tail := Repeat('0', k - 1) + ds;
      assert Repeat('0', k) + ds == "0" + tail by {
        assert Repeat('0', k) == "0" + Repeat('0', k - 1);
      }
      DigitsValueLeadingZero(tail);
    } else {
      assert Repeat('0', k) + ds == ds;
    }
  }

  /** `x || 0` on a number: NaN and 0 both give 0. */
  function OrZero(x: JsNum): int {
    if x.Num? then x.value else 0
  }

  /** `+` on numbers; NaN absorbs. */
  function Add(a: JsNum, b: JsNum): (r: JsNum)
    ensures r.Num? <==> a.Num? && b.Num?
  {
    if a.Num? && b.Num? then Num(a.value + b.value) else NaN
  }

  /** A number inside a template literal. */
  function NumToString(x: JsNum): string {
    if x.NaN? then "NaN" else IntToString(x.value)
  }
}
