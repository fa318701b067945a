/** The string operations the modelled code relies on: decimal digits, `str.split`,
    `str.join`, `str.replace`, the `in` substring test, `:02d` padding and the decimal
    text of the grid coordinates. */
module Text {
  import opened Outcomes

  predicate IsDigit(c: char) { '0' <= c <= '9' }

  predicate AllDigits(s: string) { forall i :: 0 <= i < |s| ==> IsDigit(s[i]) }

  /** No position of `s` holds the character `c`. */
  predicate Lacks(s: string, c: char) { forall i :: 0 <= i < |s| ==> s[i] != c }

  function DigitValue(c: char): nat
    requires IsDigit(c)
  {
    c as int - '0' as int
  }

  function DigitChar(d: nat): (c: char)
    requires d < 10
    ensures IsDigit(c) && DigitValue(c) == d
  {
    ('0' as int + d) as char
  }

  function Pow10(p: nat): (r: nat)
    ensures r >= 1
  {
    if p == 0 then 1 else 10 * Pow10(p - 1)
  }

  /** `str(n)` for a non-negative integer: decimal digits without leading zeros. */
  function NatToString(n: nat): (s: string)
    ensures |s| >= 1 && AllDigits(s)
    decreases n
  {
    if n < 10 then [DigitChar(n)] else NatToString(n / 10) + [DigitChar(n % 10)]
  }

  /** The value of a string of decimal digits (leading zeros allowed, "" is 0). */
  function DigitsValue(s: string): nat
    requires AllDigits(s)
    decreases |s|
  {
    if s == [] then 0 else 10 * DigitsValue(s[..|s| - 1]) + DigitValue(s[|s| - 1])
  }

  /** `int(s)` restricted to what the modelled code feeds it: a non-empty run of digits. */
  function ParseNat(s: string): Option<nat>
  {
    if s != [] && AllDigits(s) then Some(DigitsValue(s)) else None
  }

  lemma {:induction false} NatToStringRoundTrip(n: nat)
    ensures DigitsValue(NatToString(n)) == n
    decreases n
  {
    if n >= 10 {
      var s := NatToString(n);
      assert s[..|s| - 1] == NatToString(n / 10);
      NatToStringRoundTrip(n / 10);
    }
  }

  lemma {:induction false} NatToStringLength(n: nat, w: nat)
    requires w >= 1 && n < Pow10(w)
    ensures |NatToString(n)| <= w
    decreases n
  {
    if n >= 10 {
      assert w >= 2;
      assert n / 10 < Pow10(w - 1);
      NatToStringLength(n / 10, w - 1);
    }
  }

  lemma {:induction false} NatToStringLengthAtLeast(n: nat, w: nat)
    requires w >= 1 && n >= Pow10(w - 1)
    ensures |NatToString(n)| >= w
    decreases w
  {
    if w > 1 {
      assert n / 10 >= Pow10(w - 2);
      NatToStringLengthAtLeast(n / 10, w - 1);
    }
  }

  function Zeros(k: nat): (z: string)
    ensures |z| == k && AllDigits(z)
  {
    seq(k, _ => '0')
  }

  /** Python's `f'{n:0{w}d}'`: `str(n)` left-padded with zeros to at least `w` characters. */
  function ZeroPad(n: nat, w: nat): (s: string)
    ensures AllDigits(s) && |s| >= w
  {
    var t := NatToString(n);
    if |t| >= w then t else Zeros(w - |t|) + t
  }

  /** `:02d`, the padding of days and months in the labels. */
  function Pad2(n: nat): string
  {
    ZeroPad(n, 2)
  }

  lemma {:induction false} LeadingZero(s: string)
    requires AllDigits(s)
    ensures DigitsValue(['0'] + s) == DigitsValue(s)
    decreases |s|
  {
    var t := ['0'] + s;
    if s != [] {
      assert t[..|t| - 1] == ['0'] + s[..|s| - 1];
      assert t[|t| - 1] == s[|s| - 1];
      LeadingZero(s[..|s| - 1]);
    } else {
      assert t[..|t| - 1] == [];
    }
  }

  lemma {:induction false} LeadingZeros(k: nat, s: string)
    requires AllDigits(s)
    ensures DigitsValue(Zeros(k) + s) == DigitsValue(s)
    decreases k
  {
    if k > 0 {
      assert Zeros(k) + s == ['0'] + (Zeros(k - 1) + s);
      LeadingZero(Zeros(k - 1) + s);
      LeadingZeros(k - 1, s);
    } else {
      assert Zeros(k) + s == s;
    }
  }

  /** Padding keeps the value, and a value below 10^w comes out exactly `w` wide. */
  lemma ZeroPadRoundTrip(n: nat, w: nat)
    ensures DigitsValue(ZeroPad(n, w)) == n
    ensures w >= 1 && n < Pow10(w) ==> |ZeroPad(n, w)| == w
  {
    var t := NatToString(n);
    NatToStringRoundTrip(n);
    if |t| < w {
      LeadingZeros(w - |t|, t);
    }
    if w >= 1 && n < Pow10(w) {
      NatToStringLength(n, w);
    }
  }

  lemma Pad2RoundTrip(n: nat)
    requires n < 100
    ensures |Pad2(n)| == 2 && ParseNat(Pad2(n)) == Some(n)
  {
    ZeroPadRoundTrip(n, 2);
  }

  /** `sep` starts at position `j` of `s`. */
  predicate OccursAt(s: string, sep: string, j: nat)
  {
    j + |sep| <= |s| && s[j..j + |sep|] == sep
  }

  /** Dropping the first character moves every later occurrence one place left. */
  lemma OccursShift(s: string, sep: string, j: nat)
    requires |s| > 0 && j >= 1
    ensures OccursAt(s, sep, j) <==> OccursAt(s[1..], sep, j - 1)
  {
    if j + |sep| <= |s| {
      assert s[1..][j - 1..j - 1 + |sep|] == s[j..j + |sep|];
    }
  }

  /** `s.find(sep)`, as an option. */
  function IndexOf(s: string, sep: string): (r: Option<nat>)
    requires |sep| > 0
    ensures r.Some? ==> OccursAt(s, sep, r.value)
    ensures r.Some? ==> forall j: nat :: j < r.value ==> !OccursAt(s, sep, j)
    ensures r.None? ==> forall j: nat :: !OccursAt(s, sep, j)
    decreases |s|
  {
    if |s| < |sep| then None
    else if s[..|sep|] == sep then Some(0)
    else
      match IndexOf(s[1..], sep)
      case None =>
        assert forall j: nat :: !OccursAt(s, sep, j) by {
          forall j: nat ensures !OccursAt(s, sep, j) {
            if j >= 1 { OccursShift(s, sep, j); }
          }
        }
        None
      case Some(k) =>
        OccursShift(s, sep, k + 1);
        assert forall j: nat :: j < k + 1 ==> !OccursAt(s, sep, j) by {
          forall j: nat | j < k + 1 ensures !OccursAt(s, sep, j) {
            if j >= 1 { OccursShift(s, sep, j); }
          }
        }
        Some(k + 1)
  }

  /** `s.split(sep)` for a non-empty separator. */
  function Split(s: string, sep: string): (parts: seq<string>)
    requires |sep| > 0
    ensures |parts| >= 1
    decreases |s|
  {
    match IndexOf(s, sep)
    case None => [s]
    case Some(i) => [s[..i]] + Split(s[i + |sep|..], sep)
  }

  /** `sep.join(parts)`. */
  function Join(parts: seq<string>, sep: string): string
    decreases |parts|
  {
    if |parts| == 0 then ""
    else if |parts| == 1 then parts[0]
    else parts[0] + sep + Join(parts[1..], sep)
  }

  /** Two pieces are joined by one separator. */
  lemma JoinTwo(parts: seq<string>, sep: string)
    ensures |parts| == 2 ==> Join(parts, sep) == parts[0] + sep + parts[1]
  {
    if |parts| == 2 {
      assert parts[1..] == [parts[1]];
    }
  }

  /** Joining the pieces of a split gives the string back, whatever it holds. */
  lemma {:induction false} JoinSplit(s: string, sep: string)
    requires |sep| > 0
    ensures Join(Split(s, sep), sep) == s
    decreases |s|
  {
    match IndexOf(s, sep)
    case None =>
    case Some(i) =>
      var rest := s[i + |sep|..];
      var tail := Split(rest, sep);
      var parts := [s[..i]] + tail;
      assert Split(s, sep) == parts;
      assert parts[1..] == tail;
      assert Join(parts, sep) == s[..i] + sep + Join(tail, sep);
      JoinSplit(rest, sep);
      AroundOccurrence(s, sep, i);
  }

  /** A string is what comes before an occurrence, the occurrence, and what follows it. */
  lemma AroundOccurrence(s: string, sep: string, i: nat)
    requires OccursAt(s, sep, i)
    ensures s == s[..i] + sep + s[i + |sep|..]
  {
    assert s == s[..i] + s[i..i + |sep|] + s[i + |sep|..];
  }

  lemma {:induction false} IndexOfAbsent(s: string, sep: string)
    requires |sep| > 0 && Lacks(s, sep[0])
    ensures IndexOf(s, sep).None?
  {
  }

  lemma {:induction false} IndexOfAfter(a: string, sep: string, rest: string)
    requires |sep| > 0 && Lacks(a, sep[0])
    ensures IndexOf(a + sep + rest, sep) == Some(|a|)
  {
    var s := a + sep + rest;
    assert OccursAt(s, sep, |a|) by {
      assert s[|a|..|a| + |sep|] == sep;
    }
  }

  /** Splitting undoes joining when no piece holds the separator's first character. */
  lemma {:induction false} SplitJoin(parts: seq<string>, sep: string)
    requires |sep| > 0 && |parts| >= 1
    requires forall k :: 0 <= k < |parts| ==> Lacks(parts[k], sep[0])
    ensures Split(Join(parts, sep), sep) == parts
    decreases |parts|
  {
    if |parts| == 1 {
      IndexOfAbsent(parts[0], sep);
      assert Join(parts, sep) == parts[0];
    } else {
      var a := parts[0];
      var rest := Join(parts[1..], sep);
      var s := a + sep + rest;
      assert Join(parts, sep) == s;
      IndexOfAfter(a, sep, rest);
      assert s[|a| + |sep|..] == rest;
      assert s[..|a|] == a;
      assert Split(s, sep) == [a] + Split(rest, sep);
      SplitJoin(parts[1..], sep);
      assert parts == [a] + parts[1..];
    }
  }

  /** A join holds a character only if a piece or the separator does. */
  lemma {:induction false} JoinLacks(parts: seq<string>, sep: string, c: char)
    requires Lacks(sep, c)
    requires forall k :: 0 <= k < |parts| ==> Lacks(parts[k], c)
    ensures Lacks(Join(parts, sep), c)
    decreases |parts|
  {
    if |parts| > 1 {
      JoinLacks(parts[1..], sep, c);
      var t := Join(parts[1..], sep);
      assert Join(parts, sep) == parts[0] + sep + t;
      forall i | 0 <= i < |parts[0] + sep + t| ensures (parts[0] + sep + t)[i] != c {
        if i < |parts[0]| {
        } else if i < |parts[0]| + |sep| {
          assert (parts[0] + sep + t)[i] == sep[i - |parts[0]|];
        } else {
          assert (parts[0] + sep + t)[i] == t[i - |parts[0]| - |sep|];
        }
      }
    }
  }

  /** `sub in s` for a non-empty `sub`. */
  predicate Contains(s: string, sub: string)
    requires |sub| > 0
  {
    IndexOf(s, sub).Some?
  }

  /** `s.replace(pat, rep)` for a non-empty pattern: every occurrence, left to right. */
  function ReplaceAll(s: string, pat: string, rep: string): string
    requires |pat| > 0
    decreases |s|
  {
    match IndexOf(s, pat)
    case None => s
    case Some(i) => s[..i] + rep + ReplaceAll(s[i + |pat|..], pat, rep)
  }

  lemma {:induction false} ReplaceAllAfter(a: string, pat: string, rest: string)
    requires |pat| > 0 && Lacks(a, pat[0]) && Lacks(rest, pat[0])
    ensures ReplaceAll(a + pat + rest, pat, "") == a + rest
  {
    var s := a + pat + rest;
    IndexOfAfter(a, pat, rest);
    assert s[..|a|] == a;
    assert s[|a| + |pat|..] == rest;
    IndexOfAbsent(rest, pat);
  }

  /** A pattern that occurs once, and first after `a`, is removed once. */
  lemma ReplaceAllFirst(a: string, pat: string, rest: string)
    requires |pat| > 0
    requires forall j: nat :: j < |a| ==> !OccursAt(a + pat + rest, pat, j)
    requires forall j: nat :: !OccursAt(rest, pat, j)
    ensures ReplaceAll(a + pat + rest, pat, "") == a + rest
  {
    var s := a + pat + rest;
    assert s[|a|..|a| + |pat|] == pat;
    assert OccursAt(s, pat, |a|);
    assert s[..|a|] == a;
    assert s[|a| + |pat|..] == rest;
    assert IndexOf(rest, pat).None?;
  }

  /** The decimal text Python prints for the float `k / 10^p`: an optional minus sign,
      the integer part, a point and `p` fraction digits (one `0` when `p == 0`). */
  function FormatFixed(k: int, p: nat): string
  {
    (if k < 0 then "-" else "") + FormatUnsigned(if k < 0 then -k else k, p)
  }

  /** The text of `a / 10^p` without its sign: the digits of `a`, padded to `p + 1`,
      with a point before the last `p` of them. */
  function FormatUnsigned(a: nat, p: nat): string
  {
    var s := ZeroPad(a, p + 1);
    s[..|s| - p] + "." + (if p == 0 then "0" else s[|s| - p..])
  }

  /** `float(t)` for an unsigned decimal: digits, optionally a point and more digits,
      at least one digit in all. */
  function ParseUnsignedDecimal(t: string): Option<real>
  {
    match IndexOf(t, ".")
    case None => if t != [] && AllDigits(t) then Some(DigitsValue(t) as real) else None
    case Some(i) =>
      var ip, fp := t[..i], t[i + 1..];
      if AllDigits(ip) && AllDigits(fp) && |ip| + |fp| > 0 then Some(DecimalValue(ip, fp)) else None
  }

  /** The value of the decimal `ip.fp`. */
  function DecimalValue(ip: string, fp: string): real
    requires AllDigits(ip) && AllDigits(fp)
  {
    DigitsValue(ip) as real + DigitsValue(fp) as real / Pow10(|fp|) as real
  }

  /** `float(s)` for a decimal with an optional sign (no exponent, `inf` or `nan`). */
  function ParseDecimal(s: string): Option<real>
  {
    if |s| > 0 && (s[0] == '-' || s[0] == '+') then
      match ParseUnsignedDecimal(s[1..])
      case None => None
      case Some(v) => Some(if s[0] == '-' then -v else v)
    else ParseUnsignedDecimal(s)
  }

  lemma DigitsLackPoint(s: string, c: char)
    requires AllDigits(s) && !IsDigit(c)
    ensures Lacks(s, c)
  {
  }

  /** The value of a digit string is that of its head shifted left plus that of its tail. */
  lemma {:induction false} DigitsValueSplit(s: string, m: nat)
    requires AllDigits(s) && m <= |s|
    ensures DigitsValue(s) == DigitsValue(s[..m]) * Pow10(|s| - m) + DigitsValue(s[m..])
    decreases |s|
  {
    var n := |s|;
    if m == n {
      assert s[m..] == [];
      assert s[..m] == s;
    } else {
      var init := s[..n - 1];
      var tail := s[m..];
      var d := DigitValue(s[n - 1]);
      DigitsValueSplit(init, m);
      assert init[..m] == s[..m];
      assert init[m..] == s[m..n - 1];
      assert tail[..|tail| - 1] == s[m..n - 1];
      assert tail[|tail| - 1] == s[n - 1];
      var A, B, P := DigitsValue(s[..m]), DigitsValue(s[m..n - 1]), Pow10(n - 1 - m);
      assert DigitsValue(s) == 10 * DigitsValue(init) + d;
      assert DigitsValue(tail) == 10 * B + d;
      assert Pow10(n - m) == 10 * P;
      Distribute(A, B, P, DigitsValue(init), d);
    }
  }

  lemma Distribute(A: int, B: int, P: int, v: int, d: int)
    requires v == A * P + B
    ensures 10 * v + d == A * (10 * P) + (10 * B + d)
  {
  }

  lemma ShiftAsReal(A: nat, B: nat, P: nat)
    requires P >= 1
    ensures A as real + B as real / P as real == (A * P + B) as real / P as real
  {
    assert (A * P) as real == A as real * P as real;
  }

  lemma PointPosition(ip: string, fp: string)
    requires AllDigits(ip) && |ip| > 0
    ensures IndexOf(ip + "." + fp, ".") == Some(|ip|)
    ensures (ip + "." + fp)[..|ip|] == ip && (ip + "." + fp)[|ip| + 1..] == fp
  {
    DigitsLackPoint(ip, '.');
    IndexOfAfter(ip, ".", fp);
  }

  lemma ParseAtPoint(t: string, ip: string, fp: string)
    requires AllDigits(ip) && AllDigits(fp) && |ip| > 0
    requires IndexOf(t, ".") == Some(|ip|) && t[..|ip|] == ip && t[|ip| + 1..] == fp
    ensures ParseUnsignedDecimal(t) == Some(DecimalValue(ip, fp))
  {
  }

  /** Digits, a point and digits read back as the integer part plus the scaled fraction. */
  lemma PointedDecimal(ip: string, fp: string)
    requires AllDigits(ip) && AllDigits(fp) && |ip| > 0
    ensures ParseUnsignedDecimal(ip + "." + fp) == Some(DecimalValue(ip, fp))
  {
    PointPosition(ip, fp);
    ParseAtPoint(ip + "." + fp, ip, fp);
  }

  /** The padded digits of `a` cut before their last `p` characters. */
  lemma {:induction false} PaddedSplit(a: nat, p: nat)
    ensures |ZeroPad(a, p + 1)| >= p + 1
    ensures var s := ZeroPad(a, p + 1); var L := |s|;
      a == DigitsValue(s[..L - p]) * Pow10(p) + DigitsValue(s[L - p..])
  {
    var s := ZeroPad(a, p + 1);
    ZeroPadRoundTrip(a, p + 1);
    DigitsValueSplit(s, |s| - p);
  }

  lemma {:induction false} DecimalValueShift(ip: string, fp: string, a: nat)
    requires AllDigits(ip) && AllDigits(fp)
    requires a == DigitsValue(ip) * Pow10(|fp|) + DigitsValue(fp)
    ensures DecimalValue(ip, fp) == a as real / Pow10(|fp|) as real
  {
    ShiftAsReal(DigitsValue(ip), DigitsValue(fp), Pow10(|fp|));
  }

  lemma DecimalValueZero(ip: string)
    requires AllDigits(ip)
    ensures DecimalValue(ip, "0") == DigitsValue(ip) as real
  {
    var z := "0";
    assert z[..|z| - 1] == [];
  }

  /** The unsigned text reads back as `a / 10^p`, and starts with a digit. */
  lemma FormatUnsignedRoundTrip(a: nat, p: nat)
    ensures ParseUnsignedDecimal(FormatUnsigned(a, p)) == Some(a as real / Pow10(p) as real)
    ensures |FormatUnsigned(a, p)| > 0 && IsDigit(FormatUnsigned(a, p)[0])
  {
    var ip, fp := UnsignedParts(a, p);
    assert (ip + "." + fp)[0] == ip[0];
    UnsignedValue(a, p, ip, fp);
  }

  lemma UnsignedValue(a: nat, p: nat, ip: string, fp: string)
    requires AllDigits(ip) && AllDigits(fp) && |ip| > 0
    requires p == 0 ==> fp == "0" && a == DigitsValue(ip)
    requires p > 0 ==> |fp| == p && a == DigitsValue(ip) * Pow10(|fp|) + DigitsValue(fp)
    ensures ParseUnsignedDecimal(ip + "." + fp) == Some(a as real / Pow10(p) as real)
  {
    PointedDecimal(ip, fp);
    if p == 0 {
      WholeValue(a, ip);
    } else {
      DecimalValueShift(ip, fp, a);
    }
  }

  lemma WholeValue(a: nat, ip: string)
    requires AllDigits(ip) && a == DigitsValue(ip)
    ensures DecimalValue(ip, "0") == a as real / Pow10(0) as real
  {
    DecimalValueZero(ip);
  }

  /** The unsigned text is whole digits, a point and fraction digits that make up `a`. */
  lemma {:induction false} UnsignedParts(a: nat, p: nat) returns (ip: string, fp: string)
    ensures AllDigits(ip) && AllDigits(fp) && |ip| > 0
    ensures FormatUnsigned(a, p) == ip + "." + fp
    ensures p == 0 ==> fp == "0" && a == DigitsValue(ip)
    ensures p > 0 ==> |fp| == p && a == DigitsValue(ip) * Pow10(|fp|) + DigitsValue(fp)
  {
    var s := ZeroPad(a, p + 1);
    var L := |s|;
    PaddedSplit(a, p);
    ip := s[..L - p];
    fp := if p == 0 then "0" else s[L - p..];
    if p == 0 {
      assert s[L..] == [];
    }
  }

  /** A sign in front of an unsigned decimal negates it or leaves it as it is. */
  lemma SignedDecimal(t: string, v: real, neg: bool)
    requires |t| > 0 && t[0] != '-' && t[0] != '+' && ParseUnsignedDecimal(t) == Some(v)
    ensures ParseDecimal((if neg then "-" else "") + t) == Some(if neg then -v else v)
  {
    if neg {
      var s := "-" + t;
      assert s[1..] == t;
    } else {
      assert "" + t == t;
    }
  }

  /** Reading the printed coordinate back with `float` gives exactly `k / 10^p`. */
  lemma {:induction false} FormatFixedRoundTrip(k: int, p: nat)
    ensures ParseDecimal(FormatFixed(k, p)) == Some(k as real / Pow10(p) as real)
  {
    var a: nat := if k < 0 then -k else k;
    FormatUnsignedRoundTrip(a, p);
    SignedDecimal(FormatUnsigned(a, p), a as real / Pow10(p) as real, k < 0);
    SignedQuotient(k, a, Pow10(p));
  }

  lemma SignedQuotient(k: int, a: nat, P: nat)
    requires P >= 1 && a == (if k < 0 then -k else k)
    ensures (if k < 0 then -(a as real / P as real) else a as real / P as real) == k as real / P as real
  {
  }

  /** The printed coordinate holds only digits, `-` and `.`: never an underscore. */
  lemma FormatFixedLacksUnderscore(k: int, p: nat)
    ensures Lacks(FormatFixed(k, p), '_')
  {
    var s := ZeroPad(if k < 0 then -k else k, p + 1);
    DigitsLackPoint(s, '_');
  }
}
