/**
 * The Python built-ins that the media helpers rely on: `int(x)` on a float,
 * `min`/`max` and floor division on integers, and of the string built-ins `str.split()`
 * with no separator, `" ".join`, `str.lower()` as far as it matters for the
 * ASCII keys compared against, `str(n)`, the `%04d` format, prefix and
 * suffix tests, and the POSIX `os.path.join` / `os.path.splitext` rules.
 */
module Builtins {

  datatype Option<+T> = None | Some(value: T)

  // ----- numbers -----

  /** Python's `int(x)` on a number: truncation toward zero. */
  function Trunc(x: real): (n: int)
    ensures x >= 0.0 ==> n >= 0 && n as real <= x < n as real + 1.0
  {
    if x >= 0.0 then x.Floor else -((-x).Floor)
  }

  lemma TruncMonotone(x: real, y: real)
    requires 0.0 <= x <= y
    ensures Trunc(x) <= Trunc(y)
  {
  }

  lemma RealMulMonotone(a: real, b: real, c: real)
    requires a <= b && 0.0 <= c
    ensures a * c <= b * c
  {
  }

  lemma RealDivMonotone(a: real, b: real, c: real)
    requires a <= b && 0.0 < c
    ensures a / c <= b / c
  {
    var qa, qb := a / c, b / c;
    assert qa * c == a && qb * c == b;
    if qb < qa {
      RealMulMonotone(qb, qa, c);
    }
  }

  function Max0(n: int): nat {
    if n < 0 then 0 else n
  }

  function Min(a: int, b: int): int {
    if a <= b then a else b
  }

  /** `str.isspace()` for one character: every character Python treats as
      whitespace when splitting a `str` with no separator. */
  predicate IsSpace(c: char) {
    || c == ' ' || c == '\t' || c == '\n' || c == '\r'
    || c == '\U{0B}' || c == '\U{0C}'
    || ('\U{1C}' <= c <= '\U{1F}')
    || c == '\U{85}' || c == '\U{A0}' || c == '\U{1680}'
    || ('\U{2000}' <= c <= '\U{200A}')
    || c == '\U{2028}' || c == '\U{2029}' || c == '\U{202F}'
    || c == '\U{205F}' || c == '\U{3000}'
  }

  predicate NoSpace(w: string) {
    forall i :: 0 <= i < |w| ==> !IsSpace(w[i])
  }

  /** What `str.split()` can produce: a non-empty run of non-space characters. */
  predicate IsWord(w: string) {
    |w| > 0 && NoSpace(w)
  }

  predicate AllWords(ws: seq<string>) {
    forall i :: 0 <= i < |ws| ==> IsWord(ws[i])
  }

  /** Drops the leading whitespace of `s`. */
  function SkipSpaces(s: string): (r: string)
    ensures |r| <= |s| && r == s[|s| - |r|..]
    ensures r == [] || !IsSpace(r[0])
  {
    if s != [] && IsSpace(s[0]) then SkipSpaces(s[1..]) else s
  }

  /** Length of the leading run of non-space characters of `s`. */
  function WordEnd(s: string): (n: nat)
    ensures n <= |s|
    ensures NoSpace(s[..n])
    ensures n < |s| ==> IsSpace(s[n])
    ensures s != [] && !IsSpace(s[0]) ==> n > 0
  {
    if s == [] || IsSpace(s[0]) then 0
    else
      var m := WordEnd(s[1..]);
      assert s[..m + 1] == [s[0]] + s[1..][..m];
      m + 1
  }

  /** `s.split()`: the maximal runs of non-space characters, in order. */
  function SplitWords(s: string): (ws: seq<string>)
    ensures AllWords(ws)
    decreases |s|
  {
    var t := SkipSpaces(s);
    if t == [] then []
    else
      var n := WordEnd(t);
      var rest := SplitWords(t[n..]);
      WordsCons(t[..n], rest);
      [t[..n]] + rest
  }

  lemma WordsCons(w: string, ws: seq<string>)
    requires IsWord(w) && AllWords(ws)
    ensures AllWords([w] + ws)
  {
    assert forall i :: 0 < i <= |ws| ==> ([w] + ws)[i] == ws[i - 1];
  }

  /** `" ".join(ws)`. */
  function JoinSpace(ws: seq<string>): string {
    if |ws| == 0 then ""
    else if |ws| == 1 then ws[0]
    else ws[0] + ([' '] + JoinSpace(ws[1..]))
  }

  lemma {:induction false} WordEndOfWord(w: string, rest: string)
    requires NoSpace(w)
    requires rest == [] || IsSpace(rest[0])
    ensures WordEnd(w + rest) == |w|
  {
    if w != [] {
      assert (w + rest)[1..] == w[1..] + rest;
      WordEndOfWord(w[1..], rest);
    }
  }

  lemma SplitAfterSpace(c: char, s: string)
    requires IsSpace(c)
    ensures SplitWords([c] + s) == SplitWords(s)
  {
    assert ([c] + s)[1..] == s;
  }

  /** A word followed by nothing or by whitespace is split off whole. */
  lemma SplitWordThen(w: string, rest: string)
    requires IsWord(w)
    requires rest == [] || IsSpace(rest[0])
    ensures SplitWords(w + rest) == [w] + SplitWords(rest)
  {
    var s := w + rest;
    WordEndOfWord(w, rest);
    assert SkipSpaces(s) == s;
    assert s[..|w|] == w;
    assert s[|w|..] == rest;
  }

  /** Splitting undoes joining: the words of `" ".join(ws)` are `ws`. */
  lemma {:induction false} SplitJoin(ws: seq<string>)
    requires AllWords(ws)
    ensures SplitWords(JoinSpace(ws)) == ws
  {
    if |ws| == 0 {
      SplitNothing();
    } else if |ws| == 1 {
      SplitOne(ws);
    } else {
      TailWords(ws);
      SplitJoin(ws[1..]);
      SplitJoinCons(ws);
    }
  }

  lemma TailWords(ws: seq<string>)
    requires AllWords(ws) && ws != []
    ensures IsWord(ws[0]) && AllWords(ws[1..])
  {
    assert forall i :: 0 <= i < |ws[1..]| ==> ws[1..][i] == ws[i + 1];
  }

  lemma SplitJoinCons(ws: seq<string>)
    requires |ws| > 1 && IsWord(ws[0])
    requires SplitWords(JoinSpace(ws[1..])) == ws[1..]
    ensures SplitWords(JoinSpace(ws)) == ws
  {
    HeadTail(ws);
    SplitJoinStep(ws);
  }

  lemma HeadTail<T>(s: seq<T>)
    requires s != []
    ensures s == [s[0]] + s[1..]
  {
  }

  lemma SplitNothing()
    ensures SplitWords([]) == []
  {
    assert SkipSpaces([]) == [];
  }

  lemma SplitOne(ws: seq<string>)
    requires |ws| == 1 && IsWord(ws[0])
    ensures SplitWords(JoinSpace(ws)) == ws
  {
    assert JoinSpace(ws) == ws[0] + [];
    SplitWordThen(ws[0], []);
    SplitNothing();
    HeadTail(ws);
  }

  /** One step of `SplitJoin`: the first word and the space after it. */
  lemma SplitJoinStep(ws: seq<string>)
    requires |ws| > 1 && IsWord(ws[0])
    ensures SplitWords(JoinSpace(ws)) == [ws[0]] + SplitWords(JoinSpace(ws[1..]))
  {
    var j := JoinSpace(ws[1..]);
    SplitWordThen(ws[0], [' '] + j);
    SplitAfterSpace(' ', j);
  }

  /** The joined text has a space exactly when it joins two or more words. */
  lemma {:induction false} JoinSpaceHasSpace(ws: seq<string>)
    requires AllWords(ws)
    ensures NoSpace(JoinSpace(ws)) <==> |ws| <= 1
  {
    if |ws| > 1 {
      assert JoinSpace(ws)[|ws[0]|] == ' ';
    }
  }

  /** `" ".join(ws) == key` for a single word `key` holds only for `ws == [key]`. */
  lemma JoinEqualsWord(ws: seq<string>, key: string)
    requires AllWords(ws) && IsWord(key)
    ensures JoinSpace(ws) == key <==> ws == [key]
  {
    JoinSpaceHasSpace(ws);
  }

  // ----- floor division (`//` and `%` on a positive divisor) -----

  lemma {:induction false} MulMonotone(a: int, b: int, c: nat)
    requires a <= b
    ensures a * c <= b * c
    decreases c
  {
    if c > 0 {
      MulMonotone(a, b, c - 1);
      assert a * c == a * (c - 1) + a;
      assert b * c == b * (c - 1) + b;
    }
  }

  /** Quotient and remainder are the only pair with `n == q * d + r`, `0 <= r < d`. */
  lemma DivModUnique(n: int, d: int, q: int, r: int)
    requires 0 < d && 0 <= r < d && n == q * d + r
    ensures n / d == q && n % d == r
  {
    var q0, r0 := n / d, n % d;
    assert n == q0 * d + r0;
    assert (q0 + 1) * d == q0 * d + d;
    assert (q + 1) * d == q * d + d;
    if q0 < q {
      MulMonotone(q0 + 1, q, d);
      assert false;
    }
    if q < q0 {
      MulMonotone(q + 1, q0, d);
      assert false;
    }
  }

  lemma PositiveFactors(a: nat, b: int)
    requires 0 < a * b
    ensures 0 < b
  {
    if b <= 0 {
      MulMonotone(b, 0, a);
      assert false;
    }
  }

  lemma DivMonotone(a: int, b: int, d: nat)
    requires a <= b && 0 < d
    ensures a / d <= b / d
  {
    var qa, qb := a / d, b / d;
    assert qa * d <= a;
    assert b < qb * d + d;
    assert (qb + 1) * d == qb * d + d;
    if qb < qa {
      MulMonotone(qb + 1, qa, d);
      assert false;
    }
  }

  // ----- case folding -----

  /** `c.lower()` for every character whose lower case is ASCII: the ASCII
      capitals and the Kelvin sign. Other characters are kept as they are;
      Python maps them to non-ASCII text, which no ASCII key can equal. */
  function LowerChar(c: char): (r: char)
    ensures 'A' <= c <= 'Z' ==> r as int == c as int + 32
    ensures r != c ==> ('a' <= r <= 'z')
  {
    if 'A' <= c <= 'Z' then (c as int + 32) as char
    else if c == '\U{212A}' then 'k'
    else c
  }

  function Lower(s: string): (r: string)
    ensures |r| == |s|
  {
    seq(|s|, i requires 0 <= i < |s| => LowerChar(s[i]))
  }

  lemma LowerIdempotent(s: string)
    ensures Lower(Lower(s)) == Lower(s)
  {
  }

  // ----- prefixes and suffixes -----

  predicate StartsWith(s: string, prefix: string) {
    |prefix| <= |s| && s[..|prefix|] == prefix
  }

  predicate EndsWith(s: string, suffix: string) {
    |suffix| <= |s| && s[|s| - |suffix|..] == suffix
  }

  // ----- integers as text -----

  function DigitChar(d: nat): (c: char)
    requires d < 10
    ensures '0' <= c <= '9' && c as int - '0' as int == d
  {
    (d + '0' as int) as char
  }

  predicate IsDigits(s: string) {
    forall i :: 0 <= i < |s| ==> '0' <= s[i] <= '9'
  }

  /** `str(n)` for a natural number: decimal digits without leading zeros. */
  function DecimalDigits(n: nat): (s: string)
    ensures |s| >= 1 && IsDigits(s)
    ensures |s| > 1 ==> s[0] != '0'
    ensures n < 10 <==> |s| == 1
  {
    if n < 10 then [DigitChar(n)] else DecimalDigits(n / 10) + [DigitChar(n % 10)]
  }

  /** The value of a string of decimal digits (leading zeros allowed). */
  function ParseDecimal(s: string): nat
    requires IsDigits(s)
  {
    if s == [] then 0
    else ParseDecimal(s[..|s| - 1]) * 10 + (s[|s| - 1] as int - '0' as int)
  }

  lemma {:induction false} ParseDecimalDigits(n: nat)
    ensures ParseDecimal(DecimalDigits(n)) == n
  {
    if n >= 10 {
      var s := DecimalDigits(n);
      assert s[..|s| - 1] == DecimalDigits(n / 10);
      ParseDecimalDigits(n / 10);
    }
  }

  function Zeros(k: nat): (z: string)
    ensures |z| == k && IsDigits(z)
    ensures forall i :: 0 <= i < k ==> z[i] == '0'
  {
    if k == 0 then [] else ['0'] + Zeros(k - 1)
  }

  /** Leading zeros do not change the value. */
  lemma {:induction false} ParseDecimalZeros(k: nat, s: string)
    requires IsDigits(s)
    ensures ParseDecimal(Zeros(k) + s) == ParseDecimal(s)
    decreases |s|
  {
    if s == [] {
      ParseOfZeros(k);
      assert Zeros(k) + s == Zeros(k);
    } else {
      var t := Zeros(k) + s;
      assert t[..|t| - 1] == Zeros(k) + s[..|s| - 1];
      ParseDecimalZeros(k, s[..|s| - 1]);
    }
  }

  lemma {:induction false} ParseOfZeros(k: nat)
    ensures ParseDecimal(Zeros(k)) == 0
  {
    if k > 0 {
      assert Zeros(k)[..k - 1] == Zeros(k - 1) by {
        ZerosSplit(k);
      }
      ParseOfZeros(k - 1);
    }
  }

  lemma ZerosSplit(k: nat)
    requires k > 0
    ensures Zeros(k) == Zeros(k - 1) + ['0']
  {
  }

  /** `s` padded on the left with '0' to at least `width` characters. */
  function PadZeros(s: string, width: nat): (r: string)
    ensures |r| == if |s| < width then width else |s|
    ensures IsDigits(s) ==> IsDigits(r)
  {
    if |s| < width then Zeros(width - |s|) + s else s
  }

  /** Python's `f"{n:04d}"`: the sign counts towards the width of four. */
  function Format04(n: int): (s: string)
    ensures |s| >= 4
    ensures n >= 0 ==> IsDigits(s)
    ensures n < 0 <==> s[0] == '-'
  {
    if n >= 0 then PadZeros(DecimalDigits(n), 4)
    else ['-'] + PadZeros(DecimalDigits(-n), 3)
  }

  /** Reading back a zero-padded number gives the number. */
  lemma ParsePadded(n: nat, width: nat)
    ensures ParseDecimal(PadZeros(DecimalDigits(n), width)) == n
  {
    var d := DecimalDigits(n);
    ParseDecimalDigits(n);
    if |d| < width {
      ParseDecimalZeros(width - |d|, d);
    }
  }

  lemma PaddedInjective(a: nat, b: nat, width: nat)
    requires PadZeros(DecimalDigits(a), width) == PadZeros(DecimalDigits(b), width)
    ensures a == b
  {
    ParsePadded(a, width);
    ParsePadded(b, width);
  }

  /** Distinct numbers get distinct `%04d` texts. */
  lemma Format04Injective(a: int, b: int)
    requires Format04(a) == Format04(b)
    ensures a == b
  {
    SameSign(a, b);
    if a >= 0 {
      NonNegativeInjective(a, b);
    } else {
      NegativeInjective(a, b);
    }
  }

  lemma FormatSign(n: int)
    ensures n >= 0 ==> Format04(n) == PadZeros(DecimalDigits(n), 4) && Format04(n)[0] != '-'
    ensures n < 0 ==> Format04(n)[0] == '-' && Format04(n)[1..] == PadZeros(DecimalDigits(-n), 3)
  {
  }

  lemma SameSign(a: int, b: int)
    requires Format04(a) == Format04(b)
    ensures a >= 0 <==> b >= 0
  {
    FormatSign(a);
    FormatSign(b);
  }

  lemma NonNegativeInjective(a: int, b: int)
    requires Format04(a) == Format04(b) && a >= 0 && b >= 0
    ensures a == b
  {
    FormatSign(a);
    FormatSign(b);
    PaddedInjective(a, b, 4);
  }

  lemma NegativeInjective(a: int, b: int)
    requires Format04(a) == Format04(b) && a < 0 && b < 0
    ensures a == b
  {
    var na: nat, nb: nat := -a, -b;
    NegativeTail(a, na);
    NegativeTail(b, nb);
    PaddedInjective(na, nb, 3);
  }

  lemma NegativeTail(n: int, m: nat)
    requires n < 0 && m == -n
    ensures Format04(n)[1..] == PadZeros(DecimalDigits(m), 3)
  {
  }

  // ----- POSIX paths -----

  /** `os.path.join(folder, name)` for a relative `name`. */
  function PathJoin(folder: string, name: string): (p: string)
    requires name == [] || name[0] != '/'
    ensures EndsWith(p, name)
  {
    if folder == [] || folder[|folder| - 1] == '/' then folder + name
    else folder + "/" + name
  }

  /** Index of the last occurrence of `c` in `s`, or -1 (`str.rfind`). */
  function RFind(s: string, c: char): (k: int)
    ensures -1 <= k < |s|
    ensures k >= 0 ==> s[k] == c
    ensures forall i :: k < i < |s| ==> s[i] != c
  {
    if s == [] then -1
    else if s[|s| - 1] == c then |s| - 1
    else RFind(s[..|s| - 1], c)
  }

  /** The root part of `os.path.splitext(p)`: the text before the last dot of
      the last path component, unless that component has only dots before it
      (a hidden file like `.bashrc` has no extension). */
  function SplitExtRoot(p: string): (root: string)
    ensures StartsWith(p, root)
  {
    var sep, dot := RFind(p, '/'), RFind(p, '.');
    if dot > sep && exists i :: sep + 1 <= i < dot && p[i] != '.' then p[..dot] else p
  }
}
