/** The string primitives the engine relies on: `toLowerCase`, `includes`,
    `trim`, `split(' ')`, decimal digits and `parseInt` / `toString`. */
module Text {
  import opened Seqs

  predicate IsDigit(c: char) { '0' <= c <= '9' }

  predicate AllDigits(s: string) { forall i :: 0 <= i < |s| ==> IsDigit(s[i]) }

  function DigitValue(c: char): (v: nat)
    requires IsDigit(c)
    ensures v < 10
  {
    (c as int) - ('0' as int)
  }

  function DigitChar(d: nat): (c: char)
    requires d < 10
    ensures IsDigit(c) && DigitValue(c) == d
  {
    ('0' as int + d) as char
  }

  /** ASCII case mapping of one character. */
  function LowerChar(c: char): (r: char)
    ensures !('A' <= r <= 'Z')
    ensures !('A' <= c <= 'Z') ==> r == c
  {
    if 'A' <= c <= 'Z' then (c as int + 32) as char else c
  }

  /** `String.prototype.toLowerCase`, on the ASCII letters. */
  function ToLower(s: string): (r: string)
    ensures |r| == |s|
    ensures forall i :: 0 <= i < |s| ==> r[i] == LowerChar(s[i])
  {
    seq(|s|, i requires 0 <= i < |s| => LowerChar(s[i]))
  }

  lemma ToLowerConcat(a: string, b: string)
    ensures ToLower(a + b) == ToLower(a) + ToLower(b)
  {
  }

  /** `p` occurs in `s` at position `i`. */
  predicate StartsAt(s: string, i: nat, p: string)
  {
    i + |p| <= |s| && s[i..i + |p|] == p
  }

  /** `String.prototype.includes`. */
  predicate Contains(s: string, p: string)
  {
    exists i :: 0 <= i <= |s| && StartsAt(s, i, p)
  }

  /** `s` mentions at least one of `phrases`. */
  predicate ContainsAny(s: string, phrases: seq<string>)
  {
    exists k :: 0 <= k < |phrases| && Contains(s, phrases[k])
  }

  /** The characters `String.prototype.trim` removes: ECMAScript's
      WhiteSpace and LineTerminator code points. */
  predicate IsSpace(c: char)
  {
    c == ' ' || c == '\t' || c == '\n' || c == '\r' || c == '\U{000B}' || c == '\U{000C}'
    || c == '\U{00A0}' || c == '\U{1680}' || ('\U{2000}' <= c <= '\U{200A}')
    || c == '\U{2028}' || c == '\U{2029}' || c == '\U{202F}' || c == '\U{205F}'
    || c == '\U{3000}' || c == '\U{FEFF}'
  }

  function TrimStart(s: string): (r: string)
    ensures |r| <= |s| && r == s[|s| - |r|..]
    ensures |r| > 0 ==> !IsSpace(r[0])
    ensures forall i :: 0 <= i < |s| - |r| ==> IsSpace(s[i])
  {
    if |s| > 0 && IsSpace(s[0]) then TrimStart(s[1..]) else s
  }

  function TrimEnd(s: string): (r: string)
    ensures |r| <= |s| && r == s[..|r|]
    ensures |r| > 0 ==> !IsSpace(r[|r| - 1])
    ensures forall i :: |r| <= i < |s| ==> IsSpace(s[i])
  {
    if |s| > 0 && IsSpace(s[|s| - 1]) then TrimEnd(s[..|s| - 1]) else s
  }

  /** `String.prototype.trim`: `s` without its leading and trailing
      white space. */
  function Trim(s: string): (r: string)
    ensures |r| > 0 ==> !IsSpace(r[0]) && !IsSpace(r[|r| - 1])
  {
    TrimEnd(TrimStart(s))
  }

  /** `s.split(sep)` for a one-character separator: the fields between
      separators, always at least one (the empty string splits to `[""]`). */
  function Split(s: string, sep: char): (r: seq<string>)
    ensures |r| >= 1
    ensures forall i :: 0 <= i < |r| ==> sep !in r[i]
    decreases |s|
  {
    var k := IndexOf(s, sep);
    if k == |s| then [s] else [s[..k]] + Split(s[k + 1..], sep)
  }

  /** `ws.join(sep)`: the inverse of `Split`. */
  function Join(ws: seq<string>, sep: char): string
    requires |ws| >= 1
  {
    if |ws| == 1 then ws[0] else ws[0] + [sep] + Join(ws[1..], sep)
  }

  lemma {:induction false} SplitThenJoin(s: string, sep: char)
    ensures Join(Split(s, sep), sep) == s
    decreases |s|
  {
    var k := IndexOf(s, sep);
    if k < |s| {
      var rest := Split(s[k + 1..], sep);
      assert Split(s, sep) == [s[..k]] + rest;
      SplitThenJoin(s[k + 1..], sep);
      assert Join([s[..k]] + rest, sep) == s[..k] + [sep] + Join(rest, sep) by {
        assert ([s[..k]] + rest)[1..] == rest;
      }
      assert s == s[..k] + [sep] + s[k + 1..];
    }
  }

  lemma {:induction false} JoinThenSplit(ws: seq<string>, sep: char)
    requires |ws| >= 1
    requires forall i :: 0 <= i < |ws| ==> sep !in ws[i]
    ensures Split(Join(ws, sep), sep) == ws
    decreases |ws|
  {
    if |ws| == 1 {
      IndexOfAbsent(ws[0], sep);
    } else {
      var s := Join(ws, sep);
      var rest := Join(ws[1..], sep);
      assert s == ws[0] + ([sep] + rest);
      IndexOfAfter(ws[0], [sep] + rest, sep);
      assert s[|ws[0]| + 1..] == rest;
      JoinThenSplit(ws[1..], sep);
      assert ws == [ws[0]] + ws[1..];
    }
  }

  lemma {:induction false} IndexOfAbsent(s: string, c: char)
    requires c !in s
    ensures IndexOf(s, c) == |s|
  {
  }

  lemma IndexOfAfter(a: string, b: string, c: char)
    requires c !in a && |b| > 0 && b[0] == c
    ensures IndexOf(a + b, c) == |a|
  {
    assert (a + b)[|a|] == c;
    forall j | 0 <= j < |a|
      ensures (a + b)[j] != c
    {
      assert (a + b)[j] == a[j] && a[j] in a;
    }
  }

  /** `words[0]` of `s.split(' ')`. */
  function FirstWord(s: string): string
  {
    Split(s, ' ')[0]
  }

  /** `words[words.length - 1]` of `s.split(' ')`. */
  function LastWord(s: string): string
  {
    var ws := Split(s, ' ');
    ws[|ws| - 1]
  }

  /** The first word runs up to the first space. */
  lemma FirstWordIsPrefix(w: string, rest: string)
    requires ' ' !in w
    ensures FirstWord(w + " " + rest) == w
  {
    IndexOfAfter(w, " " + rest, ' ');
    assert w + " " + rest == w + (" " + rest);
  }

  /** The last word runs from the last space. */
  lemma {:induction false} LastWordIsSuffix(rest: string, w: string)
    requires ' ' !in w
    ensures LastWord(rest + " " + w) == w
    decreases |rest|
  {
    var s := rest + " " + w;
    var k := IndexOf(s, ' ');
    if k < |rest| {
      assert s[k + 1..] == rest[k + 1..] + " " + w;
      LastWordIsSuffix(rest[k + 1..], w);
    } else {
      assert s[|rest|] == ' ';
      assert k == |rest|;
      assert s[k + 1..] == w;
      IndexOfAbsent(w, ' ');
      assert Split(w, ' ') == [w];
      assert Split(s, ' ') == [s[..k]] + [w];
    }
  }

  /** The value of a string of decimal digits, read left to right
      (`parseInt` of a digit run). */
  function ParseDigits(ds: string): nat
    requires AllDigits(ds)
  {
    if |ds| == 0 then 0
    else ParseDigits(ds[..|ds| - 1]) * 10 + DigitValue(ds[|ds| - 1])
  }

  /** The decimal rendering of `n` (`Number.prototype.toString`). */
  function Decimal(n: nat): (r: string)
    ensures |r| >= 1 && AllDigits(r)
    ensures r[0] == '0' ==> n == 0
  {
    if n < 10 then [DigitChar(n)] else Decimal(n / 10) + [DigitChar(n % 10)]
  }

  /** Reading back a rendered number gives the number. */
  lemma {:induction false} ParseDecimal(n: nat)
    ensures ParseDigits(Decimal(n)) == n
  {
    if n >= 10 {
      var d := Decimal(n);
      assert d[..|d| - 1] == Decimal(n / 10);
      ParseDecimal(n / 10);
    }
  }

  /** Rendering a digit string without leading zeros gives it back. */
  lemma {:induction false} DecimalParse(ds: string)
    requires |ds| >= 1 && AllDigits(ds) && (ds[0] == '0' ==> |ds| == 1)
    ensures Decimal(ParseDigits(ds)) == ds
    decreases |ds|
  {
    if |ds| > 1 {
      var init := ds[..|ds| - 1];
      DecimalParse(init);
      PositiveValue(init);
    }
  }

  lemma {:induction false} PositiveValue(ds: string)
    requires |ds| >= 1 && AllDigits(ds) && ds[0] != '0'
    ensures ParseDigits(ds) >= 1
    decreases |ds|
  {
    if |ds| > 1 {
      PositiveValue(ds[..|ds| - 1]);
    }
  }

  function Pow10(k: nat): (p: nat)
    ensures p >= 1
  {
    if k == 0 then 1 else 10 * Pow10(k - 1)
  }

  lemma {:induction false} Pow10Grows(j: nat, k: nat)
    requires j <= k
    ensures Pow10(j) <= Pow10(k)
    decreases k
  {
    if j < k {
      Pow10Grows(j, k - 1);
    }
  }

  /** A digit string of length `k` is worth less than `10^k`. */
  lemma {:induction false} ParseBelow(ds: string)
    requires AllDigits(ds)
    ensures ParseDigits(ds) < Pow10(|ds|)
    decreases |ds|
  {
    if |ds| > 0 {
      ParseBelow(ds[..|ds| - 1]);
    }
  }

  /** The last `k` digits are worth the value modulo `10^k`. */
  lemma {:induction false} ParseSuffix(ds: string, k: nat)
    requires AllDigits(ds) && k <= |ds|
    ensures ParseDigits(ds[|ds| - k..]) == ParseDigits(ds) % Pow10(k)
    decreases k
  {
    if k == 0 {
      assert ds[|ds|..] == [];
    } else {
      var init := ds[..|ds| - 1];
      var d := DigitValue(ds[|ds| - 1]);
      var suffix := ds[|ds| - k..];
      assert suffix[..|suffix| - 1] == init[|init| - (k - 1)..];
      assert suffix[|suffix| - 1] == ds[|ds| - 1];
      ParseSuffix(init, k - 1);
      var m := Pow10(k - 1);
      var a := ParseDigits(init);
      ModStep(a, m, d);
    }
  }

  /** `(10a + d) mod 10m` is `10 (a mod m) + d` for a digit `d`. */
  lemma ModStep(a: nat, m: nat, d: nat)
    requires m >= 1 && d < 10
    ensures (a * 10 + d) % (10 * m) == (a % m) * 10 + d
  {
    var q := a / m;
    var r := a % m;
    assert a == q * m + r;
    assert a * 10 + d == q * (10 * m) + (r * 10 + d);
    assert 0 <= r * 10 + d < 10 * m;
    ModUnique(a * 10 + d, q, r * 10 + d, 10 * m);
  }

  lemma ModUnique(x: int, q: int, r: int, m: int)
    requires m > 0 && 0 <= r < m && x == q * m + r
    ensures x % m == r
  {
    var q' := x / m;
    var r' := x % m;
    assert (q - q') * m == r' - r;
    if q - q' >= 1 {
      MulAtLeast(q - q', m);
    } else if q' - q >= 1 {
      MulAtLeast(q' - q, m);
    }
  }

  lemma MulAtLeast(k: int, m: int)
    requires k >= 1 && m > 0
    ensures k * m >= m
  {
    assert k * m == (k - 1) * m + m;
  }
}
