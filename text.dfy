/** The parts of Python's `str` and `int` behaviour that the deployment tool
    and the HLTV API rely on: `strip`, `split`, `join`, `str(int)`, `int(str)`,
    `upper`, `title`, `startswith`/`endswith`. */
module Text {
  import opened Options

  // ---------------------------------------------------------------------
  // Whitespace and trimming
  // ---------------------------------------------------------------------

  /** Python's `str.isspace()` for one character: the ASCII controls
      \t \n \v \f \r and \x1c..\x1f, the space, and the Unicode spaces
      and separators. */
  predicate IsSpace(c: char) {
    var n := c as int;
    (9 <= n <= 13) || (28 <= n <= 32) || n == 0x85 || n == 0xA0 || n == 0x1680
    || (0x2000 <= n <= 0x200A) || n == 0x2028 || n == 0x2029 || n == 0x202F
    || n == 0x205F || n == 0x3000
  }

  /** The characters a strip removes: whitespace for `s.strip()`, one
      given character for `s.strip(c)`. */
  datatype Strippable = Whitespace | Only(c: char)

  predicate Drops(k: Strippable, x: char) {
    match k
    case Whitespace => IsSpace(x)
    case Only(c) => x == c
  }

  /** Drops the longest prefix of characters of class `k`. */
  function TrimStart(s: string, k: Strippable): (r: string)
    ensures |r| <= |s|
    ensures r == [] || !Drops(k, r[0])
    decreases |s|
  {
    if |s| > 0 && Drops(k, s[0]) then TrimStart(s[1..], k) else s
  }

  /** `TrimStart` keeps a suffix of its argument. */
  lemma {:induction false} TrimStartIsSuffix(s: string, k: Strippable)
    ensures TrimStart(s, k) == s[|s| - |TrimStart(s, k)|..]
    decreases |s|
  {
    if |s| > 0 && Drops(k, s[0]) {
      TrimStartIsSuffix(s[1..], k);
    }
  }

  /** Everything `TrimStart` removes is of class `k`. */
  lemma {:induction false} TrimStartRemoves(s: string, k: Strippable, i: nat)
    requires i < |s| - |TrimStart(s, k)|
    ensures Drops(k, s[i])
    decreases |s|
  {
    if i > 0 {
      TrimStartRemoves(s[1..], k, i - 1);
    }
  }

  /** Drops the longest suffix of characters of class `k`. */
  function TrimEnd(s: string, k: Strippable): (r: string)
    ensures |r| <= |s|
    ensures r == [] || !Drops(k, r[|r| - 1])
    decreases |s|
  {
    if |s| > 0 && Drops(k, s[|s| - 1]) then TrimEnd(s[..|s| - 1], k) else s
  }

  /** `TrimEnd` keeps a prefix of its argument. */
  lemma {:induction false} TrimEndIsPrefix(s: string, k: Strippable)
    ensures TrimEnd(s, k) == s[..|TrimEnd(s, k)|]
    decreases |s|
  {
    if |s| > 0 && Drops(k, s[|s| - 1]) {
      TrimEndIsPrefix(s[..|s| - 1], k);
    }
  }

  /** Everything `TrimEnd` removes is of class `k`. */
  lemma {:induction false} TrimEndRemoves(s: string, k: Strippable, i: nat)
    requires |TrimEnd(s, k)| <= i < |s|
    ensures Drops(k, s[i])
    decreases |s|
  {
    if i < |s| - 1 {
      TrimEndRemoves(s[..|s| - 1], k, i);
    }
  }

  /** `s.strip()` with no argument. */
  function Strip(s: string): string {
    TrimEnd(TrimStart(s, Whitespace), Whitespace)
  }

  /** `s.strip(c)` for a one-character argument. */
  function StripChar(s: string, c: char): string {
    TrimEnd(TrimStart(s, Only(c)), Only(c))
  }

  /** A stripped string is a slice of the original, so it holds no
      character the original lacks. */
  lemma StripWithin(s: string, k: Strippable, c: char)
    requires c !in s
    ensures c !in TrimEnd(TrimStart(s, k), k)
  {
    var u := TrimStart(s, k);
    TrimStartIsSuffix(s, k);
    TrimEndIsPrefix(u, k);
    assert forall j :: 0 <= j < |u| ==> u[j] == s[|s| - |u| + j];
  }

  /** Trimming leaves a string alone when neither end can be trimmed. */
  lemma TrimKeeps(s: string, k: Strippable)
    requires s != [] && !Drops(k, s[0]) && !Drops(k, s[|s| - 1])
    ensures TrimEnd(TrimStart(s, k), k) == s
  {
  }

  lemma StripKeeps(s: string)
    requires s != [] && !IsSpace(s[0]) && !IsSpace(s[|s| - 1])
    ensures Strip(s) == s
  {
    TrimKeeps(s, Whitespace);
  }

  /** Stripping twice is stripping once. */
  lemma StripIdempotent(s: string)
    ensures Strip(Strip(s)) == Strip(s)
  {
    var u := TrimStart(s, Whitespace);
    var t := TrimEnd(u, Whitespace);
    if t != [] {
      TrimEndIsPrefix(u, Whitespace);
      assert t[0] == u[0];
      StripKeeps(t);
    }
  }

  lemma StripCharKeeps(s: string, c: char)
    requires s != [] && s[0] != c && s[|s| - 1] != c
    ensures StripChar(s, c) == s
  {
    TrimKeeps(s, Only(c));
  }

  // ---------------------------------------------------------------------
  // Searching, prefixes and suffixes
  // ---------------------------------------------------------------------

  /** `s.find(c)` for a character known to occur. */
  function FirstIndex(s: string, c: char): (r: nat)
    requires c in s
    ensures r < |s| && s[r] == c && c !in s[..r]
  {
    if s[0] == c then 0
    else
      assert c in s[1..] by { var k :| 0 <= k < |s| && s[k] == c; assert s[1..][k - 1] == c; }
      var r := 1 + FirstIndex(s[1..], c);
      assert s[..r] == [s[0]] + s[1..][..r - 1];
      r
  }

  /** The first occurrence of `c` is the one with no `c` before it. */
  lemma FirstIndexAt(s: string, c: char, j: nat)
    requires j < |s| && s[j] == c && c !in s[..j]
    ensures c in s && FirstIndex(s, c) == j
    decreases j
  {
    if j > 0 {
      assert s[0] == s[..j][0];
      assert s[1..][..j - 1] == s[..j][1..];
      FirstIndexAt(s[1..], c, j - 1);
    }
  }

  /** `s.rfind(c)`: the last index of `c`, or -1. */
  function LastIndex(s: string, c: char): (r: int)
    ensures -1 <= r < |s|
    ensures r >= 0 ==> s[r] == c
    ensures forall i :: r < i < |s| ==> s[i] != c
    decreases |s|
  {
    if |s| == 0 then -1
    else if s[|s| - 1] == c then |s| - 1
    else LastIndex(s[..|s| - 1], c)
  }

  predicate EndsWith(s: string, suffix: string) {
    |suffix| <= |s| && s[|s| - |suffix|..] == suffix
  }

  // ---------------------------------------------------------------------
  // split and join
  // ---------------------------------------------------------------------

  /** `s.split(c)` for a one-character separator: never empty, and no piece
      holds the separator. */
  function Split(s: string, c: char): (r: seq<string>)
    ensures |r| >= 1
    ensures forall k :: 0 <= k < |r| ==> c !in r[k]
  {
    if |s| == 0 then [""]
    else
      var rest := Split(s[1..], c);
      if s[0] == c then [""] + rest
      else [[s[0]] + rest[0]] + rest[1..]
  }

  /** `sep.join(xs)`. */
  function Join(xs: seq<string>, sep: string): string {
    if |xs| == 0 then ""
    else if |xs| == 1 then xs[0]
    else xs[0] + sep + Join(xs[1..], sep)
  }

  lemma {:induction false} SplitNoSeparator(a: string, c: char)
    requires c !in a
    ensures Split(a, c) == [a]
  {
    if |a| > 0 {
      SplitNoSeparator(a[1..], c);
      assert [a[0]] + a[1..] == a;
    }
  }

  lemma {:induction false} SplitAtSeparator(a: string, c: char, t: string)
    requires c !in a
    ensures Split(a + [c] + t, c) == [a] + Split(t, c)
  {
    var s := a + [c] + t;
    if |a| == 0 {
      assert s[1..] == t;
    } else {
      assert s[1..] == a[1..] + [c] + t;
      SplitAtSeparator(a[1..], c, t);
      assert [a[0]] + a[1..] == a;
    }
  }

  /** Splitting a joined list gives the list back when no item holds the
      separator. */
  lemma {:induction false} SplitJoin(xs: seq<string>, c: char)
    requires |xs| >= 1
    requires forall k :: 0 <= k < |xs| ==> c !in xs[k]
    ensures Split(Join(xs, [c]), c) == xs
  {
    if |xs| == 1 {
      SplitNoSeparator(xs[0], c);
    } else {
      SplitJoin(xs[1..], c);
      SplitAtSeparator(xs[0], c, Join(xs[1..], [c]));
      assert xs[0] + [c] + Join(xs[1..], [c]) == Join(xs, [c]);
      assert [xs[0]] + xs[1..] == xs;
    }
  }

  /** Joining one more item appends the separator and the item. */
  lemma {:induction false} JoinAppend(xs: seq<string>, y: string, sep: string)
    requires |xs| >= 1
    ensures Join(xs + [y], sep) == Join(xs, sep) + sep + y
  {
    if |xs| == 1 {
      assert (xs + [y])[1..] == [y];
    } else {
      assert (xs + [y])[1..] == xs[1..] + [y];
      JoinAppend(xs[1..], y, sep);
    }
  }

  // ---------------------------------------------------------------------
  // str(int) and int(str)
  // ---------------------------------------------------------------------

  predicate IsDigit(c: char) {
    '0' <= c <= '9'
  }

  predicate AllDigits(s: string) {
    forall i :: 0 <= i < |s| ==> IsDigit(s[i])
  }

  function DigitChar(d: nat): (c: char)
    requires d < 10
    ensures IsDigit(c) && c as int - '0' as int == d
  {
    ('0' as int + d) as char
  }

  /** Decimal digits of a natural number, most significant first. */
  function NatToString(n: nat): (r: string)
    ensures |r| >= 1 && AllDigits(r)
  {
    if n < 10 then [DigitChar(n)] else NatToString(n / 10) + [DigitChar(n % 10)]
  }

  /** `str(n)`. */
  function IntToString(n: int): (r: string)
    ensures |r| >= 1 && !IsSpace(r[0]) && !IsSpace(r[|r| - 1])
    ensures '/' !in r && '\n' !in r
  {
    if n < 0 then "-" + NatToString(-n) else NatToString(n)
  }

  /** The value of a run of decimal digits. */
  function DigitsValue(s: string): nat
    requires AllDigits(s)
  {
    if |s| == 0 then 0
    else DigitsValue(s[..|s| - 1]) * 10 + (s[|s| - 1] as int - '0' as int)
  }

  /** `int(s)` restricted to surrounding whitespace, an optional sign and
      ASCII decimal digits; `None` where Python raises ValueError. */
  function ParseInt(s: string): (r: Option<int>) {
    ParseSigned(Strip(s))
  }

  /** An optional sign followed by at least one digit. */
  function ParseSigned(t: string): (r: Option<int>)
    ensures r.Some? ==> |t| > 0
  {
    if |t| > 0 && (t[0] == '+' || t[0] == '-') then
      var digits := t[1..];
      if |digits| > 0 && AllDigits(digits) then
        var magnitude: int := DigitsValue(digits);
        Some(if t[0] == '-' then -magnitude else magnitude)
      else None
    else if |t| > 0 && AllDigits(t) then Some(DigitsValue(t))
    else None
  }

  lemma {:induction false} DigitsOfNat(n: nat)
    ensures DigitsValue(NatToString(n)) == n
  {
    var s := NatToString(n);
    if n >= 10 {
      DigitsOfNat(n / 10);
      assert s[..|s| - 1] == NatToString(n / 10);
    }
  }

  lemma ParseUnsigned(d: string)
    requires |d| > 0 && AllDigits(d)
    ensures ParseSigned(d) == Some(DigitsValue(d))
  {
    assert IsDigit(d[0]);
  }

  lemma ParseNegative(d: string)
    requires |d| > 0 && AllDigits(d)
    ensures ParseSigned("-" + d) == Some(-(DigitsValue(d) as int))
  {
    assert ("-" + d)[1..] == d;
  }

  /** `int(str(n)) == n`. */
  lemma ParseIntToString(n: int)
    ensures ParseInt(IntToString(n)) == Some(n)
  {
    var s := IntToString(n);
    assert ParseInt(s) == ParseSigned(s) by { StripKeeps(s); }
    if n < 0 {
      var d := NatToString(-n);
      var m := DigitsValue(d);
      assert m == -n by { DigitsOfNat(-n); }
      assert ParseSigned("-" + d) == Some(-(m as int)) by { ParseNegative(d); }
      assert s == "-" + d;
    } else {
      var d := NatToString(n);
      var m := DigitsValue(d);
      assert m == n by { DigitsOfNat(n); }
      assert ParseSigned(d) == Some(m) by { ParseUnsigned(d); }
      assert s == d;
    }
  }

  /** Different numbers print differently. */
  lemma IntToStringInjective(m: int, n: int)
    requires IntToString(m) == IntToString(n)
    ensures m == n
  {
    ParseIntToString(m);
    ParseIntToString(n);
  }

  /** Equal strings after a common prefix are equal. */
  lemma DropPrefix(a: string, s: string, t: string)
    requires a + s == a + t
    ensures s == t
  {
    assert s == (a + s)[|a|..];
    assert t == (a + t)[|a|..];
  }

  /** Equal strings before a common suffix are equal. */
  lemma DropSuffix(s: string, t: string, b: string)
    requires s + b == t + b
    ensures s == t
  {
    assert s == (s + b)[..|s|];
    assert t == (t + b)[..|t|];
  }

  /** The last `c` of `prefix + [c] + tail` with a `c`-free tail is the
      one before the tail. */
  lemma {:induction false} LastIndexBeforeTail(a: string, x: string, c: char)
    requires c !in x
    ensures LastIndex((a + [c]) + x, c) == |a|
    decreases |x|
  {
    var s := (a + [c]) + x;
    if x != [] {
      var init := x[..|x| - 1];
      assert s[|s| - 1] == x[|x| - 1];
      assert s[..|s| - 1] == (a + [c]) + init;
      LastIndexBeforeTail(a, init, c);
    }
  }

  /** The part after the last `c` of a string is determined by the string:
      two ways of writing it as `prefix + [c] + tail` with `c`-free tails
      have the same tail. */
  lemma LastPartUnique(a: string, x: string, b: string, y: string, c: char)
    requires c !in x && c !in y
    requires (a + [c]) + x == (b + [c]) + y
    ensures x == y
  {
    var s := (a + [c]) + x;
    LastIndexBeforeTail(a, x, c);
    LastIndexBeforeTail(b, y, c);
    assert x == s[|a| + 1..];
    assert y == s[|b| + 1..];
  }

  // ---------------------------------------------------------------------
  // Case mapping (ASCII letters only)
  // ---------------------------------------------------------------------

  predicate IsLower(c: char) { 'a' <= c <= 'z' }
  predicate IsUpper(c: char) { 'A' <= c <= 'Z' }
  predicate IsLetter(c: char) { IsLower(c) || IsUpper(c) }

  function ToUpper(c: char): (r: char)
    ensures !IsLower(r)
    ensures IsLetter(c) <==> IsLetter(r)
  {
    if IsLower(c) then (c as int - 32) as char else c
  }

  function ToLower(c: char): (r: char)
    ensures !IsUpper(r)
    ensures IsLetter(c) <==> IsLetter(r)
  {
    if IsUpper(c) then (c as int + 32) as char else c
  }

  /** `s.upper()` for ASCII letters. */
  function Upper(s: string): (r: string)
    ensures |r| == |s|
    ensures forall i :: 0 <= i < |s| ==> r[i] == ToUpper(s[i])
  {
    seq(|s|, i requires 0 <= i < |s| => ToUpper(s[i]))
  }

  /** `s.title()` for ASCII letters: a letter that follows a letter is
      lower-cased, every other letter upper-cased. */
  function Title(s: string): (r: string)
    ensures |r| == |s|
    ensures forall i :: 0 <= i < |s| && IsLetter(s[i]) ==>
      r[i] == if i > 0 && IsLetter(s[i - 1]) then ToLower(s[i]) else ToUpper(s[i])
    ensures forall i :: 0 <= i < |s| && !IsLetter(s[i]) ==> r[i] == s[i]
  {
    seq(|s|, i requires 0 <= i < |s| =>
      if !IsLetter(s[i]) then s[i]
      else if i > 0 && IsLetter(s[i - 1]) then ToLower(s[i])
      else ToUpper(s[i]))
  }
}
