/** String helpers with Python's semantics: slicing, `str.split`, `str.splitlines`,
    `str(n)`, `int(s)`, and the right-padding used for search previews. */
module Text {
  import opened Wrappers

  function Min(a: int, b: int): int { if a <= b then a else b }
  function Max(a: int, b: int): int { if a >= b then a else b }

  /** The index that Python's slice bound `k` denotes in a string of length `n`
      (a negative bound counts from the end; out-of-range bounds are clamped). */
  function SliceBound(k: int, n: nat): (i: nat)
    ensures i <= n
  {
    if k < 0 then Max(0, n + k) else Min(k, n)
  }

  /** `s[:k]` */
  function SliceTo(s: string, k: int): string { s[..SliceBound(k, |s|)] }

  /** `s[k:]` */
  function SliceFrom(s: string, k: int): string { s[SliceBound(k, |s|)..] }

  // ---------------------------------------------------------------- splitlines

  /** The characters at which Python's `str.splitlines` breaks a line. */
  predicate IsLineBreak(c: char)
  {
    || c == '\n' || c == '\r' || c == '\U{0B}' || c == '\U{0C}'
    || c == '\U{1C}' || c == '\U{1D}' || c == '\U{1E}' || c == '\U{85}'
    || c == '\U{2028}' || c == '\U{2029}'
  }

  predicate NoLineBreaks(s: string)
  {
    forall i :: 0 <= i < |s| ==> !IsLineBreak(s[i])
  }

  /** `''.join(s.splitlines())`: the text with every line boundary removed
      (a "\r\n" pair is one boundary, and both of its characters go). */
  function StripLineBreaks(s: string): (r: string)
    ensures NoLineBreaks(r)
    ensures forall c :: !IsLineBreak(c) ==> multiset(r)[c] == multiset(s)[c]
    ensures NoLineBreaks(s) ==> r == s
  {
    if s == [] then []
    else
      assert s == [s[0]] + s[1..];
      if IsLineBreak(s[0]) then StripLineBreaks(s[1..])
      else [s[0]] + StripLineBreaks(s[1..])
  }

  /** Flattening keeps the order of the text: the flattened concatenation is
      the concatenation of the flattened parts. */
  lemma {:induction false} StripLineBreaksConcat(a: string, b: string)
    ensures StripLineBreaks(a + b) == StripLineBreaks(a) + StripLineBreaks(b)
  {
    if a == [] {
      assert a + b == b;
    } else {
      assert (a + b)[0] == a[0] && (a + b)[1..] == a[1..] + b;
      StripLineBreaksConcat(a[1..], b);
    }
  }

  /** A single character is dropped exactly when it is a line break. */
  lemma StripLineBreaksChar(c: char)
    ensures StripLineBreaks([c]) == if IsLineBreak(c) then [] else [c]
  {
    assert [c][1..] == [];
  }

  // ---------------------------------------------------------------- pad_right

  /** A run of `n` blanks (none when `n` is not positive). */
  function Spaces(n: int): (r: string)
    ensures |r| == Max(n, 0)
    ensures forall i :: 0 <= i < |r| ==> r[i] == ' '
  {
    if n <= 0 then [] else Spaces(n - 1) + [' ']
  }

  /** What `pad_right(text, count)` returns: `text[:count]` followed by
      `count - len(text[:count])` blanks. */
  function Padded(text: string, count: int): (r: string)
    ensures count >= 0 ==> |r| == count
    ensures count >= 0 ==> forall i :: 0 <= i < count ==> r[i] == if i < |text| then text[i] else ' '
    ensures count < 0 ==> r == text[..Max(0, |text| + count)]
  {
    var t := SliceTo(text, count);
    t + Spaces(count - |t|)
  }

  /** Text whose length is already `count` comes back unchanged. */
  lemma PaddedKeepsExactFit(text: string)
    ensures Padded(text, |text|) == text
  {
    var r := Padded(text, |text|);
    assert |r| == |text|;
    assert forall i :: 0 <= i < |r| ==> r[i] == text[i];
  }

  /** pad_right: truncate `text` to `count` characters, then append blanks one at a
      time until it is `count` characters long. */
  method PadRight(text: string, count: int) returns (r: string)
    ensures r == Padded(text, count)
  {
    r := SliceTo(text, count);
    var missing := count - |r|;
    var i := 0;
    while i < missing
      invariant 0 <= i <= Max(missing, 0)
      invariant r == SliceTo(text, count) + Spaces(i)
    {
      r := r + " ";
      i := i + 1;
    }
  }

  // ---------------------------------------------------------------- integers

  predicate IsDigit(c: char) { '0' <= c <= '9' }

  predicate AllDigits(s: string)
  {
    forall i :: 0 <= i < |s| ==> IsDigit(s[i])
  }

  function DigitChar(d: nat): (c: char)
    requires d < 10
    ensures IsDigit(c)
  {
    (('0' as int) + d) as char
  }

  function DigitValue(c: char): (d: nat)
    requires IsDigit(c)
    ensures d < 10
  {
    (c as int) - ('0' as int)
  }

  /** `str(n)` for a natural number: its decimal digits, no leading zeros. */
  function NatText(n: nat): (r: string)
    ensures r != [] && AllDigits(r)
    ensures r[0] == '0' <==> n == 0
  {
    if n < 10 then [DigitChar(n)] else NatText(n / 10) + [DigitChar(n % 10)]
  }

  /** `str(i)` for an integer. */
  function IntText(i: int): (r: string)
    ensures r != []
    ensures forall k :: 0 <= k < |r| ==> IsDigit(r[k]) || (k == 0 && r[k] == '-')
    ensures r[0] == '-' <==> i < 0
    ensures i < 0 ==> |r| >= 2 && r[1] != '0'
  {
    if i < 0 then "-" + NatText(-i) else NatText(i)
  }

  /** The value of a string of decimal digits. */
  function DigitsValue(s: string): nat
    requires AllDigits(s)
  {
    if s == [] then 0 else 10 * DigitsValue(s[..|s| - 1]) + DigitValue(s[|s| - 1])
  }

  /** `int(s)` for an optionally signed run of ASCII digits; anything else is
      the ValueError that `int` raises, here `None`. */
  function ParseInt(s: string): (r: Option<int>)
    ensures r.Some? <==>
      (s != [] && AllDigits(s)) || (|s| > 1 && (s[0] == '-' || s[0] == '+') && AllDigits(s[1..]))
  {
    if |s| > 0 && (s[0] == '-' || s[0] == '+') then
      var digits := s[1..];
      if digits != [] && AllDigits(digits) then
        var v: int := DigitsValue(digits);
        Some(if s[0] == '-' then -v else v)
      else None
    else if s != [] && AllDigits(s) then Some(DigitsValue(s))
    else None
  }

  lemma {:induction false} NatTextValue(n: nat)
    ensures DigitsValue(NatText(n)) == n
  {
    if n >= 10 {
      NatTextValue(n / 10);
      var t := NatText(n);
      assert t[..|t| - 1] == NatText(n / 10);
    }
  }

  /** What `str` prints, `int` reads back: the id that a listing shows is the id
      that a lookup by text finds. */
  lemma IntTextRoundTrip(i: int)
    ensures ParseInt(IntText(i)) == Some(i)
  {
    if i < 0 {
      var t := IntText(i);
      NatTextValue(-i);
      assert t[0] == '-' && t[1..] == NatText(-i);
    } else {
      NatTextValue(i);
    }
  }

  // ---------------------------------------------------------------- split/join

  /** `s.split(sep)`: the pieces between occurrences of `sep`, empty ones kept. */
  function Split(s: string, sep: char): (r: seq<string>)
    ensures |r| >= 1
    ensures forall k :: 0 <= k < |r| ==> sep !in r[k]
    ensures r[0] <= s && (|r[0]| < |s| ==> s[|r[0]|] == sep)
  {
    if s == [] then [[]]
    else
      var rest := Split(s[1..], sep);
      if s[0] == sep then [[]] + rest else [[s[0]] + rest[0]] + rest[1..]
  }

  /** `sep.join(parts)` */
  function Join(parts: seq<string>, sep: char): string
    requires |parts| >= 1
  {
    if |parts| == 1 then parts[0] else parts[0] + [sep] + Join(parts[1..], sep)
  }

  /** Joining the pieces of a split gives the original string back. */
  lemma {:induction false} JoinSplit(s: string, sep: char)
    ensures Join(Split(s, sep), sep) == s
  {
    if s != [] {
      JoinSplit(s[1..], sep);
      var rest := Split(s[1..], sep);
      if s[0] != sep && |rest| > 1 {
        assert ([[s[0]] + rest[0]] + rest[1..])[1..] == rest[1..];
      }
    }
  }

  lemma {:induction false} SplitAfterPiece(a: string, sep: char, b: string)
    requires sep !in a
    ensures Split(a + [sep] + b, sep) == [a] + Split(b, sep)
  {
    var s := a + [sep] + b;
    if a == [] {
      assert s[0] == sep && s[1..] == b;
    } else {
      assert s[0] == a[0] && s[0] != sep;
      assert s[1..] == a[1..] + [sep] + b;
      SplitAfterPiece(a[1..], sep, b);
      var rest := Split(s[1..], sep);
      assert rest == [a[1..]] + Split(b, sep);
      assert [s[0]] + rest[0] == a;
    }
  }

  lemma {:induction false} SplitWithoutSeparator(a: string, sep: char)
    requires sep !in a
    ensures Split(a, sep) == [a]
  {
    if a != [] {
      SplitWithoutSeparator(a[1..], sep);
      assert [a[0]] + a[1..] == a;
    }
  }

  /** Pieces free of the separator come back from a split of their join. */
  lemma {:induction false} SplitJoin(parts: seq<string>, sep: char)
    requires |parts| >= 1
    requires forall k :: 0 <= k < |parts| ==> sep !in parts[k]
    ensures Split(Join(parts, sep), sep) == parts
  {
    if |parts| == 1 {
      SplitWithoutSeparator(parts[0], sep);
    } else {
      SplitJoin(parts[1..], sep);
      SplitAfterPiece(parts[0], sep, Join(parts[1..], sep));
    }
  }
}
