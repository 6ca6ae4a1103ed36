/** The string primitives the site's code leans on, with JavaScript's meaning:
    decimal formatting of integers, `replace(/\D/g, '')`, `trim`, `split`
    on one character, `join`, `startsWith` and `substring`.
    Strings are sequences of code points; UTF-16 code units are not modelled. */
module Text {
  import opened Seqs

  predicate IsDigit(c: char) { '0' <= c <= '9' }

  predicate AllDigits(s: string) { forall i :: 0 <= i < |s| ==> IsDigit(s[i]) }

  function DigitChar(d: nat): (c: char)
    requires d < 10
    ensures IsDigit(c) && (c as int) - ('0' as int) == d
  {
    ('0' as int + d) as char
  }

  function DigitValue(c: char): nat
    requires IsDigit(c)
  {
    (c as int) - ('0' as int)
  }

  /** `String(n)` / `${n}` for a non-negative integer: its decimal digits,
      without leading zeros. */
  function Decimal(n: nat): (s: string)
    ensures |s| > 0 && AllDigits(s)
    ensures n >= 10 <==> |s| > 1
  {
    if n < 10 then [DigitChar(n)] else Decimal(n / 10) + [DigitChar(n % 10)]
  }

  /** The value of a string of decimal digits. */
  function ParseDecimal(s: string): nat
    requires AllDigits(s)
  {
    if |s| == 0 then 0 else ParseDecimal(s[..|s| - 1]) * 10 + DigitValue(s[|s| - 1])
  }

  /** Reading back a formatted number gives the number. */
  lemma {:induction false} ParseDecimalOfDecimal(n: nat)
    ensures ParseDecimal(Decimal(n)) == n
    decreases n
  {
    if n >= 10 {
      ParseDecimalOfDecimal(n / 10);
      var s := Decimal(n);
      assert s[..|s| - 1] == Decimal(n / 10);
    }
  }

  /** Different numbers print differently. */
  lemma DecimalInjective(m: nat, n: nat)
    requires Decimal(m) == Decimal(n)
    ensures m == n
  {
    ParseDecimalOfDecimal(m);
    ParseDecimalOfDecimal(n);
  }

  /** A character that is not a digit does not occur in a string of digits. */
  lemma NotInDigits(s: string, c: char)
    requires AllDigits(s) && !IsDigit(c)
    ensures c !in s
  {
  }

  /** `s.replace(/\D/g, '')`: the decimal digits of `s`, in order. */
  function Digits(s: string): (r: string)
    ensures AllDigits(r)
    ensures |r| <= |s|
  {
    Filter(s, IsDigit)
  }

  /** `Digits` keeps exactly the digit characters of its input, in order. */
  lemma DigitsCharacterised(s: string)
    ensures IsSubsequence(Digits(s), s)
    ensures forall c :: multiset(Digits(s))[c] == if IsDigit(c) then multiset(s)[c] else 0
  {
    FilterIsSubsequence(s, IsDigit);
    forall c ensures multiset(Digits(s))[c] == if IsDigit(c) then multiset(s)[c] else 0 {
      FilterCount(s, IsDigit, c);
    }
  }

  /** Stripping non-digits from a string of digits changes nothing. */
  lemma DigitsOfDigits(s: string)
    requires AllDigits(s)
    ensures Digits(s) == s
  {
    FilterAllKept(s, IsDigit);
  }

  /** The characters `String.prototype.trim` removes: ECMAScript WhiteSpace
      (tab, vertical tab, form feed, space, no-break space, byte-order mark,
      and the Unicode space separators) and LineTerminator. */
  predicate IsSpace(c: char) {
    var k := c as int;
    k == 0x09 || k == 0x0A || k == 0x0B || k == 0x0C || k == 0x0D || k == 0x20 ||
    k == 0xA0 || k == 0x1680 || (0x2000 <= k <= 0x200A) || k == 0x2028 ||
    k == 0x2029 || k == 0x202F || k == 0x205F || k == 0x3000 || k == 0xFEFF
  }

  predicate AllSpace(s: string) { forall i :: 0 <= i < |s| ==> IsSpace(s[i]) }

  /** Neither starts nor ends with white space. */
  predicate IsTrimmed(s: string) { |s| == 0 || (!IsSpace(s[0]) && !IsSpace(s[|s| - 1])) }

  function TrimStart(s: string): (r: string)
    ensures |r| <= |s| && r == s[|s| - |r|..]
    ensures AllSpace(s[..|s| - |r|])
    ensures |r| > 0 ==> !IsSpace(r[0])
  {
    if |s| > 0 && IsSpace(s[0]) then TrimStart(s[1..]) else s
  }

  function TrimEnd(s: string): (r: string)
    ensures |r| <= |s| && r == s[..|r|]
    ensures AllSpace(s[|r|..])
    ensures |r| > 0 ==> !IsSpace(r[|r| - 1])
  {
    if |s| > 0 && IsSpace(s[|s| - 1]) then TrimEnd(s[..|s| - 1]) else s
  }

  /** `s.trim()`: the slice of `s` left after dropping white space at both ends. */
  function Trim(s: string): (r: string)
    ensures IsTrimmed(r)
    ensures exists i, j :: 0 <= i <= j <= |s| && r == s[i..j] && AllSpace(s[..i]) && AllSpace(s[j..])
  {
    var a := TrimStart(s);
    var r := TrimEnd(a);
    var i := |s| - |a|;
    assert r == s[i..i + |r|];
    assert s[i + |r|..] == a[|r|..];
    r
  }

  /** Trimming a trimmed string changes nothing. */
  lemma {:induction false} TrimOfTrimmed(s: string)
    requires IsTrimmed(s)
    ensures Trim(s) == s
  {
    assert TrimStart(s) == s;
    assert TrimEnd(s) == s;
  }

  /** Leading white space in front of a trimmed string is exactly what `trim` removes. */
  lemma {:induction false} TrimAfterPadding(pad: string, s: string)
    requires AllSpace(pad) && IsTrimmed(s)
    ensures Trim(pad + s) == s
    decreases |pad|
  {
    if |pad| == 0 {
      assert pad + s == s;
      TrimOfTrimmed(s);
    } else {
      assert (pad + s)[1..] == pad[1..] + s;
      TrimAfterPadding(pad[1..], s);
      if |s| == 0 {
        assert TrimStart(pad + s) == "";
      } else {
        assert TrimStart(pad + s) == TrimStart(pad[1..] + s);
      }
    }
  }

  /** `s.split(sep)` for a one-character separator: the pieces between
      separators, including empty ones; an empty string gives `[""]`. */
  function Split(s: string, sep: char): (parts: seq<string>)
    ensures |parts| > 0
    ensures forall k :: 0 <= k < |parts| ==> sep !in parts[k]
    decreases |s|
  {
    if |s| == 0 then [""]
    else
      var rest := Split(s[1..], sep);
      if s[0] == sep then [""] + rest
      else [[s[0]] + rest[0]] + rest[1..]
  }

  /** `xs.join(sep)`. */
  function Join(xs: seq<string>, sep: string): string
  {
    if |xs| == 0 then ""
    else if |xs| == 1 then xs[0]
    else xs[0] + sep + Join(xs[1..], sep)
  }

  /** Joining the pieces of a split with the separator rebuilds the string. */
  lemma {:induction false} JoinOfSplit(s: string, sep: char)
    ensures Join(Split(s, sep), [sep]) == s
    decreases |s|
  {
    if |s| > 0 {
      JoinOfSplit(s[1..], sep);
      var rest := Split(s[1..], sep);
      if s[0] == sep {
        assert s == [sep] + s[1..];
      } else {
        var parts := Split(s, sep);
        assert parts[1..] == rest[1..];
        if |rest| > 1 {
          assert rest[1..] == rest[1..];
          assert Join(rest, [sep]) == rest[0] + [sep] + Join(rest[1..], [sep]);
        }
        assert s == [s[0]] + s[1..];
      }
    }
  }

  lemma {:induction false} SplitWithoutSeparator(a: string, sep: char)
    requires sep !in a
    ensures Split(a, sep) == [a]
    decreases |a|
  {
    if |a| > 0 {
      SplitWithoutSeparator(a[1..], sep);
      assert a == [a[0]] + a[1..];
    }
  }

  lemma {:induction false} SplitAtFirstSeparator(a: string, t: string, sep: char)
    requires sep !in a
    ensures Split(a + [sep] + t, sep) == [a] + Split(t, sep)
    decreases |a|
  {
    var s := a + [sep] + t;
    if |a| == 0 {
      assert s == [sep] + t;
      assert s[1..] == t;
    } else {
      assert s[1..] == a[1..] + [sep] + t;
      SplitAtFirstSeparator(a[1..], t, sep);
      assert [a[0]] + a[1..] == a;
    }
  }

  lemma {:induction false} JoinPrefixFirst(a: string, xs: seq<string>, sep: string)
    requires |xs| > 0
    ensures Join([a + xs[0]] + xs[1..], sep) == a + Join(xs, sep)
  {
    var ys := [a + xs[0]] + xs[1..];
    assert ys[1..] == xs[1..];
  }

  /** Each piece after the first, with `pad` in front. */
  function Padded(xs: seq<string>, pad: string): (r: seq<string>)
    ensures |r| == |xs|
    ensures forall i :: 0 <= i < |xs| ==> r[i] == pad + xs[i]
  {
    seq(|xs|, i requires 0 <= i < |xs| => pad + xs[i])
  }

  /** Splitting `xs.join(sep + pad)` on `sep` gives the items back, each after
      the first carrying the padding. */
  lemma {:induction false} SplitOfJoin(xs: seq<string>, sep: char, pad: string)
    requires |xs| > 0
    requires forall k :: 0 <= k < |xs| ==> sep !in xs[k]
    requires sep !in pad
    ensures Split(Join(xs, [sep] + pad), sep) == [xs[0]] + Padded(xs[1..], pad)
    decreases |xs|
  {
    var d := [sep] + pad;
    if |xs| == 1 {
      SplitWithoutSeparator(xs[0], sep);
    } else {
      var tail := xs[1..];
      var shifted := [pad + tail[0]] + tail[1..];
      JoinPrefixFirst(pad, tail, d);
      assert xs[0] + d + Join(tail, d) == xs[0] + [sep] + (pad + Join(tail, d));
      SplitAtFirstSeparator(xs[0], pad + Join(tail, d), sep);
      assert forall k :: 0 <= k < |shifted| ==> sep !in shifted[k] by {
        forall k | 0 <= k < |shifted| ensures sep !in shifted[k] {
          if k > 0 {
            assert shifted[k] == xs[k + 1];
          }
        }
      }
      SplitOfJoin(shifted, sep, pad);
      assert shifted[1..] == xs[2..];
      assert [pad + tail[0]] + Padded(xs[2..], pad) == Padded(tail, pad);
    }
  }

  /** With no padding, splitting a join gives back the list. */
  lemma SplitOfJoinPlain(xs: seq<string>, sep: char)
    requires |xs| > 0
    requires forall k :: 0 <= k < |xs| ==> sep !in xs[k]
    ensures Split(Join(xs, [sep]), sep) == xs
  {
    assert [sep] + "" == [sep];
    SplitOfJoin(xs, sep, "");
    var tail := xs[1..];
    forall i | 0 <= i < |tail| ensures Padded(tail, "")[i] == tail[i] {
      assert "" + tail[i] == tail[i];
    }
    assert Padded(tail, "") == tail;
    assert [xs[0]] + tail == xs;
  }

  /** Joining one more item adds a separator and the item. */
  lemma {:induction false} JoinSnoc(xs: seq<string>, x: string, sep: string)
    requires |xs| > 0
    ensures Join(xs + [x], sep) == Join(xs, sep) + sep + x
    decreases |xs|
  {
    if |xs| == 1 {
      assert (xs + [x])[1..] == [x];
    } else {
      assert (xs + [x])[1..] == xs[1..] + [x];
      JoinSnoc(xs[1..], x, sep);
    }
  }

  /** `parts.map(t => t.trim())`. */
  function TrimEach(parts: seq<string>): (r: seq<string>)
    ensures |r| == |parts|
    ensures forall k :: 0 <= k < |r| ==> r[k] == Trim(parts[k])
  {
    seq(|parts|, i requires 0 <= i < |parts| => Trim(parts[i]))
  }

  predicate NonEmpty(t: string) { t != "" }

  /** JavaScript's `split(sep).map(t => t.trim()).filter(Boolean)`. */
  function ParseList(s: string, sep: char): (r: seq<string>)
    ensures forall k :: 0 <= k < |r| ==> r[k] != "" && IsTrimmed(r[k]) && sep !in r[k]
    ensures IsSubsequence(r, TrimEach(Split(s, sep)))
    ensures forall k :: 0 <= k < |Split(s, sep)| && Trim(Split(s, sep)[k]) != "" ==>
              Trim(Split(s, sep)[k]) in r
  {
    var trimmed := TrimEach(Split(s, sep));
    TrimmedPiecesKeepSeparatorOut(Split(s, sep), sep);
    FilterIsSubsequence(trimmed, NonEmpty);
    Filter(trimmed, NonEmpty)
  }

  /** `ParseList` keeps every non-empty trimmed piece as often as it occurs,
      and no empty one. */
  lemma ParseListCounts(s: string, sep: char)
    ensures forall x :: multiset(ParseList(s, sep))[x] ==
                        if x != "" then multiset(TrimEach(Split(s, sep)))[x] else 0
  {
    FilterFacts(TrimEach(Split(s, sep)), NonEmpty);
  }

  lemma TrimmedPiecesKeepSeparatorOut(parts: seq<string>, sep: char)
    requires forall k :: 0 <= k < |parts| ==> sep !in parts[k]
    ensures forall k :: 0 <= k < |parts| ==> sep !in TrimEach(parts)[k]
  {
    forall k | 0 <= k < |parts| ensures sep !in TrimEach(parts)[k] {
      var i, j :| 0 <= i <= j <= |parts[k]| && Trim(parts[k]) == parts[k][i..j];
    }
  }

  lemma {:induction false} TrimEachOfPadded(xs: seq<string>, pad: string)
    requires |xs| > 0
    requires forall k :: 0 <= k < |xs| ==> IsTrimmed(xs[k])
    requires AllSpace(pad)
    ensures TrimEach([xs[0]] + Padded(xs[1..], pad)) == xs
  {
    var parts := [xs[0]] + Padded(xs[1..], pad);
    var r := TrimEach(parts);
    forall k | 0 <= k < |xs| ensures r[k] == xs[k] {
      TrimOfPaddedPiece(xs, pad, k);
    }
  }

  lemma TrimOfPaddedPiece(xs: seq<string>, pad: string, k: nat)
    requires 0 <= k < |xs| && IsTrimmed(xs[k]) && AllSpace(pad)
    ensures Trim(([xs[0]] + Padded(xs[1..], pad))[k]) == xs[k]
  {
    if k == 0 {
      TrimOfTrimmed(xs[0]);
    } else {
      assert ([xs[0]] + Padded(xs[1..], pad))[k] == pad + xs[k];
      TrimAfterPadding(pad, xs[k]);
    }
  }

  /** A list of non-empty, trimmed items free of `sep` survives being written
      as `xs.join(sep + pad)` (white-space `pad`) and parsed back. */
  lemma {:induction false} ParseListOfJoin(xs: seq<string>, sep: char, pad: string)
    requires forall k :: 0 <= k < |xs| ==> xs[k] != "" && IsTrimmed(xs[k]) && sep !in xs[k]
    requires AllSpace(pad) && sep !in pad
    ensures ParseList(Join(xs, [sep] + pad), sep) == xs
  {
    var s := Join(xs, [sep] + pad);
    if |xs| == 0 {
      assert Split(s, sep) == [""];
      assert TrimEach([""]) == [""];
      assert ParseList(s, sep) == Filter([""], NonEmpty);
    } else {
      SplitOfJoin(xs, sep, pad);
      TrimEachOfPadded(xs, pad);
      assert TrimEach(Split(s, sep)) == xs;
      FilterAllKept(xs, NonEmpty);
      assert ParseList(s, sep) == Filter(xs, NonEmpty);
    }
  }

  /** `s.startsWith(prefix)`. */
  predicate StartsWith(s: string, prefix: string) {
    |prefix| <= |s| && s[..|prefix|] == prefix
  }

  function Clamp(x: int, lo: int, hi: int): (r: int)
    requires lo <= hi
    ensures lo <= r <= hi
    ensures lo <= x <= hi ==> r == x
  {
    if x < lo then lo else if x > hi then hi else x
  }

  /** `s.substring(start, end)`: both ends clamped to `[0, |s|]`, swapped when
      `start > end`. */
  function Substring(s: string, start: int, end: int): (r: string)
    ensures 0 <= start <= end <= |s| ==> r == s[start..end]
    ensures |r| <= |s|
  {
    var a := Clamp(start, 0, |s|);
    var b := Clamp(end, 0, |s|);
    if a <= b then s[a..b] else s[b..a]
  }

  /** `s.substring(0, n)` for `n >= 0`: the first `n` characters, or all of `s`. */
  function Prefix(s: string, n: nat): (r: string)
    ensures |r| == if |s| < n then |s| else n
    ensures r == s[..|r|]
  {
    Substring(s, 0, n)
  }
}
