/** String operations of Python's `str` that the rest of the model relies on,
    written out over `seq<char>`. Whitespace is a parameter `isSpace`
    standing for Python's Unicode `str.isspace` (and the regular-expression
    class `\s`, which agrees with it). */
module Text {

  /** `sep.join(parts)` */
  function Join(parts: seq<string>, sep: string): string
  {
    if |parts| == 0 then ""
    else if |parts| == 1 then parts[0]
    else parts[0] + sep + Join(parts[1..], sep)
  }

  /** The in-order concatenation of a sequence of sequences. */
  function Concat<T>(xss: seq<seq<T>>): seq<T>
  {
    if |xss| == 0 then [] else Concat(xss[..|xss| - 1]) + xss[|xss| - 1]
  }

  /** Extending a prefix by one element. */
  lemma PrefixExtend<T>(xs: seq<T>, i: nat)
    requires i < |xs|
    ensures xs[..i + 1] == xs[..i] + [xs[i]]
  {
  }

  /** No element occurs twice in `xs`. */
  predicate Distinct<T(==)>(xs: seq<T>)
  {
    forall a, b :: 0 <= a < b < |xs| ==> xs[a] != xs[b]
  }

  /** `s.endswith(suffix)` */
  predicate EndsWith(s: string, suffix: string)
  {
    |suffix| <= |s| && s[|s| - |suffix|..] == suffix
  }

  /** `needle in hay` for two strings; the empty string occurs in every string. */
  predicate Contains(hay: string, needle: string)
  {
    needle <= hay || (|hay| > 0 && Contains(hay[1..], needle))
  }

  /** A string contains only needles no longer than itself. */
  lemma {:induction false} ContainsLength(hay: string, needle: string)
    ensures Contains(hay, needle) ==> |needle| <= |hay|
  {
    if |hay| > 0 && !(needle <= hay) {
      ContainsLength(hay[1..], needle);
    }
  }

  /** Every character of `needle` occurs in a string that contains it. */
  lemma {:induction false} ContainsChars(hay: string, needle: string, c: char)
    requires Contains(hay, needle) && c in needle
    ensures c in hay
  {
    if needle <= hay {
      var i :| 0 <= i < |needle| && needle[i] == c;
      assert hay[i] == c;
    } else {
      ContainsChars(hay[1..], needle, c);
      assert hay[1..] <= hay[1..];
    }
  }

  /** `needle` occurs in `hay` at position `i`. */
  lemma {:induction false} ContainsAt(hay: string, needle: string, i: nat)
    requires i + |needle| <= |hay| && hay[i..i + |needle|] == needle
    ensures Contains(hay, needle)
  {
    if i > 0 {
      assert hay[1..][i - 1..i - 1 + |needle|] == needle;
      ContainsAt(hay[1..], needle, i - 1);
    }
  }

  /** ASCII lower-casing of one character. */
  function LowerChar(c: char): (r: char)
    ensures 'A' <= c <= 'Z' ==> 'a' <= r <= 'z'
    ensures !('A' <= c <= 'Z') ==> r == c
  {
    if 'A' <= c <= 'Z' then (c as int + 32) as char else c
  }

  /** `s.lower()`, restricted to ASCII letters. */
  function Lower(s: string): (r: string)
    ensures |r| == |s|
    ensures forall i :: 0 <= i < |s| ==> r[i] == LowerChar(s[i])
  {
    seq(|s|, i requires 0 <= i < |s| => LowerChar(s[i]))
  }

  /** Index of the last occurrence of `c` in `s`, or -1 (`s.rfind(c)`). */
  function LastIndexOf(s: string, c: char): (r: int)
    ensures -1 <= r < |s|
    ensures r == -1 <==> c !in s
    ensures r >= 0 ==> s[r] == c && forall j :: r < j < |s| ==> s[j] != c
  {
    if |s| == 0 then -1
    else if s[|s| - 1] == c then |s| - 1
    else
      var r := LastIndexOf(s[..|s| - 1], c);
      assert forall j :: 0 <= j < |s| - 1 ==> s[..|s| - 1][j] == s[j];
      r
  }

  /** Python's `s[:m]` for any integer `m` (a negative `m` counts from the end). */
  function PyPrefix(s: string, m: int): (r: string)
    ensures r <= s
    ensures 0 <= m <= |s| ==> |r| == m
    ensures m > |s| ==> r == s
    ensures m < 0 ==> |r| == if |s| + m < 0 then 0 else |s| + m
  {
    if m >= |s| then s
    else if m >= 0 then s[..m]
    else if |s| + m >= 0 then s[..|s| + m]
    else []
  }

  /** The characters of `s` that satisfy `keep`, in order. */
  function Filter(keep: char -> bool, s: string): (r: string)
    ensures |r| <= |s|
    ensures forall i :: 0 <= i < |r| ==> keep(r[i])
    ensures forall c :: c in r ==> c in s
  {
    if |s| == 0 then ""
    else (if keep(s[0]) then [s[0]] else "") + Filter(keep, s[1..])
  }

  /** A character of `s` that passes the filter is in the filtered string. */
  lemma {:induction false} FilterKeeps(keep: char -> bool, s: string, c: char)
    requires c in s && keep(c)
    ensures c in Filter(keep, s)
  {
    if s[0] != c {
      FilterKeeps(keep, s[1..], c);
    }
  }

  /** Filtering distributes over concatenation. */
  lemma {:induction false} FilterAppend(keep: char -> bool, a: string, b: string)
    ensures Filter(keep, a + b) == Filter(keep, a) + Filter(keep, b)
  {
    if |a| > 0 {
      assert (a + b)[0] == a[0] && (a + b)[1..] == a[1..] + b;
      FilterAppend(keep, a[1..], b);
    } else {
      assert a + b == b;
    }
  }

  /** Filtering twice is filtering once by both tests. */
  lemma {:induction false} FilterCompose(p: char -> bool, q: char -> bool, pq: char -> bool, s: string)
    requires forall c :: pq(c) == (q(c) && p(c))
    ensures Filter(p, Filter(q, s)) == Filter(pq, s)
  {
    if |s| > 0 {
      var head := if q(s[0]) then [s[0]] else "";
      FilterAppend(p, head, Filter(q, s[1..]));
      FilterCompose(p, q, pq, s[1..]);
      if q(s[0]) {
        assert [s[0]][1..] == "";
      }
    }
  }

  /** Filtering out every character leaves nothing. */
  lemma {:induction false} FilterNoneKept(keep: char -> bool, s: string)
    requires forall i :: 0 <= i < |s| ==> !keep(s[i])
    ensures Filter(keep, s) == ""
  {
    if |s| > 0 {
      FilterNoneKept(keep, s[1..]);
    }
  }

  /** A character found in a filtered string passed the filter. */
  lemma FilterMember(keep: char -> bool, s: string, c: char)
    requires c in Filter(keep, s)
    ensures keep(c)
  {
    var r := Filter(keep, s);
    var i :| 0 <= i < |r| && r[i] == c;
  }

  /** Every character of `s` is whitespace. */
  predicate IsBlank(isSpace: char -> bool, s: string)
  {
    forall i :: 0 <= i < |s| ==> isSpace(s[i])
  }

  /** `s.lstrip()`: the longest suffix of `s` that does not start with whitespace. */
  function TrimLeft(isSpace: char -> bool, s: string): string
  {
    if |s| == 0 || !isSpace(s[0]) then s else TrimLeft(isSpace, s[1..])
  }

  /** `lstrip` leaves a suffix that does not start with whitespace, removes
      only whitespace, and is shorter when `s` starts with whitespace. */
  lemma {:induction false} TrimLeftSuffix(isSpace: char -> bool, s: string)
    ensures var r := TrimLeft(isSpace, s);
      |r| <= |s| && r == s[|s| - |r|..] &&
      IsBlank(isSpace, s[..|s| - |r|]) &&
      (|s| > 0 && isSpace(s[0]) ==> |r| < |s|) &&
      (r == [] || !isSpace(r[0]))
  {
    if |s| > 0 && isSpace(s[0]) {
      var r := TrimLeft(isSpace, s[1..]);
      TrimLeftSuffix(isSpace, s[1..]);
      assert s[..|s| - |r|] == [s[0]] + s[1..][..|s| - 1 - |r|];
    }
  }

  /** `lstrip` of a string extended by one character: a blank string leaves
      only what the new character leaves; otherwise the character is kept. */
  lemma {:induction false} TrimLeftAppend(isSpace: char -> bool, s: string, c: char)
    ensures TrimLeft(isSpace, s + [c])
         == if IsBlank(isSpace, s) then TrimLeft(isSpace, [c]) else TrimLeft(isSpace, s) + [c]
  {
    if |s| == 0 {
      assert s + [c] == [c];
    } else if isSpace(s[0]) {
      assert (s + [c])[1..] == s[1..] + [c];
      assert IsBlank(isSpace, s) <==> IsBlank(isSpace, s[1..]);
      TrimLeftAppend(isSpace, s[1..], c);
    }
  }

  /** `s.rstrip()`: the longest prefix of `s` that does not end in whitespace. */
  function TrimRight(isSpace: char -> bool, s: string): string
  {
    if |s| == 0 || !isSpace(s[|s| - 1]) then s else TrimRight(isSpace, s[..|s| - 1])
  }

  /** `rstrip` leaves a prefix that does not end in whitespace and removes
      only whitespace. */
  lemma {:induction false} TrimRightPrefix(isSpace: char -> bool, s: string)
    ensures var r := TrimRight(isSpace, s);
      |r| <= |s| && r == s[..|r|] && IsBlank(isSpace, s[|r|..]) &&
      (r == [] || !isSpace(r[|r| - 1]))
  {
    if |s| > 0 && isSpace(s[|s| - 1]) {
      var r := TrimRight(isSpace, s[..|s| - 1]);
      TrimRightPrefix(isSpace, s[..|s| - 1]);
      assert s[|r|..] == s[..|s| - 1][|r|..] + [s[|s| - 1]];
    }
  }

  /** `s.strip()`: `s` without its leading and trailing whitespace. */
  function Strip(isSpace: char -> bool, s: string): string
  {
    TrimRight(isSpace, TrimLeft(isSpace, s))
  }

  /** The stripped string is the piece of `s` that starts where `lstrip`
      stops, and it neither starts nor ends with whitespace. */
  lemma StripInner(isSpace: char -> bool, s: string)
    ensures var r, o := Strip(isSpace, s), |s| - |TrimLeft(isSpace, s)|;
      0 <= o && o + |r| <= |s| && r == s[o..o + |r|] &&
      (r == [] || (!isSpace(r[0]) && !isSpace(r[|r| - 1])))
  {
    var l := TrimLeft(isSpace, s);
    TrimLeftSuffix(isSpace, s);
    TrimRightPrefix(isSpace, l);
  }

  lemma {:induction false} TrimLeftOfBlank(isSpace: char -> bool, s: string)
    requires IsBlank(isSpace, s)
    ensures TrimLeft(isSpace, s) == []
  {
    if |s| > 0 {
      TrimLeftOfBlank(isSpace, s[1..]);
    }
  }

  /** A string strips to nothing exactly when it is all whitespace. */
  lemma StripEmptyIffBlank(isSpace: char -> bool, s: string)
    ensures Strip(isSpace, s) == [] <==> IsBlank(isSpace, s)
  {
    var l := TrimLeft(isSpace, s);
    if IsBlank(isSpace, s) {
      TrimLeftOfBlank(isSpace, s);
    }
    TrimLeftSuffix(isSpace, s);
    if TrimRight(isSpace, l) == [] {
      TrimRightPrefix(isSpace, l);
      assert l[0..] == l;
      assert s == s[..|s| - |l|] + l;
    }
  }

  /** Decimal digit of `d`. */
  function Digit(d: nat): (c: char)
    requires d < 10
    ensures '0' <= c <= '9'
  {
    ('0' as int + d) as char
  }

  /** `str(n)` for a natural number. */
  function NatToString(n: nat): (r: string)
    ensures |r| > 0
    ensures forall i :: 0 <= i < |r| ==> '0' <= r[i] <= '9'
  {
    if n < 10 then [Digit(n)] else NatToString(n / 10) + [Digit(n % 10)]
  }

  /** `str(n)` for any integer. */
  function IntToString(n: int): (r: string)
    ensures |r| > 0
    ensures forall i :: 0 <= i < |r| ==> r[i] == '-' || '0' <= r[i] <= '9'
  {
    if n < 0 then "-" + NatToString(-n) else NatToString(n)
  }

  /** The value of a string of decimal digits. */
  function DecimalValue(s: string): nat
    requires forall i :: 0 <= i < |s| ==> '0' <= s[i] <= '9'
  {
    if |s| == 0 then 0
    else DecimalValue(s[..|s| - 1]) * 10 + (s[|s| - 1] as int - '0' as int)
  }

  /** Reading back the decimal form gives the number. */
  lemma {:induction false} DecimalValueOfNatToString(n: nat)
    ensures DecimalValue(NatToString(n)) == n
  {
    if n >= 10 {
      var s := NatToString(n);
      assert s[..|s| - 1] == NatToString(n / 10);
      DecimalValueOfNatToString(n / 10);
    }
  }

  /** A printed integer starts with '-' exactly when it is negative. */
  lemma IntToStringSign(n: int)
    ensures IntToString(n)[0] == '-' <==> n < 0
  {
    if n >= 0 {
      assert '0' <= NatToString(n)[0] <= '9';
    }
  }

  /** A character that can occur in `str(n)`. */
  predicate NumeralChar(c: char)
  {
    c == '-' || '0' <= c <= '9'
  }

  /** A string that ends in a printed number is split uniquely before the
      number when the part before it ends in a non-numeral character. */
  lemma NumeralSuffixSplit(x1: string, d1: string, x2: string, d2: string)
    requires |x1| > 0 && |x2| > 0 && !NumeralChar(x1[|x1| - 1]) && !NumeralChar(x2[|x2| - 1])
    requires forall i :: 0 <= i < |d1| ==> NumeralChar(d1[i])
    requires forall i :: 0 <= i < |d2| ==> NumeralChar(d2[i])
    requires x1 + d1 == x2 + d2
    ensures x1 == x2 && d1 == d2
  {
    var s := x1 + d1;
    assert s[|x1| - 1] == x1[|x1| - 1] && s[|x2| - 1] == x2[|x2| - 1];
    assert x1 == s[..|x1|] && x2 == s[..|x2|];
    assert d1 == s[|x1|..] && d2 == s[|x2|..];
  }

  /** Distinct natural numbers print differently. */
  lemma NatToStringInjective(a: nat, b: nat)
    requires NatToString(a) == NatToString(b)
    ensures a == b
  {
    DecimalValueOfNatToString(a);
    DecimalValueOfNatToString(b);
  }

  /** Distinct integers print differently. */
  lemma IntToStringInjective(a: int, b: int)
    requires IntToString(a) == IntToString(b)
    ensures a == b
  {
    IntToStringSign(a);
    IntToStringSign(b);
    if a < 0 {
      var sa, sb := NatToString(-a), NatToString(-b);
      assert sa == IntToString(a)[1..];
      assert sb == IntToString(b)[1..];
      NatToStringInjective(-a, -b);
    } else {
      NatToStringInjective(a, b);
    }
  }
}
