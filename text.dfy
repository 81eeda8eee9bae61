/** String operations of Python and C++ that the acquisition scripts rely on:
    str() of integers, str.zfill, str.find, slicing, int() of a string,
    the lexicographic order of str, and text made of '\n'-terminated lines. */
module Text {

  datatype Option<T> = None | Some(value: T)

  predicate IsDigit(c: char) { '0' <= c <= '9' }

  function DigitValue(c: char): (d: nat)
    requires IsDigit(c)
    ensures d < 10
  {
    c as int - '0' as int
  }

  function DigitChar(d: nat): (c: char)
    requires d < 10
    ensures IsDigit(c) && DigitValue(c) == d
  {
    ('0' as int + d) as char
  }

  predicate AllDigits(s: string) { forall k :: 0 <= k < |s| ==> IsDigit(s[k]) }

  /** The number a string of decimal digits denotes, most significant digit first;
      leading zeros are allowed and contribute nothing. */
  function DigitsValue(s: string): nat
    requires AllDigits(s)
    decreases |s|
  {
    if s == [] then 0 else DigitsValue(s[..|s| - 1]) * 10 + DigitValue(s[|s| - 1])
  }

  /** Python's str() of a non-negative int: its decimal digits without leading zeros. */
  function NatToDecimal(n: nat): (s: string)
    ensures |s| > 0 && AllDigits(s)
    ensures DigitsValue(s) == n
    ensures s[0] == '0' ==> n == 0
    ensures n < 10 <==> |s| == 1
    decreases n
  {
    if n < 10 then [DigitChar(n)]
    else
      var s := NatToDecimal(n / 10) + [DigitChar(n % 10)];
      assert s[..|s| - 1] == NatToDecimal(n / 10);
      s
  }

  /** Python's str() of an int: a '-' in front of the digits of a negative number. */
  function IntToDecimal(i: int): (s: string)
    ensures |s| > 0
    ensures i >= 0 ==> s == NatToDecimal(i)
    ensures i < 0 ==> s == "-" + NatToDecimal(-i)
  {
    if i < 0 then "-" + NatToDecimal(-i) else NatToDecimal(i)
  }

  function Zeros(n: nat): (z: string)
    ensures |z| == n && forall k :: 0 <= k < n ==> z[k] == '0'
  {
    seq(n, _ => '0')
  }

  /** Python's str.zfill: pads with '0' on the left up to `width` characters,
      keeping a leading '+' or '-' in front; never shortens. */
  function ZFill(s: string, width: nat): (r: string)
    ensures |r| == if |s| >= width then |s| else width
    ensures |s| >= width ==> r == s
    ensures |s| < width && !(|s| > 0 && (s[0] == '+' || s[0] == '-')) ==> r == Zeros(width - |s|) + s
    ensures |s| < width && |s| > 0 && (s[0] == '+' || s[0] == '-') ==> r == [s[0]] + Zeros(width - |s|) + s[1..]
  {
    if |s| >= width then s
    else if |s| > 0 && (s[0] == '+' || s[0] == '-') then [s[0]] + Zeros(width - |s|) + s[1..]
    else Zeros(width - |s|) + s
  }

  lemma {:induction false} DigitsValueAppend(a: string, c: char)
    requires AllDigits(a) && IsDigit(c)
    ensures AllDigits(a + [c]) && DigitsValue(a + [c]) == DigitsValue(a) * 10 + DigitValue(c)
  {
    assert (a + [c])[..|a + [c]| - 1] == a;
  }

  lemma {:induction false} DigitsValueZeros(n: nat)
    ensures AllDigits(Zeros(n)) && DigitsValue(Zeros(n)) == 0
  {
    if n > 0 {
      assert Zeros(n)[..n - 1] == Zeros(n - 1);
      DigitsValueZeros(n - 1);
    }
  }

  /** Leading zeros do not change the value of a digit string. */
  lemma {:induction false} DigitsValueLeadingZeros(n: nat, s: string)
    requires AllDigits(s)
    ensures AllDigits(Zeros(n) + s) && DigitsValue(Zeros(n) + s) == DigitsValue(s)
    decreases |s|
  {
    var t := Zeros(n) + s;
    assert AllDigits(t);
    if s == [] {
      assert t == Zeros(n);
      DigitsValueZeros(n);
    } else {
      var init := s[..|s| - 1];
      assert t[..|t| - 1] == Zeros(n) + init;
      DigitsValueLeadingZeros(n, init);
    }
  }

  /** Zero-padding a digit string keeps it a digit string of the same value. */
  lemma ZFillDigits(s: string, width: nat)
    requires |s| > 0 && AllDigits(s)
    ensures AllDigits(ZFill(s, width)) && DigitsValue(ZFill(s, width)) == DigitsValue(s)
    ensures |ZFill(s, width)| >= width && |ZFill(s, width)| >= |s|
  {
    if |s| < width {
      DigitsValueLeadingZeros(width - |s|, s);
    }
  }

  /** A run or chunk index as both programs write it into a file name:
      str(index).zfill(4). It is at least four digits, exactly four below
      10000, and reads back as the index. */
  function IndexText(c: nat): (t: string)
    ensures |t| >= 4 && AllDigits(t)
    ensures DigitsValue(t) == c
    ensures c < 10000 ==> |t| == 4
  {
    var d := NatToDecimal(c);
    ZFillDigits(d, 4);
    if |d| > 4 then
      DigitsValueLowerBound(d);
      ZFill(d, 4)
    else
      ZFill(d, 4)
  }

  /** Below 10000, names that differ only in their index field sort in index order. */
  lemma IndexTextOrder(a: nat, b: nat, s: string)
    requires a < 10000 && b < 10000
    ensures LexLe(IndexText(a) + s, IndexText(b) + s) <==> a <= b
  {
    var ta, tb := IndexText(a), IndexText(b);
    LexLeDigits(ta, tb);
    if ta == tb {
      LexLeReflexive(ta + s);
    } else {
      LexLeEqualLength(ta, tb, s, s);
    }
  }

  /** Different indices give different names, whatever follows the index field. */
  lemma IndexTextInjective(a: nat, b: nat, s: string)
    requires IndexText(a) + s == IndexText(b) + s
    ensures a == b
  {
    var ta, tb := IndexText(a), IndexText(b);
    assert |ta| == |tb|;
    assert ta == (ta + s)[..|ta|];
    assert tb == (tb + s)[..|tb|];
  }

  /** A digit string of more than four digits without a leading zero is at least 10000. */
  lemma {:induction false} DigitsValueLowerBound(s: string)
    requires AllDigits(s) && |s| >= 5 && s[0] != '0'
    ensures DigitsValue(s) >= 10000
    decreases |s|
  {
    var init := s[..|s| - 1];
    if |s| == 5 {
      assert init[..3][..2][..1] == [s[0]];
      assert DigitsValue([s[0]]) >= 1 by {
        assert [s[0]][..0] == [];
      }
      assert DigitsValue(init[..3][..2]) >= 10;
      assert DigitsValue(init[..3]) >= 100;
      assert DigitsValue(init) >= 1000;
    } else {
      assert init[0] == s[0];
      DigitsValueLowerBound(init);
    }
  }

  // ---------------------------------------------------------------------------
  // Searching and slicing

  predicate OccursAt(s: string, pat: string, j: int)
  {
    0 <= j && j + |pat| <= |s| && s[j..j + |pat|] == pat
  }

  function FindFrom(s: string, pat: string, i: nat): (r: int)
    requires i <= |s|
    ensures r == -1 || (i <= r && OccursAt(s, pat, r))
    ensures r == -1 ==> forall j :: i <= j <= |s| ==> !OccursAt(s, pat, j)
    ensures r != -1 ==> forall j :: i <= j < r ==> !OccursAt(s, pat, j)
    decreases |s| - i
  {
    if OccursAt(s, pat, i) then i
    else if i == |s| then -1
    else FindFrom(s, pat, i + 1)
  }

  /** Python's str.find: the index of the first occurrence of `pat`, or -1. */
  function Find(s: string, pat: string): (r: int)
    ensures r == -1 || OccursAt(s, pat, r)
    ensures r == -1 <==> forall j :: 0 <= j <= |s| ==> !OccursAt(s, pat, j)
    ensures r != -1 ==> forall j :: 0 <= j < r ==> !OccursAt(s, pat, j)
  {
    FindFrom(s, pat, 0)
  }

  /** How Python turns a slice bound into an index: negative bounds count from
      the end, and every bound is clamped into 0..n. */
  function SliceBound(b: int, n: nat): (k: nat)
    ensures k <= n
    ensures 0 <= b <= n ==> k == b
    ensures b > n ==> k == n
  {
    if b < 0 then (if b + n < 0 then 0 else b + n) else if b > n then n else b
  }

  /** Python's s[a:b]. */
  function PySlice(s: string, a: int, b: int): (r: string)
    ensures 0 <= a <= b <= |s| ==> r == s[a..b]
    ensures |r| <= |s|
  {
    var lo, hi := SliceBound(a, |s|), SliceBound(b, |s|);
    if lo < hi then s[lo..hi] else []
  }

  // ---------------------------------------------------------------------------
  // Python's int() of a string

  /** The characters str.isspace() accepts, which int() skips around a number:
      space, \t \n \v \f \r, the separators 0x1c..0x1f, NEL, the no-break
      space, and the Unicode space, line and paragraph separators. */
  predicate IsSpace(c: char)
  {
    c == ' ' || 9 <= c as int <= 13 || 28 <= c as int <= 31
    || c as int == 0x85 || c as int == 0xa0 || c as int == 0x1680
    || 0x2000 <= c as int <= 0x200a || c as int == 0x2028 || c as int == 0x2029
    || c as int == 0x202f || c as int == 0x205f || c as int == 0x3000
  }

  function StripLeft(s: string): (r: string)
    ensures |r| <= |s| && r == s[|s| - |r|..]
    ensures forall k :: 0 <= k < |s| - |r| ==> IsSpace(s[k])
    ensures r == [] || !IsSpace(r[0])
    ensures (s == [] || !IsSpace(s[0])) ==> r == s
  {
    if s != [] && IsSpace(s[0]) then
      var r := StripLeft(s[1..]);
      assert s[1..][|s| - 1 - |r|..] == s[|s| - |r|..];
      assert forall k :: 1 <= k < |s| - |r| ==> s[k] == s[1..][k - 1];
      r
    else s
  }

  function StripRight(s: string): (r: string)
    ensures |r| <= |s| && r == s[..|r|]
    ensures forall k :: |r| <= k < |s| ==> IsSpace(s[k])
    ensures r == [] || !IsSpace(r[|r| - 1])
    ensures (s == [] || !IsSpace(s[|s| - 1])) ==> r == s
  {
    if s != [] && IsSpace(s[|s| - 1]) then
      var r := StripRight(s[..|s| - 1]);
      assert s[..|s| - 1][..|r|] == s[..|r|];
      assert forall k :: |r| <= k < |s| - 1 ==> s[k] == s[..|s| - 1][k];
      r
    else s
  }

  /** Python's int(s) for a str: surrounding whitespace, an optional sign and at
      least one decimal digit; None stands for the ValueError it raises otherwise. */
  function PyInt(s: string): (r: Option<int>)
    ensures |s| > 0 && AllDigits(s) ==> r == Some(DigitsValue(s))
  {
    DigitsUnstripped(s);
    var t := StripRight(StripLeft(s));
    if |t| > 0 && (t[0] == '+' || t[0] == '-') then
      var d := t[1..];
      if |d| > 0 && AllDigits(d) then
        var v: int := DigitsValue(d);
        Some(if t[0] == '-' then -v else v)
      else None
    else if |t| > 0 && AllDigits(t) then Some(DigitsValue(t))
    else None
  }

  /** Digits carry no surrounding whitespace for int() to strip. */
  lemma DigitsUnstripped(s: string)
    ensures |s| > 0 && AllDigits(s) ==> StripRight(StripLeft(s)) == s
  {
    if |s| > 0 && AllDigits(s) {
      assert IsDigit(s[0]) && IsDigit(s[|s| - 1]);
      assert StripLeft(s) == s;
    }
  }

  /** int(str(i)) == i: the decimal text of an integer parses back to it. */
  lemma IntRoundTrip(i: int)
    ensures PyInt(IntToDecimal(i)) == Some(i)
  {
    var s := IntToDecimal(i);
    var d := NatToDecimal(if i < 0 then -i else i);
    assert !IsSpace(s[0]) && !IsSpace(s[|s| - 1]) by {
      assert IsDigit(d[0]) && IsDigit(d[|d| - 1]);
    }
    assert StripRight(StripLeft(s)) == s;
    if i < 0 {
      assert s[1..] == d;
    }
  }

  /** int() raises ValueError (None) on a string holding any character that is
      neither a digit, nor whitespace, nor a sign. */
  lemma PyIntValueError(s: string, i: nat)
    requires i < |s| && !IsDigit(s[i]) && !IsSpace(s[i]) && s[i] != '+' && s[i] != '-'
    ensures PyInt(s) == None
  {
    var l := StripLeft(s);
    assert |s| - |l| <= i;
    var j := i - (|s| - |l|);
    assert l[j] == s[i];
    var t := StripRight(l);
    assert j < |t|;
    assert t[j] == s[i];
    assert !AllDigits(t);
    assert t[j] != '+' && t[j] != '-';
    if |t| > 0 && (t[0] == '+' || t[0] == '-') {
      assert j != 0;
      assert t[1..][j - 1] == s[i];
      assert !AllDigits(t[1..]);
    }
  }

  // ---------------------------------------------------------------------------
  // The order Python sorts str values in: code point by code point, a proper
  // prefix before its extensions.

  /** a sorts no later than b; in particular a prefix sorts no later than its extensions. */
  predicate LexLe(a: string, b: string)
    ensures a <= b ==> LexLe(a, b)
    decreases |a|
  {
    if a == [] then true
    else if b == [] then false
    else if a[0] != b[0] then a[0] < b[0]
    else
      assert a <= b ==> a[1..] <= b[1..];
      LexLe(a[1..], b[1..])
  }

  /** The order compares at the first position where the strings differ; when
      there is none, the shorter string comes first. */
  lemma {:induction false} LexLeFirstDifference(a: string, b: string)
    ensures LexLe(a, b) <==>
      a <= b || exists k :: 0 <= k < |a| && k < |b| && a[..k] == b[..k] && a[k] < b[k]
    decreases |a|
  {
    if a != [] && b != [] && a[0] == b[0] {
      var a', b' := a[1..], b[1..];
      LexLeFirstDifference(a', b');
      if LexLe(a, b) && !(a <= b) {
        assert !(a' <= b');
        var k :| 0 <= k < |a'| && k < |b'| && a'[..k] == b'[..k] && a'[k] < b'[k];
        assert a[..k + 1] == [a[0]] + a'[..k] && b[..k + 1] == [b[0]] + b'[..k];
        assert a[k + 1] == a'[k] && b[k + 1] == b'[k];
      }
      if exists k :: 0 <= k < |a| && k < |b| && a[..k] == b[..k] && a[k] < b[k] {
        var k :| 0 <= k < |a| && k < |b| && a[..k] == b[..k] && a[k] < b[k];
        assert k > 0;
        assert a'[..k - 1] == a[1..k] == b[1..k] == b'[..k - 1];
        assert a'[k - 1] == a[k] && b'[k - 1] == b[k];
      }
    } else if a != [] && b != [] {
      if a[0] < b[0] {
        assert a[..0] == b[..0];
      }
    }
  }

  lemma {:induction false} LexLeReflexive(a: string)
    ensures LexLe(a, a)
    decreases |a|
  {
    if a != [] { LexLeReflexive(a[1..]); }
  }

  lemma {:induction false} LexLeTotal(a: string, b: string)
    ensures LexLe(a, b) || LexLe(b, a)
    decreases |a|
  {
    if a != [] && b != [] && a[0] == b[0] { LexLeTotal(a[1..], b[1..]); }
  }

  lemma {:induction false} LexLeAntisymmetric(a: string, b: string)
    requires LexLe(a, b) && LexLe(b, a)
    ensures a == b
    decreases |a|
  {
    if a != [] && b != [] {
      LexLeAntisymmetric(a[1..], b[1..]);
      assert a == [a[0]] + a[1..] && b == [b[0]] + b[1..];
    }
  }

  lemma {:induction false} LexLeTransitive(a: string, b: string, c: string)
    requires LexLe(a, b) && LexLe(b, c)
    ensures LexLe(a, c)
    decreases |a|
  {
    if a != [] && b != [] && c != [] && a[0] == b[0] && b[0] == c[0] {
      LexLeTransitive(a[1..], b[1..], c[1..]);
    }
  }

  /** A common prefix does not affect the comparison. */
  lemma {:induction false} LexLeCommonPrefix(p: string, a: string, b: string)
    ensures LexLe(p + a, p + b) == LexLe(a, b)
    decreases |p|
  {
    if p != [] {
      assert (p + a)[0] == p[0] == (p + b)[0];
      assert (p + a)[1..] == p[1..] + a && (p + b)[1..] == p[1..] + b;
      LexLeCommonPrefix(p[1..], a, b);
    } else {
      assert p + a == a && p + b == b;
    }
  }

  /** Two different strings of the same length are ordered by themselves,
      whatever follows them. */
  lemma {:induction false} LexLeEqualLength(a: string, b: string, s: string, t: string)
    requires |a| == |b| && a != b
    ensures LexLe(a + s, b + t) == LexLe(a, b)
    decreases |a|
  {
    if a[0] == b[0] {
      assert a[1..] != b[1..] by { assert a == [a[0]] + a[1..] && b == [b[0]] + b[1..]; }
      assert (a + s)[1..] == a[1..] + s && (b + t)[1..] == b[1..] + t;
      LexLeEqualLength(a[1..], b[1..], s, t);
    }
  }

  /** For digit strings of one length, the lexicographic order is the numeric order. */
  lemma {:induction false} LexLeDigits(a: string, b: string)
    requires |a| == |b| && AllDigits(a) && AllDigits(b)
    ensures LexLe(a, b) <==> DigitsValue(a) <= DigitsValue(b)
    ensures a == b <==> DigitsValue(a) == DigitsValue(b)
    decreases |a|
  {
    if a == [] {
    } else {
      var n := |a| - 1;
      var a', b' := a[..n], b[..n];
      assert a == a' + [a[n]] && b == b' + [b[n]];
      LexLeDigits(a', b');
      if a' == b' {
        LexLeCommonPrefix(a', [a[n]], [b[n]]);
      } else {
        LexLeEqualLength(a', b', [a[n]], [b[n]]);
      }
    }
  }

  // ---------------------------------------------------------------------------
  // Text made of lines, each ended by '\n'

  predicate NoNewline(s: string) { forall k :: 0 <= k < |s| ==> s[k] != '\n' }

  /** The text written by writing every line followed by '\n'. */
  function LinesText(lines: seq<string>): string
    decreases |lines|
  {
    if lines == [] then [] else LinesText(lines[..|lines| - 1]) + lines[|lines| - 1] + "\n"
  }

  lemma {:induction false} LinesTextAppend(a: seq<string>, b: seq<string>)
    ensures LinesText(a + b) == LinesText(a) + LinesText(b)
    decreases |b|
  {
    if b == [] {
      assert a + b == a;
    } else {
      var n := |b| - 1;
      assert (a + b)[..|a + b| - 1] == a + b[..n];
      LinesTextAppend(a, b[..n]);
    }
  }

  /** The length of the first line: the index of the first '\n', or |t|. */
  function LineLength(t: string): (k: nat)
    ensures k <= |t|
    ensures k < |t| ==> t[k] == '\n'
    ensures NoNewline(t[..k])
  {
    if t == [] || t[0] == '\n' then 0 else 1 + LineLength(t[1..])
  }

  /** Splits text into its lines; a last line without '\n' still counts. */
  function SplitLines(t: string): seq<string>
    decreases |t|
  {
    if t == [] then []
    else
      var k := LineLength(t);
      if k == |t| then [t] else [t[..k]] + SplitLines(t[k + 1..])
  }

  lemma {:induction false} LineLengthOf(l: string, rest: string)
    requires NoNewline(l)
    ensures LineLength(l + "\n" + rest) == |l|
    decreases |l|
  {
    if l != [] {
      assert (l + "\n" + rest)[1..] == l[1..] + "\n" + rest;
      LineLengthOf(l[1..], rest);
    }
  }

  lemma {:induction false} SplitLinesCons(l: string, rest: string)
    requires NoNewline(l)
    ensures SplitLines(l + "\n" + rest) == [l] + SplitLines(rest)
  {
    var t := l + "\n" + rest;
    LineLengthOf(l, rest);
    assert t[..|l|] == l && t[|l| + 1..] == rest;
  }

  function LinesTextFront(lines: seq<string>): string
    decreases |lines|
  {
    if lines == [] then [] else lines[0] + "\n" + LinesTextFront(lines[1..])
  }

  lemma {:induction false} LinesTextFrontSame(lines: seq<string>)
    ensures LinesText(lines) == LinesTextFront(lines)
    decreases |lines|
  {
    if lines != [] {
      LinesTextFrontSame(lines[1..]);
      LinesTextAppend([lines[0]], lines[1..]);
      assert [lines[0]] + lines[1..] == lines;
      assert LinesText([lines[0]]) == LinesText([]) + lines[0] + "\n";
    }
  }

  /** Splitting the text of newline-free lines gives back exactly those lines. */
  lemma {:induction false} SplitLinesText(lines: seq<string>)
    requires forall k :: 0 <= k < |lines| ==> NoNewline(lines[k])
    ensures SplitLines(LinesText(lines)) == lines
    decreases |lines|
  {
    LinesTextFrontSame(lines);
    if lines != [] {
      LinesTextFrontSame(lines[1..]);
      SplitLinesCons(lines[0], LinesTextFront(lines[1..]));
      SplitLinesText(lines[1..]);
      assert [lines[0]] + lines[1..] == lines;
    }
  }

  // ---------------------------------------------------------------------------
  // Sequence helpers

  lemma AppendAssociative<T>(a: seq<T>, b: seq<T>, c: seq<T>)
    ensures a + (b + c) == (a + b) + c
  {
  }

  lemma InitAndLast<T>(s: seq<T>)
    requires s != []
    ensures s[..|s| - 1] + [s[|s| - 1]] == s
  {
  }

  lemma AfterHead<T>(x: T, rest: seq<T>)
    ensures ([x] + rest)[0] == x && ([x] + rest)[1..] == rest
  {
  }

  /** A tag followed by a value begins with the tag and has the value after it. */
  lemma LabelledField(tag: string, value: string)
    ensures tag <= tag + value && (tag + value)[|tag|..] == value
  {
  }

  /** A prefix of a string stays a prefix when more is appended. */
  lemma PrefixExtends(x: string, y: string, z: string)
    requires x <= y
    ensures x <= y + z
  {
    assert (y + z)[..|x|] == y[..|x|];
  }

  lemma SliceJoin<T>(s: seq<T>, a: nat, b: nat, c: nat)
    requires a <= b <= c <= |s|
    ensures s[a..c] == s[a..b] + s[b..c]
  {
  }
}
