// The handful of Python 2 string operations the configuration parser, the
// generators and the reference solutions rely on, written out on seq<char>.
module PyStrings {
  import opened Wrappers

  /** Python's whitespace characters for str.strip() and str.split(). */
  predicate IsSpace(c: char) {
    c == ' ' || c == '\t' || c == '\n' || c == '\r' || c as int == 11 || c as int == 12
  }

  predicate IsDigit(c: char) {
    '0' <= c <= '9'
  }

  /** str.lstrip() */
  function LStrip(s: string): (r: string)
    ensures |r| <= |s|
    ensures r == [] || !IsSpace(r[0])
    ensures r != [] ==> r[|r| - 1] == s[|s| - 1]
  {
    if s == [] || !IsSpace(s[0]) then s else LStrip(s[1..])
  }

  /** str.rstrip() */
  function RStrip(s: string): (r: string)
    ensures |r| <= |s|
    ensures r == [] || !IsSpace(r[|r| - 1])
    ensures r != [] ==> r[0] == s[0]
  {
    if s == [] || !IsSpace(s[|s| - 1]) then s else RStrip(s[..|s| - 1])
  }

  /** str.strip(): the input without its leading and trailing whitespace. */
  function Strip(s: string): (r: string)
    ensures |r| <= |s|
    ensures r == [] || (!IsSpace(r[0]) && !IsSpace(r[|r| - 1]))
  {
    RStrip(LStrip(s))
  }

  /** lstrip() removes a prefix. */
  lemma {:induction false} LStripSuffix(s: string)
    ensures LStrip(s) == s[|s| - |LStrip(s)|..]
    decreases |s|
  {
    if s != [] && IsSpace(s[0]) {
      LStripSuffix(s[1..]);
    }
  }

  /** rstrip() removes a suffix. */
  lemma {:induction false} RStripPrefix(s: string)
    ensures RStrip(s) == s[..|RStrip(s)|]
    decreases |s|
  {
    if s != [] && IsSpace(s[|s| - 1]) {
      RStripPrefix(s[..|s| - 1]);
    }
  }

  /** strip() adds no character. */
  lemma StripKeepsOut(s: string, c: char)
    requires c !in s
    ensures c !in Strip(s)
  {
    var l := LStrip(s);
    LStripSuffix(s);
    RStripPrefix(l);
    assert forall i :: 0 <= i < |l| ==> l[i] == s[|s| - |l| + i];
  }

  /** s.split(sep) for a one-character separator: always one more piece than separators. */
  function Split(s: string, sep: char): (r: seq<string>)
    ensures |r| >= 1
    decreases |s|
  {
    if s == [] then [""]
    else
      var rest := Split(s[1..], sep);
      if s[0] == sep then [""] + rest else [[s[0]] + rest[0]] + rest[1..]
  }

  /** s.split(sep) for a separator of several characters, scanning left to right. */
  function SplitStr(s: string, sep: string): (r: seq<string>)
    requires sep != []
    ensures |r| >= 1
    decreases |s|
  {
    if |s| < |sep| then [s]
    else if s[..|sep|] == sep then [""] + SplitStr(s[|sep|..], sep)
    else
      var rest := SplitStr(s[1..], sep);
      [[s[0]] + rest[0]] + rest[1..]
  }

  /** sep.join(parts) */
  function Join(sep: string, parts: seq<string>): string
    decreases |parts|
  {
    if parts == [] then ""
    else if |parts| == 1 then parts[0]
    else parts[0] + sep + Join(sep, parts[1..])
  }

  /** Splitting at a character and joining with it gives the input back. */
  lemma {:induction false} JoinSplit(s: string, sep: char)
    ensures Join([sep], Split(s, sep)) == s
    decreases |s|
  {
    if s != [] {
      JoinSplit(s[1..], sep);
      var rest := Split(s[1..], sep);
      if s[0] != sep && |rest| > 1 {
        assert Join([sep], [[s[0]] + rest[0]] + rest[1..])
            == [s[0]] + rest[0] + [sep] + Join([sep], rest[1..]);
      }
    }
  }

  /** Pieces of `s` between characters satisfying `isSep` (empty pieces kept). */
  function SplitAt(s: string, isSep: char -> bool): (r: seq<string>)
    ensures |r| >= 1
    decreases |s|
  {
    if s == [] then [""]
    else
      var rest := SplitAt(s[1..], isSep);
      if isSep(s[0]) then [""] + rest else [[s[0]] + rest[0]] + rest[1..]
  }

  function NonEmpty(parts: seq<string>): (r: seq<string>)
    ensures forall i :: 0 <= i < |r| ==> r[i] != ""
    ensures |r| <= |parts|
  {
    if parts == [] then []
    else if parts[0] == "" then NonEmpty(parts[1..])
    else [parts[0]] + NonEmpty(parts[1..])
  }

  /** str.split() with no argument: the maximal runs of non-whitespace characters. */
  function Words(s: string): seq<string> {
    NonEmpty(SplitAt(s, IsSpace))
  }

  lemma {:induction false} SplitAtNone(s: string, isSep: char -> bool)
    requires forall k :: 0 <= k < |s| ==> !isSep(s[k])
    ensures SplitAt(s, isSep) == [s]
  {
    if s != [] {
      SplitAtNone(s[1..], isSep);
      assert [s[0]] + s[1..] == s;
    }
  }

  lemma {:induction false} SplitAtTwo(a: string, c: char, b: string, isSep: char -> bool)
    requires isSep(c) && (forall k :: 0 <= k < |a| ==> !isSep(a[k])) && forall k :: 0 <= k < |b| ==> !isSep(b[k])
    ensures SplitAt(a + [c] + b, isSep) == [a, b]
  {
    if a == [] {
      assert a + [c] + b == [c] + b;
      assert ([c] + b)[1..] == b;
      SplitAtNone(b, isSep);
    } else {
      assert (a + [c] + b)[1..] == a[1..] + [c] + b;
      SplitAtTwo(a[1..], c, b, isSep);
      assert [a[0]] + a[1..] == a;
    }
  }

  /** A nonempty run of characters that are not whitespace. */
  predicate Word(s: string) {
    s != [] && forall k :: 0 <= k < |s| ==> !IsSpace(s[k])
  }

  /** A single word splits into itself. */
  lemma WordsOne(a: string)
    requires Word(a)
    ensures Words(a) == [a]
  {
    SplitAtNone(a, IsSpace);
    assert [a][1..] == [];
  }

  /** Two words separated by one space split into the two. */
  lemma WordsTwo(a: string, b: string)
    requires Word(a) && Word(b)
    ensures Words(a + " " + b) == [a, b]
  {
    SplitAtTwo(a, ' ', b, IsSpace);
    assert a + " " + b == a + [' '] + b;
    assert [a, b][1..] == [b];
    assert NonEmpty([b]) == [b] by {
      assert [b][1..] == [];
    }
  }

  predicate IsParen(c: char) {
    c == '(' || c == ')'
  }

  /**
   * re.split("[()]+", s) followed by the callers' filter of pieces that are
   * empty after strip(): the stripped, non-blank pieces between parentheses.
   */
  function LayerTexts(s: string): (r: seq<string>)
    ensures forall i :: 0 <= i < |r| ==> r[i] != [] && !IsSpace(r[i][0])
  {
    StripNonBlank(SplitAt(s, IsParen))
  }

  function StripNonBlank(parts: seq<string>): (r: seq<string>)
    ensures forall i :: 0 <= i < |r| ==> r[i] != [] && !IsSpace(r[i][0])
  {
    if parts == [] then []
    else
      var p := Strip(parts[0]);
      var rest := StripNonBlank(parts[1..]);
      if p == [] then rest
      else
        assert forall i :: 1 <= i < |rest| + 1 ==> ([p] + rest)[i] == rest[i - 1];
        [p] + rest
  }

  /** `sub in s` for strings. */
  predicate Contains(s: string, sub: string) {
    exists i :: 0 <= i <= |s| - |sub| && OccursAt(s, sub, i)
  }

  predicate OccursAt(s: string, sub: string, i: int) {
    0 <= i <= |s| - |sub| && s[i..i + |sub|] == sub
  }

  function CountChar(s: string, c: char): nat {
    if s == [] then 0 else (if s[0] == c then 1 else 0) + CountChar(s[1..], c)
  }

  /** string.find(s, prefix) == 0 */
  predicate StartsWith(s: string, prefix: string) {
    |prefix| <= |s| && s[..|prefix|] == prefix
  }

  lemma {:induction false} CountCharAppend(a: string, b: string, c: char)
    ensures CountChar(a + b, c) == CountChar(a, c) + CountChar(b, c)
    decreases |a|
  {
    if a == [] {
      assert a + b == b;
    } else {
      CountCharAppend(a[1..], b, c);
      assert (a + b)[1..] == a[1..] + b;
      assert (a + b)[0] == a[0];
    }
  }

  lemma {:induction false} NoCharCount(s: string, c: char)
    requires c !in s
    ensures CountChar(s, c) == 0
    decreases |s|
  {
    if s != [] {
      NoCharCount(s[1..], c);
    }
  }

  lemma {:induction false} SplitPiecesFrom(s: string, sep: char, c: char)
    requires c !in s
    ensures forall k :: 0 <= k < |Split(s, sep)| ==> c !in Split(s, sep)[k]
    decreases |s|
  {
    if s != [] {
      SplitPiecesFrom(s[1..], sep, c);
    }
  }

  lemma {:induction false} JoinFrom(sep: string, parts: seq<string>, c: char)
    requires c !in sep && forall k :: 0 <= k < |parts| ==> c !in parts[k]
    ensures c !in Join(sep, parts)
    decreases |parts|
  {
    if |parts| > 1 {
      JoinFrom(sep, parts[1..], c);
    }
  }

  /** One more piece than separators. */
  lemma {:induction false} SplitCount(s: string, sep: char)
    ensures |Split(s, sep)| == CountChar(s, sep) + 1
    decreases |s|
  {
    if s != [] {
      SplitCount(s[1..], sep);
    }
  }

  /** No piece holds the separator. */
  lemma {:induction false} SplitNoSep(s: string, sep: char)
    ensures forall k :: 0 <= k < |Split(s, sep)| ==> sep !in Split(s, sep)[k]
    decreases |s|
  {
    if s != [] {
      SplitNoSep(s[1..], sep);
      var rest := Split(s[1..], sep);
      if s[0] != sep {
        assert forall k :: 1 <= k < |rest| ==> ([[s[0]] + rest[0]] + rest[1..])[k] == rest[k];
      }
    }
  }

  /** Joining pieces free of c with c puts exactly the joints' copies of c in. */
  lemma {:induction false} JoinCount(c: char, parts: seq<string>)
    requires parts != [] && forall k :: 0 <= k < |parts| ==> c !in parts[k]
    ensures CountChar(Join([c], parts), c) == |parts| - 1
    decreases |parts|
  {
    NoCharCount(parts[0], c);
    if |parts| > 1 {
      JoinCount(c, parts[1..]);
      CountCharAppend(parts[0], [c], c);
      CountCharAppend(parts[0] + [c], Join([c], parts[1..]), c);
    }
  }

  /** A slice has at most the copies of c of the whole. */
  lemma SliceCount(s: string, lo: nat, hi: nat, c: char)
    requires lo <= hi <= |s|
    ensures CountChar(s[lo..hi], c) <= CountChar(s, c)
  {
    assert s == s[..lo] + s[lo..hi] + s[hi..];
    CountCharAppend(s[..lo], s[lo..hi], c);
    CountCharAppend(s[..lo] + s[lo..hi], s[hi..], c);
  }

  lemma PySliceCount(s: string, a: int, b: int, c: char)
    ensures CountChar(PySlice(s, a, b), c) <= CountChar(s, c)
  {
    var lo := SliceBound(a, |s|);
    var hi := SliceBound(b, |s|);
    if lo <= hi {
      SliceCount(s, lo, hi, c);
    }
  }

  /** "    " * n */
  function Indent(n: nat): (r: string)
    ensures |r| == 4 * n
  {
    if n == 0 then "" else "    " + Indent(n - 1)
  }

  function DigitValue(c: char): nat
    requires IsDigit(c)
  {
    c as int - '0' as int
  }

  function DigitsValue(s: string): nat
    requires forall i :: 0 <= i < |s| ==> IsDigit(s[i])
  {
    if s == [] then 0 else 10 * DigitsValue(s[..|s| - 1]) + DigitValue(s[|s| - 1])
  }

  predicate AllDigits(s: string) {
    forall i :: 0 <= i < |s| ==> IsDigit(s[i])
  }

  /** int(s) on a string: optional surrounding whitespace, an optional sign, decimal digits. */
  function ParseInt(s: string): (r: Option<int>)
    ensures r.Some? ==> Strip(s) != []
  {
    var t := Strip(s);
    if t == [] then None
    else
      var neg := t[0] == '-';
      var digits := if t[0] == '-' || t[0] == '+' then t[1..] else t;
      if digits == [] || !AllDigits(digits) then None
      else if neg then Some(-(DigitsValue(digits) as int))
      else Some(DigitsValue(digits) as int)
  }

  /** str(n) for a natural number. */
  function NatToString(n: nat): (r: string)
    ensures r != [] && AllDigits(r)
    ensures DigitsValue(r) == n
    ensures r[0] == '0' ==> n == 0
    ensures n < 10 ==> |r| == 1
    ensures n >= 10 ==> |r| >= 2
  {
    if n < 10 then [('0' as int + n) as char]
    else
      var p := NatToString(n / 10);
      var r := p + [('0' as int + n % 10) as char];
      assert r[..|r| - 1] == p;
      r
  }

  /** str(n) */
  function IntToString(n: int): (r: string)
    ensures r != []
  {
    if n < 0 then "-" + NatToString(-n) else NatToString(n)
  }

  /** A string that neither starts nor ends with whitespace is its own strip(). */
  lemma StripUnchanged(s: string)
    requires s == [] || (!IsSpace(s[0]) && !IsSpace(s[|s| - 1]))
    ensures Strip(s) == s
  {
    assert LStrip(s) == s;
  }

  /** int() of a non-empty run of decimal digits is its value. */
  lemma ParseIntDigits(s: string)
    requires s != [] && AllDigits(s)
    ensures ParseInt(s) == Some(DigitsValue(s) as int)
  {
    StripUnchanged(s);
  }

  /** int(str(n)) == n */
  lemma ParseIntToString(n: int)
    ensures ParseInt(IntToString(n)) == Some(n)
  {
    var s := IntToString(n);
    StripUnchanged(s);
    if n < 0 {
      var p := NatToString(-n);
      assert s == "-" + p;
      assert s[1..] == p;
      assert s[0] == '-';
    } else {
      var p := NatToString(n);
      assert s == p && IsDigit(p[0]);
    }
  }

  /** str.lower() on ASCII letters. */
  function Lower(s: string): (r: string)
    ensures |r| == |s|
    ensures forall i :: 0 <= i < |s| ==> r[i] == (if 'A' <= s[i] <= 'Z' then (s[i] as int + 32) as char else s[i])
  {
    if s == [] then "" else
      var c := if 'A' <= s[0] <= 'Z' then (s[0] as int + 32) as char else s[0];
      [c] + Lower(s[1..])
  }

  /** Python's reading of a slice bound: negative counts from the end, then clamp. */
  function SliceBound(i: int, n: nat): (r: nat)
    ensures r <= n
  {
    if i < 0 then (if i + n < 0 then 0 else i + n) else if i > n then n else i
  }

  /** xs[a:b] with Python's slice semantics. */
  function PySlice<T>(xs: seq<T>, a: int, b: int): (r: seq<T>)
    ensures 0 <= a <= b <= |xs| ==> r == xs[a..b]
    ensures |r| <= |xs|
  {
    var lo := SliceBound(a, |xs|);
    var hi := SliceBound(b, |xs|);
    if lo <= hi then xs[lo..hi] else []
  }
}
