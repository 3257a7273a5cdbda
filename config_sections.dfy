// The configuration file's sections: slicing out a section's lines, the
// [variables] section (a name and an inclusive integer range per line) and
// the validation sections (one import line per entry).
module ConfigSections {
  import opened Wrappers
  import opened PyStrings
  import opened VarLookup

  type Variables = map<string, seq<int>>

  // _find_sublines

  /** list.index: the first position holding x. */
  function IndexOf(xs: seq<int>, x: int): (r: Option<nat>)
    ensures r.Some? <==> x in xs
    ensures r.Some? ==> r.value < |xs| && xs[r.value] == x && forall j :: 0 <= j < r.value ==> xs[j] != x
  {
    IndexFrom(xs, x, 0)
  }

  /** The first position from i on holding x. */
  function IndexFrom(xs: seq<int>, x: int, i: nat): (r: Option<nat>)
    requires i <= |xs|
    ensures r.None? ==> forall j :: i <= j < |xs| ==> xs[j] != x
    ensures r.Some? ==> i <= r.value < |xs| && xs[r.value] == x && forall j :: i <= j < r.value ==> xs[j] != x
    decreases |xs| - i
  {
    if i == |xs| then None
    else if xs[i] == x then Some(i)
    else IndexFrom(xs, x, i + 1)
  }

  /**
   * _find_sublines: given each header's first content line and the sorted
   * list of those positions, the lines from the header's first content line
   * to the line before the next section's first content line (the next
   * header itself), or to the end for the last section.
   */
  function FindSublines(headerToIdx: map<string, int>, headerInds: seq<int>, header: string, lines: seq<string>): (r: Result<seq<string>>)
    ensures header !in headerToIdx ==> r == Failure("KeyError")
    ensures header in headerToIdx && headerToIdx[header] !in headerInds ==> r == Failure("ValueError")
  {
    if header !in headerToIdx then Failure("KeyError")
    else
      var start := headerToIdx[header];
      match IndexOf(headerInds, start)
      case None => Failure("ValueError")
      case Some(k) =>
        if k == |headerInds| - 1 then Success(PySlice(lines, start, |lines|))
        else Success(PySlice(lines, start, headerInds[k + 1] - 1))
  }

  /** The first content line of each header: the line after it. */
  function ContentStarts(hs: seq<nat>): (r: seq<int>)
    ensures |r| == |hs| && forall i :: 0 <= i < |hs| ==> r[i] == hs[i] + 1
  {
    seq(|hs|, i requires 0 <= i < |hs| => hs[i] + 1)
  }

  /** Strictly increasing header lines give distinct content starts: hs[k] + 1 is found at k. */
  lemma ContentStartAt(hs: seq<nat>, k: nat)
    requires k < |hs| && forall i, j :: 0 <= i < j < |hs| ==> hs[i] < hs[j]
    ensures IndexOf(ContentStarts(hs), hs[k] + 1) == Some(k)
  {
    var inds := ContentStarts(hs);
    assert inds[k] == hs[k] + 1;
  }

  lemma SublinesBetween(headerToIdx: map<string, int>, hs: seq<nat>, header: string, k: nat, lines: seq<string>)
    requires k < |hs| && forall i, j :: 0 <= i < j < |hs| ==> hs[i] < hs[j]
    requires hs[|hs| - 1] < |lines|
    requires header in headerToIdx && headerToIdx[header] == hs[k] + 1
    ensures FindSublines(headerToIdx, ContentStarts(hs), header, lines)
      == Success(if k == |hs| - 1 then lines[hs[k] + 1..] else lines[hs[k] + 1..hs[k + 1]])
  {
    var inds := ContentStarts(hs);
    ContentStartAt(hs, k);
    var start := hs[k] + 1;
    assert hs[k] <= hs[|hs| - 1];
    if k < |hs| - 1 {
      assert hs[k] < hs[k + 1] <= hs[|hs| - 1];
      assert inds[k + 1] - 1 == hs[k + 1];
      assert PySlice(lines, start, hs[k + 1]) == lines[start..hs[k + 1]];
      assert FindSublines(headerToIdx, inds, header, lines) == Success(lines[start..hs[k + 1]]);
    } else {
      assert PySlice(lines, start, |lines|) == lines[start..];
      assert FindSublines(headerToIdx, inds, header, lines) == Success(lines[start..]);
    }
  }

  // parse_vars

  /** int() of every stripped piece, or None when one of them is no integer. */
  function ParseInts(pieces: seq<string>): Option<seq<int>> {
    if pieces == [] then Some([])
    else match ParseInt(Strip(pieces[0]))
      case None => None
      case Some(x) =>
        match ParseInts(pieces[1..])
        case None => None
        case Some(xs) => Some([x] + xs)
  }

  /**
   * One [variables] line "name start-end": the first word names the
   * variable and the second word is split at '-' into exactly two
   * integers; the range runs from start to end inclusive.
   */
  function VarLine(line: string): Result<(string, seq<int>)> {
    var fields := Words(line);
    if |fields| < 2 then Failure("IndexError")
    else match ParseInts(Split(fields[1], '-'))
      case None => Failure("ValueError")
      case Some(ends) =>
        if |ends| != 2 then Failure("ValueError")
        else Success((fields[0], IntRange(ends[0], ends[1] + 1)))
  }

  /**
   * parse_vars over the first n lines, with `parse` reading one line: blank
   * lines are skipped, the first malformed line's error is the result, and a
   * later line for a name replaces an earlier one.
   */
  function VarsSpec(lines: seq<string>, n: nat, parse: string -> Result<(string, seq<int>)>): Result<Variables>
    requires n <= |lines|
  {
    if n == 0 then Success(map[])
    else match VarsSpec(lines, n - 1, parse)
      case Failure(e) => Failure(e)
      case Success(m) =>
        if lines[n - 1] == "" then Success(m)
        else match parse(lines[n - 1])
          case Failure(e) => Failure(e)
          case Success(p) => Success(m[p.0 := p.1])
  }

  lemma {:induction false} VarsFail(lines: seq<string>, n: nat, m: nat, parse: string -> Result<(string, seq<int>)>)
    requires n <= m <= |lines| && VarsSpec(lines, n, parse).Failure?
    ensures VarsSpec(lines, m, parse) == VarsSpec(lines, n, parse)
    decreases m
  {
    if m > n {
      VarsFail(lines, n, m - 1, parse);
    }
  }

  /** parse_vars: the loop filling the variables dict. */
  method ParseVars(lines: seq<string>) returns (r: Result<Variables>)
    ensures r == VarsSpec(lines, |lines|, VarLine)
  {
    r := FillVars(lines, VarLine);
  }

  /** The loop of parse_vars, with `parse` reading one line. */
  method FillVars(lines: seq<string>, parse: string -> Result<(string, seq<int>)>) returns (r: Result<Variables>)
    ensures r == VarsSpec(lines, |lines|, parse)
  {
    var variables: Variables := map[];
    for i := 0 to |lines|
      invariant VarsSpec(lines, i, parse) == Success(variables)
    {
      if lines[i] == "" {
        continue;
      }
      var p := parse(lines[i]);
      if p.Failure? {
        VarsFail(lines, i + 1, |lines|, parse);
        return Failure(p.error);
      }
      variables := variables[p.value.0 := p.value.1];
    }
    r := Success(variables);
  }

  /** parse_vars fails exactly when some nonblank line is malformed. */
  lemma {:induction false} VarsFailLines(lines: seq<string>, n: nat, parse: string -> Result<(string, seq<int>)>)
    requires n <= |lines|
    ensures VarsSpec(lines, n, parse).Failure? <==> exists i :: 0 <= i < n && lines[i] != "" && parse(lines[i]).Failure?
    decreases n
  {
    if n > 0 {
      VarsFailLines(lines, n - 1, parse);
    }
  }

  /** On success every nonblank line's variable is defined. */
  lemma {:induction false} VarsDefined(lines: seq<string>, n: nat, parse: string -> Result<(string, seq<int>)>)
    requires n <= |lines| && VarsSpec(lines, n, parse).Success?
    ensures forall i :: 0 <= i < n && lines[i] != "" ==> parse(lines[i]).Success? && parse(lines[i]).value.0 in VarsSpec(lines, n, parse).value
    decreases n
  {
    if n > 0 {
      VarsDefined(lines, n - 1, parse);
    }
  }

  /** The last nonblank line among the first n that defines v. */
  predicate LastDefines(lines: seq<string>, n: nat, i: nat, v: string, vals: seq<int>, parse: string -> Result<(string, seq<int>)>)
    requires n <= |lines|
  {
    i < n && lines[i] != "" && parse(lines[i]) == Success((v, vals))
    && forall j :: i < j < n && lines[j] != "" ==> parse(lines[j]).Success? ==> parse(lines[j]).value.0 != v
  }

  /** On success every variable holds the range of the last line naming it. */
  lemma {:induction false} VarsLastLine(lines: seq<string>, n: nat, v: string, parse: string -> Result<(string, seq<int>)>)
    requires n <= |lines| && VarsSpec(lines, n, parse).Success? && v in VarsSpec(lines, n, parse).value
    ensures exists i: nat :: LastDefines(lines, n, i, v, VarsSpec(lines, n, parse).value[v], parse)
    decreases n
  {
    var m := VarsSpec(lines, n, parse).value;
    var prev := VarsSpec(lines, n - 1, parse);
    if lines[n - 1] != "" && parse(lines[n - 1]).value.0 == v {
      assert LastDefines(lines, n, n - 1, v, m[v], parse);
    } else {
      VarsLastLine(lines, n - 1, v, parse);
      var i: nat :| LastDefines(lines, n - 1, i, v, prev.value[v], parse);
      assert LastDefines(lines, n, i, v, m[v], parse);
    }
  }

  lemma ParseIntsOne(b: string, y: int)
    requires ParseInt(Strip(b)) == Some(y)
    ensures ParseInts([b]) == Some([y])
  {
    assert [b][1..] == [] && [b][0] == b;
    assert [y] + [] == [y];
  }

  lemma ParseIntsTwo(a: string, b: string, x: int, y: int)
    requires ParseInt(Strip(a)) == Some(x) && ParseInt(Strip(b)) == Some(y)
    ensures ParseInts([a, b]) == Some([x, y])
  {
    ParseIntsOne(b, y);
    assert [a, b][1..] == [b] && [a, b][0] == a;
    assert [x] + [y] == [x, y];
  }

  /** The text "lo-hi" of a range in the [variables] section. */
  function RangeText(lo: nat, hi: nat): string {
    NatToString(lo) + "-" + NatToString(hi)
  }

  /** A range's text is one word that splits at '-' into its two ends. */
  lemma RangeWord(lo: nat, hi: nat)
    ensures Word(RangeText(lo, hi))
    ensures ParseInts(Split(RangeText(lo, hi), '-')) == Some([lo, hi])
  {
    var a := NatToString(lo);
    var b := NatToString(hi);
    var w := RangeText(lo, hi);
    forall k | 0 <= k < |w| ensures !IsSpace(w[k]) {
      if k < |a| {
        assert w[k] == a[k] && IsDigit(a[k]);
      } else if k > |a| {
        assert w[k] == b[k - |a| - 1] && IsDigit(b[k - |a| - 1]);
      }
    }
    NatToStringPlain(lo);
    NatToStringPlain(hi);
    assert w == a + ['-'] + b;
    SplitTwo(a, b, '-');
    NatIntString(lo);
    NatIntString(hi);
    ParseIntsTwo(a, b, lo, hi);
  }

  lemma NatIntString(n: nat)
    ensures ParseInt(Strip(NatToString(n))) == Some(n)
  {
    var a := NatToString(n);
    NatToStringPlain(n);
    StripUnchanged(a);
    ParseIntToString(n);
    assert IntToString(n) == a;
  }

  /** "name lo-hi" with natural lo and hi defines name as lo..hi inclusive. */
  lemma VarLineRange(name: string, lo: nat, hi: nat)
    requires Word(name)
    ensures VarLine(name + " " + RangeText(lo, hi)) == Success((name, IntRange(lo, hi + 1)))
  {
    RangeWord(lo, hi);
    WordsTwo(name, RangeText(lo, hi));
  }

  // parse_validation

  /** The tail every import line ends with: an alias when one is asked for, then a newline. */
  function AliasTail(asWhat: string): string {
    if asWhat != "" then " as " + asWhat + "\n" else "\n"
  }

  /**
   * One validation line "filename, fxn_name": exactly one comma; the file
   * name loses its last '.'-separated part (its extension) and both names
   * are stripped.
   */
  function ImportLine(line: string, asWhat: string): Result<string> {
    var parts := Split(line, ',');
    if |parts| != 2 then Failure("ValueError")
    else
      var filename := Join(".", PySlice(Split(Strip(parts[0]), '.'), 0, -1));
      Success("from validation." + filename + " import " + Strip(parts[1]) + AliasTail(asWhat))
  }

  /** parse_validation over the first n lines: the import lines of the nonblank ones, in order. */
  function ValidationSpec(lines: seq<string>, n: nat, asWhat: string): Result<string>
    requires n <= |lines|
  {
    if n == 0 then Success("")
    else match ValidationSpec(lines, n - 1, asWhat)
      case Failure(e) => Failure(e)
      case Success(s) =>
        if lines[n - 1] == "" then Success(s)
        else match ImportLine(lines[n - 1], asWhat)
          case Failure(e) => Failure(e)
          case Success(l) => Success(s + l)
  }

  lemma {:induction false} ValidationFail(lines: seq<string>, n: nat, m: nat, asWhat: string)
    requires n <= m <= |lines| && ValidationSpec(lines, n, asWhat).Failure?
    ensures ValidationSpec(lines, m, asWhat) == ValidationSpec(lines, n, asWhat)
    decreases m
  {
    if m > n {
      ValidationFail(lines, n, m - 1, asWhat);
    }
  }

  /** parse_validation: the loop building the import string. */
  method ParseValidation(lines: seq<string>, asWhat: string) returns (r: Result<string>)
    ensures r == ValidationSpec(lines, |lines|, asWhat)
  {
    var retval := "";
    for i := 0 to |lines|
      invariant ValidationSpec(lines, i, asWhat) == Success(retval)
    {
      if lines[i] == "" {
        continue;
      }
      var l := ImportLine(lines[i], asWhat);
      if l.Failure? {
        ValidationFail(lines, i + 1, |lines|, asWhat);
        return Failure(l.error);
      }
      retval := retval + l.value;
    }
    r := Success(retval);
  }

  lemma ImportLineOneNewline(line: string, asWhat: string)
    requires '\n' !in line && '\n' !in asWhat && ImportLine(line, asWhat).Success?
    ensures CountChar(ImportLine(line, asWhat).value, '\n') == 1
  {
    var parts := Split(line, ',');
    SplitPiecesFrom(line, ',', '\n');
    var file := Strip(parts[0]);
    StripKeepsOut(parts[0], '\n');
    SplitPiecesFrom(file, '.', '\n');
    var pieces := Split(file, '.');
    var kept := PySlice(pieces, 0, -1);
    assert forall k :: 0 <= k < |kept| ==> kept[k] in pieces;
    var filename := Join(".", kept);
    JoinFrom(".", kept, '\n');
    var fxn := Strip(parts[1]);
    StripKeepsOut(parts[1], '\n');
    var head := "from validation." + filename + " import " + fxn;
    assert '\n' !in head;
    NoCharCount(head, '\n');
    CountCharAppend(head, AliasTail(asWhat), '\n');
    var tail := AliasTail(asWhat);
    if asWhat != "" {
      NoCharCount(" as " + asWhat, '\n');
      CountCharAppend(" as " + asWhat, "\n", '\n');
      assert tail == " as " + asWhat + "\n";
    }
  }

  function NonBlankCount(lines: seq<string>, n: nat): nat
    requires n <= |lines|
  {
    if n == 0 then 0 else NonBlankCount(lines, n - 1) + (if lines[n - 1] == "" then 0 else 1)
  }

  /** The import string has one line per nonblank validation line. */
  lemma {:induction false} ValidationLineCount(lines: seq<string>, n: nat, asWhat: string)
    requires n <= |lines| && '\n' !in asWhat && forall i :: 0 <= i < |lines| ==> '\n' !in lines[i]
    requires ValidationSpec(lines, n, asWhat).Success?
    ensures CountChar(ValidationSpec(lines, n, asWhat).value, '\n') == NonBlankCount(lines, n)
    decreases n
  {
    if n > 0 {
      ValidationLineCount(lines, n - 1, asWhat);
      if lines[n - 1] != "" {
        ImportLineOneNewline(lines[n - 1], asWhat);
        CountCharAppend(ValidationSpec(lines, n - 1, asWhat).value, ImportLine(lines[n - 1], asWhat).value, '\n');
      }
    }
  }

  lemma LStripSpace(s: string)
    requires s != [] && !IsSpace(s[0])
    ensures LStrip(" " + s) == s
  {
    assert (" " + s)[1..] == s;
  }

  /**
   * "file.py, fxn" (plain file and function names) becomes
   * "from validation.file import fxn", with the alias when one is asked for.
   */
  lemma ImportLineShape(file: string, fxn: string, asWhat: string)
    requires Word(file) && Word(fxn) && '.' !in file && ',' !in file && ',' !in fxn
    ensures ImportLine(file + ".py, " + fxn, asWhat) == Success("from validation." + file + " import " + fxn + AliasTail(asWhat))
  {
    var line := file + ".py, " + fxn;
    var a := file + ".py";
    var b := " " + fxn;
    assert line == a + [','] + b;
    SplitTwo(a, b, ',');
    StripUnchanged(a);
    assert a == file + ['.'] + "py";
    SplitTwo(file, "py", '.');
    assert PySlice([file, "py"], 0, -1) == [file];
    LStripSpace(fxn);
    StripUnchanged(fxn);
  }
}
