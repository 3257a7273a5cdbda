// The [exhaustive domain] and [random domain] sections of a configuration:
// _parse_val turns one domain line, read beside its type line, into one
// domain per layer (outermost first), and parse_vals reads a section, with
// the indented field lines of a class under it.
module ConfigVals {
  import opened Wrappers
  import opened PyStrings
  import opened VarLookup
  import opened Layers
  import BsgGlobals
  import ConfigTypes
  import ConfigSections

  type Variables = map<string, seq<int>>

  /** sys.maxint on a 64-bit build of Python 2. */
  const MaxInt: int := 0x7FFF_FFFF_FFFF_FFFF

  /** The keyword for an unrestricted domain or range end. */
  const Any: string := "any"

  /**
   * The domain "any" stands for outside a dict, by the layer's type: both
   * booleans for a bool, 0..maxint/2-1 for a list (a length), and
   * -maxint/2..maxint/2-1 otherwise. Python 2 divides ints with floor
   * division, which Dafny's `/` is for a positive divisor.
   */
  function AnyDomain(typeElem: string): ValLayer {
    if Contains(typeElem, "bool") then VBools([true, false])
    else if Contains(typeElem, "list") then VDomain(DRange(IntRange(0, MaxInt / 2)))
    else VDomain(DRange(IntRange(-MaxInt / 2, MaxInt / 2)))
  }

  /** One end of a range "start-end": "any" stands for the given bound, else int() of the text. */
  function RangeEnd(s: string, anyValue: int): Option<int> {
    if s == Any then Some(anyValue) else ParseInt(s)
  }

  /**
   * A range "start-end" outside a dict: the text must split at '-' into
   * exactly two parts; integer ends give start..end inclusive; an end that
   * is no integer must be a declared variable, and then the whole text is
   * kept for the generators to look up.
   */
  function RangeVal(elem: string, variables: Variables): Result<ValLayer> {
    var parts := Split(elem, '-');
    if |parts| != 2 then Failure("ValueError")
    else
      var s := Strip(parts[0]);
      var e := Strip(parts[1]);
      match RangeEnd(s, -MaxInt)
      case None => if s in variables then Success(VDomain(DVar(elem))) else Failure("ValueError")
      case Some(lo) =>
        match RangeEnd(e, MaxInt - 1)
        case None => if e in variables then Success(VDomain(DVar(elem))) else Failure("ValueError")
        case Some(hi) => Success(VDomain(DRange(IntRange(lo, hi + 1))))
  }

  /**
   * One layer's domain outside a dict: "any", an explicit list (read by
   * ast.literal_eval, here the oracle `literal`), a range, or the name of a
   * declared variable (a class layer's text is kept as it is too).
   */
  function FlatVal(elem: string, typeElem: string, variables: Variables, literal: string -> Result<ValLayer>): Result<ValLayer> {
    if elem == Any then Success(AnyDomain(typeElem))
    else if elem == [] then Failure("IndexError")
    else if elem[0] == '[' then literal(elem)
    else if '-' in elem then RangeVal(elem, variables)
    else if elem !in variables && !Contains(elem, BsgGlobals.Class) then Failure("ValueError")
    else Success(VDomain(DVar(elem)))
  }

  /** A range inside a dict line: both ends must be integers (or "any"). */
  function DictRangeVal(elem: string): Result<ValLayer> {
    var parts := Split(elem, '-');
    if |parts| != 2 then Failure("ValueError")
    else
      match (RangeEnd(Strip(parts[0]), -MaxInt), RangeEnd(Strip(parts[1]), MaxInt - 1))
      case (Some(lo), Some(hi)) => Success(VDomain(DRange(IntRange(lo, hi + 1))))
      case _ => Failure("ValueError")
  }

  /**
   * One layer's domain on a line with a dict, up to the dict's own layer:
   * "any" is always the wide integer range, ranges need integer ends, and
   * any other text is kept unchecked.
   */
  function DictVal(elem: string, literal: string -> Result<ValLayer>): Result<ValLayer> {
    if elem == Any then Success(VDomain(DRange(IntRange(-MaxInt / 2, MaxInt / 2))))
    else if elem == [] then Failure("IndexError")
    else if elem[0] == '[' then literal(elem)
    else if '-' in elem then DictRangeVal(elem)
    else Success(VDomain(DVar(elem)))
  }

  function FlatValOf(variables: Variables, literal: string -> Result<ValLayer>): (string, string) -> Result<ValLayer> {
    (e, t) => FlatVal(e, t, variables, literal)
  }

  function DictValOf(literal: string -> Result<ValLayer>): (string, string) -> Result<ValLayer> {
    (e, t) => DictVal(e, literal)
  }

  /**
   * The loop over a line's first n layers, each read with the type layer
   * at the same place: a missing type layer is an IndexError, else the
   * first failing layer's error, else every layer's domain in order.
   */
  function EachVal(elems: seq<string>, typeElems: seq<string>, n: nat, f: (string, string) -> Result<ValLayer>): Result<seq<ValLayer>>
    requires n <= |elems|
  {
    if n == 0 then Success([])
    else match EachVal(elems, typeElems, n - 1, f)
      case Failure(e) => Failure(e)
      case Success(vs) =>
        if n - 1 >= |typeElems| then Failure("IndexError")
        else match f(elems[n - 1], typeElems[n - 1])
          case Failure(e) => Failure(e)
          case Success(v) => Success(vs + [v])
  }

  lemma {:induction false} EachValFail(elems: seq<string>, typeElems: seq<string>, n: nat, m: nat, f: (string, string) -> Result<ValLayer>)
    requires n <= m <= |elems| && EachVal(elems, typeElems, n, f).Failure?
    ensures EachVal(elems, typeElems, m, f) == EachVal(elems, typeElems, n, f)
    decreases m
  {
    if m > n {
      EachValFail(elems, typeElems, n, m - 1, f);
    }
  }

  /** The loop fails exactly when a layer has no type layer or its domain fails, and otherwise keeps each domain in place. */
  lemma {:induction false} EachValResult(elems: seq<string>, typeElems: seq<string>, n: nat, f: (string, string) -> Result<ValLayer>)
    requires n <= |elems|
    ensures EachVal(elems, typeElems, n, f).Failure? <==>
      n > |typeElems| || exists k :: 0 <= k < n && k < |typeElems| && f(elems[k], typeElems[k]).Failure?
    ensures EachVal(elems, typeElems, n, f).Success? ==>
      var vs := EachVal(elems, typeElems, n, f).value;
      |vs| == n && n <= |typeElems| && forall k :: 0 <= k < n ==> f(elems[k], typeElems[k]) == Success(vs[k])
    decreases n
  {
    if n > 0 {
      EachValResult(elems, typeElems, n - 1, f);
      var k := n - 1;
      if k < |typeElems| && f(elems[k], typeElems[k]).Failure? {
        assert 0 <= k < n && k < |typeElems| && f(elems[k], typeElems[k]).Failure?;
      }
    }
  }

  /**
   * The loop over the layers of a line with a dict, from layer i with the
   * domains `acc` so far: it stops after the first layer whose type names a
   * dict, adding the key and value domains `kv` after it.
   */
  function DictLayersFrom(elems: seq<string>, typeElems: seq<string>, f: (string, string) -> Result<ValLayer>,
                          kv: ValLayer, i: nat, acc: seq<ValLayer>): Result<seq<ValLayer>>
    decreases |elems| - i
  {
    if i >= |elems| then Success(acc)
    else if i >= |typeElems| then Failure("IndexError")
    else match f(elems[i], typeElems[i])
      case Failure(e) => Failure(e)
      case Success(v) =>
        if Contains(typeElems[i], "dict") then Success(acc + [v, kv])
        else DictLayersFrom(elems, typeElems, f, kv, i + 1, acc + [v])
  }

  /** The key domains' text: what follows the first '(' before the first colon. */
  function KeyValText(argVal: string): string {
    var first := Strip(Split(argVal, ':')[0]);
    Join("(", Split(first, '(')[1..])
  }

  /** The value domains' text: what follows the first colon, less its last character (one closing parenthesis). */
  function ValueValText(argVal: string): string {
    PySlice(Join(":", ConfigTypes.StripAll(Split(argVal, ':'))[1..]), 0, -1)
  }

  /**
   * The key and value types' texts as _parse_val cuts them from the type
   * line: after the first "dict" before the first colon, less one character,
   * and after the first colon, less its last character. A type line with no
   * "dict" there is an IndexError.
   */
  function DictTypeTexts(argType: string): Result<(string, string)> {
    var typePieces := ConfigTypes.StripAll(Split(argType, ':'));
    var dictSplit := ConfigTypes.StripAll(SplitStr(typePieces[0], "dict"));
    if |dictSplit| < 2 then Failure("IndexError")
    else Success((PySlice(dictSplit[1], 1, |dictSplit[1]|), PySlice(Join(":", typePieces[1..]), 0, -1)))
  }

  lemma KeyValNoColon(argVal: string)
    ensures CountChar(KeyValText(argVal), ':') == 0
  {
    var pieces := Split(argVal, ':');
    SplitNoSep(argVal, ':');
    StripKeepsOut(pieces[0], ':');
    var first := Strip(pieces[0]);
    SplitPiecesFrom(first, '(', ':');
    var parts := Split(first, '(');
    forall k | 0 <= k < |parts[1..]| ensures ':' !in parts[1..][k] {
      assert parts[1..][k] == parts[k + 1];
    }
    JoinFrom("(", parts[1..], ':');
    NoCharCount(KeyValText(argVal), ':');
  }

  /** A class layer's text is kept for the class, and so is an explicit list holding "class". */
  predicate ClassIn(v: ValLayer) {
    match v
    case VDomain(d) => d.DVar? && Contains(d.text, BsgGlobals.Class)
    case VStrs(ss) => BsgGlobals.Class in ss
    case _ => false
  }

  /** The domains of a class line, each one that holds "class" replaced by the class with its fields' domains. */
  function ReplaceClass(vs: seq<ValLayer>, className: string, fields: seq<FieldVals>): (r: seq<ValLayer>)
    ensures |r| == |vs|
    ensures forall k :: 0 <= k < |vs| ==> r[k] == if ClassIn(vs[k]) then VFields(className, fields) else vs[k]
  {
    seq(|vs|, k requires 0 <= k < |vs| => if ClassIn(vs[k]) then VFields(className, fields) else vs[k])
  }

  /** The class name a type line gives: the first word after its first "class". */
  function ClassNameFromType(argType: string): (r: Result<string>)
    ensures r.Success? ==> r.value != []
  {
    var pieces := SplitStr(argType, BsgGlobals.Class);
    if |pieces| < 2 then Failure("IndexError")
    else
      var ws := Words(pieces[1]);
      if ws == [] then Failure("IndexError")
      else
        NonEmptyWord(pieces[1]);
        Success(ws[0])
  }

  lemma NonEmptyWord(s: string)
    requires Words(s) != []
    ensures Words(s)[0] != []
  {
  }

  /**
   * _parse_val(argVal, argType, variables, className, fields). A line with
   * no colon gives one domain per parenthesised piece, each read beside the
   * type piece at the same place. A line with a colon holds a dict: the key
   * and value domains are parsed first, as one-line sections, then the
   * layers up to the dict's are read and the key and value domains follow.
   */
  function ParseValSpec(argVal: string, argType: string, variables: Variables, className: string,
                        fields: seq<FieldVals>, literal: string -> Result<ValLayer>): Result<seq<ValLayer>>
    decreases CountChar(argVal, ':'), 1
  {
    if |Split(argVal, ':')| == 1 then
      EachVal(LayerTexts(argVal), LayerTexts(argType), |LayerTexts(argVal)|, FlatValOf(variables, literal))
    else
      match DictTypeTexts(argType)
      case Failure(e) => Failure(e)
      case Success((keyType, valType)) =>
        KeyValNoColon(argVal);
        ConfigTypes.AfterColonFewer(argVal, -1);
        match HalfVals(KeyValText(argVal), keyType, variables, className, fields, literal)
        case Failure(e) => Failure(e)
        case Success(keyVals) =>
          match HalfVals(ValueValText(argVal), valType, variables, className, fields, literal)
          case Failure(e) => Failure(e)
          case Success(valVals) =>
            DictLayersFrom(LayerTexts(argVal), LayerTexts(argType), DictValOf(literal), VKeyVal(keyVals, valVals), 0, [])
  }

  /**
   * parse_vals([half], [halfType], variables, 0, className, fields)[0]: a
   * dict's key or value domains read as a one-line section. A blank or
   * indented half gives an empty section, whose first entry is an
   * IndexError. A class half takes its class name from its type and the
   * class's fields from the caller; without a caller's class the loop
   * looking for the class's block never runs and its variable is unbound.
   */
  function HalfVals(half: string, halfType: string, variables: Variables, className: string,
                    fields: seq<FieldVals>, literal: string -> Result<ValLayer>): Result<seq<ValLayer>>
    decreases CountChar(half, ':'), 2
  {
    if half == "" then Failure("IndexError")
    else if Contains(half, BsgGlobals.Class) then
      match ClassNameFromType(halfType)
      case Failure(e) => Failure(e)
      case Success(cn) =>
        if className == "" then Failure("UnboundLocalError")
        else match ParseValSpec(half, halfType, variables, cn, fields, literal)
          case Failure(e) => Failure(e)
          case Success(vs) => Success(ReplaceClass(vs, cn, fields))
    else if StartsWith(half, Indent(1)) then Failure("IndexError")
    else ParseValSpec(half, halfType, variables, "", [], literal)
  }

  /** _parse_val's loop over the layers of a line without a colon (lines 649-706). */
  method FlatVals(elems: seq<string>, typeElems: seq<string>, f: (string, string) -> Result<ValLayer>) returns (r: Result<seq<ValLayer>>)
    ensures r == EachVal(elems, typeElems, |elems|, f)
  {
    var nested: seq<ValLayer> := [];
    for i := 0 to |elems|
      invariant EachVal(elems, typeElems, i, f) == Success(nested)
    {
      if i >= |typeElems| {
        EachValFail(elems, typeElems, i + 1, |elems|, f);
        return Failure("IndexError");
      }
      var v := f(elems[i], typeElems[i]);
      if v.Failure? {
        EachValFail(elems, typeElems, i + 1, |elems|, f);
        return Failure(v.error);
      }
      nested := nested + [v.value];
    }
    return Success(nested);
  }

  /** _parse_val's loop over the layers of a line with a dict (lines 761-800). */
  method DictVals(elems: seq<string>, typeElems: seq<string>, f: (string, string) -> Result<ValLayer>, kv: ValLayer)
    returns (r: Result<seq<ValLayer>>)
    ensures r == DictLayersFrom(elems, typeElems, f, kv, 0, [])
  {
    var nested: seq<ValLayer> := [];
    var i := 0;
    while i < |elems|
      invariant 0 <= i <= |elems|
      invariant DictLayersFrom(elems, typeElems, f, kv, i, nested) == DictLayersFrom(elems, typeElems, f, kv, 0, [])
    {
      if i >= |typeElems| {
        return Failure("IndexError");
      }
      var isDict := Contains(typeElems[i], "dict");
      var v := f(elems[i], typeElems[i]);
      if v.Failure? {
        return Failure(v.error);
      }
      if isDict {
        assert nested + [v.value, kv] == nested + [v.value] + [kv];
        return Success(nested + [v.value] + [kv]);
      }
      nested := nested + [v.value];
      i := i + 1;
    }
    return Success(nested);
  }

  /** _parse_val. */
  method ParseVal(argVal: string, argType: string, variables: Variables, className: string,
                  fields: seq<FieldVals>, literal: string -> Result<ValLayer>) returns (r: Result<seq<ValLayer>>)
    ensures r == ParseValSpec(argVal, argType, variables, className, fields, literal)
    decreases CountChar(argVal, ':'), 1
  {
    if |Split(argVal, ':')| == 1 {
      r := FlatVals(LayerTexts(argVal), LayerTexts(argType), FlatValOf(variables, literal));
      return;
    }
    var halves := DictTypeTexts(argType);
    if halves.Failure? {
      return Failure(halves.error);
    }
    var (keyType, valType) := halves.value;
    KeyValNoColon(argVal);
    ConfigTypes.AfterColonFewer(argVal, -1);
    var keyVals := ParseHalfVals(KeyValText(argVal), keyType, variables, className, fields, literal);
    if keyVals.Failure? {
      return Failure(keyVals.error);
    }
    var valVals := ParseHalfVals(ValueValText(argVal), valType, variables, className, fields, literal);
    if valVals.Failure? {
      return Failure(valVals.error);
    }
    r := DictVals(LayerTexts(argVal), LayerTexts(argType), DictValOf(literal), VKeyVal(keyVals.value, valVals.value));
  }

  /** The class replacement loop of parse_vals (lines 609-613), in place on the line's domains. */
  method ReplaceClassInPlace(vs: seq<ValLayer>, className: string, fields: seq<FieldVals>) returns (r: seq<ValLayer>)
    ensures r == ReplaceClass(vs, className, fields)
  {
    r := vs;
    for k := 0 to |vs|
      invariant |r| == |vs|
      invariant forall j :: 0 <= j < k ==> r[j] == ReplaceClass(vs, className, fields)[j]
      invariant forall j :: k <= j < |vs| ==> r[j] == vs[j]
    {
      if ClassIn(r[k]) {
        r := r[k := VFields(className, fields)];
      }
    }
  }

  /** parse_vals on the one-line section [half]. */
  method ParseHalfVals(half: string, halfType: string, variables: Variables, className: string,
                       fields: seq<FieldVals>, literal: string -> Result<ValLayer>) returns (r: Result<seq<ValLayer>>)
    ensures r == HalfVals(half, halfType, variables, className, fields, literal)
    decreases CountChar(half, ':'), 2
  {
    if half == "" {
      return Failure("IndexError");
    }
    if Contains(half, BsgGlobals.Class) {
      var cn := ClassNameFromType(halfType);
      if cn.Failure? {
        return Failure(cn.error);
      }
      if className == "" {
        return Failure("UnboundLocalError");
      }
      var vs := ParseVal(half, halfType, variables, cn.value, fields, literal);
      if vs.Failure? {
        return Failure(vs.error);
      }
      var replaced := ReplaceClassInPlace(vs.value, cn.value, fields);
      return Success(replaced);
    }
    if StartsWith(half, Indent(1)) {
      return Failure("IndexError");
    }
    r := ParseVal(half, halfType, variables, "", [], literal);
  }

  // What _parse_val makes of a one-layer line

  /** Text with no parenthesis and no colon: one layer, and no dict. */
  predicate Plain(s: string) {
    forall k :: 0 <= k < |s| ==> s[k] != '(' && s[k] != ')' && s[k] != ':'
  }

  /** A variable's name as a domain line writes it: one word that is no integer and not "any", with no '-' or '[' in it. */
  predicate VarText(v: string) {
    Word(v) && Plain(v) && v != Any && ParseInt(v).None? && forall k :: 0 <= k < |v| ==> v[k] != '-' && v[k] != '['
  }

  lemma PlainLayer(s: string)
    requires Word(s) && Plain(s)
    ensures LayerTexts(s) == [s]
  {
    SplitAtNone(s, IsParen);
    StripUnchanged(s);
    assert StripNonBlank([s]) == [s] by {
      assert [s][1..] == [];
    }
  }

  /**
   * A one-word line with no parenthesis or colon, beside a type line of
   * the same kind, has exactly one domain: that of its only layer.
   */
  lemma OneLayerLine(s: string, t: string, variables: Variables, className: string, fields: seq<FieldVals>,
                     literal: string -> Result<ValLayer>)
    requires Word(s) && Plain(s) && Word(t) && Plain(t)
    ensures ParseValSpec(s, t, variables, className, fields, literal)
      == match FlatVal(s, t, variables, literal)
         case Failure(e) => Failure(e)
         case Success(v) => Success([v])
  {
    SplitNone(s, ':');
    PlainLayer(s);
    PlainLayer(t);
    var f := FlatValOf(variables, literal);
    assert ParseValSpec(s, t, variables, className, fields, literal) == EachVal([s], [t], 1, f);
    assert f(s, t) == FlatVal(s, t, variables, literal);
    assert EachVal([s], [t], 0, f) == Success([]);
    match f(s, t)
    case Failure(e) =>
    case Success(v) => assert [] + [v] == [v];
  }

  /** Two words joined by '-' are one word; a digit string is a plain word. */
  lemma DashWord(a: string, b: string)
    requires Word(a) && Plain(a) && Word(b) && Plain(b)
    ensures Word(a + "-" + b) && Plain(a + "-" + b)
  {
    var s := a + "-" + b;
    forall k | 0 <= k < |s| ensures !IsSpace(s[k]) && s[k] != '(' && s[k] != ')' && s[k] != ':' {
      if k < |a| {
        assert s[k] == a[k];
      } else if k > |a| {
        assert s[k] == b[k - |a| - 1];
      }
    }
  }

  lemma NumberWord(n: nat)
    ensures Word(NatToString(n)) && Plain(NatToString(n)) && PlainName(NatToString(n))
    ensures NatToString(n) != Any && NatToString(n)[0] != '['
    ensures ParseInt(Strip(NatToString(n))) == Some(n)
  {
    var s := NatToString(n);
    forall k | 0 <= k < |s| ensures !IsSpace(s[k]) && s[k] != '(' && s[k] != ')' && s[k] != ':' {
      assert IsDigit(s[k]);
    }
    assert IsDigit(s[0]);
    NatToStringPlain(n);
    ConfigSections.NatIntString(n);
  }

  lemma VarTextPlain(v: string)
    requires VarText(v)
    ensures PlainName(v) && Strip(v) == v
  {
    StripUnchanged(v);
  }

  /** The text of a range a-b splits at its '-' into its two (stripped) ends. */
  lemma RangeParts(a: string, b: string)
    requires PlainName(a) && PlainName(b)
    ensures Split(a + "-" + b, '-') == [a, b]
    ensures Strip(a) == a && Strip(b) == b
  {
    SplitTwo(a, b, '-');
    StripUnchanged(a);
    StripUnchanged(b);
  }

  /** A range line lo-hi of natural numbers is the one domain lo..hi, both ends included. */
  lemma RangeLine(lo: nat, hi: nat, t: string, variables: Variables, className: string, fields: seq<FieldVals>,
                  literal: string -> Result<ValLayer>)
    requires Word(t) && Plain(t)
    ensures var r := ParseValSpec(ConfigSections.RangeText(lo, hi), t, variables, className, fields, literal);
      r.Success? && |r.value| == 1 && r.value[0] == VDomain(DRange(IntRange(lo, hi + 1)))
      && forall x :: x in r.value[0].d.vals <==> lo <= x <= hi
  {
    var a := NatToString(lo);
    var b := NatToString(hi);
    NumberWord(lo);
    NumberWord(hi);
    DashWord(a, b);
    RangeParts(a, b);
    var s := a + "-" + b;
    assert s[|a|] == '-';
    OneLayerLine(s, t, variables, className, fields, literal);
    IntRangeMembers(lo, hi + 1);
  }

  /** The two ends of a range a-b, when neither holds a '-', are read on their own. */
  lemma RangeValParts(a: string, b: string, variables: Variables)
    requires PlainName(a) && PlainName(b)
    ensures RangeVal(a + "-" + b, variables)
      == match RangeEnd(a, -MaxInt)
         case None => if a in variables then Success(VDomain(DVar(a + "-" + b))) else Failure("ValueError")
         case Some(lo) =>
           match RangeEnd(b, MaxInt - 1)
           case None => if b in variables then Success(VDomain(DVar(a + "-" + b))) else Failure("ValueError")
           case Some(hi) => Success(VDomain(DRange(IntRange(lo, hi + 1))))
  {
    RangeParts(a, b);
  }

  /** A range with "any" for its start runs from -maxint. */
  lemma AnyStartLine(hi: nat, t: string, variables: Variables, className: string, fields: seq<FieldVals>,
                     literal: string -> Result<ValLayer>)
    requires Word(t) && Plain(t)
    ensures ParseValSpec(Any + "-" + NatToString(hi), t, variables, className, fields, literal)
      == Success([VDomain(DRange(IntRange(-MaxInt, hi + 1)))])
  {
    var s := Any + "-" + NatToString(hi);
    AnyStartWord(hi);
    AnyStartFlat(hi, t, variables, literal);
    OneLayerLine(s, t, variables, className, fields, literal);
  }

  lemma AnyStartWord(hi: nat)
    ensures Word(Any + "-" + NatToString(hi)) && Plain(Any + "-" + NatToString(hi))
  {
    NumberWord(hi);
    assert Word(Any) && Plain(Any);
    DashWord(Any, NatToString(hi));
  }

  lemma AnyStartFlat(hi: nat, t: string, variables: Variables, literal: string -> Result<ValLayer>)
    ensures FlatVal(Any + "-" + NatToString(hi), t, variables, literal) == Success(VDomain(DRange(IntRange(-MaxInt, hi + 1))))
  {
    var s := Any + "-" + NatToString(hi);
    AnyStartRange(hi, variables);
    AnyDash(NatToString(hi));
    RangeFlat(s, t, variables, literal);
  }

  lemma AnyStartRange(hi: nat, variables: Variables)
    ensures RangeVal(Any + "-" + NatToString(hi), variables) == Success(VDomain(DRange(IntRange(-MaxInt, hi + 1))))
  {
    NumberWord(hi);
    assert PlainName(Any);
    RangeValParts(Any, NatToString(hi), variables);
  }

  lemma AnyDash(b: string)
    ensures var s := Any + "-" + b; '-' in s && s != Any && s != [] && s[0] != '['
  {
    var s := Any + "-" + b;
    assert s[3] == '-' && s[0] == 'a';
    assert |s| > |Any|;
  }

  /** Text that is not "any" and not a list but holds a '-' is read as a range. */
  lemma RangeFlat(s: string, t: string, variables: Variables, literal: string -> Result<ValLayer>)
    requires s != Any && s != [] && s[0] != '[' && '-' in s
    ensures FlatVal(s, t, variables, literal) == RangeVal(s, variables)
  {
  }

  /** A range with "any" for its end runs up to maxint-1. */
  lemma AnyEndLine(lo: nat, t: string, variables: Variables, className: string, fields: seq<FieldVals>,
                   literal: string -> Result<ValLayer>)
    requires Word(t) && Plain(t)
    ensures ParseValSpec(NatToString(lo) + "-" + Any, t, variables, className, fields, literal)
      == Success([VDomain(DRange(IntRange(lo, MaxInt)))])
  {
    var s := NatToString(lo) + "-" + Any;
    AnyEndWord(lo);
    AnyEndFlat(lo, t, variables, literal);
    OneLayerLine(s, t, variables, className, fields, literal);
  }

  lemma AnyEndWord(lo: nat)
    ensures Word(NatToString(lo) + "-" + Any) && Plain(NatToString(lo) + "-" + Any)
  {
    NumberWord(lo);
    assert Word(Any) && Plain(Any);
    DashWord(NatToString(lo), Any);
  }

  lemma AnyEndFlat(lo: nat, t: string, variables: Variables, literal: string -> Result<ValLayer>)
    ensures FlatVal(NatToString(lo) + "-" + Any, t, variables, literal) == Success(VDomain(DRange(IntRange(lo, MaxInt))))
  {
    var a := NatToString(lo);
    var s := a + "-" + Any;
    AnyEndRange(lo, variables);
    assert '-' in s && s != Any && s[0] != '[' by {
      NumberWord(lo);
      assert s[|a|] == '-' && s[0] == a[0];
    }
    RangeFlat(s, t, variables, literal);
  }

  lemma AnyEndRange(lo: nat, variables: Variables)
    ensures RangeVal(NatToString(lo) + "-" + Any, variables) == Success(VDomain(DRange(IntRange(lo, MaxInt))))
  {
    var a := NatToString(lo);
    NumberWord(lo);
    StripUnchanged(a);
    assert RangeEnd(a, -MaxInt) == Some(lo);
    assert RangeEnd(Any, MaxInt - 1) == Some(MaxInt - 1);
    assert PlainName(Any);
    RangeValParts(a, Any, variables);
  }

  /**
   * "lo-v" with v a variable's name: kept as written when v is declared,
   * a ValueError when it is not.
   */
  lemma VarEndLine(lo: nat, v: string, t: string, variables: Variables, className: string, fields: seq<FieldVals>,
                   literal: string -> Result<ValLayer>)
    requires VarText(v) && Word(t) && Plain(t)
    ensures var s := NatToString(lo) + "-" + v;
      ParseValSpec(s, t, variables, className, fields, literal)
        == if v in variables then Success([VDomain(DVar(s))]) else Failure("ValueError")
  {
    var s := NatToString(lo) + "-" + v;
    NumberWord(lo);
    VarTextPlain(v);
    DashWord(NatToString(lo), v);
    VarEndFlat(lo, v, t, variables, literal);
    OneLayerLine(s, t, variables, className, fields, literal);
  }

  lemma VarEndFlat(lo: nat, v: string, t: string, variables: Variables, literal: string -> Result<ValLayer>)
    requires VarText(v)
    ensures var s := NatToString(lo) + "-" + v;
      FlatVal(s, t, variables, literal) == if v in variables then Success(VDomain(DVar(s))) else Failure("ValueError")
  {
    var a := NatToString(lo);
    var s := a + "-" + v;
    NumberWord(lo);
    VarTextPlain(v);
    assert RangeVal(s, variables) == if v in variables then Success(VDomain(DVar(s))) else Failure("ValueError") by {
      RangeValParts(a, v, variables);
      StripUnchanged(a);
      assert RangeEnd(a, -MaxInt) == Some(lo);
    }
    assert s[|a|] == '-' && s[0] == a[0];
    RangeFlat(s, t, variables, literal);
  }

  /** "v-hi" with v a variable's name: the same, whatever hi is. */
  lemma VarStartLine(v: string, hi: nat, t: string, variables: Variables, className: string, fields: seq<FieldVals>,
                     literal: string -> Result<ValLayer>)
    requires VarText(v) && Word(t) && Plain(t)
    ensures var s := v + "-" + NatToString(hi);
      ParseValSpec(s, t, variables, className, fields, literal)
        == if v in variables then Success([VDomain(DVar(s))]) else Failure("ValueError")
  {
    NumberWord(hi);
    VarTextPlain(v);
    var b := NatToString(hi);
    DashWord(v, b);
    RangeParts(v, b);
    var s := v + "-" + b;
    assert s[|v|] == '-' && s[0] == v[0];
    OneLayerLine(s, t, variables, className, fields, literal);
  }

  /** A bare variable's name as the whole domain: kept when declared (or naming a class), else a ValueError. */
  lemma VarWholeLine(v: string, t: string, variables: Variables, className: string, fields: seq<FieldVals>,
                     literal: string -> Result<ValLayer>)
    requires VarText(v) && Word(t) && Plain(t)
    ensures ParseValSpec(v, t, variables, className, fields, literal)
      == if v in variables || Contains(v, BsgGlobals.Class) then Success([VDomain(DVar(v))]) else Failure("ValueError")
  {
    OneLayerLine(v, t, variables, className, fields, literal);
  }

  /**
   * "any" as a whole domain, by the type: both booleans for a bool; for a
   * list, every length 0..maxint/2-1; otherwise every integer
   * -maxint/2..maxint/2-1 (with maxint = 2^63-1).
   */
  lemma AnyLine(t: string, variables: Variables, className: string, fields: seq<FieldVals>,
                literal: string -> Result<ValLayer>)
    requires Word(t) && Plain(t)
    ensures var r := ParseValSpec(Any, t, variables, className, fields, literal);
      r.Success? && |r.value| == 1 &&
      (Contains(t, "bool") ==> r.value[0] == VBools([true, false])) &&
      (!Contains(t, "bool") ==>
         r.value[0].VDomain? && r.value[0].d.DRange? &&
         forall x :: x in r.value[0].d.vals <==>
           if Contains(t, "list") then 0 <= x <= 0x3FFF_FFFF_FFFF_FFFE
           else -0x4000_0000_0000_0000 <= x <= 0x3FFF_FFFF_FFFF_FFFE)
  {
    assert Word(Any) && Plain(Any);
    OneLayerLine(Any, t, variables, className, fields, literal);
    IntRangeMembers(0, MaxInt / 2);
    IntRangeMembers(-MaxInt / 2, MaxInt / 2);
  }

  // parse_vals

  /** What parse_vals reads in every call: the declared variables and the reader of explicit lists. */
  datatype Env = Env(variables: Variables, literal: string -> Result<ValLayer>)

  /** One entry of a parsed domain section: a parameter's domains, or a field's, with its name ("" for none). */
  datatype ValEntry = ValEntry(fieldName: string, layers: seq<ValLayer>)

  /** parse_vals' state after one more line: the next index, the field name and the entries so far. */
  datatype ValsState = ValsState(next: nat, fieldName: string, values: seq<ValEntry>)

  /** A class's fields' domains as parse_vals returns them: each field's domains wrapped in a list of one. */
  function FieldValsOf(entries: seq<ValEntry>): (r: seq<FieldVals>)
    ensures |r| == |entries|
    ensures forall k :: 0 <= k < |entries| ==> r[k].fieldName == entries[k].fieldName && r[k].lists == [ValList(entries[k].layers)]
  {
    seq(|entries|, k requires 0 <= k < |entries| => FieldVals(entries[k].fieldName, [ValList(entries[k].layers)]))
  }

  /**
   * parse_vals' while loop from line i, with the field name and entries so
   * far. The type line at the same index is read first (an IndexError when
   * the type section is shorter), blank lines are skipped and a line not
   * indented by ind levels ends the section.
   */
  function ValsFrom(lines: seq<string>, typeLines: seq<string>, env: Env, ind: nat, className: string,
                    fields: seq<FieldVals>, i: nat, fieldName: string, values: seq<ValEntry>): Result<seq<ValEntry>>
    requires i <= |lines|
    decreases |lines|, |lines| - i, 2
  {
    if i == |lines| then Success(values)
    else if i >= |typeLines| then Failure("IndexError")
    else if lines[i] == "" then ValsFrom(lines, typeLines, env, ind, className, fields, i + 1, fieldName, values)
    else if !StartsWith(lines[i], Indent(ind)) then Success(values)
    else
      match ValsRoundSpec(lines, typeLines, env, ind, className, fields, i, fieldName, values)
      case Failure(e) => Failure(e)
      case Success(state) => ValsFrom(lines, typeLines, env, ind, className, fields, state.next, state.fieldName, state.values)
  }

  /** The end of a round: _parse_val on the line, the class replacement on a class line, one more entry. */
  function LineVals(argVal: string, argType: string, env: Env, className: string, fields: seq<FieldVals>,
                    next: nat, fieldName: string, values: seq<ValEntry>): (r: Result<ValsState>)
    ensures r.Success? ==> r.value.next == next && r.value.fieldName == fieldName && |r.value.values| == |values| + 1
  {
    match ParseValSpec(argVal, argType, env.variables, className, fields, env.literal)
    case Failure(e) => Failure(e)
    case Success(vs) =>
      var nested := if className != "" then ReplaceClass(vs, className, fields) else vs;
      Success(ValsState(next, fieldName, values + [ValEntry(fieldName, nested)]))
  }

  /**
   * One round of that loop on a nonblank line i at indentation ind: a class
   * line takes its class name from its type line and, outside a class, has
   * its fields parsed from the lines after it first; a line one level deeper
   * is skipped; a line inside a class gives its first word as the field
   * name; each other line adds one entry.
   */
  function ValsRoundSpec(lines: seq<string>, typeLines: seq<string>, env: Env, ind: nat, className: string,
                         fields: seq<FieldVals>, i: nat, fieldName: string, values: seq<ValEntry>): (r: Result<ValsState>)
    requires i < |lines| && i < |typeLines|
    ensures r.Success? ==> i < r.value.next <= |lines|
    decreases |lines|, |lines| - i, 1
  {
    var line := lines[i];
    if Contains(line, BsgGlobals.Class) then
      match ClassNameFromType(typeLines[i])
      case Failure(e) => Failure(e)
      case Success(cn) =>
        if className == "" then ClassValsRoundSpec(lines, typeLines, env, ind, i, cn, fieldName, values)
        else LineVals(line, typeLines[i], env, cn, fields, i + 1, fieldName, values)
    else if StartsWith(line, Indent(ind + 1)) then Success(ValsState(i + 1, fieldName, values))
    else if ind > 0 then
      var ws := Words(Strip(line));
      if ws == [] then Failure("IndexError")
      else LineVals(Join(" ", ws[1..]), typeLines[i], env, "", [], i + 1, ws[0], values)
    else LineVals(line, typeLines[i], env, "", [], i + 1, fieldName, values)
  }

  /**
   * Where parse_vals goes on after the class line i: the class's domain
   * line and type line, each joined with the line closing the class's
   * block when that line starts with ':' or ')', and the index of the last
   * line the class takes up. A class line that is the last line stands
   * alone (as ConfigTypes.ClassLineNext reads it).
   */
  function ClassLineVals(lines: seq<string>, typeLines: seq<string>, ind: nat, i: nat): (r: Result<(string, string, nat)>)
    requires i < |lines| && i < |typeLines|
    ensures r.Success? ==> i <= r.value.2 < |lines|
  {
    if i + 1 == |lines| then Success((lines[i], typeLines[i], i))
    else
      var j := ConfigTypes.BlockEnd(lines, ind + 1, i + 1);
      var t := Strip(lines[j]);
      if t == "" then Failure("IndexError")
      else if t[0] == ':' || t[0] == ')' then
        if j >= |typeLines| then Failure("IndexError")
        else Success((lines[i] + lines[j], typeLines[i] + typeLines[j], j))
      else Success((lines[i], typeLines[i], j - 1))
  }

  /**
   * The same step as written, with the loop variable j that survives from an
   * earlier class line of the same call (`stale`): a class line that is the
   * last line leaves j unset or pointing back. Gives the two lines, the
   * index k the round ends on (the next round starts at k + 1) and j.
   */
  function ClassLineValsAsWritten(lines: seq<string>, typeLines: seq<string>, ind: nat, i: nat, stale: Option<nat>)
    : (r: Result<(string, string, int, nat)>)
    requires i < |lines| && i < |typeLines| && (stale.Some? ==> stale.value < |lines|)
    ensures r.Success? ==> r.value.3 < |lines|
  {
    var j: Option<nat> := if i + 1 < |lines| then Some(ConfigTypes.BlockEnd(lines, ind + 1, i + 1)) else stale;
    match j
    case None => Failure("UnboundLocalError")
    case Some(j) =>
      var t := Strip(lines[j]);
      if t == "" then Failure("IndexError")
      else if t[0] == ':' || t[0] == ')' then
        if j >= |typeLines| then Failure("IndexError")
        else Success((lines[i] + lines[j], typeLines[i] + typeLines[j], j, j))
      else Success((lines[i], typeLines[i], (j as int) - 1, j))
  }

  /** Away from the last line, the step as written is the corrected one. */
  lemma ClassLineValsAgree(lines: seq<string>, typeLines: seq<string>, ind: nat, i: nat, stale: Option<nat>)
    requires i + 1 < |lines| && i < |typeLines| && (stale.Some? ==> stale.value < |lines|)
    ensures ClassLineVals(lines, typeLines, ind, i).Success? <==>
      ClassLineValsAsWritten(lines, typeLines, ind, i, stale).Success?
    ensures ClassLineVals(lines, typeLines, ind, i).Success? ==>
      var (v, t, last) := ClassLineVals(lines, typeLines, ind, i).value;
      ClassLineValsAsWritten(lines, typeLines, ind, i, stale).value.0 == v
      && ClassLineValsAsWritten(lines, typeLines, ind, i, stale).value.1 == t
      && ClassLineValsAsWritten(lines, typeLines, ind, i, stale).value.2 == last
  {
  }

  /** A first class line that ends the section raises UnboundLocalError as written, and stands alone corrected. */
  lemma ClassValsLastLineUnbound(lines: seq<string>, typeLines: seq<string>, ind: nat)
    requires lines != [] && |lines| <= |typeLines|
    ensures ClassLineValsAsWritten(lines, typeLines, ind, |lines| - 1, None) == Failure("UnboundLocalError")
    ensures ClassLineVals(lines, typeLines, ind, |lines| - 1)
      == Success((lines[|lines| - 1], typeLines[|lines| - 1], (|lines| - 1) as nat))
  {
  }

  /**
   * After an earlier class line whose block ended at j0 before line i, a
   * class line that ends the section does not move parse_vals forward: the
   * next round starts at or before i, so the earlier class line is read
   * again, sets j to j0 again, and the loop never ends.
   */
  lemma ClassValsLastLineStale(lines: seq<string>, typeLines: seq<string>, ind: nat, j0: nat)
    requires lines != [] && |lines| <= |typeLines| && j0 < |lines| - 1
    ensures var r := ClassLineValsAsWritten(lines, typeLines, ind, |lines| - 1, Some(j0));
      r.Success? ==> r.value.2 + 1 <= |lines| - 1
  {
  }

  /** A round on a class line outside a class: the line's extent, its fields' domains, then the line itself. */
  function ClassValsRoundSpec(lines: seq<string>, typeLines: seq<string>, env: Env, ind: nat, i: nat,
                              cn: string, fieldName: string, values: seq<ValEntry>): (r: Result<ValsState>)
    requires i < |lines| && i < |typeLines|
    ensures r.Success? ==> i < r.value.next <= |lines|
    decreases |lines|, |lines| - i, 0
  {
    match ClassLineVals(lines, typeLines, ind, i)
    case Failure(e) => Failure(e)
    case Success((argVal, argType, last)) =>
      ClassValsAfter(argVal, argType, last, env, cn, fieldName, values,
                     ValsFrom(lines[i + 1..], typeLines[i + 1..], env, ind + 1, "", [], 0, "", []))
  }

  /** The rest of a class round, once the class's own fields have been parsed. */
  function ClassValsAfter(argVal: string, argType: string, last: nat, env: Env, cn: string, fieldName: string,
                          values: seq<ValEntry>, fieldEntries: Result<seq<ValEntry>>): (r: Result<ValsState>)
    ensures r.Success? ==> r.value.next == last + 1
  {
    match fieldEntries
    case Failure(e) => Failure(e)
    case Success(entries) => LineVals(argVal, argType, env, cn, FieldValsOf(entries), last + 1, fieldName, values)
  }

  /** parse_vals(lines, typeLines, variables) on a whole section. */
  function ValsSpec(lines: seq<string>, typeLines: seq<string>, env: Env): Result<seq<ValEntry>> {
    ValsFrom(lines, typeLines, env, 0, "", [], 0, "", [])
  }

  /** The loop over the class's block and the check of the line that ends it. */
  method NextAfterClassVals(lines: seq<string>, typeLines: seq<string>, ind: nat, i: nat) returns (r: Result<(string, string, nat)>)
    requires i < |lines| && i < |typeLines|
    ensures r == ClassLineVals(lines, typeLines, ind, i)
  {
    if i + 1 == |lines| {
      return Success((lines[i], typeLines[i], i));
    }
    var j := ConfigTypes.FindBlockEnd(lines, ind + 1, i + 1);
    var t := Strip(lines[j]);
    if t == "" {
      return Failure("IndexError");
    }
    if t[0] == ':' || t[0] == ')' {
      if j >= |typeLines| {
        return Failure("IndexError");
      }
      return Success((lines[i] + lines[j], typeLines[i] + typeLines[j], j));
    }
    return Success((lines[i], typeLines[i], j - 1));
  }

  /** The end of a round. */
  method AddLine(argVal: string, argType: string, env: Env, className: string, fields: seq<FieldVals>,
                 next: nat, fieldName: string, values: seq<ValEntry>) returns (r: Result<ValsState>)
    ensures r == LineVals(argVal, argType, env, className, fields, next, fieldName, values)
  {
    var nested := ParseVal(argVal, argType, env.variables, className, fields, env.literal);
    if nested.Failure? {
      return Failure(nested.error);
    }
    var vs := nested.value;
    if className != "" {
      vs := ReplaceClassInPlace(vs, className, fields);
    }
    return Success(ValsState(next, fieldName, values + [ValEntry(fieldName, vs)]));
  }

  /** One round of parse_vals' loop on a class line outside a class. */
  method ClassValsRound(lines: seq<string>, typeLines: seq<string>, env: Env, ind: nat, i: nat,
                        cn: string, fieldName: string, values: seq<ValEntry>) returns (r: Result<ValsState>)
    requires i < |lines| && i < |typeLines|
    ensures r == ClassValsRoundSpec(lines, typeLines, env, ind, i, cn, fieldName, values)
    decreases |lines|, 0
  {
    var next := NextAfterClassVals(lines, typeLines, ind, i);
    match next {
      case Failure(e) =>
        r := Failure(e);
      case Success((argVal, argType, last)) =>
        var fieldEntries := ParseVals(lines[i + 1..], typeLines[i + 1..], env, ind + 1, "", []);
        r := ClassValsRest(argVal, argType, last, env, cn, fieldName, values, fieldEntries);
    }
  }

  /** The class line itself, unless parsing its fields failed. */
  method ClassValsRest(argVal: string, argType: string, last: nat, env: Env, cn: string, fieldName: string,
                       values: seq<ValEntry>, fieldEntries: Result<seq<ValEntry>>) returns (r: Result<ValsState>)
    ensures r == ClassValsAfter(argVal, argType, last, env, cn, fieldName, values, fieldEntries)
  {
    match fieldEntries {
      case Failure(e) =>
        r := Failure(e);
      case Success(entries) =>
        r := AddLine(argVal, argType, env, cn, FieldValsOf(entries), last + 1, fieldName, values);
    }
  }

  /** One round of parse_vals' loop. */
  method ValsRound(lines: seq<string>, typeLines: seq<string>, env: Env, ind: nat, className: string,
                   fields: seq<FieldVals>, i: nat, fieldName: string, values: seq<ValEntry>) returns (r: Result<ValsState>)
    requires i < |lines| && i < |typeLines|
    ensures r == ValsRoundSpec(lines, typeLines, env, ind, className, fields, i, fieldName, values)
    decreases |lines|, 1
  {
    var line := lines[i];
    if Contains(line, BsgGlobals.Class) {
      var cn := ClassNameFromType(typeLines[i]);
      if cn.Failure? {
        return Failure(cn.error);
      }
      if className == "" {
        r := ClassValsRound(lines, typeLines, env, ind, i, cn.value, fieldName, values);
      } else {
        r := AddLine(line, typeLines[i], env, cn.value, fields, i + 1, fieldName, values);
      }
      return;
    }
    if StartsWith(line, Indent(ind + 1)) {
      return Success(ValsState(i + 1, fieldName, values));
    }
    var name := fieldName;
    var argVal := line;
    if ind > 0 {
      var ws := Words(Strip(line));
      if ws == [] {
        return Failure("IndexError");
      }
      name := ws[0];
      argVal := Join(" ", ws[1..]);
    }
    r := AddLine(argVal, typeLines[i], env, "", [], i + 1, name, values);
  }

  /** parse_vals, with its while loop over the lines. */
  method ParseVals(lines: seq<string>, typeLines: seq<string>, env: Env, ind: nat, className: string,
                   fields: seq<FieldVals>) returns (r: Result<seq<ValEntry>>)
    ensures r == ValsFrom(lines, typeLines, env, ind, className, fields, 0, "", [])
    decreases |lines|, 2
  {
    var state := ValsState(0, "", []);
    while state.next < |lines|
      invariant state.next <= |lines|
      invariant ValsFrom(lines, typeLines, env, ind, className, fields, state.next, state.fieldName, state.values)
        == ValsFrom(lines, typeLines, env, ind, className, fields, 0, "", [])
      decreases |lines| - state.next
    {
      var i := state.next;
      if i >= |typeLines| {
        return Failure("IndexError");
      }
      if lines[i] == "" {
        state := state.(next := i + 1);
        continue;
      }
      if !StartsWith(lines[i], Indent(ind)) {
        break;
      }
      var round := ValsRound(lines, typeLines, env, ind, className, fields, i, state.fieldName, state.values);
      if round.Failure? {
        return Failure(round.error);
      }
      state := round.value;
    }
    return Success(state.values);
  }
}
