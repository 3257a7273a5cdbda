// The [types] section of a configuration: _parse_type turns one type line
// into its layers (outermost first), _update_class puts a class's fields in
// place of its placeholder layer, and parse_types reads the section, with
// the indented field lines of a class under it.
module ConfigTypes {
  import opened Wrappers
  import opened PyStrings
  import opened Layers
  import BsgGlobals

  /** A keyword in double quotes: an explicit alphabet for a str. */
  predicate Quoted(kw: string) {
    |kw| > 0 && kw[0] == '"' && kw[|kw| - 1] == '"'
  }

  /**
   * The keyword check of _parse_type: more than one keyword, or (outside a
   * class line) one the type does not accept that is not a quoted alphabet
   * on str.
   */
  predicate KeywordsRejected(elemType: string, keywords: seq<string>, className: string) {
    keywords != [] &&
    (|keywords| > 1 ||
     (className == "" && keywords[0] !in BsgGlobals.Keywords(elemType) && !(elemType == "str" && Quoted(keywords[0]))))
  }

  /**
   * One layer of a type line without a dict: the last word is the type, which
   * must name a builtin unless the line is a class line, and the words
   * before it are its keywords.
   */
  function TypeLayer(elem: string, className: string, builtins: set<string>): Result<Layer> {
    var words := Words(elem);
    if words == [] then Failure("IndexError")
    else
      var elemType := words[|words| - 1];
      var keywords := words[..|words| - 1];
      if className == "" && elemType !in builtins then Failure("ValueError")
      else if KeywordsRejected(elemType, keywords, className) then Failure("ValueError")
      else Success(Prim(elemType, keywords))
  }

  /** A layer up to the first dict of a line that has one: the same, without the keyword check. */
  function DictPrefixLayer(elem: string, className: string, builtins: set<string>): Result<Layer> {
    var words := Words(elem);
    if words == [] then Failure("IndexError")
    else
      var elemType := words[|words| - 1];
      if className == "" && elemType !in builtins then Failure("ValueError")
      else Success(Prim(elemType, words[..|words| - 1]))
  }

  /** TypeLayer for one class name and set of builtins, as a function of the layer text. */
  function TypeLayerOf(className: string, builtins: set<string>): string -> Result<Layer> {
    e => TypeLayer(e, className, builtins)
  }

  function DictPrefixLayerOf(className: string, builtins: set<string>): string -> Result<Layer> {
    e => DictPrefixLayer(e, className, builtins)
  }

  /** The loop over a line's first n layer texts: the first failing layer's error, else every layer in order. */
  function EachType(elems: seq<string>, n: nat, f: string -> Result<Layer>): Result<seq<Layer>>
    requires n <= |elems|
  {
    if n == 0 then Success([])
    else match EachType(elems, n - 1, f)
      case Failure(e) => Failure(e)
      case Success(ls) =>
        match f(elems[n - 1])
        case Failure(e) => Failure(e)
        case Success(l) => Success(ls + [l])
  }

  lemma {:induction false} EachTypeFail(elems: seq<string>, n: nat, m: nat, f: string -> Result<Layer>)
    requires n <= m <= |elems| && EachType(elems, n, f).Failure?
    ensures EachType(elems, m, f) == EachType(elems, n, f)
    decreases m
  {
    if m > n {
      EachTypeFail(elems, n, m - 1, f);
    }
  }

  /** The loop fails exactly when some layer does, and otherwise keeps each layer's result in place. */
  lemma {:induction false} EachTypeResult(elems: seq<string>, n: nat, f: string -> Result<Layer>)
    requires n <= |elems|
    ensures EachType(elems, n, f).Failure? <==> exists k :: 0 <= k < n && f(elems[k]).Failure?
    ensures EachType(elems, n, f).Success? ==>
      |EachType(elems, n, f).value| == n && forall k :: 0 <= k < n ==> f(elems[k]) == Success(EachType(elems, n, f).value[k])
    decreases n
  {
    if n > 0 {
      EachTypeResult(elems, n - 1, f);
    }
  }

  function StripAll(xs: seq<string>): (r: seq<string>)
    ensures |r| == |xs| && forall k :: 0 <= k < |xs| ==> r[k] == Strip(xs[k])
  {
    seq(|xs|, k requires 0 <= k < |xs| => Strip(xs[k]))
  }

  /** The text before a line's first colon, stripped. */
  function BeforeColon(arg: string): string {
    Strip(Split(arg, ':')[0])
  }

  /** How many of the parentheses opened before the first colon are still open there: the depth of the dict. */
  function OpenBeforeDict(arg: string): int {
    CountChar(BeforeColon(arg), '(') - CountChar(BeforeColon(arg), ')')
  }

  /** The key type's text: what follows the dict's opening parenthesis, up to the first colon. */
  function KeyTypeText(arg: string): string {
    var first := BeforeColon(arg);
    var parts := Split(first, '(');
    Strip(Join("(", StripAll(PySlice(parts, -OpenBeforeDict(arg), |parts|))))
  }

  /** The value type's text: what follows the first colon, less one closing parenthesis per open one. */
  function ValueTypeText(arg: string): string {
    var pieces := StripAll(Split(arg, ':'));
    PySlice(Join(":", pieces[1..]), 0, -OpenBeforeDict(arg))
  }

  /** A piece of a piece list is among its elements. */
  lemma PySliceElements<T>(xs: seq<T>, a: int, b: int)
    ensures forall k :: 0 <= k < |PySlice(xs, a, b)| ==> PySlice(xs, a, b)[k] in xs
  {
    var lo := SliceBound(a, |xs|);
    var hi := SliceBound(b, |xs|);
    if lo <= hi {
      forall k | 0 <= k < hi - lo ensures xs[lo..hi][k] in xs {
        assert xs[lo..hi][k] == xs[lo + k];
      }
    }
  }

  lemma KeyTypeNoColon(arg: string)
    ensures CountChar(KeyTypeText(arg), ':') == 0
  {
    var pieces := Split(arg, ':');
    SplitNoSep(arg, ':');
    var first := BeforeColon(arg);
    StripKeepsOut(pieces[0], ':');
    SplitPiecesFrom(first, '(', ':');
    var parts := Split(first, '(');
    var kept := PySlice(parts, -OpenBeforeDict(arg), |parts|);
    PySliceElements(parts, -OpenBeforeDict(arg), |parts|);
    var stripped := StripAll(kept);
    forall k | 0 <= k < |stripped| ensures ':' !in stripped[k] {
      StripKeepsOut(kept[k], ':');
    }
    JoinFrom("(", stripped, ':');
    StripKeepsOut(Join("(", stripped), ':');
    NoCharCount(KeyTypeText(arg), ':');
  }

  lemma ValueTypeFewerColons(arg: string)
    requires |Split(arg, ':')| > 1
    ensures CountChar(ValueTypeText(arg), ':') < CountChar(arg, ':')
  {
    AfterColonFewer(arg, -OpenBeforeDict(arg));
  }

  /** What follows a line's first colon, rejoined and cut at the end, has fewer colons than the line. */
  lemma AfterColonFewer(arg: string, cut: int)
    requires |Split(arg, ':')| > 1
    ensures CountChar(PySlice(Join(":", StripAll(Split(arg, ':'))[1..]), 0, cut), ':') < CountChar(arg, ':')
  {
    var raw := Split(arg, ':');
    SplitCount(arg, ':');
    SplitNoSep(arg, ':');
    var pieces := StripAll(raw);
    var rest := pieces[1..];
    forall k | 0 <= k < |rest| ensures ':' !in rest[k] {
      assert rest[k] == Strip(raw[k + 1]);
      StripKeepsOut(raw[k + 1], ':');
    }
    JoinCount(':', rest);
    PySliceCount(Join(":", rest), 0, cut, ':');
  }

  /**
   * _parse_type: a line without a colon gives one layer per parenthesised
   * piece; a line with one gives the layers up to its (first) dict, then the
   * dict's key and value types, each parsed as a line of its own.
   */
  function ParseTypeSpec(arg: string, className: string, builtins: set<string>): Result<seq<Layer>>
    decreases CountChar(arg, ':'), 1
  {
    if |Split(arg, ':')| == 1 then
      EachType(LayerTexts(arg), |LayerTexts(arg)|, TypeLayerOf(className, builtins))
    else
      KeyTypeNoColon(arg);
      ValueTypeFewerColons(arg);
      match HalfTypes(KeyTypeText(arg), className, builtins)
      case Failure(e) => Failure(e)
      case Success(keyTypes) =>
        match HalfTypes(ValueTypeText(arg), className, builtins)
        case Failure(e) => Failure(e)
        case Success(valTypes) =>
          var elems := LayerTexts(arg);
          var pre := OpenBeforeDict(arg);
          var f := DictPrefixLayerOf(className, builtins);
          if 1 <= pre <= |elems| then
            match EachType(elems, pre, f)
            case Failure(e) => Failure(e)
            case Success(ls) => Success(ls + [KeyVal(keyTypes, valTypes)])
          else EachType(elems, |elems|, f)
  }

  /**
   * The first failing layer decides the error of the loop: every layer
   * before k succeeds and layer k fails.
   */
  lemma {:induction false} EachTypeFirstFailure(elems: seq<string>, k: nat, n: nat, f: string -> Result<Layer>)
    requires k < n <= |elems|
    requires forall j :: 0 <= j < k ==> f(elems[j]).Success?
    requires f(elems[k]).Failure?
    ensures EachType(elems, n, f) == Failure(f(elems[k]).error)
  {
    EachTypeResult(elems, k, f);
    EachTypeFail(elems, k + 1, n, f);
  }

  /**
   * A line without a colon gives one layer per parenthesised piece,
   * outermost first: the piece's last word is the layer's type and the
   * words before it its keywords.
   */
  lemma ParseTypeLayers(arg: string, className: string, builtins: set<string>)
    requires |Split(arg, ':')| == 1
    ensures var r := ParseTypeSpec(arg, className, builtins);
      var elems := LayerTexts(arg);
      r.Success? ==> |r.value| == |elems| && forall k :: 0 <= k < |elems| ==>
        var ws := Words(elems[k]);
        ws != [] && r.value[k] == Prim(ws[|ws| - 1], ws[..|ws| - 1])
        && (className != "" || ws[|ws| - 1] in builtins)
        && !KeywordsRejected(ws[|ws| - 1], ws[..|ws| - 1], className)
  {
    var elems := LayerTexts(arg);
    EachTypeResult(elems, |elems|, TypeLayerOf(className, builtins));
  }

  /**
   * Outside a class line, a layer with more than one keyword, or with one
   * its type does not accept (other than a quoted alphabet on a str), is a
   * ValueError once every layer before it has been read.
   */
  lemma ParseTypeRejectsKeywords(arg: string, builtins: set<string>, k: nat)
    requires |Split(arg, ':')| == 1 && k < |LayerTexts(arg)|
    requires forall j :: 0 <= j < k ==> TypeLayer(LayerTexts(arg)[j], "", builtins).Success?
    requires var ws := Words(LayerTexts(arg)[k]);
      ws != [] && ws[|ws| - 1] in builtins && |ws| > 1 &&
      (|ws| > 2 || (ws[0] !in BsgGlobals.Keywords(ws[1]) && !(ws[1] == "str" && Quoted(ws[0]))))
    ensures ParseTypeSpec(arg, "", builtins) == Failure("ValueError")
  {
    var elems := LayerTexts(arg);
    var f := TypeLayerOf("", builtins);
    forall j | 0 <= j < k ensures f(elems[j]).Success? {
    }
    EachTypeFirstFailure(elems, k, |elems|, f);
  }

  /** Outside a class line, a layer whose type names no builtin is a ValueError once the layers before it have been read. */
  lemma ParseTypeUnknownType(arg: string, builtins: set<string>, k: nat)
    requires |Split(arg, ':')| == 1 && k < |LayerTexts(arg)|
    requires forall j :: 0 <= j < k ==> TypeLayer(LayerTexts(arg)[j], "", builtins).Success?
    requires var ws := Words(LayerTexts(arg)[k]); ws != [] && ws[|ws| - 1] !in builtins
    ensures ParseTypeSpec(arg, "", builtins) == Failure("ValueError")
  {
    var elems := LayerTexts(arg);
    var f := TypeLayerOf("", builtins);
    forall j | 0 <= j < k ensures f(elems[j]).Success? {
    }
    EachTypeFirstFailure(elems, k, |elems|, f);
  }

  /** A str layer may carry one quoted alphabet, and tuple and list layers the keyword sorted; such a line is read. */
  lemma ParseTypeAcceptsKeyword(elemType: string, kw: string)
    requires (elemType == "str" && Quoted(kw)) || ((elemType == "tuple" || elemType == "list") && kw == BsgGlobals.Sorted)
    ensures !KeywordsRejected(elemType, [kw], "")
  {
  }

  /** The class name of a class line: what follows its last "class", stripped. */
  function ClassNameOf(line: string): string {
    var pieces := SplitStr(line, BsgGlobals.Class);
    Strip(pieces[|pieces| - 1])
  }

  /** One line of a [types] section: _parse_type, then _update_class under the line's class name. */
  function LineTypesSpec(argType: string, className: string, fields: seq<Field>, builtins: set<string>): Result<seq<Layer>>
    decreases CountChar(argType, ':'), 2
  {
    match ParseTypeSpec(argType, className, builtins)
    case Failure(e) => Failure(e)
    case Success(ls) => UpdateClassSpec(ls, className, fields)
  }

  /**
   * A dict's key or value type as parse_types reads it when handed it as a
   * one-line section, corrected: the class name of the line is passed on
   * to _parse_type (see HalfTypesAsWritten), and a class line with nothing
   * after it is read on its own (see ClassLineNext).
   */
  function HalfTypes(half: string, className: string, builtins: set<string>): Result<seq<Layer>>
    decreases CountChar(half, ':'), 3
  {
    if half == "" then Failure("IndexError")
    else if className == "" && Contains(half, BsgGlobals.Class) then LineTypesSpec(half, ClassNameOf(half), [], builtins)
    else if StartsWith(half, Indent(1)) then Failure("IndexError")
    else ParseTypeSpec(half, className, builtins)
  }

  /**
   * The same as written: parse_types hands _parse_type the class name of a
   * class line of its own, and a one-line half has none, so a class inside
   * a dict meets the builtin check; and a class line that is the last line
   * reads a loop variable the loop never set.
   */
  function HalfTypesAsWritten(half: string, className: string, builtins: set<string>): Result<seq<Layer>> {
    if half == "" then Failure("IndexError")
    else if className == "" && Contains(half, BsgGlobals.Class) then Failure("UnboundLocalError")
    else if StartsWith(half, Indent(1)) then Failure("IndexError")
    else ParseTypeSpec(half, "", builtins)
  }

  /** _parse_type's loop over the layers of a line without a colon (lines 426-462). */
  method FlatLayers(elems: seq<string>, f: string -> Result<Layer>) returns (r: Result<seq<Layer>>)
    ensures r == EachType(elems, |elems|, f)
  {
    var nested: seq<Layer> := [];
    for i := 0 to |elems|
      invariant EachType(elems, i, f) == Success(nested)
    {
      var l := f(elems[i]);
      if l.Failure? {
        EachTypeFail(elems, i + 1, |elems|, f);
        return Failure(l.error);
      }
      nested := nested + [l.value];
    }
    return Success(nested);
  }

  /**
   * _parse_type's loop over the layers of a line with a dict: layers up to
   * the dict's own, then the key and value layer, and nothing after.
   */
  method DictLayers(elems: seq<string>, pre: int, kv: Layer, f: string -> Result<Layer>)
    returns (r: Result<seq<Layer>>)
    ensures r == if 1 <= pre <= |elems| then
        (match EachType(elems, pre, f)
         case Failure(e) => Failure(e)
         case Success(ls) => Success(ls + [kv]))
      else EachType(elems, |elems|, f)
  {
    var nested: seq<Layer> := [];
    var i := 0;
    while i < |elems|
      invariant 0 <= i <= |elems| && (1 <= pre <= |elems| ==> i < pre)
      invariant EachType(elems, i, f) == Success(nested)
    {
      var isDict := i == pre - 1;
      var l := f(elems[i]);
      if l.Failure? {
        EachTypeFail(elems, i + 1, if 1 <= pre <= |elems| then pre else |elems|, f);
        return Failure(l.error);
      }
      nested := nested + [l.value];
      if isDict {
        return Success(nested + [kv]);
      }
      i := i + 1;
    }
    return Success(nested);
  }

  /** _parse_type. */
  method ParseType(arg: string, className: string, builtins: set<string>) returns (r: Result<seq<Layer>>)
    ensures r == ParseTypeSpec(arg, className, builtins)
    decreases CountChar(arg, ':'), 1
  {
    var pieces := Split(arg, ':');
    var elems := LayerTexts(arg);
    if |pieces| == 1 {
      r := FlatLayers(elems, TypeLayerOf(className, builtins));
      return;
    }
    KeyTypeNoColon(arg);
    ValueTypeFewerColons(arg);
    var keyTypes := ParseHalf(KeyTypeText(arg), className, builtins);
    if keyTypes.Failure? {
      return Failure(keyTypes.error);
    }
    var valTypes := ParseHalf(ValueTypeText(arg), className, builtins);
    if valTypes.Failure? {
      return Failure(valTypes.error);
    }
    r := DictLayers(elems, OpenBeforeDict(arg), KeyVal(keyTypes.value, valTypes.value), DictPrefixLayerOf(className, builtins));
  }

  /** parse_types on the one-line section [half], as _parse_type calls it for a dict's key or value type. */
  method ParseHalf(half: string, className: string, builtins: set<string>) returns (r: Result<seq<Layer>>)
    ensures r == HalfTypes(half, className, builtins)
    decreases CountChar(half, ':'), 3
  {
    if half == "" {
      return Failure("IndexError");
    }
    if className == "" && Contains(half, BsgGlobals.Class) {
      r := ParseLine(half, ClassNameOf(half), [], builtins);
      return;
    }
    if StartsWith(half, Indent(1)) {
      return Failure("IndexError");
    }
    r := ParseType(half, className, builtins);
  }

  /** One line of a [types] section: _parse_type, then _update_class. */
  method ParseLine(argType: string, className: string, fields: seq<Field>, builtins: set<string>) returns (r: Result<seq<Layer>>)
    ensures r == LineTypesSpec(argType, className, fields, builtins)
    decreases CountChar(argType, ':'), 2
  {
    var nested := ParseType(argType, className, builtins);
    if nested.Failure? {
      return Failure(nested.error);
    }
    r := UpdateClass(nested.value, className, fields);
  }

  /**
   * _update_class on one layer, under a class name: a builtin layer
   * carrying the class keyword becomes the class with its fields, and the
   * key and value lists of a dict layer are updated in turn. Otherwise a
   * layer with more than one keyword (a class layer reads its fields as
   * keywords) is a ValueError; with `strayName`, one keyword reaches the
   * test of a name _update_class never defines, a NameError.
   */
  function UpdateLayer(l: Layer, className: string, fields: seq<Field>, strayName: bool): Result<Layer>
    decreases l
  {
    match l
    case KeyVal(ks, vs) =>
      (match UpdateLayers(ks, |ks|, className, fields, strayName)
       case Failure(e) => Failure(e)
       case Success(ks') =>
         match UpdateLayers(vs, |vs|, className, fields, strayName)
         case Failure(e) => Failure(e)
         case Success(vs') => Success(KeyVal(ks', vs')))
    case Prim(t, kws) =>
      if BsgGlobals.Class in kws then Success(Cls(className, fields))
      else if |kws| > 1 then Failure("ValueError")
      else if |kws| == 1 && strayName then Failure("NameError")
      else Success(l)
    case Cls(_, fs) =>
      if |fs| > 1 then Failure("ValueError")
      else if |fs| == 1 && strayName then Failure("NameError")
      else Success(l)
  }

  /** _update_class's loop over the first n layers. */
  function UpdateLayers(ls: seq<Layer>, n: nat, className: string, fields: seq<Field>, strayName: bool): Result<seq<Layer>>
    requires n <= |ls|
    decreases ls, n
  {
    if n == 0 then Success([])
    else match UpdateLayers(ls, n - 1, className, fields, strayName)
      case Failure(e) => Failure(e)
      case Success(done) =>
        match UpdateLayer(ls[n - 1], className, fields, strayName)
        case Failure(e) => Failure(e)
        case Success(l) => Success(done + [l])
  }

  /**
   * _update_class, corrected: the single-keyword test it copies from
   * _parse_type names `class_name`, which it does not define; under a class
   * name that test is false (see UpdateClassAsWritten).
   */
  function UpdateClassSpec(ls: seq<Layer>, className: string, fields: seq<Field>): Result<seq<Layer>> {
    if className == "" then Success(ls) else UpdateLayers(ls, |ls|, className, fields, false)
  }

  /** _update_class as written: any layer with exactly one keyword other than the class keyword is a NameError. */
  function UpdateClassAsWritten(ls: seq<Layer>, className: string, fields: seq<Field>): Result<seq<Layer>> {
    if className == "" then Success(ls) else UpdateLayers(ls, |ls|, className, fields, true)
  }

  /** _update_class (corrected), updating the layers in place. */
  method UpdateClass(ls: seq<Layer>, className: string, fields: seq<Field>) returns (r: Result<seq<Layer>>)
    ensures r == UpdateClassSpec(ls, className, fields)
    decreases ls
  {
    if className == "" {
      return Success(ls);
    }
    var nested := ls;
    for k := 0 to |ls|
      invariant |nested| == |ls| && forall j :: k <= j < |ls| ==> nested[j] == ls[j]
      invariant UpdateLayers(ls, k, className, fields, false) == Success(nested[..k])
    {
      var l := ls[k];
      match l {
        case KeyVal(ks, vs) =>
          var ks' := UpdateClass(ks, className, fields);
          if ks'.Failure? {
            UpdateLayersFail(ls, k + 1, |ls|, className, fields, false);
            return Failure(ks'.error);
          }
          var vs' := UpdateClass(vs, className, fields);
          if vs'.Failure? {
            UpdateLayersFail(ls, k + 1, |ls|, className, fields, false);
            return Failure(vs'.error);
          }
          nested := nested[k := KeyVal(ks'.value, vs'.value)];
        case Prim(t, kws) =>
          if BsgGlobals.Class in kws {
            nested := nested[k := Cls(className, fields)];
          } else if |kws| > 1 {
            UpdateLayersFail(ls, k + 1, |ls|, className, fields, false);
            return Failure("ValueError");
          }
        case Cls(_, fs) =>
          if |fs| > 1 {
            UpdateLayersFail(ls, k + 1, |ls|, className, fields, false);
            return Failure("ValueError");
          }
      }
      assert nested[..k + 1] == nested[..k] + [nested[k]];
    }
    assert nested[..|ls|] == nested;
    return Success(nested);
  }

  lemma {:induction false} UpdateLayersFail(ls: seq<Layer>, n: nat, m: nat, className: string, fields: seq<Field>, strayName: bool)
    requires n <= m <= |ls| && UpdateLayers(ls, n, className, fields, strayName).Failure?
    ensures UpdateLayers(ls, m, className, fields, strayName) == UpdateLayers(ls, n, className, fields, strayName)
    decreases m
  {
    if m > n {
      UpdateLayersFail(ls, n, m - 1, className, fields, strayName);
    }
  }

  /** One entry of a parsed [types] section: a parameter's layers, or a field's, with its name. */
  datatype Entry = Entry(fieldName: string, layers: seq<Layer>)

  /** A class's fields as parse_types returns them: each field's layers wrapped in a list of one. */
  function FieldsOf(entries: seq<Entry>): (r: seq<Field>)
    ensures |r| == |entries|
  {
    seq(|entries|, k requires 0 <= k < |entries| => Field(entries[k].fieldName, [TypeList(entries[k].layers)]))
  }

  /**
   * Where parse_types' loop over the lines after a class line stops: the
   * first line from `from` on that is not indented by `ind` levels, or
   * the last line when there is none.
   */
  function BlockEnd(lines: seq<string>, ind: nat, from: nat): (j: nat)
    requires from < |lines|
    ensures from <= j < |lines|
    ensures forall m :: from <= m < j ==> StartsWith(lines[m], Indent(ind))
    ensures j < |lines| - 1 ==> !StartsWith(lines[j], Indent(ind))
    decreases |lines| - from
  {
    if from == |lines| - 1 || !StartsWith(lines[from], Indent(ind)) then from
    else BlockEnd(lines, ind, from + 1)
  }

  /** The loop over j that finds the end of a class's block of fields. */
  method FindBlockEnd(lines: seq<string>, ind: nat, from: nat) returns (j: nat)
    requires from < |lines|
    ensures j == BlockEnd(lines, ind, from)
  {
    j := from;
    while j < |lines| - 1 && StartsWith(lines[j], Indent(ind))
      invariant from <= j < |lines|
      invariant BlockEnd(lines, ind, j) == BlockEnd(lines, ind, from)
      decreases |lines| - j
    {
      j := j + 1;
    }
  }

  /**
   * Where parse_types goes on after the class line i at indentation ind,
   * corrected: the class's line, joined with the line closing its block when
   * that line starts with ':' or ')', and the index of the last line the
   * class takes up. A class line that is the last line stands alone.
   */
  function ClassLineNext(lines: seq<string>, ind: nat, i: nat): (r: Result<(string, nat)>)
    requires i < |lines|
    ensures r.Success? ==> i <= r.value.1 < |lines|
  {
    if i + 1 == |lines| then Success((lines[i], i))
    else
      var j := BlockEnd(lines, ind + 1, i + 1);
      var t := Strip(lines[j]);
      if t == "" then Failure("IndexError")
      else if t[0] == ':' || t[0] == ')' then Success((lines[i] + lines[j], j))
      else Success((lines[i], j - 1))
  }

  /**
   * The same step as written, with the loop variable j that survives from
   * an earlier class line (`stale`): a last class line leaves j as it was,
   * unset or pointing back. Gives the line, the next index before
   * parse_types' increment, and j.
   */
  function ClassLineNextAsWritten(lines: seq<string>, ind: nat, i: nat, stale: Option<nat>): Result<(string, int, nat)>
    requires i < |lines| && (stale.Some? ==> stale.value < |lines|)
  {
    var j := if i + 1 < |lines| then Some(BlockEnd(lines, ind + 1, i + 1)) else stale;
    match j
    case None => Failure("UnboundLocalError")
    case Some(j) =>
      var t := Strip(lines[j]);
      if t == "" then Failure("IndexError")
      else if t[0] == ':' || t[0] == ')' then Success((lines[i] + lines[j], j, j))
      else
        var back := (j as int) - 1;
        Success((lines[i], back, j))
  }

  /** parse_types' state after one more line: the next index, the field name and the entries so far. */
  datatype TypesState = TypesState(next: nat, fieldName: string, types: seq<Entry>)

  /**
   * parse_types' while loop from line i, with the field name and the entries
   * so far: blank lines are skipped and a line not indented by ind levels
   * ends the section.
   */
  function TypesFrom(lines: seq<string>, ind: nat, className: string, builtins: set<string>,
                     i: nat, fieldName: string, types: seq<Entry>): Result<seq<Entry>>
    requires i <= |lines|
    decreases |lines|, |lines| - i, 2
  {
    if i == |lines| then Success(types)
    else if lines[i] == "" then TypesFrom(lines, ind, className, builtins, i + 1, fieldName, types)
    else if !StartsWith(lines[i], Indent(ind)) then Success(types)
    else
      match TypesRoundSpec(lines, ind, className, builtins, i, fieldName, types)
      case Failure(e) => Failure(e)
      case Success(state) => TypesFrom(lines, ind, className, builtins, state.next, state.fieldName, state.types)
  }

  /**
   * One round of that loop on a nonblank line i at indentation ind: a class
   * line (outside a class) has its fields parsed from the lines after it
   * first; a line one level deeper is skipped; a line inside a class gives
   * its first word as the field name; each other line adds one entry.
   */
  function TypesRoundSpec(lines: seq<string>, ind: nat, className: string, builtins: set<string>,
                          i: nat, fieldName: string, types: seq<Entry>): (r: Result<TypesState>)
    requires i < |lines|
    ensures r.Success? ==> i < r.value.next <= |lines|
    decreases |lines|, |lines| - i, 1
  {
    var argType := lines[i];
    if className == "" && Contains(argType, BsgGlobals.Class) then ClassRoundSpec(lines, ind, builtins, i, fieldName, types)
    else if StartsWith(argType, Indent(ind + 1)) then Success(TypesState(i + 1, fieldName, types))
    else if ind > 0 then
      var ws := Words(Strip(argType));
      if ws == [] then Failure("IndexError")
      else
        match LineTypesSpec(Join(" ", ws[1..]), "", [], builtins)
        case Failure(e) => Failure(e)
        case Success(nested) => Success(TypesState(i + 1, ws[0], types + [Entry(ws[0], nested)]))
    else
      match LineTypesSpec(argType, "", [], builtins)
      case Failure(e) => Failure(e)
      case Success(nested) => Success(TypesState(i + 1, fieldName, types + [Entry(fieldName, nested)]))
  }

  /** parse_types(lines, ind, className), corrected (ClassLineNext, HalfTypes). */
  function TypesSpec(lines: seq<string>, ind: nat, className: string, builtins: set<string>): Result<seq<Entry>> {
    TypesFrom(lines, ind, className, builtins, 0, "", [])
  }

  /** A round on a class line i: its fields, the line (and its continuation), the class name. */
  function ClassRoundSpec(lines: seq<string>, ind: nat, builtins: set<string>,
                          i: nat, fieldName: string, types: seq<Entry>): (r: Result<TypesState>)
    requires i < |lines|
    ensures r.Success? ==> i < r.value.next <= |lines|
    decreases |lines|, |lines| - i, 0
  {
    ClassRoundAfter(lines, ind, builtins, i, fieldName, types, TypesFrom(lines[i + 1..], ind + 1, "", builtins, 0, "", []))
  }

  /** The rest of that round, once the class's fields are parsed. */
  function ClassRoundAfter(lines: seq<string>, ind: nat, builtins: set<string>,
                           i: nat, fieldName: string, types: seq<Entry>, fieldEntries: Result<seq<Entry>>): (r: Result<TypesState>)
    requires i < |lines|
    ensures r.Success? ==> i < r.value.next <= |lines|
  {
    match fieldEntries
    case Failure(e) => Failure(e)
    case Success(entries) =>
      match ClassLineNext(lines, ind, i)
      case Failure(e) => Failure(e)
      case Success((line, last)) =>
        match LineTypesSpec(line, ClassNameOf(lines[i]), FieldsOf(entries), builtins)
        case Failure(e) => Failure(e)
        case Success(nested) => Success(TypesState(last + 1, fieldName, types + [Entry(fieldName, nested)]))
  }

  /** The loop over the class's block and the check of the line that ends it. */
  method NextAfterClass(lines: seq<string>, ind: nat, i: nat) returns (r: Result<(string, nat)>)
    requires i < |lines|
    ensures r == ClassLineNext(lines, ind, i)
  {
    var argType := lines[i];
    var last := i;
    if i + 1 < |lines| {
      var j := FindBlockEnd(lines, ind + 1, i + 1);
      var t := Strip(lines[j]);
      if t == "" {
        return Failure("IndexError");
      }
      if t[0] == ':' || t[0] == ')' {
        argType := argType + lines[j];
        last := j;
      } else {
        last := j - 1;
      }
    }
    return Success((argType, last));
  }

  /** One round of parse_types' loop on a class line. */
  method ClassRound(lines: seq<string>, ind: nat, builtins: set<string>,
                    i: nat, fieldName: string, types: seq<Entry>) returns (r: Result<TypesState>)
    requires i < |lines|
    ensures r == ClassRoundSpec(lines, ind, builtins, i, fieldName, types)
    decreases |lines|, 0
  {
    var fieldEntries := ParseTypes(lines[i + 1..], ind + 1, "", builtins);
    r := ClassRoundRest(lines, ind, builtins, i, fieldName, types, fieldEntries);
  }

  /** The rest of a round on a class line. */
  method ClassRoundRest(lines: seq<string>, ind: nat, builtins: set<string>,
                        i: nat, fieldName: string, types: seq<Entry>, fieldEntries: Result<seq<Entry>>) returns (r: Result<TypesState>)
    requires i < |lines|
    ensures r == ClassRoundAfter(lines, ind, builtins, i, fieldName, types, fieldEntries)
  {
    match fieldEntries {
      case Failure(e) =>
        r := Failure(e);
      case Success(entries) =>
        var next := NextAfterClass(lines, ind, i);
        match next {
          case Failure(e) =>
            r := Failure(e);
          case Success(p) =>
            var nested := ParseLine(p.0, ClassNameOf(lines[i]), FieldsOf(entries), builtins);
            match nested {
              case Failure(e) =>
                r := Failure(e);
              case Success(layers) =>
                r := Success(TypesState(p.1 + 1, fieldName, types + [Entry(fieldName, layers)]));
            }
        }
    }
  }

  /** One round of parse_types' loop. */
  method TypesRound(lines: seq<string>, ind: nat, className: string, builtins: set<string>,
                    i: nat, fieldName: string, types: seq<Entry>) returns (r: Result<TypesState>)
    requires i < |lines|
    ensures r == TypesRoundSpec(lines, ind, className, builtins, i, fieldName, types)
    decreases |lines|, 1
  {
    if className == "" && Contains(lines[i], BsgGlobals.Class) {
      r := ClassRound(lines, ind, builtins, i, fieldName, types);
      return;
    }
    var argType := lines[i];
    var name := fieldName;
    if StartsWith(argType, Indent(ind + 1)) {
      return Success(TypesState(i + 1, fieldName, types));
    } else if ind > 0 {
      var ws := Words(Strip(argType));
      if ws == [] {
        return Failure("IndexError");
      }
      name := ws[0];
      argType := Join(" ", ws[1..]);
    }
    var nested := ParseLine(argType, "", [], builtins);
    if nested.Failure? {
      return Failure(nested.error);
    }
    return Success(TypesState(i + 1, name, types + [Entry(name, nested.value)]));
  }

  /** parse_types, corrected, with its while loop over the lines. */
  method ParseTypes(lines: seq<string>, ind: nat, className: string, builtins: set<string>) returns (r: Result<seq<Entry>>)
    ensures r == TypesSpec(lines, ind, className, builtins)
    decreases |lines|, 2
  {
    var state := TypesState(0, "", []);
    while state.next < |lines|
      invariant state.next <= |lines|
      invariant TypesFrom(lines, ind, className, builtins, state.next, state.fieldName, state.types)
        == TypesSpec(lines, ind, className, builtins)
      decreases |lines| - state.next
    {
      var i := state.next;
      if lines[i] == "" {
        state := state.(next := i + 1);
        continue;
      }
      if !StartsWith(lines[i], Indent(ind)) {
        break;
      }
      var round := TypesRound(lines, ind, className, builtins, i, state.fieldName, state.types);
      if round.Failure? {
        return Failure(round.error);
      }
      state := round.value;
    }
    return Success(state.types);
  }

  // Where the code as written and the corrected reading part.

  /**
   * A sorted list of class instances, "sorted list (class Point)": its list
   * layer keeps its one keyword, but as written the keyword test reaches
   * the undefined name and raises NameError.
   */
  lemma UpdateClassStrayName(fields: seq<Field>)
    ensures UpdateClassAsWritten([Prim("list", [BsgGlobals.Sorted]), Prim("Point", [BsgGlobals.Class])], "Point", fields)
      == Failure("NameError")
    ensures UpdateClassSpec([Prim("list", [BsgGlobals.Sorted]), Prim("Point", [BsgGlobals.Class])], "Point", fields)
      == Success([Prim("list", [BsgGlobals.Sorted]), Cls("Point", fields)])
  {
    var ls := [Prim("list", [BsgGlobals.Sorted]), Prim("Point", [BsgGlobals.Class])];
    assert BsgGlobals.Class !in ls[0].keywords by {
      assert BsgGlobals.Sorted[0] != BsgGlobals.Class[0];
    }
    assert BsgGlobals.Class in ls[1].keywords;
    assert UpdateLayer(ls[0], "Point", fields, true) == Failure("NameError");
    assert UpdateLayer(ls[0], "Point", fields, false) == Success(ls[0]);
    assert UpdateLayer(ls[1], "Point", fields, false) == Success(Cls("Point", fields));
    assert UpdateLayers(ls, 1, "Point", fields, true) == Failure("NameError") by {
      assert UpdateLayers(ls, 0, "Point", fields, true) == Success([]);
    }
    assert UpdateLayers(ls, 1, "Point", fields, false) == Success([ls[0]]) by {
      assert UpdateLayers(ls, 0, "Point", fields, false) == Success([]);
      assert [] + [ls[0]] == [ls[0]];
    }
    assert [ls[0]] + [Cls("Point", fields)] == [Prim("list", [BsgGlobals.Sorted]), Cls("Point", fields)];
  }

  /**
   * On a dict line naming a class, "dict (int: class Point)", the halves
   * are read as written without the class name, so the class's name meets
   * the builtin check; the corrected reading keeps it.
   */
  lemma HalfLosesClassName(half: string, className: string, builtins: set<string>)
    requires half != "" && className != "" && !StartsWith(half, Indent(1))
    ensures HalfTypesAsWritten(half, className, builtins) == ParseTypeSpec(half, "", builtins)
    ensures HalfTypes(half, className, builtins) == ParseTypeSpec(half, className, builtins)
  {
  }

  /**
   * A section whose last line is a class line with no fields after it: as
   * written the loop variable of the field scan was never set, an
   * UnboundLocalError; the corrected step reads the line on its own.
   */
  lemma ClassLastLineUnbound(lines: seq<string>, ind: nat)
    requires lines != []
    ensures ClassLineNextAsWritten(lines, ind, |lines| - 1, None) == Failure("UnboundLocalError")
    ensures ClassLineNext(lines, ind, |lines| - 1) == Success((lines[|lines| - 1], (|lines| - 1) as nat))
  {
  }

  /**
   * After an earlier class line whose block ended at j0 before line i, a
   * class line that ends the section does not move parse_types forward:
   * the next round starts at or before i, so the earlier class line is
   * read again, sets j to j0 again, and the loop never ends.
   */
  lemma ClassLastLineStale(lines: seq<string>, ind: nat, j0: nat)
    requires lines != [] && j0 < |lines| - 1
    ensures var r := ClassLineNextAsWritten(lines, ind, |lines| - 1, Some(j0));
      r.Success? ==> r.value.1 + 1 <= |lines| - 1
  {
  }
}
