// The way back from the hashable form: CHECK_CONVERT and CONVERT_CONTAINER
// rebuild native lists, sets, tuples and dicts (and class-field tuples)
// from the tagged tuples the generators produce, adding one element at a
// time with APPEND; process_types then removes duplicate argument lists
// and converts each one.
module Convert {
  import opened Wrappers
  import opened PyValues
  import opened BsgGlobals
  import opened Bindings
  import opened ArgLists
  import opened Layers

  /** A native value: anything not converted, or a rebuilt container. */
  datatype Native =
    | NAtom(a: Py)
    | NList(items: seq<Native>)
    | NSet(members: set<Native>)
    | NTuple(items: seq<Native>)
    | NDict(entries: map<Native, Native>)

  /** A value Python can hash: no list, set or dict anywhere inside. */
  predicate Hashable(n: Native) {
    match n
    case NAtom(_) => true
    case NTuple(xs) => forall i :: 0 <= i < |xs| ==> Hashable(xs[i])
    case _ => false
  }

  /** types[1:] */
  function Tail<T>(s: seq<T>): seq<T> {
    if s == [] then [] else s[1..]
  }

  /** APPEND on values: list.append, set.add, tuple concatenation, dict item assignment. */
  function AppendValue(c: Native, elem: Native): (r: Result<Native>)
    ensures c.NList? ==> r == Success(NList(c.items + [elem]))
    ensures c.NTuple? ==> r == Success(NTuple(c.items + [elem]))
    ensures c.NSet? ==> (r.Success? <==> Hashable(elem)) && (r.Success? ==> r.value == NSet(c.members + {elem}))
    ensures c.NAtom? ==> r == Success(c)
    ensures r.Success? ==> r.value.NAtom? == c.NAtom? && r.value.NDict? == c.NDict?
  {
    match c
    case NList(xs) => Success(NList(xs + [elem]))
    case NSet(m) => if Hashable(elem) then Success(NSet(m + {elem})) else Failure("TypeError")
    case NTuple(xs) => Success(NTuple(xs + [elem]))
    case NDict(d) =>
      if (elem.NTuple? || elem.NList?) && |elem.items| >= 2 then
        if Hashable(elem.items[0]) then Success(NDict(d[elem.items[0] := elem.items[1]]))
        else Failure("TypeError")
      else if elem.NTuple? || elem.NList? then Failure("IndexError")
      else Failure("TypeError")
    case NAtom(_) => Success(c)
  }

  /** Assigning a pair into a dict sets that key and leaves every other key as it was. */
  lemma AppendPair(d: map<Native, Native>, k: Native, v: Native)
    requires Hashable(k)
    ensures AppendValue(NDict(d), NTuple([k, v])).Success?
    ensures var e := AppendValue(NDict(d), NTuple([k, v])).value.entries;
      e.Keys == d.Keys + {k} && e[k] == v && forall k' :: k' in d && k' != k ==> e[k'] == d[k']
  {
  }

  /** A Python object holding a native value: lists, sets and dicts are changed in place. */
  class PyObject {
    var value: Native

    constructor (v: Native)
      ensures value == v
    {
      value := v;
    }
  }

  /**
   * APPEND: a list, a set or a dict is changed in place and returned
   * itself; a tuple gives a new tuple; anything else is returned as it is.
   */
  method Append(c: PyObject, elem: Native) returns (r: Result<PyObject>)
    modifies c
    ensures AppendValue(old(c.value), elem).Failure? ==>
      r == Failure(AppendValue(old(c.value), elem).error) && c.value == old(c.value)
    ensures AppendValue(old(c.value), elem).Success? ==> r.Success? && r.value.value == AppendValue(old(c.value), elem).value
    ensures r.Success? && (old(c.value).NTuple? || old(c.value).NAtom?) ==> c.value == old(c.value)
    ensures r.Success? && old(c.value).NTuple? ==> fresh(r.value)
    ensures r.Success? && !old(c.value).NTuple? ==> r.value == c
  {
    var v := AppendValue(c.value, elem);
    if v.Failure? {
      return Failure(v.error);
    }
    if c.value.NTuple? {
      var t := new PyObject(v.value);
      return Success(t);
    }
    c.value := v.value;
    r := Success(c);
  }

  // The conversion, as functions.

  predicate IsContainerTag(v: Py) {
    v.PStr? && IsContainerType(v.s)
  }

  /** A value in the hashable form that CONVERT_CONTAINER may be given. */
  predicate ContainerForm(v: Py) {
    v.PTuple? && (v.elems != [] ==> IsContainerTag(v.elems[0]))
  }

  function EmptyOf(kind: string): Native {
    if kind == "dict" then NDict(map[])
    else if kind == "set" then NSet({})
    else if kind == "list" then NList([])
    else NTuple([])
  }

  /**
   * CHECK_CONVERT: a non-tuple is kept; a tagged container is rebuilt with
   * the remaining layers; a tuple whose type is a known class becomes the
   * tuple of its converted fields; anything else is a ValueError.
   */
  function ConvertSpec(cons: set<string>, v: Py, types: seq<Layer>): (r: Result<Native>)
    ensures !v.PTuple? ==> r == Success(NAtom(v))
    decreases v, 2
  {
    if !v.PTuple? then Success(NAtom(v))
    else if v.elems == [] then Failure("IndexError")
    else if IsContainerTag(v.elems[0]) then ContainerSpec(cons, v, Tail(types))
    else if types == [] then Failure("IndexError")
    else match types[0]
      case Cls(name, fields) =>
        if name in cons then
          match FieldsSpec(cons, v, fields, |v.elems|)
          case Failure(e) => Failure(e)
          case Success(xs) => Success(NTuple(xs))
        else Failure("ValueError")
      case Prim(name, _) => if name in cons then Failure("TypeError") else Failure("ValueError")
      case KeyVal(_, _) => Failure("TypeError")
  }

  /** The first n fields of a class instance, each converted with its field's first type list. */
  function FieldsSpec(cons: set<string>, v: Py, fields: seq<Field>, n: nat): Result<seq<Native>>
    requires v.PTuple? && n <= |v.elems|
    decreases v, 1, n
  {
    if n == 0 then Success([])
    else match FieldsSpec(cons, v, fields, n - 1)
      case Failure(e) => Failure(e)
      case Success(xs) =>
        if n - 1 >= |fields| || fields[n - 1].types == [] then Failure("IndexError")
        else match ConvertSpec(cons, v.elems[n - 1], fields[n - 1].types[0].layers)
          case Failure(e) => Failure(e)
          case Success(x) => Success(xs + [x])
  }

  /** CONVERT_CONTAINER */
  function ContainerSpec(cons: set<string>, v: Py, nested: seq<Layer>): Result<Native>
    requires ContainerForm(v)
    decreases v, 1, 0
  {
    if v.elems == [] then Success(NAtom(v))
    else
      var kind := v.elems[0].s;
      if |v.elems| < 2 then Failure("IndexError")
      else
        var rest := v.elems[1];
        if kind == "dict" then
          if nested == [] then Failure("IndexError")
          else if !nested[0].KeyVal? then Failure("TypeError")
          else if !DictForm(rest) then Failure("TypeError")
          else
            var pair := rest.elems[0];
            DictSpec(cons, pair, nested[0].keyTypes, nested[0].valTypes, PairCount(pair))
        else if !rest.PTuple? then Failure("TypeError")
        else ElemsSpec(cons, rest, nested, |rest.elems|, EmptyOf(kind))
  }

  /** The dict content ((keys, values),), as the generators build it. */
  predicate DictForm(rest: Py) {
    rest.PTuple? && |rest.elems| >= 1 && rest.elems[0].PTuple? && |rest.elems[0].elems| >= 2
    && rest.elems[0].elems[0].PTuple? && rest.elems[0].elems[1].PTuple?
  }

  /** zip(keys, vals) stops at the shorter tuple. */
  function PairCount(pair: Py): nat
    requires pair.PTuple? && |pair.elems| >= 2 && pair.elems[0].PTuple? && pair.elems[1].PTuple?
  {
    var n, m := |pair.elems[0].elems|, |pair.elems[1].elems|;
    if n <= m then n else m
  }

  /** The first n elements converted and appended, in order, to the empty container. */
  function ElemsSpec(cons: set<string>, rest: Py, nested: seq<Layer>, n: nat, empty: Native): Result<Native>
    requires rest.PTuple? && n <= |rest.elems|
    decreases rest, 3, n
  {
    if n == 0 then Success(empty)
    else match ElemsSpec(cons, rest, nested, n - 1, empty)
      case Failure(e) => Failure(e)
      case Success(acc) =>
        match ConvertSpec(cons, rest.elems[n - 1], nested)
        case Failure(e) => Failure(e)
        case Success(x) => AppendValue(acc, x)
  }

  /** The first n (key, value) pairs converted (key first) and assigned, in order, into an empty dict. */
  function DictSpec(cons: set<string>, pair: Py, keyTypes: seq<Layer>, valTypes: seq<Layer>, n: nat): Result<Native>
    requires pair.PTuple? && |pair.elems| >= 2 && pair.elems[0].PTuple? && pair.elems[1].PTuple?
    requires n <= PairCount(pair)
    decreases pair, 3, n
  {
    if n == 0 then Success(NDict(map[]))
    else match DictSpec(cons, pair, keyTypes, valTypes, n - 1)
      case Failure(e) => Failure(e)
      case Success(acc) =>
        match ConvertSpec(cons, pair.elems[0].elems[n - 1], keyTypes)
        case Failure(e) => Failure(e)
        case Success(k) =>
          match ConvertSpec(cons, pair.elems[1].elems[n - 1], valTypes)
          case Failure(e) => Failure(e)
          case Success(w) => AppendValue(acc, NTuple([k, w]))
  }

  // The conversion, as the source writes it: recursion with loops that APPEND.

  /** CHECK_CONVERT */
  method CheckConvert(cons: set<string>, v: Py, types: seq<Layer>) returns (r: Result<Native>)
    ensures r == ConvertSpec(cons, v, types)
    decreases v, 2
  {
    if !v.PTuple? {
      return Success(NAtom(v));
    }
    if v.elems == [] {
      return Failure("IndexError");
    }
    if IsContainerTag(v.elems[0]) {
      r := ConvertContainer(cons, v, Tail(types));
      return;
    }
    if types == [] {
      return Failure("IndexError");
    }
    match types[0] {
      case Cls(name, fields) =>
        if name !in cons {
          return Failure("ValueError");
        }
        var xs := [];
        for i := 0 to |v.elems|
          invariant FieldsSpec(cons, v, fields, i) == Success(xs)
        {
          if i >= |fields| || fields[i].types == [] {
            FieldsFail(cons, v, fields, i + 1, |v.elems|);
            return Failure("IndexError");
          }
          var x := CheckConvert(cons, v.elems[i], fields[i].types[0].layers);
          if x.Failure? {
            FieldsFail(cons, v, fields, i + 1, |v.elems|);
            return Failure(x.error);
          }
          xs := xs + [x.value];
        }
        r := Success(NTuple(xs));
      case Prim(name, _) =>
        r := if name in cons then Failure("TypeError") else Failure("ValueError");
      case KeyVal(_, _) =>
        r := Failure("TypeError");
    }
  }

  /** CONVERT_CONTAINER */
  method ConvertContainer(cons: set<string>, v: Py, nested: seq<Layer>) returns (r: Result<Native>)
    requires ContainerForm(v)
    ensures r == ContainerSpec(cons, v, nested)
    decreases v, 1, 0
  {
    if v.elems == [] {
      return Success(NAtom(v));
    }
    var kind := v.elems[0].s;
    if |v.elems| < 2 {
      return Failure("IndexError");
    }
    var rest := v.elems[1];
    if kind == "dict" {
      if nested == [] {
        r := Failure("IndexError");
      } else if !nested[0].KeyVal? {
        r := Failure("TypeError");
      } else if !DictForm(rest) {
        r := Failure("TypeError");
      } else {
        r := ConvertPairs(cons, rest.elems[0], nested[0].keyTypes, nested[0].valTypes);
      }
    } else if !rest.PTuple? {
      r := Failure("TypeError");
    } else {
      r := ConvertElems(cons, rest, nested, EmptyOf(kind));
    }
  }

  /** The dict loop of CONVERT_CONTAINER: each (key, value) of zip(keys, vals) converted and appended. */
  method ConvertPairs(cons: set<string>, pair: Py, keyTypes: seq<Layer>, valTypes: seq<Layer>) returns (r: Result<Native>)
    requires pair.PTuple? && |pair.elems| >= 2 && pair.elems[0].PTuple? && pair.elems[1].PTuple?
    ensures r == DictSpec(cons, pair, keyTypes, valTypes, PairCount(pair))
    decreases pair, 2
  {
    var retval := new PyObject(NDict(map[]));
    var keys, vals := pair.elems[0].elems, pair.elems[1].elems;
    var n := PairCount(pair);
    for i := 0 to n
      invariant fresh(retval)
      invariant DictSpec(cons, pair, keyTypes, valTypes, i) == Success(retval.value)
    {
      var k := CheckConvert(cons, keys[i], keyTypes);
      if k.Failure? {
        DictFail(cons, pair, keyTypes, valTypes, i + 1, n);
        return Failure(k.error);
      }
      var w := CheckConvert(cons, vals[i], valTypes);
      if w.Failure? {
        DictFail(cons, pair, keyTypes, valTypes, i + 1, n);
        return Failure(w.error);
      }
      var a := Append(retval, NTuple([k.value, w.value]));
      if a.Failure? {
        DictFail(cons, pair, keyTypes, valTypes, i + 1, n);
        return Failure(a.error);
      }
      retval := a.value;
    }
    return Success(retval.value);
  }

  /** The list/tuple/set loop of CONVERT_CONTAINER: each element converted and appended in order. */
  method ConvertElems(cons: set<string>, rest: Py, nested: seq<Layer>, empty: Native) returns (r: Result<Native>)
    requires rest.PTuple?
    ensures r == ElemsSpec(cons, rest, nested, |rest.elems|, empty)
    decreases rest, 2
  {
    var retval := new PyObject(empty);
    for i := 0 to |rest.elems|
      invariant fresh(retval)
      invariant ElemsSpec(cons, rest, nested, i, empty) == Success(retval.value)
    {
      var x := CheckConvert(cons, rest.elems[i], nested);
      if x.Failure? {
        ElemsFail(cons, rest, nested, i + 1, |rest.elems|, empty);
        return Failure(x.error);
      }
      var a := Append(retval, x.value);
      if a.Failure? {
        ElemsFail(cons, rest, nested, i + 1, |rest.elems|, empty);
        return Failure(a.error);
      }
      retval := a.value;
    }
    r := Success(retval.value);
  }

  // An exception ends a conversion loop: later elements do not change the outcome.

  lemma {:induction false} FieldsFail(cons: set<string>, v: Py, fields: seq<Field>, n: nat, m: nat)
    requires v.PTuple? && n <= m <= |v.elems| && FieldsSpec(cons, v, fields, n).Failure?
    ensures FieldsSpec(cons, v, fields, m) == FieldsSpec(cons, v, fields, n)
    decreases m
  {
    if m > n {
      FieldsFail(cons, v, fields, n, m - 1);
    }
  }

  lemma {:induction false} ElemsFail(cons: set<string>, rest: Py, nested: seq<Layer>, n: nat, m: nat, empty: Native)
    requires rest.PTuple? && n <= m <= |rest.elems| && ElemsSpec(cons, rest, nested, n, empty).Failure?
    ensures ElemsSpec(cons, rest, nested, m, empty) == ElemsSpec(cons, rest, nested, n, empty)
    decreases m
  {
    if m > n {
      ElemsFail(cons, rest, nested, n, m - 1, empty);
    }
  }

  lemma {:induction false} DictFail(cons: set<string>, pair: Py, keyTypes: seq<Layer>, valTypes: seq<Layer>, n: nat, m: nat)
    requires pair.PTuple? && |pair.elems| >= 2 && pair.elems[0].PTuple? && pair.elems[1].PTuple?
    requires n <= m <= PairCount(pair) && DictSpec(cons, pair, keyTypes, valTypes, n).Failure?
    ensures DictSpec(cons, pair, keyTypes, valTypes, m) == DictSpec(cons, pair, keyTypes, valTypes, n)
    decreases m
  {
    if m > n {
      DictFail(cons, pair, keyTypes, valTypes, n, m - 1);
    }
  }

  // Converting the hashable form undoes encoding.

  /** Values built from non-tuple atoms with lists and tuples. */
  predicate SeqNative(n: Native) {
    match n
    case NAtom(a) => !a.PTuple?
    case NList(xs) => forall i :: 0 <= i < |xs| ==> SeqNative(xs[i])
    case NTuple(xs) => forall i :: 0 <= i < |xs| ==> SeqNative(xs[i])
    case _ => false
  }

  /** The hashable form the generators give a native value. */
  function Encode(n: Native): Py
    requires SeqNative(n)
  {
    match n
    case NAtom(a) => a
    case NList(xs) => Tagged("list", EncodeAll(xs))
    case NTuple(xs) => Tagged("tuple", EncodeAll(xs))
  }

  function EncodeAll(xs: seq<Native>): (r: seq<Py>)
    requires forall i :: 0 <= i < |xs| ==> SeqNative(xs[i])
    ensures |r| == |xs| && forall i :: 0 <= i < |xs| ==> r[i] == Encode(xs[i])
  {
    seq(|xs|, i requires 0 <= i < |xs| => Encode(xs[i]))
  }

  /** Converting the encoding of a list and tuple value gives the value back, whatever the layers. */
  lemma {:induction false} ConvertEncode(cons: set<string>, n: Native, types: seq<Layer>)
    requires SeqNative(n)
    ensures ConvertSpec(cons, Encode(n), types) == Success(n)
    decreases n, 1
  {
    match n
    case NAtom(_) =>
    case NList(xs) =>
      ConvertEncodeAll(cons, n, Tail(types), |xs|);
      assert xs[..|xs|] == xs;
      assert IsContainerTag(PStr("list")) by { ContainerTypesExactly("list"); }
    case NTuple(xs) =>
      ConvertEncodeAll(cons, n, Tail(types), |xs|);
      assert xs[..|xs|] == xs;
      assert IsContainerTag(PStr("tuple")) by { ContainerTypesExactly("tuple"); }
  }

  /** Converting the first k encoded elements of a list or tuple rebuilds its first k elements. */
  lemma {:induction false} ConvertEncodeAll(cons: set<string>, n: Native, nested: seq<Layer>, k: nat)
    requires (n.NList? || n.NTuple?) && SeqNative(n)
    requires k <= |n.items|
    ensures var xs := n.items;
      ElemsSpec(cons, PTuple(EncodeAll(xs)), nested, k, if n.NList? then NList([]) else NTuple([]))
        == Success(if n.NList? then NList(xs[..k]) else NTuple(xs[..k]))
    decreases n, 0, k
  {
    var xs := n.items;
    if k > 0 {
      ConvertEncodeAll(cons, n, nested, k - 1);
      ConvertEncode(cons, xs[k - 1], nested);
      assert xs[..k] == xs[..k - 1] + [xs[k - 1]];
    }
  }

  /** Converting the encoded set of hashable values gives the set of those values. */
  lemma ConvertSet(cons: set<string>, xs: seq<Native>, types: seq<Layer>)
    requires forall i :: 0 <= i < |xs| ==> SeqNative(xs[i]) && Hashable(xs[i])
    ensures ConvertSpec(cons, Tagged("set", EncodeAll(xs)), types) == Success(NSet(set x | x in xs))
  {
    assert IsContainerTag(PStr("set")) by { ContainerTypesExactly("set"); }
    ConvertSetPrefix(cons, xs, Tail(types), |xs|);
    assert xs[..|xs|] == xs;
    var r := ElemsSpec(cons, PTuple(EncodeAll(xs)), Tail(types), |xs|, NSet({}));
    assert r.value.members == set x | x in xs;
  }

  lemma {:induction false} ConvertSetPrefix(cons: set<string>, xs: seq<Native>, nested: seq<Layer>, k: nat)
    requires forall i :: 0 <= i < |xs| ==> SeqNative(xs[i]) && Hashable(xs[i])
    requires k <= |xs|
    ensures var r := ElemsSpec(cons, PTuple(EncodeAll(xs)), nested, k, NSet({}));
      r.Success? && r.value.NSet? && forall y :: y in r.value.members <==> y in xs[..k]
  {
    if k > 0 {
      ConvertSetPrefix(cons, xs, nested, k - 1);
      ConvertEncode(cons, xs[k - 1], nested);
      assert xs[..k] == xs[..k - 1] + [xs[k - 1]];
    }
  }

  /** The dict the pairs (ks[i], vs[i]) give when assigned in order: a later key overwrites. */
  function MapOf(ks: seq<Native>, vs: seq<Native>, n: nat): (m: map<Native, Native>)
    requires n <= |ks| && n <= |vs|
    ensures m.Keys == set k | k in ks[..n]
  {
    if n == 0 then map[]
    else
      assert ks[..n] == ks[..n - 1] + [ks[n - 1]];
      MapOf(ks, vs, n - 1)[ks[n - 1] := vs[n - 1]]
  }

  /** With distinct keys, each key maps to the value at its own position. */
  lemma {:induction false} MapOfDistinct(ks: seq<Native>, vs: seq<Native>, n: nat, i: nat)
    requires n <= |ks| && n <= |vs| && i < n
    requires forall a, b :: 0 <= a < b < n ==> ks[a] != ks[b]
    ensures MapOf(ks, vs, n)[ks[i]] == vs[i]
  {
    assert MapOf(ks, vs, n) == MapOf(ks, vs, n - 1)[ks[n - 1] := vs[n - 1]];
    if i < n - 1 {
      MapOfDistinct(ks, vs, n - 1, i);
      assert ks[i] != ks[n - 1];
    }
  }

  /** Converting the encoded dict of equally many keys and values gives the dict of those pairs. */
  lemma ConvertDict(cons: set<string>, ks: seq<Native>, vs: seq<Native>, types: seq<Layer>)
    requires |ks| == |vs| && |types| >= 2 && types[1].KeyVal?
    requires forall i :: 0 <= i < |ks| ==> SeqNative(ks[i]) && Hashable(ks[i])
    requires forall i :: 0 <= i < |vs| ==> SeqNative(vs[i])
    ensures ConvertSpec(cons, DictTagged(EncodeAll(ks), EncodeAll(vs)), types) == Success(NDict(MapOf(ks, vs, |ks|)))
  {
    assert IsContainerTag(PStr("dict")) by { ContainerTypesExactly("dict"); }
    var pair := PTuple([PTuple(EncodeAll(ks)), PTuple(EncodeAll(vs))]);
    assert DictForm(PTuple([pair]));
    ConvertDictPrefix(cons, ks, vs, types[1].keyTypes, types[1].valTypes, |ks|);
  }

  lemma {:induction false} ConvertDictPrefix(cons: set<string>, ks: seq<Native>, vs: seq<Native>, kt: seq<Layer>, vt: seq<Layer>, n: nat)
    requires |ks| == |vs| && n <= |ks|
    requires forall i :: 0 <= i < |ks| ==> SeqNative(ks[i]) && Hashable(ks[i])
    requires forall i :: 0 <= i < |vs| ==> SeqNative(vs[i])
    ensures var pair := PTuple([PTuple(EncodeAll(ks)), PTuple(EncodeAll(vs))]);
      DictSpec(cons, pair, kt, vt, n) == Success(NDict(MapOf(ks, vs, n)))
  {
    if n > 0 {
      ConvertDictPrefix(cons, ks, vs, kt, vt, n - 1);
      ConvertEncode(cons, ks[n - 1], kt);
      ConvertEncode(cons, vs[n - 1], vt);
    }
  }

  /**
   * A tuple whose type is a known class becomes the tuple of its fields,
   * each converted with its own field type, provided its first field does
   * not read as a container tag.
   */
  lemma ConvertClass(cons: set<string>, fs: seq<Native>, name: string, fields: seq<Field>, rest: seq<Layer>)
    requires fs != [] && forall i :: 0 <= i < |fs| ==> SeqNative(fs[i])
    requires !IsContainerTag(Encode(fs[0]))
    requires name in cons && |fields| >= |fs| && forall i :: 0 <= i < |fields| ==> fields[i].types != []
    ensures ConvertSpec(cons, PTuple(EncodeAll(fs)), [Cls(name, fields)] + rest) == Success(NTuple(fs))
  {
    ConvertFields(cons, fs, fields, |fs|);
    assert fs[..|fs|] == fs;
  }

  lemma {:induction false} ConvertFields(cons: set<string>, fs: seq<Native>, fields: seq<Field>, n: nat)
    requires n <= |fs| && forall i :: 0 <= i < |fs| ==> SeqNative(fs[i])
    requires |fields| >= |fs| && forall i :: 0 <= i < |fields| ==> fields[i].types != []
    ensures FieldsSpec(cons, PTuple(EncodeAll(fs)), fields, n) == Success(fs[..n])
  {
    if n > 0 {
      ConvertFields(cons, fs, fields, n - 1);
      ConvertEncode(cons, fs[n - 1], fields[n - 1].types[0].layers);
      assert fs[..n] == fs[..n - 1] + [fs[n - 1]];
    }
  }

  /**
   * The hashable form does not tell a class instance whose first field is
   * the string "set" from a set: such an instance is converted as a set.
   */
  lemma ClassReadAsContainer(cons: set<string>, name: string, fields: seq<Field>)
    requires name in cons
    ensures ConvertSpec(cons, PTuple([PStr("set"), PTuple([])]), [Cls(name, fields)]) == Success(NSet({}))
  {
    assert IsContainerTag(PStr("set")) by { ContainerTypesExactly("set"); }
  }

  /** A tuple whose type is neither a container nor a known class is refused. */
  lemma UnknownType(cons: set<string>, v: Py, types: seq<Layer>)
    requires v.PTuple? && v.elems != [] && !IsContainerTag(v.elems[0])
    requires types != [] && types[0].Cls? && types[0].className !in cons
    ensures ConvertSpec(cons, v, types) == Failure("ValueError")
  {
  }

  // process_types, given the possible arguments of every parameter.

  /** The first n arguments of an argument list, each converted with its parameter's types. */
  function ArgsSpec(cons: set<string>, args: seq<Py>, types: seq<seq<Layer>>, n: nat): Result<seq<Native>>
    requires n <= |args|
  {
    if n == 0 then Success([])
    else match ArgsSpec(cons, args, types, n - 1)
      case Failure(e) => Failure(e)
      case Success(xs) =>
        if n - 1 >= |types| then Failure("IndexError")
        else match ConvertSpec(cons, args[n - 1], types[n - 1])
          case Failure(e) => Failure(e)
          case Success(x) => Success(xs + [x])
  }

  function ConvertArgs(cons: set<string>, args: seq<Py>, types: seq<seq<Layer>>): Result<seq<Native>> {
    ArgsSpec(cons, args, types, |args|)
  }

  lemma {:induction false} ArgsFail(cons: set<string>, args: seq<Py>, types: seq<seq<Layer>>, n: nat, m: nat)
    requires n <= m <= |args| && ArgsSpec(cons, args, types, n).Failure?
    ensures ArgsSpec(cons, args, types, m) == ArgsSpec(cons, args, types, n)
    decreases m
  {
    if m > n {
      ArgsFail(cons, args, types, n, m - 1);
    }
  }

  /** The loop converting one argument list. */
  method ConvertArgList(cons: set<string>, args: seq<Py>, types: seq<seq<Layer>>) returns (r: Result<seq<Native>>)
    ensures r == ConvertArgs(cons, args, types)
  {
    var xs := [];
    for i := 0 to |args|
      invariant ArgsSpec(cons, args, types, i) == Success(xs)
    {
      if i >= |types| {
        ArgsFail(cons, args, types, i + 1, |args|);
        return Failure("IndexError");
      }
      var x := CheckConvert(cons, args[i], types[i]);
      if x.Failure? {
        ArgsFail(cons, args, types, i + 1, |args|);
        return Failure(x.error);
      }
      xs := xs + [x.value];
    }
    r := Success(xs);
  }

  /** Encoded list and tuple arguments convert back to themselves. */
  lemma {:induction false} ConvertArgsEncode(cons: set<string>, xs: seq<Native>, types: seq<seq<Layer>>, n: nat)
    requires n <= |xs| && |types| >= |xs| && forall i :: 0 <= i < |xs| ==> SeqNative(xs[i])
    ensures ArgsSpec(cons, EncodeAll(xs), types, n) == Success(xs[..n])
  {
    if n > 0 {
      ConvertArgsEncode(cons, xs, types, n - 1);
      ConvertEncode(cons, xs[n - 1], types[n - 1]);
      assert xs[..n] == xs[..n - 1] + [xs[n - 1]];
    }
  }

  /** The argument lists without duplicates, as set() gives them. */
  function ArgSet(combos: seq<Combo<Py>>): (r: set<seq<Py>>)
    ensures forall a :: a in r <==> exists k :: 0 <= k < |combos| && combos[k].args == a
  {
    var r := set c | c in combos :: c.args;
    assert forall k :: 0 <= k < |combos| ==> combos[k] in combos;
    r
  }

  /**
   * process_types after process_types_rec: every combination of the parameters' possible arguments
   * that satisfies the variables, without duplicates, each converted away
   * from the hashable form. The order of the result is the set's iteration
   * order, which the model leaves open.
   */
  method CombineAndConvert(cons: set<string>, params: seq<Param<Py>>, types: seq<seq<Layer>>) returns (r: Result<seq<seq<Native>>>)
    ensures ParamsNoDup(params) && Gen(params, 0, []).err.Some? ==> r == Failure(Gen(params, 0, []).err.value)
    ensures ParamsNoDup(params) && Gen(params, 0, []).err.None? ==>
      var lists := ArgSet(Gen(params, 0, []).lists);
      (r.Success? <==> forall a :: a in lists ==> ConvertArgs(cons, a, types).Success?)
      && (r.Success? ==>
            |r.value| == |lists| && forall x :: x in r.value <==> exists a :: a in lists && ConvertArgs(cons, a, types) == Success(x))
  {
    var out := new ArgLists<Py>();
    var err := GenerateArgLists(params, 0, out);
    if err.Some? {
      return Failure(err.value);
    }
    var lists := ArgSet(out.lists);
    var remaining := lists;
    var converted := [];
    while remaining != {}
      invariant remaining <= lists
      invariant |converted| + |remaining| == |lists|
      invariant forall a :: a in lists - remaining ==> ConvertArgs(cons, a, types).Success?
      invariant forall x :: x in converted <==> exists a :: a in lists - remaining && ConvertArgs(cons, a, types) == Success(x)
      decreases |remaining|
    {
      var a :| a in remaining;
      var c := ConvertArgList(cons, a, types);
      if c.Failure? {
        return Failure(c.error);
      }
      converted := converted + [c.value];
      remaining := remaining - {a};
    }
    r := Success(converted);
  }
}
