// The randomized generator: one random value per parameter, drawn layer by
// layer (the randomized _process_* handlers), and the loop of
// generate_random_cases that keeps a drawn case only when it passes
// validation and is new. Every draw of random.choice is a nondeterministic
// choice. A while loop that the source runs until it has enough accepted
// draws is given a budget of draws; when the budget runs out the model
// stops with Stalled, an outcome the source does not have.
module RandomizedGenerator {
  import opened Wrappers
  import opened PyValues
  import opened Bindings
  import opened ArgLists
  import opened VarLookup
  import opened Layers
  import opened BsgGlobals
  import ExhaustiveStr
  import EP = ExhaustiveProcess
  import Convert

  type Variables = map<string, seq<int>>

  /** The outcome of a sampling loop whose budget of draws ran out. */
  const Stalled: string := "Stalled"

  /** The dict form of the randomized handler: ("dict", ((keys, values),), ((None, None),)). */
  function RandomDict(keys: seq<Py>, vals: seq<Py>): Py {
    PTuple([PStr("dict"), PTuple([PTuple([PTuple(keys), PTuple(vals)])]), PTuple([PTuple([PNone, PNone])])])
  }

  // What a draw may give: the support of each handler.

  /**
   * int, bool and float: one value of the looked-up domain, or one of an
   * explicit list of booleans. A float is drawn like an int.
   */
  ghost predicate NumberDrawn(vals: seq<ValLayer>, variables: Variables, r: Result<Py>) {
    if vals == [] then r == Failure("IndexError")
    else match vals[0]
      case VDomain(d) =>
        (match VarLookup.VarLookup(d, variables)
         case Failure(e) => r == Failure(e)
         case Success(l) =>
           if l.vals == [] then r == Failure("IndexError")
           else r.Success? && r.value.PInt? && r.value.i in l.vals)
      case VBools(bs) =>
        if bs == [] then r == Failure("IndexError") else r.Success? && r.value.PBool? && r.value.b in bs
      case _ => r == Failure("TypeError")
  }

  /** A string of length n over the domain: the empty string when n <= 0; an empty domain cannot give a character. */
  ghost predicate StrOfLength(n: int, domain: string, r: Result<Py>) {
    if n <= 0 then r == Success(PStr(""))
    else if domain == [] then r == Failure("IndexError")
    else r.Success? && r.value.PStr? && |r.value.s| == n && ExhaustiveStr.Over(r.value.s, domain)
  }

  /**
   * str: one of an explicit list of strings, or a length drawn from the
   * looked-up length domain and that many characters drawn from the
   * keyword's alphabet. A length domain naming a variable is looked up too
   * (see StrDrawsAsWritten for what the code does instead).
   */
  ghost predicate StrDrawn(keywords: seq<string>, vals: seq<ValLayer>, variables: Variables, r: Result<Py>) {
    if vals == [] then r == Failure("IndexError")
    else match vals[0]
      case VStrs(ss) =>
        if ss == [] then r == Failure("IndexError") else r.Success? && r.value.PStr? && r.value.s in ss
      case VDomain(d) =>
        (match ExhaustiveStr.Alphabet(keywords)
         case Failure(e) => r == Failure(e)
         case Success(domain) =>
           match VarLookup.VarLookup(d, variables)
           case Failure(e) => r == Failure(e)
           case Success(l) =>
             if l.vals == [] then r == Failure("IndexError")
             else exists n :: n in l.vals && StrOfLength(n, domain, r))
      case _ => r == Failure("TypeError")
  }

  /**
   * The guard of the container loop: a drawn element is appended when the
   * container is neither a set nor sorted, when it is the first, when the
   * container is sorted and the element is not below the last one, or when
   * the container is a set and the element is new.
   */
  predicate Accepts(kind: string, keywords: seq<string>, arg: seq<Py>, x: Py) {
    (kind != "set" && Sorted !in keywords) || arg == []
    || (Sorted in keywords && LessEq(arg[|arg| - 1], x))
    || (kind == "set" && x !in arg)
  }

  /** Every element was accepted by the guard against the ones before it. */
  predicate Grown(kind: string, keywords: seq<string>, elems: seq<Py>) {
    forall i :: 0 <= i < |elems| ==> Accepts(kind, keywords, elems[..i], elems[i])
  }

  /**
   * tuple, list and set: a length drawn from the looked-up domain, then
   * elements drawn from the next layer until that many passed the guard.
   */
  ghost predicate ContainerDrawn(types: seq<Layer>, kind: string, keywords: seq<string>, vals: seq<ValLayer>, variables: Variables, r: Result<Py>)
    requires types != []
    decreases types, 0
  {
    if vals == [] then r == Failure("IndexError")
    else if !vals[0].VDomain? then r == Failure("TypeError")
    else match VarLookup.VarLookup(vals[0].d, variables)
      case Failure(e) => r == Failure(e)
      case Success(l) =>
        if l.vals == [] then r == Failure("IndexError")
        else if EP.LookupError(types[1..]).Some? then r == Failure(EP.LookupError(types[1..]).value)
        else exists n :: (n in l.vals
          && if n <= 0 then r == Success(Tagged(kind, []))
             else if r.Failure? then Drawn(types[1..], vals[1..], variables, r)
             else exists elems :: (|elems| == n && Grown(kind, keywords, elems)
               && (forall i :: 0 <= i < n ==> Drawn(types[1..], vals[1..], variables, Success(elems[i])))
               && r.value == Tagged(kind, elems)))
  }

  /**
   * dict: a length drawn from the looked-up domain, then key and value
   * draws until that many keys were new; every key draw is paired with the
   * value draw that follows it.
   */
  ghost predicate DictDrawn(types: seq<Layer>, vals: seq<ValLayer>, variables: Variables, r: Result<Py>)
    decreases types, 0
  {
    if vals == [] then r == Failure("IndexError")
    else if !vals[0].VDomain? then r == Failure("TypeError")
    else match VarLookup.VarLookup(vals[0].d, variables)
      case Failure(e) => r == Failure(e)
      case Success(l) =>
        if l.vals == [] then r == Failure("IndexError")
        else if |types| < 2 then r == Failure("IndexError")
        else if !types[1].KeyVal? then r == Failure("TypeError")
        else if |vals| < 2 then r == Failure("IndexError")
        else if !vals[1].VKeyVal? then r == Failure("TypeError")
        else
          var kt, vt := types[1].keyTypes, types[1].valTypes;
          var kv, vv := vals[1].keyVals, vals[1].valVals;
          if EP.LookupError(kt).Some? then r == Failure(EP.LookupError(kt).value)
          else if EP.LookupError(vt).Some? then r == Failure(EP.LookupError(vt).value)
          else exists n :: (n in l.vals
            && if n <= 0 then r == Success(RandomDict([], []))
               else if r.Failure? then
                 Drawn(kt, kv, variables, r) || exists k :: Drawn(kt, kv, variables, Success(k)) && Drawn(vt, vv, variables, r)
               else exists ks, vs :: (|ks| == n && |vs| == n && Distinct(ks)
                 && (forall i :: 0 <= i < n ==> Drawn(kt, kv, variables, Success(ks[i])) && Drawn(vt, vv, variables, Success(vs[i])))
                 && r.value == RandomDict(ks, vs)))
  }

  /** process_types_rec over the first n fields of a class, each field drawn once. */
  ghost predicate FieldsDrawn(parent: seq<Layer>, fields: seq<Field>, fv: seq<FieldVals>, n: nat, variables: Variables, rs: Result<seq<Py>>)
    requires parent != [] && parent[0].Cls? && parent[0].fields == fields && n <= |fields|
    requires EP.FieldsTyped(fields) && EP.FieldsValued(fv)
    decreases parent, 0, n
  {
    if n == 0 then rs == Success([])
    else exists prev :: (FieldsDrawn(parent, fields, fv, n - 1, variables, prev)
      && (prev.Failure? ==> rs == prev)
      && (prev.Success? ==>
            if n - 1 >= |fv| then rs == Failure("IndexError")
            else exists e :: (Drawn(fields[n - 1].types[0].layers, fv[n - 1].lists[0].layers, variables, e)
              && rs == (if e.Failure? then Failure(e.error) else Success(prev.value + [e.value])))))
  }

  /** A class: its fields drawn in order, the instance being the tuple of the drawn fields. */
  ghost predicate ClassDrawn(types: seq<Layer>, fields: seq<Field>, vals: seq<ValLayer>, variables: Variables, r: Result<Py>)
    requires types != [] && types[0].Cls? && types[0].fields == fields
    decreases types, 0
  {
    if vals == [] then r == Failure("IndexError")
    else if !vals[0].VFields? then r == Failure("TypeError")
    else if !EP.FieldsTyped(fields) || !EP.FieldsValued(vals[0].fields) then r == Failure("IndexError")
    else exists rs :: (FieldsDrawn(types, fields, vals[0].fields, |fields|, variables, rs)
      && r == (if rs.Failure? then Failure(rs.error) else Success(PTuple(rs.value))))
  }

  /** What a draw for a parameter whose layers start with types may give, by the handler PROCESS_FXNS picks. */
  ghost predicate Drawn(types: seq<Layer>, vals: seq<ValLayer>, variables: Variables, r: Result<Py>)
    decreases types, 1
  {
    if types == [] then r == Failure("IndexError")
    else match types[0]
      case KeyVal(_, _) => r == Failure("TypeError")
      case Cls(_, fields) => ClassDrawn(types, fields, vals, variables, r)
      case Prim(t, keywords) =>
        if t in EP.NumberTypes then NumberDrawn(vals, variables, r)
        else if t == "str" then StrDrawn(keywords, vals, variables, r)
        else if t in EP.SequenceTypes then ContainerDrawn(types, t, keywords, vals, variables, r)
        else if t == "dict" then DictDrawn(types, vals, variables, r)
        else r == Failure("TypeError")
  }

  // The guard's promises.

  lemma GrownAppend(kind: string, keywords: seq<string>, arg: seq<Py>, x: Py)
    requires Grown(kind, keywords, arg) && Accepts(kind, keywords, arg, x)
    ensures Grown(kind, keywords, arg + [x])
  {
    var a := arg + [x];
    forall i | 0 <= i < |a| ensures Accepts(kind, keywords, a[..i], a[i]) {
      if i < |arg| {
        assert a[..i] == arg[..i];
      } else {
        assert a[..i] == arg;
      }
    }
  }

  /** A sorted container (other than a set) grows non-decreasing. */
  lemma {:induction false} SortedGrown(kind: string, keywords: seq<string>, elems: seq<Py>)
    requires kind != "set" && Sorted in keywords && Grown(kind, keywords, elems)
    ensures NonDecreasing(elems)
    decreases |elems|
  {
    if |elems| >= 2 {
      var front := elems[..|elems| - 1];
      assert Grown(kind, keywords, front) by {
        forall i | 0 <= i < |front| ensures Accepts(kind, keywords, front[..i], front[i]) {
          assert front[..i] == elems[..i];
        }
      }
      SortedGrown(kind, keywords, front);
      assert elems[..|elems| - 1] == front;
      assert LessEq(front[|front| - 1], elems[|elems| - 1]);
      NonDecreasingStep(front, elems[|elems| - 1]);
      assert front + [elems[|elems| - 1]] == elems;
    }
  }

  lemma NonDecreasingStep(front: seq<Py>, x: Py)
    requires NonDecreasing(front) && front != [] && LessEq(front[|front| - 1], x)
    ensures NonDecreasing(front + [x])
  {
    var s := front + [x];
    forall i | 0 < i < |s| ensures LessEq(s[i - 1], s[i]) {
      if i < |front| {
        assert s[i - 1] == front[i - 1] && s[i] == front[i];
      }
    }
  }

  /** A set container without the sorted keyword grows with pairwise distinct elements. */
  lemma SetGrown(keywords: seq<string>, elems: seq<Py>)
    requires Sorted !in keywords && Grown("set", keywords, elems)
    ensures Distinct(elems)
  {
    forall i, j | 0 <= i < j < |elems| ensures elems[i] != elems[j] {
      assert Accepts("set", keywords, elems[..j], elems[j]);
      assert elems[i] == elems[..j][i];
    }
  }

  /**
   * With both sorted and set the guard lets a repeated element through:
   * the keyword table gives set no modifier, so parsing never lets such a
   * type reach the generator.
   */
  lemma SortedSetRepeats()
    ensures Accepts("set", [Sorted], [PInt(1)], PInt(1))
  {
    CmpFacts(PInt(1), PInt(1));
  }

  lemma DistinctAppend(ks: seq<Py>, x: Py)
    requires Distinct(ks) && x !in ks
    ensures Distinct(ks + [x])
  {
    var a := ks + [x];
    forall i, j | 0 <= i < j < |a| ensures a[i] != a[j] {
      if j == |ks| {
        assert a[i] == ks[i];
      }
    }
  }

  /**
   * A drawn container is the pair (typestr, elements) whose elements passed
   * the guard; a sorted one is non-decreasing and a set has pairwise
   * distinct elements; its length n is one drawn from the length domain
   * (none when n is not positive).
   */
  lemma ContainerShape(types: seq<Layer>, kind: string, keywords: seq<string>, vals: seq<ValLayer>, variables: Variables, r: Result<Py>)
    returns (elems: seq<Py>, n: int)
    requires types != [] && ContainerDrawn(types, kind, keywords, vals, variables, r) && r.Success?
    ensures vals != [] && vals[0].VDomain? && VarLookup.VarLookup(vals[0].d, variables).Success?
    ensures n in VarLookup.VarLookup(vals[0].d, variables).value.vals && |elems| == (if n <= 0 then 0 else n)
    ensures r.value == Tagged(kind, elems) && Grown(kind, keywords, elems)
    ensures kind == "set" && Sorted !in keywords ==> Distinct(elems)
    ensures kind != "set" && Sorted in keywords ==> NonDecreasing(elems)
  {
    elems, n := ContainerPieces(types, kind, keywords, vals, variables, r);
    if kind == "set" && Sorted !in keywords {
      SetGrown(keywords, elems);
    }
    if kind != "set" && Sorted in keywords {
      SortedGrown(kind, keywords, elems);
    }
  }

  lemma ContainerPieces(types: seq<Layer>, kind: string, keywords: seq<string>, vals: seq<ValLayer>, variables: Variables, r: Result<Py>)
    returns (elems: seq<Py>, n: int)
    requires types != [] && ContainerDrawn(types, kind, keywords, vals, variables, r) && r.Success?
    ensures vals != [] && vals[0].VDomain? && VarLookup.VarLookup(vals[0].d, variables).Success?
    ensures n in VarLookup.VarLookup(vals[0].d, variables).value.vals && |elems| == (if n <= 0 then 0 else n)
    ensures r.value == Tagged(kind, elems) && Grown(kind, keywords, elems)
  {
    var l := VarLookup.VarLookup(vals[0].d, variables).value;
    n :| n in l.vals && if n <= 0 then r == Success(Tagged(kind, []))
      else exists elems :: (|elems| == n && Grown(kind, keywords, elems)
        && (forall i :: 0 <= i < n ==> Drawn(types[1..], vals[1..], variables, Success(elems[i])))
        && r.value == Tagged(kind, elems));
    if n <= 0 {
      elems := [];
    } else {
      elems :| |elems| == n && Grown(kind, keywords, elems) && r.value == Tagged(kind, elems);
    }
  }

  /**
   * A container whose length domain is a variable the attempt bound to
   * [x] has exactly x elements.
   */
  lemma ContainerLengthBound(types: seq<Layer>, kind: string, keywords: seq<string>, v: string, rest: seq<ValLayer>,
                             variables: Variables, x: nat, r: Result<Py>)
    requires '-' !in v && v in variables && variables[v] == [x] && types != []
    requires ContainerDrawn(types, kind, keywords, [VDomain(DVar(v))] + rest, variables, r) && r.Success?
    ensures exists elems :: r.value == Tagged(kind, elems) && |elems| == x
  {
    LookupWhole(v, variables);
    var elems, n := ContainerPieces(types, kind, keywords, [VDomain(DVar(v))] + rest, variables, r);
  }

  /** An int whose domain is a variable the attempt bound to [x] is x. */
  lemma NumberBound(v: string, rest: seq<ValLayer>, variables: Variables, x: int, r: Result<Py>)
    requires '-' !in v && v in variables && variables[v] == [x]
    ensures NumberDrawn([VDomain(DVar(v))] + rest, variables, r) <==> r == Success(PInt(x))
  {
    LookupWhole(v, variables);
  }

  /**
   * A drawn string over a length domain: its characters come from the
   * keyword's alphabet, and its length is one drawn from the domain (0 when
   * that is not positive).
   */
  lemma StrShape(keywords: seq<string>, d: Domain, rest: seq<ValLayer>, variables: Variables, r: Result<Py>)
    requires StrDrawn(keywords, [VDomain(d)] + rest, variables, r) && r.Success?
    ensures ExhaustiveStr.Alphabet(keywords).Success? && VarLookup.VarLookup(d, variables).Success?
    ensures r.value.PStr? && ExhaustiveStr.Over(r.value.s, ExhaustiveStr.Alphabet(keywords).value)
    ensures exists n :: n in VarLookup.VarLookup(d, variables).value.vals && |r.value.s| == (if n <= 0 then 0 else n)
  {
    assert ([VDomain(d)] + rest)[0] == VDomain(d);
  }

  /**
   * A drawn dict is the triple ("dict", ((keys, values),), ((None, None),))
   * with pairwise distinct keys and as many values as keys, their number n
   * drawn from the length domain.
   */
  lemma DictShape(types: seq<Layer>, vals: seq<ValLayer>, variables: Variables, r: Result<Py>)
    returns (ks: seq<Py>, vs: seq<Py>, n: int)
    requires DictDrawn(types, vals, variables, r) && r.Success?
    ensures vals != [] && vals[0].VDomain? && VarLookup.VarLookup(vals[0].d, variables).Success?
    ensures n in VarLookup.VarLookup(vals[0].d, variables).value.vals && |ks| == (if n <= 0 then 0 else n)
    ensures r.value == RandomDict(ks, vs) && |ks| == |vs| && Distinct(ks)
  {
    var l := VarLookup.VarLookup(vals[0].d, variables).value;
    n :| n in l.vals && if n <= 0 then r == Success(RandomDict([], []))
      else exists ks, vs :: (|ks| == n && |vs| == n && Distinct(ks)
        && (forall i :: 0 <= i < n ==> (Drawn(types[1].keyTypes, vals[1].keyVals, variables, Success(ks[i]))
                                     && Drawn(types[1].valTypes, vals[1].valVals, variables, Success(vs[i]))))
        && r.value == RandomDict(ks, vs));
    if n <= 0 {
      ks, vs := [], [];
    } else {
      ks, vs :| |ks| == n && |vs| == n && Distinct(ks) && r.value == RandomDict(ks, vs);
    }
  }

  // The handlers.

  /** The randomized _process_int, _process_bol and _process_flt (a float drawn like an int). */
  method DrawNumber(vals: seq<ValLayer>, variables: Variables) returns (r: Result<Py>)
    ensures NumberDrawn(vals, variables, r)
  {
    if vals == [] {
      return Failure("IndexError");
    }
    match vals[0] {
      case VDomain(d) =>
        var l := VarLookup.VarLookup(d, variables);
        if l.Failure? {
          return Failure(l.error);
        }
        if l.value.vals == [] {
          return Failure("IndexError");
        }
        var k :| 0 <= k < |l.value.vals|;
        var x := l.value.vals[k];
        r := Success(PInt(x));
      case VBools(bs) =>
        if bs == [] {
          return Failure("IndexError");
        }
        var k :| 0 <= k < |bs|;
        var b := bs[k];
        r := Success(PBool(b));
      case _ =>
        r := Failure("TypeError");
    }
  }

  /** The randomized _process_str. */
  method DrawStr(keywords: seq<string>, vals: seq<ValLayer>, variables: Variables) returns (r: Result<Py>)
    ensures StrDrawn(keywords, vals, variables, r)
  {
    if vals == [] {
      return Failure("IndexError");
    }
    match vals[0] {
      case VStrs(ss) =>
        if ss == [] {
          return Failure("IndexError");
        }
        var k :| 0 <= k < |ss|;
        var s := ss[k];
        r := Success(PStr(s));
      case VDomain(d) =>
        var alphabet := ExhaustiveStr.Alphabet(keywords);
        if alphabet.Failure? {
          return Failure(alphabet.error);
        }
        var domain := alphabet.value;
        var l := VarLookup.VarLookup(d, variables);
        if l.Failure? {
          return Failure(l.error);
        }
        if l.value.vals == [] {
          return Failure("IndexError");
        }
        var k :| 0 <= k < |l.value.vals|;
        var n := l.value.vals[k];
    assert n in l.value.vals;
        if n > 0 && domain == [] {
          r := Failure("IndexError");
          assert StrOfLength(n, domain, r);
          return;
        }
        var chars := DrawChars(n, domain);
        r := Success(PStr(chars));
        assert StrOfLength(n, domain, r);
      case _ =>
        r := Failure("TypeError");
    }
  }

  /** The character loop of _process_str: length draws from a non-empty domain (none when length <= 0). */
  method DrawChars(length: int, domain: string) returns (chars: string)
    requires length > 0 ==> domain != []
    ensures |chars| == (if length <= 0 then 0 else length) && ExhaustiveStr.Over(chars, domain)
  {
    chars := [];
    var n := if length <= 0 then 0 else length;
    for i := 0 to n
      invariant |chars| == i && ExhaustiveStr.Over(chars, domain)
    {
      var k :| 0 <= k < |domain|;
      var c := domain[k];
      chars := chars + [c];
    }
  }

  /**
   * The element loop of the randomized _process_tup: elements are drawn
   * until n of them passed the guard.
   */
  method DrawElems(elemTypes: seq<Layer>, elemVals: seq<ValLayer>, kind: string, keywords: seq<string>,
                   variables: Variables, n: nat, fuel: nat) returns (r: Result<seq<Py>>)
    ensures r.Success? ==> (|r.value| == n && Grown(kind, keywords, r.value)
      && forall i :: 0 <= i < n ==> Drawn(elemTypes, elemVals, variables, Success(r.value[i])))
    ensures r.Failure? ==> r.error == Stalled || Drawn(elemTypes, elemVals, variables, Failure(r.error))
    decreases elemTypes, 2
  {
    var arg := [];
    var budget := fuel;
    while |arg| < n
      invariant |arg| <= n && Grown(kind, keywords, arg)
      invariant forall i :: 0 <= i < |arg| ==> Drawn(elemTypes, elemVals, variables, Success(arg[i]))
      decreases budget
    {
      if budget == 0 {
        return Failure(Stalled);
      }
      budget := budget - 1;
      var e := Draw(elemTypes, elemVals, variables, fuel);
      if e.Failure? {
        return Failure(e.error);
      }
      if Accepts(kind, keywords, arg, e.value) {
        GrownAppend(kind, keywords, arg, e.value);
        arg := arg + [e.value];
      }
    }
    r := Success(arg);
  }

  /** The randomized _process_tup, _process_lst and _process_set. */
  method DrawContainer(types: seq<Layer>, kind: string, keywords: seq<string>, vals: seq<ValLayer>,
                       variables: Variables, fuel: nat) returns (r: Result<Py>)
    requires types != []
    ensures r == Failure(Stalled) || ContainerDrawn(types, kind, keywords, vals, variables, r)
    decreases types, 0
  {
    if vals == [] {
      return Failure("IndexError");
    }
    if !vals[0].VDomain? {
      return Failure("TypeError");
    }
    var l := VarLookup.VarLookup(vals[0].d, variables);
    if l.Failure? {
      return Failure(l.error);
    }
    if l.value.vals == [] {
      return Failure("IndexError");
    }
    var k :| 0 <= k < |l.value.vals|;
    var n := l.value.vals[k];
    assert n in l.value.vals;
    var next := EP.LookupError(types[1..]);
    if next.Some? {
      return Failure(next.value);
    }
    if n <= 0 {
      return Success(Tagged(kind, []));
    }
    var es := DrawElems(types[1..], vals[1..], kind, keywords, variables, n, fuel);
    if es.Failure? {
      return Failure(es.error);
    }
    r := Success(Tagged(kind, es.value));
  }

  datatype KeysVals = KeysVals(keys: seq<Py>, vals: seq<Py>)

  /**
   * The loop of the randomized _process_dic: a key and a value are drawn
   * each round, and kept only when the key is new, until n keys are kept.
   */
  method DrawPairs(parent: seq<Layer>, kv: seq<ValLayer>, vv: seq<ValLayer>, variables: Variables, n: nat, fuel: nat)
    returns (r: Result<KeysVals>)
    requires |parent| >= 2 && parent[1].KeyVal?
    ensures var kt, vt := parent[1].keyTypes, parent[1].valTypes;
      r.Success? ==> (|r.value.keys| == n && |r.value.vals| == n && Distinct(r.value.keys)
        && forall i :: 0 <= i < n ==>
             Drawn(kt, kv, variables, Success(r.value.keys[i])) && Drawn(vt, vv, variables, Success(r.value.vals[i])))
    ensures var kt, vt := parent[1].keyTypes, parent[1].valTypes;
      r.Failure? ==> (r.error == Stalled || Drawn(kt, kv, variables, Failure(r.error))
        || exists k :: Drawn(kt, kv, variables, Success(k)) && Drawn(vt, vv, variables, Failure(r.error)))
    decreases parent, 0, 0
  {
    var kt, vt := parent[1].keyTypes, parent[1].valTypes;
    assert parent[1] in parent;
    var keyList, valList := [], [];
    var budget := fuel;
    while |keyList| < n
      invariant |keyList| == |valList| <= n && Distinct(keyList)
      invariant forall i :: 0 <= i < |keyList| ==>
        Drawn(kt, kv, variables, Success(keyList[i])) && Drawn(vt, vv, variables, Success(valList[i]))
      decreases budget
    {
      if budget == 0 {
        return Failure(Stalled);
      }
      budget := budget - 1;
      var k := Draw(kt, kv, variables, fuel);
      if k.Failure? {
        return Failure(k.error);
      }
      var v := Draw(vt, vv, variables, fuel);
      if v.Failure? {
        return Failure(v.error);
      }
      if k.value !in keyList {
        DistinctAppend(keyList, k.value);
        keyList, valList := keyList + [k.value], valList + [v.value];
      }
    }
    r := Success(KeysVals(keyList, valList));
  }

  /** The randomized _process_dic. */
  method DrawDict(types: seq<Layer>, vals: seq<ValLayer>, variables: Variables, fuel: nat) returns (r: Result<Py>)
    ensures r == Failure(Stalled) || DictDrawn(types, vals, variables, r)
    decreases types, 0, 1
  {
    if vals == [] {
      return Failure("IndexError");
    }
    if !vals[0].VDomain? {
      return Failure("TypeError");
    }
    var l := VarLookup.VarLookup(vals[0].d, variables);
    if l.Failure? {
      return Failure(l.error);
    }
    if l.value.vals == [] {
      return Failure("IndexError");
    }
    var k :| 0 <= k < |l.value.vals|;
    var n := l.value.vals[k];
    assert n in l.value.vals;
    if |types| < 2 {
      return Failure("IndexError");
    }
    if !types[1].KeyVal? {
      return Failure("TypeError");
    }
    if |vals| < 2 {
      return Failure("IndexError");
    }
    if !vals[1].VKeyVal? {
      return Failure("TypeError");
    }
    var kt, vt := types[1].keyTypes, types[1].valTypes;
    if EP.LookupError(kt).Some? {
      return Failure(EP.LookupError(kt).value);
    }
    if EP.LookupError(vt).Some? {
      return Failure(EP.LookupError(vt).value);
    }
    if n <= 0 {
      return Success(RandomDict([], []));
    }
    var pairs := DrawPairs(types, vals[1].keyVals, vals[1].valVals, variables, n, fuel);
    if pairs.Failure? {
      return Failure(pairs.error);
    }
    r := Success(RandomDict(pairs.value.keys, pairs.value.vals));
  }

  /** The randomized _process_class: the fields drawn in order; the instance is their tuple. */
  method DrawClass(types: seq<Layer>, fields: seq<Field>, vals: seq<ValLayer>, variables: Variables, fuel: nat)
    returns (r: Result<Py>)
    requires types != [] && types[0].Cls? && types[0].fields == fields
    ensures r == Failure(Stalled) || ClassDrawn(types, fields, vals, variables, r)
    decreases types, 0, 2
  {
    if vals == [] {
      return Failure("IndexError");
    }
    if !vals[0].VFields? {
      return Failure("TypeError");
    }
    if !EP.FieldsTyped(fields) || !EP.FieldsValued(vals[0].fields) {
      return Failure("IndexError");
    }
    var rs := DrawFields(types, fields, vals[0].fields, variables, fuel);
    if rs.Failure? {
      if rs.error == Stalled {
        return Failure(Stalled);
      }
      return Failure(rs.error);
    }
    r := Success(PTuple(rs.value));
  }

  /** process_types_rec over a class's fields, under the randomized handlers. */
  method DrawFields(parent: seq<Layer>, fields: seq<Field>, fv: seq<FieldVals>, variables: Variables, fuel: nat)
    returns (rs: Result<seq<Py>>)
    requires parent != [] && parent[0].Cls? && parent[0].fields == fields
    requires EP.FieldsTyped(fields) && EP.FieldsValued(fv)
    ensures rs == Failure(Stalled) || FieldsDrawn(parent, fields, fv, |fields|, variables, rs)
    ensures rs.Success? ==> |rs.value| == |fields|
    decreases parent, 0, 1
  {
    var drawn := [];
    for i := 0 to |fields|
      invariant FieldsDrawn(parent, fields, fv, i, variables, Success(drawn)) && |drawn| == i
    {
      var next := DrawField(parent, fields, fv, i, variables, drawn, fuel);
      if next.Failure? {
        if next.error != Stalled {
          FieldsDrawnPersists(parent, fields, fv, i + 1, |fields|, variables, next);
        }
        return next;
      }
      drawn := next.value;
    }
    rs := Success(drawn);
  }

  /** One round of the field loop: field i drawn and appended. */
  method DrawField(parent: seq<Layer>, fields: seq<Field>, fv: seq<FieldVals>, i: nat, variables: Variables,
                   drawn: seq<Py>, fuel: nat) returns (next: Result<seq<Py>>)
    requires parent != [] && parent[0].Cls? && parent[0].fields == fields && i < |fields|
    requires EP.FieldsTyped(fields) && EP.FieldsValued(fv)
    requires FieldsDrawn(parent, fields, fv, i, variables, Success(drawn)) && |drawn| == i
    ensures next == Failure(Stalled) || FieldsDrawn(parent, fields, fv, i + 1, variables, next)
    ensures next.Success? ==> |next.value| == i + 1
    decreases parent, 0, 0
  {
    if i >= |fv| {
      return Failure("IndexError");
    }
    assert fields[i] in parent[0].fields;
    var e := Draw(fields[i].types[0].layers, fv[i].lists[0].layers, variables, fuel);
    if e.Failure? {
      return Failure(e.error);
    }
    FieldsDrawnStep(parent, fields, fv, i, variables, drawn, e);
    next := Success(drawn + [e.value]);
  }

  lemma FieldsDrawnStep(parent: seq<Layer>, fields: seq<Field>, fv: seq<FieldVals>, i: nat, variables: Variables,
                        drawn: seq<Py>, e: Result<Py>)
    requires parent != [] && parent[0].Cls? && parent[0].fields == fields && i < |fields| && i < |fv|
    requires EP.FieldsTyped(fields) && EP.FieldsValued(fv)
    requires FieldsDrawn(parent, fields, fv, i, variables, Success(drawn))
    requires Drawn(fields[i].types[0].layers, fv[i].lists[0].layers, variables, e) && e.Success?
    ensures FieldsDrawn(parent, fields, fv, i + 1, variables, Success(drawn + [e.value]))
  {
  }

  lemma {:induction false} FieldsDrawnPersists(parent: seq<Layer>, fields: seq<Field>, fv: seq<FieldVals>, m: nat, n: nat,
                                               variables: Variables, rs: Result<seq<Py>>)
    requires parent != [] && parent[0].Cls? && parent[0].fields == fields && m <= n <= |fields|
    requires EP.FieldsTyped(fields) && EP.FieldsValued(fv)
    requires rs.Failure? && FieldsDrawn(parent, fields, fv, m, variables, rs)
    ensures FieldsDrawn(parent, fields, fv, n, variables, rs)
    decreases n
  {
    if n > m {
      FieldsDrawnPersists(parent, fields, fv, m, n - 1, variables, rs);
    }
  }

  /** One draw for a parameter, by the randomized handler of its first type layer. */
  method Draw(types: seq<Layer>, vals: seq<ValLayer>, variables: Variables, fuel: nat) returns (r: Result<Py>)
    ensures r == Failure(Stalled) || Drawn(types, vals, variables, r)
    decreases types, 1
  {
    if types == [] {
      return Failure("IndexError");
    }
    match types[0] {
      case KeyVal(_, _) =>
        r := Failure("TypeError");
      case Cls(_, fields) =>
        r := DrawClass(types, fields, vals, variables, fuel);
      case Prim(t, keywords) =>
        if t in EP.NumberTypes {
          r := DrawNumber(vals, variables);
        } else if t == "str" {
          r := DrawStr(keywords, vals, variables);
        } else if t in EP.SequenceTypes {
          r := DrawContainer(types, t, keywords, vals, variables, fuel);
        } else if t == "dict" {
          r := DrawDict(types, vals, variables, fuel);
        } else {
          r := Failure("TypeError");
        }
    }
  }

  // The string handler as written on a variable length domain.

  /**
   * The randomized _process_str as written on a domain string: only an
   * xrange takes the alphabet branch, so a variable name is made the tuple
   * of its characters and one character is drawn as the string.
   */
  ghost predicate StrDrawsAsWritten(text: string, r: Result<Py>) {
    if text == [] then r == Failure("IndexError")
    else r.Success? && r.value.PStr? && |r.value.s| == 1 && r.value.s[0] in text
  }

  /**
   * With the length variable n bound to [3], the code as written draws the
   * string "n", one character long, while the length domain asks for three
   * characters.
   */
  lemma StrVariableDrawnAsWritten(variables: Variables)
    requires "n" in variables && variables["n"] == [3]
    ensures StrDrawsAsWritten("n", Success(PStr("n")))
    ensures !StrDrawn([], [VDomain(DVar("n"))], variables, Success(PStr("n")))
  {
    LookupWhole("n", variables);
    var vals := [VDomain(DVar("n"))];
    assert vals == [VDomain(DVar("n"))] + [];
    assert ExhaustiveStr.Alphabet([]) == Success(ExhaustiveStr.Printable);
    assert forall n :: n in [3] ==> n == 3;
  }

  // process_types_rec and process_types under the randomized handlers.

  /** process_types_rec over the first n parameters, one draw each; the first exception ends it. */
  ghost predicate ArgsDrawn(types: seq<seq<Layer>>, vals: seq<seq<ValLayer>>, n: nat, variables: Variables, rs: Result<seq<Py>>)
    requires n <= |types|
  {
    if n == 0 then rs == Success([])
    else exists prev :: (ArgsDrawn(types, vals, n - 1, variables, prev)
      && (prev.Failure? ==> rs == prev)
      && (prev.Success? ==>
            if n - 1 >= |vals| then rs == Failure("IndexError")
            else exists e :: (Drawn(types[n - 1], vals[n - 1], variables, e)
              && rs == (if e.Failure? then Failure(e.error) else Success(prev.value + [e.value])))))
  }

  /** process_types_rec with the randomized handlers: one value per parameter. */
  method DrawArgs(types: seq<seq<Layer>>, vals: seq<seq<ValLayer>>, variables: Variables, fuel: nat) returns (rs: Result<seq<Py>>)
    ensures rs == Failure(Stalled) || ArgsDrawn(types, vals, |types|, variables, rs)
    ensures rs.Success? ==> |rs.value| == |types|
  {
    var drawn := [];
    for i := 0 to |types|
      invariant ArgsDrawn(types, vals, i, variables, Success(drawn)) && |drawn| == i
    {
      var next := DrawArg(types, vals, i, variables, drawn, fuel);
      if next.Failure? {
        if next.error != Stalled {
          ArgsDrawnPersists(types, vals, i + 1, |types|, variables, next);
        }
        return next;
      }
      drawn := next.value;
    }
    rs := Success(drawn);
  }

  method DrawArg(types: seq<seq<Layer>>, vals: seq<seq<ValLayer>>, i: nat, variables: Variables, drawn: seq<Py>, fuel: nat)
    returns (next: Result<seq<Py>>)
    requires i < |types| && ArgsDrawn(types, vals, i, variables, Success(drawn)) && |drawn| == i
    ensures next == Failure(Stalled) || ArgsDrawn(types, vals, i + 1, variables, next)
    ensures next.Success? ==> |next.value| == i + 1
  {
    if i >= |vals| {
      return Failure("IndexError");
    }
    var e := Draw(types[i], vals[i], variables, fuel);
    if e.Failure? {
      return Failure(e.error);
    }
    ArgsDrawnStep(types, vals, i, variables, drawn, e);
    next := Success(drawn + [e.value]);
  }

  lemma ArgsDrawnStep(types: seq<seq<Layer>>, vals: seq<seq<ValLayer>>, i: nat, variables: Variables, drawn: seq<Py>, e: Result<Py>)
    requires i < |types| && i < |vals| && ArgsDrawn(types, vals, i, variables, Success(drawn))
    requires Drawn(types[i], vals[i], variables, e) && e.Success?
    ensures ArgsDrawn(types, vals, i + 1, variables, Success(drawn + [e.value]))
  {
  }

  lemma {:induction false} ArgsDrawnPersists(types: seq<seq<Layer>>, vals: seq<seq<ValLayer>>, m: nat, n: nat, variables: Variables, rs: Result<seq<Py>>)
    requires m <= n <= |types| && rs.Failure? && ArgsDrawn(types, vals, m, variables, rs)
    ensures ArgsDrawn(types, vals, n, variables, rs)
    decreases n
  {
    if n > m {
      ArgsDrawnPersists(types, vals, m, n - 1, variables, rs);
    }
  }

  /**
   * The possible arguments the randomized handlers return: one value per
   * parameter, bound to nothing (the binding ((None, None),), whose value
   * the model writes as 0).
   */
  function RandomParams(xs: seq<Py>): (r: seq<Param<Py>>)
    ensures |r| == |xs| && forall i :: 0 <= i < |xs| ==> r[i] == Param([Fixed([Binding(Wild, 0)])], [xs[i]])
  {
    seq(|xs|, i requires 0 <= i < |xs| => Param([Fixed([Binding(Wild, 0)])], [xs[i]]))
  }

  /** generate_arg_lists on one unbound value per parameter gives the one list of those values. */
  lemma RandomParamsGen(xs: seq<Py>)
    ensures Gen(RandomParams(xs), 0, []).err.None?
    ensures Args(Gen(RandomParams(xs), 0, []).lists) == [xs]
  {
    var ps := RandomParams(xs);
    assert Unnamed(ps) by {
      forall i | 0 <= i < |ps| ensures UnnamedParam(ps[i]) {
        assert ps[i].names == [Fixed([Binding(Wild, 0)])];
      }
    }
    GenCartesian(ps, 0);
    var optss := OptsFrom(ps, 0);
    ProductSingletons(optss, xs);
  }

  lemma {:induction false} ProductSingletons(optss: seq<seq<Py>>, xs: seq<Py>)
    requires |optss| == |xs| && forall k :: 0 <= k < |xs| ==> optss[k] == [xs[k]]
    ensures Product(optss) == [xs]
    decreases |xs|
  {
    if xs != [] {
      ProductSingletons(optss[1..], xs[1..]);
      assert Cross([xs[0]], [xs[1..]]) == Cross([], [xs[1..]]) + PrependAll(xs[0], [xs[1..]]);
      assert [xs[0]] + xs[1..] == xs;
    }
  }

  /**
   * What process_types(...)[0] may give under the randomized handlers: the
   * first exception of the draws, or the drawn values converted.
   */
  ghost predicate CaseDrawn(cons: set<string>, types: seq<seq<Layer>>, vals: seq<seq<ValLayer>>, variables: Variables,
                            r: Result<seq<Convert.Native>>) {
    exists ps :: (ArgsDrawn(types, vals, |types|, variables, ps)
      && (ps.Failure? ==> r == Failure(ps.error))
      && (ps.Success? ==>
            (Convert.ConvertArgs(cons, ps.value, types).Failure? ==> r.Failure?)
            && (Convert.ConvertArgs(cons, ps.value, types).Success? ==> r == Convert.ConvertArgs(cons, ps.value, types))))
  }

  /** process_types(...)[0] with the randomized handlers: one case. */
  method RandomCase(cons: set<string>, types: seq<seq<Layer>>, vals: seq<seq<ValLayer>>, variables: Variables, fuel: nat)
    returns (r: Result<seq<Convert.Native>>)
    ensures r == Failure(Stalled) || CaseDrawn(cons, types, vals, variables, r)
  {
    var ps := DrawArgs(types, vals, variables, fuel);
    if ps.Failure? {
      return Failure(ps.error);
    }
    var params := RandomParams(ps.value);
    var lists := Convert.CombineAndConvert(cons, params, types);
    RandomParamsGen(ps.value);
    assert ParamsNoDup(params) by {
      forall k | 0 <= k < |params| ensures ParamNoDup(params[k]) {
        assert params[k].names == [Fixed([Binding(Wild, 0)])];
      }
    }
    var g := Gen(params, 0, []);
    assert Convert.ArgSet(g.lists) == {ps.value} by {
      assert Args(g.lists) == [ps.value];
      assert g.lists[0].args == ps.value;
    }
    if lists.Failure? {
      return Failure(lists.error);
    }
    assert lists.value[0] in lists.value;
    r := Success(lists.value[0]);
  }

  // generate_random_cases: one attempt after another until enough new cases.

  /** A test case: one native value per parameter. */
  type Case = seq<Convert.Native>

  /** One value picked for every variable from its range, as a list of one. */
  ghost predicate Picked(vars: map<string, seq<int>>, variables: Variables) {
    variables.Keys == vars.Keys
    && forall v :: v in vars ==> |variables[v]| == 1 && variables[v][0] in vars[v]
  }

  /** The variable picks at the head of each attempt; random.choice raises IndexError on an empty range. */
  method PickVariables(vars: map<string, seq<int>>) returns (r: Result<Variables>)
    ensures r.Failure? <==> exists v :: v in vars && vars[v] == []
    ensures r.Failure? ==> r.error == "IndexError"
    ensures r.Success? ==> Picked(vars, r.value)
  {
    var picked: Variables := map[];
    var remaining := vars.Keys;
    while remaining != {}
      invariant remaining <= vars.Keys
      invariant picked.Keys == vars.Keys - remaining
      invariant forall v :: v in picked ==> |picked[v]| == 1 && picked[v][0] in vars[v]
      decreases |remaining|
    {
      var v :| v in remaining;
      if vars[v] == [] {
        return Failure("IndexError");
      }
      var k :| 0 <= k < |vars[v]|;
      picked := picked[v := [vars[v][k]]];
      remaining := remaining - {v};
    }
    r := Success(picked);
  }

  /**
   * What survives validation: the validated case when it is nonempty and
   * not among the cases seen so far, otherwise nothing.
   */
  function Accept(validated: Option<Case>, existing: seq<Case>): (r: Option<Case>)
    ensures r.Some? <==> validated.Some? && validated.value != [] && validated.value !in existing
    ensures r.Some? ==> r == validated
  {
    match validated
    case None => None
    case Some(t) => if t == [] || t in existing then None else Some(t)
  }

  /**
   * The possible outcomes of one attempt: picks, one drawn case, then
   * validation (the validation function, given the case, rejects it or
   * returns it as it leaves it) and the duplicate test against existing.
   */
  ghost predicate Attempted(cons: set<string>, types: seq<seq<Layer>>, rvals: seq<seq<ValLayer>>, vars: map<string, seq<int>>,
                            validate: Case -> Option<Case>, existing: seq<Case>, r: Result<Option<Case>>) {
    if exists v :: v in vars && vars[v] == [] then r == Failure("IndexError")
    else exists variables, c :: (Picked(vars, variables) && CaseDrawn(cons, types, rvals, variables, c)
      && r == (if c.Failure? then Failure(c.error) else Success(Accept(validate(c.value), existing))))
  }

  /** An error some attempt can end with, whatever the cases seen so far. */
  ghost predicate AttemptFails(cons: set<string>, types: seq<seq<Layer>>, rvals: seq<seq<ValLayer>>, vars: map<string, seq<int>>,
                               validate: Case -> Option<Case>, e: string) {
    exists existing :: Attempted(cons, types, rvals, vars, validate, existing, Failure(e))
  }

  /** A case some attempt can produce and validation returns. */
  ghost predicate Sampled(cons: set<string>, types: seq<seq<Layer>>, rvals: seq<seq<ValLayer>>, vars: map<string, seq<int>>,
                          validate: Case -> Option<Case>, t: Case) {
    exists variables, c :: Picked(vars, variables) && CaseDrawn(cons, types, rvals, variables, Success(c)) && validate(c) == Some(t)
  }

  /** The duplicate test: a loop over the cases seen so far that stops at the first equal one. */
  method InExisting(existing: seq<Case>, t: Case) returns (dup: bool)
    ensures dup <==> t in existing
  {
    dup := false;
    for i := 0 to |existing|
      invariant t !in existing[..i]
    {
      if existing[i] == t {
        dup := true;
        break;
      }
    }
  }

  /** One round of generate_random_cases: None when the case is rejected or already known. */
  method Attempt(cons: set<string>, types: seq<seq<Layer>>, rvals: seq<seq<ValLayer>>, vars: map<string, seq<int>>,
                 validate: Case -> Option<Case>, existing: seq<Case>, fuel: nat)
    returns (r: Result<Option<Case>>)
    ensures r == Failure(Stalled) || Attempted(cons, types, rvals, vars, validate, existing, r)
    ensures r.Success? && r.value.Some? ==>
      Sampled(cons, types, rvals, vars, validate, r.value.value) && r.value.value != [] && r.value.value !in existing
    ensures r.Failure? ==> r.error == Stalled || AttemptFails(cons, types, rvals, vars, validate, r.error)
  {
    var variables := PickVariables(vars);
    if variables.Failure? {
      return Failure(variables.error);
    }
    var c := RandomCase(cons, types, rvals, variables.value, fuel);
    if c.Failure? {
      return Failure(c.error);
    }
    var validated := validate(c.value);
    var dup := false;
    if validated.Some? && validated.value != [] {
      dup := InExisting(existing, validated.value);
    }
    if validated.None? || validated.value == [] || dup {
      r := Success(None);
    } else {
      r := Success(validated);
    }
    assert r == Success(Accept(validate(c.value), existing));
  }

  /** No case twice. */
  predicate DistinctCases(cases: seq<Case>) {
    forall i, j :: 0 <= i < j < |cases| ==> cases[i] != cases[j]
  }

  /** What every case generate_random_cases keeps satisfies. */
  ghost predicate Kept(cons: set<string>, types: seq<seq<Layer>>, rvals: seq<seq<ValLayer>>, vars: map<string, seq<int>>,
                       validate: Case -> Option<Case>, exhaustive: seq<Case>, cases: seq<Case>) {
    DistinctCases(cases)
    && forall i :: 0 <= i < |cases| ==>
      cases[i] != [] && cases[i] !in exhaustive && Sampled(cons, types, rvals, vars, validate, cases[i])
  }

  /** One round of the loop in generate_random_cases: an attempt, and the new case appended when there is one. */
  method Round(cons: set<string>, types: seq<seq<Layer>>, rvals: seq<seq<ValLayer>>, vars: map<string, seq<int>>,
               validate: Case -> Option<Case>, exhaustive: seq<Case>, cases: seq<Case>, fuel: nat)
    returns (r: Result<seq<Case>>)
    requires Kept(cons, types, rvals, vars, validate, exhaustive, cases)
    ensures r.Success? ==> (r.value == cases || (|r.value| == |cases| + 1 && r.value[..|cases|] == cases))
    ensures r.Success? ==> Kept(cons, types, rvals, vars, validate, exhaustive, r.value)
    ensures r.Failure? ==> r.error == Stalled || AttemptFails(cons, types, rvals, vars, validate, r.error)
  {
    var o := Attempt(cons, types, rvals, vars, validate, exhaustive + cases, fuel);
    if o.Failure? {
      return Failure(o.error);
    }
    if o.value.None? {
      return Success(cases);
    }
    var t := o.value.value;
    KeptSnoc(cons, types, rvals, vars, validate, exhaustive, cases, t);
    r := Success(cases + [t]);
  }

  /** A new, nonempty, sampled case outside the exhaustive ones and those kept so far may be kept. */
  lemma KeptSnoc(cons: set<string>, types: seq<seq<Layer>>, rvals: seq<seq<ValLayer>>, vars: map<string, seq<int>>,
                 validate: Case -> Option<Case>, exhaustive: seq<Case>, cases: seq<Case>, t: Case)
    requires Kept(cons, types, rvals, vars, validate, exhaustive, cases)
    requires Sampled(cons, types, rvals, vars, validate, t) && t != [] && t !in exhaustive + cases
    ensures (cases + [t])[..|cases|] == cases
    ensures Kept(cons, types, rvals, vars, validate, exhaustive, cases + [t])
  {
    var next := cases + [t];
    assert next[..|cases|] == cases;
    forall i | 0 <= i < |next|
      ensures next[i] != [] && next[i] !in exhaustive && Sampled(cons, types, rvals, vars, validate, next[i])
    {
      if i < |cases| {
        assert next[i] == cases[i];
      }
    }
    forall i, j | 0 <= i < j < |next|
      ensures next[i] != next[j]
    {
      assert next[i] == cases[i];
      if j == |cases| {
        assert cases[i] in exhaustive + cases;
      }
    }
  }

  /**
   * generate_random_cases: attempts until bound new cases are found, each
   * nonempty, validated, outside the exhaustive cases and new. The source
   * loops until then; after attempts rounds the model gives up with Stalled.
   */
  method GenerateRandomCases(cons: set<string>, types: seq<seq<Layer>>, rvals: seq<seq<ValLayer>>, vars: map<string, seq<int>>,
                             validate: Case -> Option<Case>, exhaustive: seq<Case>, bound: int, attempts: nat, fuel: nat)
    returns (r: Result<seq<Case>>)
    ensures r.Success? ==> |r.value| == (if bound <= 0 then 0 else bound)
    ensures r.Success? ==> Kept(cons, types, rvals, vars, validate, exhaustive, r.value)
    ensures r.Failure? ==> r.error == Stalled || AttemptFails(cons, types, rvals, vars, validate, r.error)
  {
    var cases: seq<Case> := [];
    var left := attempts;
    while |cases| < bound
      invariant |cases| <= (if bound <= 0 then 0 else bound)
      invariant Kept(cons, types, rvals, vars, validate, exhaustive, cases)
      decreases left
    {
      if left == 0 {
        return Failure(Stalled);
      }
      left := left - 1;
      var next := Round(cons, types, rvals, vars, validate, exhaustive, cases, fuel);
      if next.Failure? {
        return Failure(next.error);
      }
      cases := next.value;
    }
    r := Success(cases);
  }
}
