// The per-type processing of the exhaustive generator (_process_int, _bol,
// _flt, _str, _tup, _lst, _set, _dic and _class, dispatched through
// PROCESS_FXNS) and process_types_rec, which runs it for every parameter.
// Each handler turns a parameter's type and domain layers into its
// possible arguments: the values and, for each value, its binding option.
module ExhaustiveProcess {
  import opened Wrappers
  import opened PyValues
  import opened Bindings
  import opened ArgLists
  import opened VarLookup
  import opened Layers
  import ExhaustiveStr
  import ExhaustiveTup
  import ExhaustiveDict
  import Convert

  type Variables = map<string, seq<int>>

  /** The possible arguments of one parameter: as many options as values, no fixed option binding a name twice. */
  predicate Good(p: Param<Py>) {
    |p.names| == |p.opts| && ParamNoDup(p)
  }

  /** ps lists every member of s once (the iteration order of a dict or set, left open). */
  predicate Lists<T(==)>(ps: seq<T>, s: set<T>) {
    (forall i, j :: 0 <= i < j < |ps| ==> ps[i] != ps[j])
    && (forall i :: 0 <= i < |ps| ==> ps[i] in s) && (forall x :: x in s ==> x in ps)
  }

  lemma {:induction false} ListingExists<T>(s: set<T>)
    ensures exists ps :: Lists(ps, s)
    decreases |s|
  {
    if s == {} {
      assert Lists([], s);
    } else {
      var x :| x in s;
      ListingExists(s - {x});
      var ps :| Lists(ps, s - {x});
      assert Lists(ps + [x], s);
    }
  }

  /** The range VAR_LOOKUP returned, with None as the empty range. */
  function RangeOf(l: Lookup): seq<int> {
    if l.varrange.Some? then l.varrange.value else []
  }

  function Last(xs: seq<int>): int
    requires xs != []
  {
    xs[|xs| - 1]
  }

  function Ints(xs: seq<int>): (r: seq<Py>)
    ensures |r| == |xs| && forall i :: 0 <= i < |xs| ==> r[i] == PInt(xs[i])
  {
    seq(|xs|, i requires 0 <= i < |xs| => PInt(xs[i]))
  }

  function Bools(bs: seq<bool>): (r: seq<Py>)
    ensures |r| == |bs| && forall i :: 0 <= i < |bs| ==> r[i] == PBool(bs[i])
  {
    seq(|bs|, i requires 0 <= i < |bs| => PBool(bs[i]))
  }

  function Strs(ss: seq<string>): (r: seq<Py>)
    ensures |r| == |ss| && forall i :: 0 <= i < |ss| ==> r[i] == PStr(ss[i])
  {
    seq(|ss|, i requires 0 <= i < |ss| => PStr(ss[i]))
  }

  /** True and False as the numbers Python compares them equal to. */
  function BoolValue(b: bool): int {
    if b then 1 else 0
  }

  lemma VarnamesGood<T>(v: VarName, varrange: seq<int>, args: seq<T>, f: T -> int, opts: seq<Py>)
    requires |opts| == |args|
    ensures Good(Param(PossibleVarnames(v, varrange, args, f), opts))
  {
    var names := PossibleVarnames(v, varrange, args, f);
    forall j | 0 <= j < |names| && names[j].Fixed? ensures NoDupNames(names[j].bindings) {
      assert |names[j].bindings| == 1;
    }
  }

  // _process_int, _process_bol and _process_flt.

  /**
   * The handler of int, bool and float: the domain's values, each with the
   * binding option POSSIBLE_VARNAMES gives it. A float is the integer it
   * equals.
   */
  function NumberParam(vals: seq<ValLayer>, variables: Variables): (r: Result<Param<Py>>)
    ensures r.Success? ==> Good(r.value)
    ensures vals == [] ==> r == Failure("IndexError")
    ensures vals != [] && vals[0].VDomain? ==>
      match VarLookup.VarLookup(vals[0].d, variables)
      case Failure(e) => r == Failure(e)
      case Success(l) => (r.Success? && r.value.opts == Ints(l.vals)
        && r.value.names == PossibleVarnames(l.varname, RangeOf(l), l.vals, x => x))
    ensures vals != [] && vals[0].VBools? ==>
      r.Success? && r.value.opts == Bools(vals[0].bs)
      && forall i :: 0 <= i < |vals[0].bs| ==> r.value.names[i] == Fixed([Binding(Wild, BoolValue(vals[0].bs[i]))])
  {
    if vals == [] then Failure("IndexError")
    else match vals[0]
      case VDomain(d) =>
        (match VarLookup.VarLookup(d, variables)
         case Failure(e) => Failure(e)
         case Success(l) =>
           VarnamesGood(l.varname, RangeOf(l), l.vals, x => x, Ints(l.vals));
           Success(Param(PossibleVarnames(l.varname, RangeOf(l), l.vals, x => x), Ints(l.vals))))
      case VBools(bs) =>
        VarnamesGood(NoVar, [], bs, BoolValue, Bools(bs));
        Success(Param(PossibleVarnames(NoVar, [], bs, BoolValue), Bools(bs)))
      case _ => Failure("TypeError")
  }

  /** A whole variable as an int domain: one option per value of the variable, binding it to that value. */
  lemma NumberWhole(v: string, rest: seq<ValLayer>, variables: Variables)
    requires '-' !in v && v in variables
    ensures var r := NumberParam([VDomain(DVar(v))] + rest, variables);
      r.Success? && r.value.opts == Ints(variables[v])
      && forall i :: 0 <= i < |variables[v]| ==> r.value.names[i] == Fixed([Binding(Var(v), variables[v][i])])
  {
    LookupWhole(v, variables);
  }

  // _process_str.

  /** The string options and their bindings: POSSIBLE_VARNAMES on the lengths. */
  function StrParam(v: VarName, varrange: seq<int>, ss: seq<string>): (r: Param<Py>)
    ensures Good(r) && r.opts == Strs(ss)
  {
    VarnamesGood(v, varrange, ss, s => |s|, Strs(ss));
    Param(PossibleVarnames(v, varrange, ss, s => |s|), Strs(ss))
  }

  /**
   * The str handler: an explicit list of strings is taken as it is; a
   * length domain gives every string over the keyword's alphabet with a
   * length in the domain's range, in the order of a dict's keys. A length
   * domain that names a variable is looked up like any other (see
   * StrVariableAsWritten for what the code does instead).
   */
  ghost predicate StrOutcome(keywords: seq<string>, vals: seq<ValLayer>, variables: Variables, r: Result<Param<Py>>) {
    if vals == [] then r == Failure("IndexError")
    else match vals[0]
      case VStrs(ss) => r == Success(StrParam(NoVar, [], ss))
      case VDomain(d) =>
        (match ExhaustiveStr.Alphabet(keywords)
         case Failure(e) => r == Failure(e)
         case Success(domain) =>
           match VarLookup.VarLookup(d, variables)
           case Failure(e) => r == Failure(e)
           case Success(l) =>
             if l.vals == [] then r == Failure("IndexError")
             else if Last(l.vals) < 0 then r == Failure("RuntimeError")
             else exists ss :: (Lists(ss, ExhaustiveStr.StrPerms(Last(l.vals), l.vals[0], domain))
               && r == Success(StrParam(l.varname, RangeOf(l), ss))))
      case _ => r == Failure("TypeError")
  }

  /** The characters of a string, each a string of its own: tuple(s). */
  function Chars(s: string): (r: seq<string>)
    ensures |r| == |s| && forall i :: 0 <= i < |s| ==> r[i] == [s[i]]
  {
    seq(|s|, i requires 0 <= i < |s| => [s[i]])
  }

  /**
   * The str handler as written on a domain string: only an xrange takes the
   * alphabet branch, so a variable (or "lo-v") is made a tuple of its
   * characters, which become the values, each bound to nothing.
   */
  function StrVariableAsWritten(text: string): (r: Param<Py>)
    ensures Good(r) && r.opts == Strs(Chars(text))
  {
    StrParam(NoVar, [], Chars(text))
  }

  /**
   * With a length variable n that is always 2, the handler as written
   * offers the one-character string "n", whose length is no value of n and
   * which binds no variable.
   */
  lemma StrVariableIgnoresRange()
    ensures StrVariableAsWritten("n").opts == [PStr("n")]
    ensures StrVariableAsWritten("n").names == [Fixed([Binding(Wild, 1)])]
  {
    var r := StrVariableAsWritten("n");
    assert Chars("n") == ["n"];
    assert r.names[0] == Fixed([Binding(Wild, 1)]);
  }

  /**
   * The corrected handler on a variable length domain (a variable's values
   * run upwards, as parse_vars makes them): every option is a string over
   * the alphabet whose length lies in the variable's range, and it binds
   * the variable to its length.
   */
  lemma StrVariableOptions(keywords: seq<string>, v: string, rest: seq<ValLayer>, variables: Variables, r: Result<Param<Py>>)
    requires '-' !in v && v in variables && variables[v] != [] && 0 <= variables[v][0] <= Last(variables[v])
    requires ExhaustiveStr.Alphabet(keywords).Success?
    requires StrOutcome(keywords, [VDomain(DVar(v))] + rest, variables, r) && r.Success?
    ensures forall i :: 0 <= i < |r.value.opts| ==>
      r.value.opts[i].PStr?
      && ExhaustiveStr.Over(r.value.opts[i].s, ExhaustiveStr.Alphabet(keywords).value)
      && variables[v][0] <= |r.value.opts[i].s| <= Last(variables[v])
      && r.value.names[i] == Fixed([Binding(Var(v), |r.value.opts[i].s|)])
  {
    var ss := StrWholeListing(keywords, v, rest, variables, r);
    StrListingOptions(v, variables[v], ss, ExhaustiveStr.Alphabet(keywords).value);
  }

  /** The options of a listing of StrPerms, bound to a whole length variable. */
  lemma StrListingOptions(v: string, vs: seq<int>, ss: seq<string>, domain: string)
    requires vs != [] && 0 <= vs[0] <= Last(vs)
    requires Lists(ss, ExhaustiveStr.StrPerms(Last(vs), vs[0], domain))
    ensures var p := StrParam(Whole(v), vs, ss);
      forall i :: 0 <= i < |p.opts| ==>
        p.opts[i].PStr? && ExhaustiveStr.Over(p.opts[i].s, domain) && vs[0] <= |p.opts[i].s| <= Last(vs)
        && p.names[i] == Fixed([Binding(Var(v), |p.opts[i].s|)])
  {
    ExhaustiveStr.StrPermsExactly(Last(vs), vs[0], domain);
    forall i | 0 <= i < |ss|
      ensures ExhaustiveStr.Over(ss[i], domain) && vs[0] <= |ss[i]| <= Last(vs)
    {
      assert ss[i] in ExhaustiveStr.StrPerms(Last(vs), vs[0], domain);
    }
  }

  /** The listing the corrected handler chose for a whole length variable. */
  lemma StrWholeListing(keywords: seq<string>, v: string, rest: seq<ValLayer>, variables: Variables, r: Result<Param<Py>>)
    returns (ss: seq<string>)
    requires '-' !in v && v in variables && variables[v] != [] && variables[v][0] >= 0
    requires ExhaustiveStr.Alphabet(keywords).Success?
    requires StrOutcome(keywords, [VDomain(DVar(v))] + rest, variables, r) && r.Success?
    ensures Last(variables[v]) >= 0
    ensures Lists(ss, ExhaustiveStr.StrPerms(Last(variables[v]), variables[v][0], ExhaustiveStr.Alphabet(keywords).value))
    ensures r == Success(StrParam(Whole(v), variables[v], ss))
  {
    LookupWhole(v, variables);
    var vals := [VDomain(DVar(v))] + rest;
    assert vals[0] == VDomain(DVar(v));
    ss := StrDomainListing(keywords, vals, variables, r, ExhaustiveStr.Alphabet(keywords).value,
                           Lookup(Whole(v), Some(variables[v]), variables[v]));
  }

  /** On a length domain whose lookup succeeded, the corrected handler lists StrPerms. */
  lemma StrDomainListing(keywords: seq<string>, vals: seq<ValLayer>, variables: Variables, r: Result<Param<Py>>,
                         domain: string, l: Lookup) returns (ss: seq<string>)
    requires vals != [] && vals[0].VDomain?
    requires ExhaustiveStr.Alphabet(keywords) == Success(domain)
    requires VarLookup.VarLookup(vals[0].d, variables) == Success(l)
    requires StrOutcome(keywords, vals, variables, r) && r.Success?
    ensures l.vals != [] && Last(l.vals) >= 0
    ensures Lists(ss, ExhaustiveStr.StrPerms(Last(l.vals), l.vals[0], domain))
    ensures r == Success(StrParam(l.varname, RangeOf(l), ss))
  {
    ss :| Lists(ss, ExhaustiveStr.StrPerms(Last(l.vals), l.vals[0], domain))
      && r == Success(StrParam(l.varname, RangeOf(l), ss));
  }

  // _process_tup, _process_lst and _process_set.

  /** The options of a container parameter: each permutation's bindings and its (typestr, elements) pair. */
  function TupParam(ps: seq<ExhaustiveTup.Perm>): (r: Param<Py>)
    ensures |r.names| == |ps| && |r.opts| == |ps|
    ensures forall i :: 0 <= i < |ps| ==> r.names[i] == Fixed(ps[i].names) && r.opts[i] == Tagged(ps[i].kind, ps[i].elems)
  {
    Param(seq(|ps|, i requires 0 <= i < |ps| => Fixed(ps[i].names)),
          seq(|ps|, i requires 0 <= i < |ps| => Tagged(ps[i].kind, ps[i].elems)))
  }

  /** The arguments _process_tup passes to _create_tup_perms. */
  function TupArgsOf(kind: string, keywords: seq<string>, l: Lookup, elem: Param<Py>): ExhaustiveTup.TupArgs
    requires l.vals != []
  {
    ExhaustiveTup.TupArgs(l.vals[0], BaseName(l.varname), RangeOf(l), elem, keywords, l.varname, kind)
  }

  /** What the container handler makes of the element options e: the permutations of the length range. */
  ghost predicate ContainerResult(kind: string, keywords: seq<string>, l: Lookup, e: Result<Param<Py>>, r: Result<Param<Py>>) {
    if e.Failure? then r == Failure(e.error)
    else if l.vals == [] then r == Failure("IndexError")
    else
      var a := TupArgsOf(kind, keywords, l, e.value);
      ExhaustiveTup.Aligned(a) &&
      match ExhaustiveTup.TupPerms(a, Last(l.vals))
      case Failure(err) => r == Failure(err)
      case Success(s) => exists ps :: Lists(ps, s) && r == Success(TupParam(ps))
  }

  /**
   * The container handler: the length domain is looked up, the next layer
   * processed for the elements, and every permutation of them with a length
   * in the range becomes an option.
   */
  ghost predicate ContainerOutcome(types: seq<Layer>, kind: string, keywords: seq<string>, vals: seq<ValLayer>, variables: Variables, r: Result<Param<Py>>)
    requires types != []
    decreases types, 0
  {
    if vals == [] then r == Failure("IndexError")
    else if !vals[0].VDomain? then r == Failure("TypeError")
    else match VarLookup.VarLookup(vals[0].d, variables)
      case Failure(e) => r == Failure(e)
      case Success(l) =>
        exists e :: Processed(types[1..], vals[1..], variables, e) && ContainerResult(kind, keywords, l, e, r)
  }

  // _process_dic.

  function DictParam(ps: seq<ExhaustiveDict.DictPerm>): (r: Param<Py>)
    ensures |r.names| == |ps| && |r.opts| == |ps|
    ensures forall i :: 0 <= i < |ps| ==> r.names[i] == Fixed(ps[i].names) && r.opts[i] == DictTagged(ps[i].keys, ps[i].vals)
  {
    Param(seq(|ps|, i requires 0 <= i < |ps| => Fixed(ps[i].names)),
          seq(|ps|, i requires 0 <= i < |ps| => DictTagged(ps[i].keys, ps[i].vals)))
  }

  function DictArgsOf(l: Lookup, keys: Param<Py>, values: Param<Py>): ExhaustiveDict.DictArgs
    requires l.vals != []
  {
    ExhaustiveDict.DictArgs(l.vals[0], BaseName(l.varname), RangeOf(l), keys, values, l.varname)
  }

  ghost predicate DictResult(l: Lookup, keys: Param<Py>, ve: Result<Param<Py>>, r: Result<Param<Py>>) {
    if ve.Failure? then r == Failure(ve.error)
    else if l.vals == [] then r == Failure("IndexError")
    else
      var a := DictArgsOf(l, keys, ve.value);
      ExhaustiveDict.DictAligned(a) &&
      match ExhaustiveDict.DictPerms(a, Last(l.vals))
      case Failure(err) => r == Failure(err)
      case Success(s) => exists ps :: Lists(ps, s) && r == Success(DictParam(ps))
  }

  /** Looking a layer up in PROCESS_FXNS: a key-value layer is a list, which cannot be hashed. */
  function LookupError(types: seq<Layer>): Option<string> {
    if types == [] then Some("IndexError")
    else if types[0].KeyVal? then Some("TypeError")
    else None
  }

  /**
   * The dict handler: the length domain is looked up, the key and value
   * layers that follow are processed, and every dictionary of them with a
   * length in the range becomes an option.
   */
  ghost predicate DictOutcome(types: seq<Layer>, vals: seq<ValLayer>, variables: Variables, r: Result<Param<Py>>)
    decreases types, 0
  {
    if vals == [] then r == Failure("IndexError")
    else if !vals[0].VDomain? then r == Failure("TypeError")
    else match VarLookup.VarLookup(vals[0].d, variables)
      case Failure(e) => r == Failure(e)
      case Success(l) =>
        if |types| < 2 then r == Failure("IndexError")
        else if !types[1].KeyVal? then r == Failure("TypeError")
        else if |vals| < 2 then r == Failure("IndexError")
        else if !vals[1].VKeyVal? then r == Failure("TypeError")
        else
          var kt, vt := types[1].keyTypes, types[1].valTypes;
          if LookupError(kt).Some? then r == Failure(LookupError(kt).value)
          else if LookupError(vt).Some? then r == Failure(LookupError(vt).value)
          else exists ke :: (Processed(kt, vals[1].keyVals, variables, ke)
            && (ke.Failure? ==> r == Failure(ke.error))
            && (ke.Success? ==> exists ve :: Processed(vt, vals[1].valVals, variables, ve) && DictResult(l, ke.value, ve, r)))
  }

  // _process_class.

  /** The options of a class parameter: each argument combination's bindings and its field tuple. */
  function ClassParam(combos: seq<Combo<Py>>): (r: Param<Py>)
    ensures |r.names| == |combos| && |r.opts| == |combos|
    ensures forall i :: 0 <= i < |combos| ==> r.names[i] == Fixed(combos[i].bindings) && r.opts[i] == PTuple(combos[i].args)
  {
    Param(seq(|combos|, i requires 0 <= i < |combos| => Fixed(combos[i].bindings)),
          seq(|combos|, i requires 0 <= i < |combos| => PTuple(combos[i].args)))
  }

  predicate FieldsTyped(fields: seq<Field>) {
    forall i :: 0 <= i < |fields| ==> fields[i].types != []
  }

  predicate FieldsValued(fv: seq<FieldVals>) {
    forall j :: 0 <= j < |fv| ==> fv[j].lists != []
  }

  /** process_types_rec over the first n fields of the class whose layer starts parent. */
  ghost predicate FieldsRec(parent: seq<Layer>, fields: seq<Field>, fv: seq<FieldVals>, n: nat, variables: Variables, rs: Result<seq<Param<Py>>>)
    requires parent != [] && parent[0].Cls? && parent[0].fields == fields && n <= |fields|
    requires FieldsTyped(fields) && FieldsValued(fv)
    decreases parent, 0, n
  {
    if n == 0 then rs == Success([])
    else exists prev :: (FieldsRec(parent, fields, fv, n - 1, variables, prev)
      && (prev.Failure? ==> rs == prev)
      && (prev.Success? ==>
            if n - 1 >= |fv| then rs == Failure("IndexError")
            else exists e :: (Processed(fields[n - 1].types[0].layers, fv[n - 1].lists[0].layers, variables, e)
              && rs == (if e.Failure? then Failure(e.error) else Success(prev.value + [e.value])))))
  }

  ghost predicate ClassResult(rs: Result<seq<Param<Py>>>, r: Result<Param<Py>>) {
    if rs.Failure? then r == Failure(rs.error)
    else
      var g := Gen(rs.value, 0, []);
      if g.err.Some? then r == Failure(g.err.value) else r == Success(ClassParam(g.lists))
  }

  /**
   * The class handler: the fields are processed one after another, and
   * every combination of their options that agrees on the variables becomes
   * an option, tagged with the combination's bindings.
   */
  ghost predicate ClassOutcome(types: seq<Layer>, fields: seq<Field>, vals: seq<ValLayer>, variables: Variables, r: Result<Param<Py>>)
    requires types != [] && types[0].Cls? && types[0].fields == fields
    decreases types, 0
  {
    if vals == [] then r == Failure("IndexError")
    else if !vals[0].VFields? then r == Failure("TypeError")
    else if !FieldsTyped(fields) || !FieldsValued(vals[0].fields) then r == Failure("IndexError")
    else exists rs :: FieldsRec(types, fields, vals[0].fields, |fields|, variables, rs) && ClassResult(rs, r)
  }

  // The dispatch.

  const NumberTypes: set<string> := {"int", "bool", "float"}
  const SequenceTypes: set<string> := {"tuple", "list", "set"}

  /**
   * What processing a parameter whose layers start with types and whose
   * domain layers start with vals may give: PROCESS_FXNS picks the handler
   * from the first type layer.
   */
  ghost predicate Processed(types: seq<Layer>, vals: seq<ValLayer>, variables: Variables, r: Result<Param<Py>>)
    decreases types, 1
  {
    if types == [] then r == Failure("IndexError")
    else match types[0]
      case KeyVal(_, _) => r == Failure("TypeError")
      case Cls(_, fields) => ClassOutcome(types, fields, vals, variables, r)
      case Prim(t, keywords) =>
        if t in NumberTypes then r == NumberParam(vals, variables)
        else if t == "str" then StrOutcome(keywords, vals, variables, r)
        else if t in SequenceTypes then ContainerOutcome(types, t, keywords, vals, variables, r)
        else if t == "dict" then DictOutcome(types, vals, variables, r)
        // A class is a Cls layer, so only a builtin with no handler gets
        // here; the source hands it to _process_class, which reads the
        // builtin's layer as a class, and the model reports TypeError.
        else r == Failure("TypeError")
  }

  // The handlers.

  /** One parameter's possible arguments, by the handler of its first type layer. */
  method Process(types: seq<Layer>, vals: seq<ValLayer>, variables: Variables) returns (r: Result<Param<Py>>)
    ensures Processed(types, vals, variables, r)
    ensures r.Success? ==> Good(r.value)
    decreases types, 1
  {
    if types == [] {
      return Failure("IndexError");
    }
    match types[0] {
      case KeyVal(_, _) =>
        r := Failure("TypeError");
      case Cls(_, fields) =>
        r := ProcessClass(types, fields, vals, variables);
      case Prim(t, keywords) =>
        if t in NumberTypes {
          r := NumberParam(vals, variables);
        } else if t == "str" {
          r := ProcessStr(keywords, vals, variables);
        } else if t in SequenceTypes {
          r := ProcessContainer(types, t, keywords, vals, variables);
        } else if t == "dict" {
          r := ProcessDict(types, vals, variables);
        } else {
          r := Failure("TypeError");
        }
    }
  }

  /** _process_str */
  method ProcessStr(keywords: seq<string>, vals: seq<ValLayer>, variables: Variables) returns (r: Result<Param<Py>>)
    ensures StrOutcome(keywords, vals, variables, r)
    ensures r.Success? ==> Good(r.value)
  {
    if vals == [] {
      return Failure("IndexError");
    }
    match vals[0] {
      case VStrs(ss) =>
        r := Success(StrParam(NoVar, [], ss));
      case VDomain(d) =>
        var alphabet := ExhaustiveStr.Alphabet(keywords);
        if alphabet.Failure? {
          return Failure(alphabet.error);
        }
        var l := VarLookup.VarLookup(d, variables);
        if l.Failure? {
          return Failure(l.error);
        }
        var lens := l.value.vals;
        if lens == [] {
          return Failure("IndexError");
        }
        var perms := ExhaustiveStr.CreateStrPerms(Last(lens), lens[0], alphabet.value);
        if perms.Failure? {
          return Failure(perms.error);
        }
        ListingExists(perms.value);
        var ss :| Lists(ss, perms.value);
        r := Success(StrParam(l.value.varname, RangeOf(l.value), ss));
      case _ =>
        r := Failure("TypeError");
    }
  }

  /** _process_tup, _process_lst and _process_set */
  method ProcessContainer(types: seq<Layer>, kind: string, keywords: seq<string>, vals: seq<ValLayer>, variables: Variables)
    returns (r: Result<Param<Py>>)
    requires types != []
    ensures ContainerOutcome(types, kind, keywords, vals, variables, r)
    ensures r.Success? ==> Good(r.value)
    decreases types, 0
  {
    if vals == [] {
      return Failure("IndexError");
    }
    if !vals[0].VDomain? {
      return Failure("TypeError");
    }
    var l := VarLookup.VarLookup(vals[0].d, variables);
    if l.Failure? {
      return Failure(l.error);
    }
    var e := Process(types[1..], vals[1..], variables);
    if e.Failure? {
      return Failure(e.error);
    }
    var lens := l.value.vals;
    if lens == [] {
      return Failure("IndexError");
    }
    var a := TupArgsOf(kind, keywords, l.value, e.value);
    var perms := ExhaustiveTup.CreateTupPerms(a, Last(lens));
    if perms.Failure? {
      return Failure(perms.error);
    }
    ListingExists(perms.value);
    var ps :| Lists(ps, perms.value);
    r := Success(TupParam(ps));
    TupParamGood(a, Last(lens), ps);
  }

  lemma TupParamGood(a: ExhaustiveTup.TupArgs, maxLen: int, ps: seq<ExhaustiveTup.Perm>)
    requires ExhaustiveTup.Aligned(a) && ParamNoDup(a.next) && maxLen >= 0
    requires Lists(ps, ExhaustiveTup.TupPerms(a, maxLen).value)
    ensures Good(TupParam(ps))
  {
    var p := TupParam(ps);
    forall j | 0 <= j < |p.names| && p.names[j].Fixed? ensures NoDupNames(p.names[j].bindings) {
      assert ps[j] in ps;
      ExhaustiveTup.TupPermsNoDup(a, maxLen, ps[j]);
    }
  }

  /** _process_dic */
  method ProcessDict(types: seq<Layer>, vals: seq<ValLayer>, variables: Variables) returns (r: Result<Param<Py>>)
    ensures DictOutcome(types, vals, variables, r)
    ensures r.Success? ==> Good(r.value)
    decreases types, 0
  {
    if vals == [] {
      return Failure("IndexError");
    }
    if !vals[0].VDomain? {
      return Failure("TypeError");
    }
    var l := VarLookup.VarLookup(vals[0].d, variables);
    if l.Failure? {
      return Failure(l.error);
    }
    if |types| < 2 || !types[1].KeyVal? {
      return Failure(if |types| < 2 then "IndexError" else "TypeError");
    }
    if |vals| < 2 || !vals[1].VKeyVal? {
      return Failure(if |vals| < 2 then "IndexError" else "TypeError");
    }
    var kt, vt := types[1].keyTypes, types[1].valTypes;
    if LookupError(kt).Some? {
      return Failure(LookupError(kt).value);
    }
    if LookupError(vt).Some? {
      return Failure(LookupError(vt).value);
    }
    var ke := Process(kt, vals[1].keyVals, variables);
    if ke.Failure? {
      return Failure(ke.error);
    }
    var ve := Process(vt, vals[1].valVals, variables);
    if ve.Failure? {
      return Failure(ve.error);
    }
    var lens := l.value.vals;
    if lens == [] {
      return Failure("IndexError");
    }
    var a := DictArgsOf(l.value, ke.value, ve.value);
    var perms := ExhaustiveDict.CreateDictPerms(a, Last(lens));
    if perms.Failure? {
      return Failure(perms.error);
    }
    ListingExists(perms.value);
    var ps :| Lists(ps, perms.value);
    r := Success(DictParam(ps));
    DictParamGood(a, Last(lens), ps);
  }

  lemma DictParamGood(a: ExhaustiveDict.DictArgs, maxLen: int, ps: seq<ExhaustiveDict.DictPerm>)
    requires ExhaustiveDict.DictAligned(a) && ExhaustiveDict.DictNoDup(a) && maxLen >= 0
    requires Lists(ps, ExhaustiveDict.DictPerms(a, maxLen).value)
    ensures Good(DictParam(ps))
  {
    var p := DictParam(ps);
    forall j | 0 <= j < |p.names| && p.names[j].Fixed? ensures NoDupNames(p.names[j].bindings) {
      assert ps[j] in ps;
      ExhaustiveDict.DictPermsNoDup(a, maxLen, ps[j]);
    }
  }

  /** _process_class */
  method ProcessClass(types: seq<Layer>, fields: seq<Field>, vals: seq<ValLayer>, variables: Variables) returns (r: Result<Param<Py>>)
    requires types != [] && types[0].Cls? && types[0].fields == fields
    ensures ClassOutcome(types, fields, vals, variables, r)
    ensures r.Success? ==> Good(r.value)
    decreases types, 0
  {
    if vals == [] {
      return Failure("IndexError");
    }
    if !vals[0].VFields? {
      return Failure("TypeError");
    }
    if !FieldsTyped(fields) || !FieldsValued(vals[0].fields) {
      return Failure("IndexError");
    }
    var rs := ProcessFields(types, fields, vals[0].fields, variables);
    if rs.Failure? {
      return Failure(rs.error);
    }
    var out := new ArgLists<Py>();
    var err := GenerateArgLists(rs.value, 0, out);
    GenNoDup(rs.value, 0, []);
    if err.Some? {
      return Failure(err.value);
    }
    r := Success(ClassParam(out.lists));
    ClassParamGood(out.lists);
  }

  lemma ClassParamGood(combos: seq<Combo<Py>>)
    requires AllNoDup(combos)
    ensures Good(ClassParam(combos))
  {
  }

  /** The loop of process_types_rec over a class's fields. */
  method ProcessFields(parent: seq<Layer>, fields: seq<Field>, fv: seq<FieldVals>, variables: Variables)
    returns (rs: Result<seq<Param<Py>>>)
    requires parent != [] && parent[0].Cls? && parent[0].fields == fields
    requires FieldsTyped(fields) && FieldsValued(fv)
    ensures FieldsRec(parent, fields, fv, |fields|, variables, rs)
    ensures rs.Success? ==> |rs.value| == |fields| && forall k :: 0 <= k < |rs.value| ==> Good(rs.value[k])
    decreases parent, 0, 1
  {
    var params := [];
    for i := 0 to |fields|
      invariant FieldsRec(parent, fields, fv, i, variables, Success(params))
      invariant |params| == i && forall k :: 0 <= k < i ==> Good(params[k])
    {
      var next := ProcessField(parent, fields, fv, i, variables, params);
      if next.Failure? {
        FieldsRecPersists(parent, fields, fv, i + 1, |fields|, variables, next);
        return next;
      }
      params := next.value;
    }
    rs := Success(params);
  }

  /** One round of the field loop: field i's domain is processed and its options appended. */
  method ProcessField(parent: seq<Layer>, fields: seq<Field>, fv: seq<FieldVals>, i: nat, variables: Variables,
                      params: seq<Param<Py>>) returns (next: Result<seq<Param<Py>>>)
    requires parent != [] && parent[0].Cls? && parent[0].fields == fields && i < |fields|
    requires FieldsTyped(fields) && FieldsValued(fv)
    requires FieldsRec(parent, fields, fv, i, variables, Success(params))
    requires |params| == i && forall k :: 0 <= k < i ==> Good(params[k])
    ensures FieldsRec(parent, fields, fv, i + 1, variables, next)
    ensures next.Success? ==> |next.value| == i + 1 && next.value[..i] == params && forall k :: 0 <= k <= i ==> Good(next.value[k])
    decreases parent, 0, 0
  {
    if i >= |fv| {
      return Failure("IndexError");
    }
    assert fields[i] in parent[0].fields;
    var e := Process(fields[i].types[0].layers, fv[i].lists[0].layers, variables);
    if e.Failure? {
      return Failure(e.error);
    }
    FieldsRecStep(parent, fields, fv, i, variables, params, e);
    next := Success(params + [e.value]);
  }

  lemma FieldsRecStep(parent: seq<Layer>, fields: seq<Field>, fv: seq<FieldVals>, i: nat, variables: Variables,
                      params: seq<Param<Py>>, e: Result<Param<Py>>)
    requires parent != [] && parent[0].Cls? && parent[0].fields == fields && i < |fields| && i < |fv|
    requires FieldsTyped(fields) && FieldsValued(fv)
    requires FieldsRec(parent, fields, fv, i, variables, Success(params))
    requires Processed(fields[i].types[0].layers, fv[i].lists[0].layers, variables, e) && e.Success?
    ensures FieldsRec(parent, fields, fv, i + 1, variables, Success(params + [e.value]))
  {
  }

  lemma {:induction false} FieldsRecPersists(parent: seq<Layer>, fields: seq<Field>, fv: seq<FieldVals>, m: nat, n: nat, variables: Variables, rs: Result<seq<Param<Py>>>)
    requires parent != [] && parent[0].Cls? && parent[0].fields == fields && m <= n <= |fields|
    requires FieldsTyped(fields) && FieldsValued(fv)
    requires rs.Failure? && FieldsRec(parent, fields, fv, m, variables, rs)
    ensures FieldsRec(parent, fields, fv, n, variables, rs)
    decreases n
  {
    if n > m {
      FieldsRecPersists(parent, fields, fv, m, n - 1, variables, rs);
    }
  }

  // process_types_rec and process_types.

  /**
   * process_types_rec over the first n parameters: each parameter's type
   * and domain are processed in turn; the first exception ends the loop.
   */
  ghost predicate ArgsRec(types: seq<seq<Layer>>, vals: seq<seq<ValLayer>>, n: nat, variables: Variables, rs: Result<seq<Param<Py>>>)
    requires n <= |types|
  {
    if n == 0 then rs == Success([])
    else exists prev :: (ArgsRec(types, vals, n - 1, variables, prev)
      && (prev.Failure? ==> rs == prev)
      && (prev.Success? ==>
            if n - 1 >= |vals| then rs == Failure("IndexError")
            else exists e :: (Processed(types[n - 1], vals[n - 1], variables, e)
              && rs == (if e.Failure? then Failure(e.error) else Success(prev.value + [e.value])))))
  }

  /** process_types_rec: the possible arguments of every parameter. */
  method ProcessTypesRec(types: seq<seq<Layer>>, vals: seq<seq<ValLayer>>, variables: Variables) returns (rs: Result<seq<Param<Py>>>)
    ensures ArgsRec(types, vals, |types|, variables, rs)
    ensures rs.Success? ==> |rs.value| == |types| && forall k :: 0 <= k < |rs.value| ==> Good(rs.value[k])
  {
    var possible := [];
    for i := 0 to |types|
      invariant ArgsRec(types, vals, i, variables, Success(possible))
      invariant |possible| == i && forall k :: 0 <= k < i ==> Good(possible[k])
    {
      var next := ProcessArg(types, vals, i, variables, possible);
      if next.Failure? {
        ArgsRecPersists(types, vals, i + 1, |types|, variables, next);
        return next;
      }
      possible := next.value;
    }
    rs := Success(possible);
  }

  /** One round of process_types_rec: parameter i is processed and its options appended. */
  method ProcessArg(types: seq<seq<Layer>>, vals: seq<seq<ValLayer>>, i: nat, variables: Variables,
                    possible: seq<Param<Py>>) returns (next: Result<seq<Param<Py>>>)
    requires i < |types| && ArgsRec(types, vals, i, variables, Success(possible))
    requires |possible| == i && forall k :: 0 <= k < i ==> Good(possible[k])
    ensures ArgsRec(types, vals, i + 1, variables, next)
    ensures next.Success? ==> |next.value| == i + 1 && next.value[..i] == possible && forall k :: 0 <= k <= i ==> Good(next.value[k])
  {
    if i >= |vals| {
      return Failure("IndexError");
    }
    var e := Process(types[i], vals[i], variables);
    if e.Failure? {
      return Failure(e.error);
    }
    ArgsRecStep(types, vals, i, variables, possible, e);
    next := Success(possible + [e.value]);
  }

  lemma ArgsRecStep(types: seq<seq<Layer>>, vals: seq<seq<ValLayer>>, i: nat, variables: Variables,
                    possible: seq<Param<Py>>, e: Result<Param<Py>>)
    requires i < |types| && i < |vals| && ArgsRec(types, vals, i, variables, Success(possible))
    requires Processed(types[i], vals[i], variables, e) && e.Success?
    ensures ArgsRec(types, vals, i + 1, variables, Success(possible + [e.value]))
  {
  }

  lemma {:induction false} ArgsRecPersists(types: seq<seq<Layer>>, vals: seq<seq<ValLayer>>, m: nat, n: nat, variables: Variables, rs: Result<seq<Param<Py>>>)
    requires m <= n <= |types| && rs.Failure? && ArgsRec(types, vals, m, variables, rs)
    ensures ArgsRec(types, vals, n, variables, rs)
    decreases n
  {
    if n > m {
      ArgsRecPersists(types, vals, m, n - 1, variables, rs);
    }
  }

  /**
   * What process_types returns once the parameters' possible arguments are
   * params: the error of generate_arg_lists, or the distinct argument
   * lists, each converted (or the first conversion's error).
   */
  ghost predicate Combined(cons: set<string>, params: seq<Param<Py>>, types: seq<seq<Layer>>, r: Result<seq<seq<Convert.Native>>>) {
    var g := Gen(params, 0, []);
    if g.err.Some? then r == Failure(g.err.value)
    else
      var lists := Convert.ArgSet(g.lists);
      (r.Success? <==> forall a :: a in lists ==> Convert.ConvertArgs(cons, a, types).Success?)
      && (r.Success? ==>
            |r.value| == |lists| && forall x :: x in r.value <==> exists a :: a in lists && Convert.ConvertArgs(cons, a, types) == Success(x))
  }

  /** What process_types gives: the first exception of process_types_rec, or the combined and converted lists. */
  ghost predicate ProcessedAll(cons: set<string>, types: seq<seq<Layer>>, vals: seq<seq<ValLayer>>, variables: Variables,
                               r: Result<seq<seq<Convert.Native>>>) {
    exists ps :: (ArgsRec(types, vals, |types|, variables, ps)
      && (ps.Failure? ==> r == Failure(ps.error))
      && (ps.Success? ==> Combined(cons, ps.value, types, r)))
  }

  /**
   * process_types: every parameter processed, every agreeing combination of
   * their arguments taken once, and each converted; the first exception
   * anywhere is the result.
   */
  method ProcessTypes(cons: set<string>, types: seq<seq<Layer>>, vals: seq<seq<ValLayer>>, variables: Variables)
    returns (r: Result<seq<seq<Convert.Native>>>)
    ensures ProcessedAll(cons, types, vals, variables, r)
  {
    var ps := ProcessTypesRec(types, vals, variables);
    if ps.Failure? {
      return Failure(ps.error);
    }
    r := Convert.CombineAndConvert(cons, ps.value, types);
    assert ParamsNoDup(ps.value) by {
      forall k | 0 <= k < |ps.value| ensures ParamNoDup(ps.value[k]) {
        assert Good(ps.value[k]);
      }
    }
  }

  // generate_exhaustive_cases: the validation filter. The validation
  // function is the project's own code; it is an input here, answering None
  // when it rejects a case and the case as it left it (it may change it)
  // when it accepts.

  type Case = seq<Convert.Native>

  /** The cases validation accepts, in their order, each as validation returned it. */
  function Validated(cases: seq<Case>, validate: Case -> Option<Case>): (r: seq<Case>)
    ensures |r| <= |cases|
  {
    if cases == [] then []
    else
      var front := Validated(cases[..|cases| - 1], validate);
      match validate(cases[|cases| - 1])
      case Some(t) => front + [t]
      case None => front
  }

  /** A case is kept exactly when validation returned it for one of the generated cases. */
  lemma {:induction false} ValidatedMembers(cases: seq<Case>, validate: Case -> Option<Case>, t: Case)
    ensures t in Validated(cases, validate) <==> exists c :: c in cases && validate(c) == Some(t)
  {
    if cases != [] {
      var front := cases[..|cases| - 1];
      ValidatedMembers(front, validate, t);
      assert cases == front + [cases[|cases| - 1]];
      if exists c :: c in cases && validate(c) == Some(t) {
        var c :| c in cases && validate(c) == Some(t);
        if c != cases[|cases| - 1] {
          assert c in front;
        }
      }
    }
  }

  /** A validation that accepts every case unchanged keeps all of them, in order. */
  lemma {:induction false} ValidatedAll(cases: seq<Case>, validate: Case -> Option<Case>)
    requires forall i :: 0 <= i < |cases| ==> validate(cases[i]) == Some(cases[i])
    ensures Validated(cases, validate) == cases
  {
    if cases != [] {
      ValidatedAll(cases[..|cases| - 1], validate);
      assert cases == cases[..|cases| - 1] + [cases[|cases| - 1]];
    }
  }

  /** The loop of generate_exhaustive_cases: rejected cases are skipped, accepted ones appended. */
  method KeepValid(cases: seq<Case>, validate: Case -> Option<Case>) returns (kept: seq<Case>)
    ensures kept == Validated(cases, validate)
  {
    kept := [];
    for i := 0 to |cases|
      invariant kept == Validated(cases[..i], validate)
    {
      assert cases[..i + 1][..i] == cases[..i];
      var v := validate(cases[i]);
      if v.Some? {
        kept := kept + [v.value];
      }
    }
    assert cases[..|cases|] == cases;
  }

  /** generate_exhaustive_cases: the cases process_types gives, filtered by validation. */
  method GenerateExhaustiveCases(cons: set<string>, types: seq<seq<Layer>>, vals: seq<seq<ValLayer>>, variables: Variables,
                                 validate: Case -> Option<Case>) returns (r: Result<seq<Case>>)
    ensures exists c :: (ProcessedAll(cons, types, vals, variables, c)
      && r == (if c.Failure? then Failure(c.error) else Success(Validated(c.value, validate))))
  {
    var c := ProcessTypes(cons, types, vals, variables);
    if c.Failure? {
      return Failure(c.error);
    }
    var kept := KeepValid(c.value, validate);
    r := Success(kept);
  }
}
