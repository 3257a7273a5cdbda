// Deep equality of submission output: a reference value is compared against a
// test value structure by structure, with a loop detector that pairs every
// container of the reference with the container of the test value it was
// matched against, a generalised zip over two iterables, and a table of
// strict-typing switches.
module DeepEqual {
  import opened Wrappers

  // The exception messages, by the heading each of them starts with.
  const MissingCircular := "DeepEqualsError: missing circular reference"
  const UnexpectedCircular := "DeepEqualsError: unexpected circular reference"
  const InvalidTypes := "DeepEqualsError: invalid types"
  const InvalidKeys := "DeepEqualsError: invalid keys"
  const LengthError := "DeepEqualsError: length error"
  const TypeError := "TypeError"

  /**
   * The identity `id()` gives an object: a numbered object, or one of the
   * one-character strings Python keeps a single copy of.
   */
  datatype Ident = ObjId(n: nat) | CharId(c: char)

  // ---------------------------------------------------------------------
  // The loop detector _AlreadySeen.

  /**
   * The detector's two records: `ref` maps a reference container's identity
   * to the test identity it was paired with, `test` maps a test identity back
   * to its reference identity.
   */
  datatype Seen = Seen(ref: map<Ident, Ident>, test: map<Ident, Ident>)

  const NoneSeen := Seen(map[], map[])

  /** The two records are inverse to each other. */
  ghost predicate SeenValid(s: Seen) {
    && (forall a :: a in s.ref ==> s.ref[a] in s.test && s.test[s.ref[a]] == a)
    && (forall b :: b in s.test ==> s.test[b] in s.ref && s.ref[s.test[b]] == b)
  }

  /** is_loop on the records `s`: the answer and the records afterwards, or the error raised. */
  function LoopStep(s: Seen, refId: Ident, testId: Ident): Result<(bool, Seen)> {
    if refId in s.ref then
      if testId == s.ref[refId] then Success((true, s)) else Failure(MissingCircular)
    else if testId in s.test then
      Failure(UnexpectedCircular)
    else
      Success((false, Seen(s.ref[refId := testId], s.test[testId := refId])))
  }

  /** The detector object, whose two dictionaries is_loop updates in place. */
  class AlreadySeen {
    var ref: map<Ident, Ident>
    var test: map<Ident, Ident>

    ghost predicate Valid()
      reads this
    {
      SeenValid(Seen(ref, test))
    }

    constructor ()
      ensures ref == map[] && test == map[]
      ensures Valid()
    {
      ref := map[];
      test := map[];
    }

    /** is_loop: on an error the records are left as they were. */
    method IsLoop(refId: Ident, testId: Ident) returns (r: Result<bool>)
      requires Valid()
      modifies this
      ensures Valid()
      ensures LoopStep(old(Seen(ref, test)), refId, testId).Failure? ==>
        r == Failure(LoopStep(old(Seen(ref, test)), refId, testId).error) &&
        ref == old(ref) && test == old(test)
      ensures LoopStep(old(Seen(ref, test)), refId, testId).Success? ==>
        r == Success(LoopStep(old(Seen(ref, test)), refId, testId).value.0) &&
        Seen(ref, test) == LoopStep(old(Seen(ref, test)), refId, testId).value.1
    {
      LoopStepValid(Seen(ref, test), refId, testId);
      if refId in ref {
        if testId == ref[refId] {
          return Success(true);
        } else {
          return Failure(MissingCircular);
        }
      } else if testId in test {
        return Failure(UnexpectedCircular);
      } else {
        ref := ref[refId := testId];
        test := test[testId := refId];
        return Success(false);
      }
    }
  }

  /** A loop is reported exactly when `refId` was paired with this same `testId` before; nothing changes then. */
  lemma LoopStepTrue(s: Seen, refId: Ident, testId: Ident)
    ensures (LoopStep(s, refId, testId).Success? && LoopStep(s, refId, testId).value.0) <==>
      (refId in s.ref && s.ref[refId] == testId)
    ensures LoopStep(s, refId, testId).Success? && LoopStep(s, refId, testId).value.0 ==>
      LoopStep(s, refId, testId).value.1 == s
  {
  }

  /**
   * The two errors: a reference container met again with a different test
   * container, or a test container met again under a new reference container.
   */
  lemma LoopStepErrors(s: Seen, refId: Ident, testId: Ident)
    ensures LoopStep(s, refId, testId) == Failure(MissingCircular) <==>
      refId in s.ref && s.ref[refId] != testId
    ensures LoopStep(s, refId, testId) == Failure(UnexpectedCircular) <==>
      refId !in s.ref && testId in s.test
  {
  }

  /**
   * A pair met for the first time is recorded in both directions, every
   * other entry is kept, the records stay inverse, and meeting the same pair
   * again is then recognised as a loop.
   */
  lemma LoopStepValid(s: Seen, refId: Ident, testId: Ident)
    requires SeenValid(s)
    ensures LoopStep(s, refId, testId).Success? ==> SeenValid(LoopStep(s, refId, testId).value.1)
    ensures LoopStep(s, refId, testId).Success? && !LoopStep(s, refId, testId).value.0 ==>
      var s' := LoopStep(s, refId, testId).value.1;
      && refId !in s.ref && testId !in s.test
      && s'.ref == s.ref[refId := testId] && s'.test == s.test[testId := refId]
      && LoopStep(s', refId, testId) == Success((true, s'))
  {
    if refId !in s.ref && testId !in s.test {
      var s' := Seen(s.ref[refId := testId], s.test[testId := refId]);
      forall a | a in s'.ref ensures s'.ref[a] in s'.test && s'.test[s'.ref[a]] == a {
        if a != refId {
          assert s'.ref[a] == s.ref[a] != testId;
        }
      }
      forall b | b in s'.test ensures s'.test[b] in s'.ref && s'.ref[s'.test[b]] == b {
        if b != testId {
          assert s'.test[b] == s.test[b] != refId;
        }
      }
    }
  }

  // ---------------------------------------------------------------------
  // The strict-typing switches.

  /** The recognised switches; every one is on unless switched off. */
  const FlagNames: set<string> := {"map", "map_keys", "iter", "bool", "num", "str", "obj"}

  /** The strict_typing argument: a bool, a dictionary of switches, or anything else. */
  datatype StrictOption = StrictBool(b: bool) | StrictDict(switches: map<string, bool>) | StrictOther

  /** The switch table the argument gives, or the TypeError it raises. */
  function StrictFlags(opt: StrictOption): Result<map<string, bool>> {
    match opt
    case StrictBool(b) => Success(map k | k in FlagNames :: b)
    case StrictDict(switches) => Success((map k | k in FlagNames :: true) + switches)
    case StrictOther => Failure(TypeError)
  }

  /**
   * True sets every switch, False clears every switch, a dictionary
   * overrides only the switches it lists (other keys it holds are kept
   * but never read), and anything else raises TypeError.
   */
  lemma StrictFlagsTable(opt: StrictOption)
    ensures opt.StrictOther? <==> StrictFlags(opt) == Failure(TypeError)
    ensures opt.StrictBool? ==>
      && StrictFlags(opt).Success?
      && StrictFlags(opt).value.Keys == FlagNames
      && forall k :: k in FlagNames ==> StrictFlags(opt).value[k] == opt.b
    ensures opt.StrictDict? ==>
      && StrictFlags(opt).Success?
      && StrictFlags(opt).value.Keys == FlagNames + opt.switches.Keys
      && forall k :: k in FlagNames ==>
        StrictFlags(opt).value[k] == (if k in opt.switches then opt.switches[k] else true)
  {
  }

  /** The set-up at the head of deep_equal, which switches the table's entries off one by one. */
  method SetUpStrictTyping(opt: StrictOption) returns (r: Result<map<string, bool>>)
    ensures r == StrictFlags(opt)
  {
    var flags := map k | k in FlagNames :: true;
    match opt
    case StrictBool(b) =>
      if !b {
        var keys := flags.Keys;
        while keys != {}
          invariant keys <= FlagNames == flags.Keys
          invariant forall k :: k in flags ==> flags[k] == (k in keys)
          decreases |keys|
        {
          var k :| k in keys;
          flags := flags[k := false];
          keys := keys - {k};
        }
      }
      assert flags == map k | k in FlagNames :: b;
      r := Success(flags);
    case StrictDict(switches) =>
      r := Success(flags + switches);
    case StrictOther =>
      r := Failure(TypeError);
  }

  // ---------------------------------------------------------------------
  // zip_gen.

  /**
   * An iterable as zip_gen sees it: a sequence, iterated in its own order,
   * or a non-sequence, iterated in sorted order (its items are listed in
   * that order), which may or may not define a length.
   */
  datatype Coll<V> = Sequence(items: seq<V>) | NonSequence(items: seq<V>, sized: bool)

  /** What the generator yields: its pairs, in order, then the exception it raises, if any. */
  datatype Zipped<V> = Zipped(pairs: seq<(V, V)>, raised: Option<string>)

  function Min(a: int, b: int): int {
    if a <= b then a else b
  }

  /** The generator's loop from the `k`th reference element on. */
  function ZipSteps<V>(xs: seq<V>, ys: seq<V>, k: nat): (z: Zipped<V>)
    requires k <= |xs| && k <= |ys|
    ensures |z.pairs| == Min(|xs|, |ys|) - k
    ensures forall j :: 0 <= j < |z.pairs| ==> z.pairs[j] == (xs[k + j], ys[k + j])
    ensures z.raised == if |xs| == |ys| then None else Some(LengthError)
    decreases |xs| - k
  {
    if k == |xs| then
      Zipped([], if k < |ys| then Some(LengthError) else None)
    else if k == |ys| then
      Zipped([], Some(LengthError))
    else
      var rest := ZipSteps(xs, ys, k + 1);
      Zipped([(xs[k], ys[k])] + rest.pairs, rest.raised)
  }

  /** zip_gen as written: the two length checks on non-sequences build an exception and drop it. */
  function ZipAsWritten<V>(ref: Coll<V>, test: Coll<V>): Zipped<V> {
    match ref
    case NonSequence(xs, _) =>
      if test.Sequence? then Zipped([], Some(InvalidTypes)) else ZipSteps(xs, test.items, 0)
    case Sequence(xs) =>
      if test.Sequence? then ZipSteps(xs, test.items, 0) else Zipped([], Some(TypeError))
  }

  /**
   * zip_gen with the two length checks raising: a non-sequence that defines
   * no length is refused before anything is yielded.
   */
  function Zip<V>(ref: Coll<V>, test: Coll<V>): (z: Zipped<V>)
    ensures |z.pairs| <= |ref.items| && |z.pairs| <= |test.items|
    ensures forall j :: 0 <= j < |z.pairs| ==> z.pairs[j] == (ref.items[j], test.items[j])
  {
    match ref
    case NonSequence(xs, sized) =>
      if !sized then Zipped([], Some(TypeError))
      else if test.Sequence? then Zipped([], Some(InvalidTypes))
      else if !test.sized then Zipped([], Some(InvalidTypes))
      else ZipSteps(xs, test.items, 0)
    case Sequence(xs) =>
      if test.Sequence? then ZipSteps(xs, test.items, 0) else Zipped([], Some(TypeError))
  }

  /**
   * The pairs come in order, as many as the shorter side has, and nothing is
   * raised exactly when both sides are sequences, or both are non-sequences
   * that define a length, and they have equally many elements.
   */
  lemma ZipOutcome<V>(ref: Coll<V>, test: Coll<V>)
    ensures Zip(ref, test).raised.None? ==>
      |Zip(ref, test).pairs| == |ref.items| == |test.items|
    ensures Zip(ref, test).raised.None? <==>
      && ref.Sequence? == test.Sequence?
      && (ref.NonSequence? ==> ref.sized && test.sized)
      && |ref.items| == |test.items|
    ensures ref.Sequence? != test.Sequence? ==> Zip(ref, test).pairs == []
  {
  }

  /**
   * Zipping a sequence with a non-sequence raises, TypeError when the
   * reference side is the sequence.
   */
  lemma ZipMixedRaises<V>(ref: Coll<V>, test: Coll<V>)
    requires ref.Sequence? != test.Sequence?
    ensures ref.Sequence? ==> Zip(ref, test) == Zipped([], Some(TypeError))
    ensures ref.NonSequence? && ref.sized ==> Zip(ref, test) == Zipped([], Some(InvalidTypes))
  {
  }

  /** As written, two non-sequences that define no length are zipped like sized ones. */
  lemma ZipUnsizedAsWritten<V>(xs: seq<V>)
    ensures ZipAsWritten(NonSequence(xs, false), NonSequence(xs, false)).raised.None?
    ensures |ZipAsWritten(NonSequence(xs, false), NonSequence(xs, false)).pairs| == |xs|
    ensures Zip(NonSequence(xs, false), NonSequence(xs, false)) == Zipped([], Some(TypeError))
  {
  }

  /** The generator, run to its end: the loop over the reference side pulls one test element per round. */
  method ZipGen<V>(ref: Coll<V>, test: Coll<V>) returns (z: Zipped<V>)
    ensures z == Zip(ref, test)
  {
    if ref.NonSequence? {
      if !ref.sized {
        return Zipped([], Some(TypeError));
      }
      if test.Sequence? || !test.sized {
        return Zipped([], Some(InvalidTypes));
      }
    } else if test.NonSequence? {
      return Zipped([], Some(TypeError));
    }
    var xs, ys := ref.items, test.items;
    var pairs: seq<(V, V)> := [];
    var k := 0;
    while k < |xs|
      invariant k <= |xs| && k <= |ys|
      invariant pairs == ZipSteps(xs, ys, 0).pairs[..k]
    {
      if k == |ys| {
        return Zipped(pairs, Some(LengthError));
      }
      pairs := pairs + [(xs[k], ys[k])];
      k := k + 1;
    }
    if k < |ys| {
      return Zipped(pairs, Some(LengthError));
    }
    z := Zipped(pairs, None);
  }

  // ---------------------------------------------------------------------
  // The recursive comparison.

  /**
   * A Python value as the comparison sees it. Containers and strings carry
   * their identity; a container carries its type name (`list`, `tuple`,
   * `set`, `dict`, a generator, ...). The items of a non-sequence and the
   * entries of a dictionary are listed in the order `sorted()` gives them,
   * which is also the order the model iterates a dictionary in.
   */
  datatype Value =
    | NoneVal
    | BoolVal(b: bool)
    | IntVal(i: int)
    | StrVal(id: Ident, s: string, unicode: bool)
    | SeqVal(id: Ident, kind: string, items: seq<Value>)
    | ColVal(id: Ident, kind: string, items: seq<Value>, sized: bool)
    | MapVal(id: Ident, kind: string, entries: seq<Entry>)

  datatype Entry = Entry(key: Value, val: Value)

  /** The name `type()` gives a value. */
  function TypeName(v: Value): string {
    match v
    case NoneVal => "NoneType"
    case BoolVal(_) => "bool"
    case IntVal(_) => "int"
    case StrVal(_, _, unicode) => if unicode then "unicode" else "str"
    case SeqVal(_, kind, _) => kind
    case ColVal(_, kind, _, _) => kind
    case MapVal(_, kind, _) => kind
  }

  /** Python's truth value of a value; a generator defines no length and is always true. */
  predicate Truthy(v: Value) {
    match v
    case NoneVal => false
    case BoolVal(b) => b
    case IntVal(i) => i != 0
    case StrVal(_, s, _) => s != []
    case SeqVal(_, _, items) => items != []
    case ColVal(_, _, items, sized) => !sized || items != []
    case MapVal(_, _, entries) => entries != []
  }

  /** Lower case, for the ASCII letters. */
  function Lower(s: string): string {
    seq(|s|, k requires 0 <= k < |s| => if 'A' <= s[k] <= 'Z' then (s[k] - 'A' + 'a') as char else s[k])
  }

  /** The characters of a string, as the one-character strings iterating it yields. */
  function Chars(id: Ident, s: string, unicode: bool): seq<Value> {
    seq(|s|, k requires 0 <= k < |s| => StrVal(CharId(s[k]), [s[k]], unicode))
  }

  function KeysOf(entries: seq<Entry>): seq<Value> {
    seq(|entries|, k requires 0 <= k < |entries| => entries[k].key)
  }

  /**
   * What a dictionary compares a key by: its hash and `==`, never the
   * identity of the object holding it. `False` and `True` are the keys 0
   * and 1, a string is its characters (a `str` and a `unicode` with the
   * same characters are one key), and a tuple is the keys of its elements
   * in order. Any other value is its own key, which for a generator is its
   * identity.
   */
  datatype Key = NoneKey | IntKey(i: int) | StrKey(s: string) | TupleKey(items: seq<Key>) | ObjKey(v: Value)

  function KeyOf(v: Value): Key {
    match v
    case NoneVal => NoneKey
    case BoolVal(b) => IntKey(if b then 1 else 0)
    case IntVal(i) => IntKey(i)
    case StrVal(_, s, _) => StrKey(s)
    case SeqVal(_, kind, items) =>
      if kind == "tuple" then TupleKey(seq(|items|, k requires 0 <= k < |items| => KeyOf(items[k])))
      else ObjKey(v)
    case _ => ObjKey(v)
  }

  /** The keys of a dictionary, as `set(d.keys())` holds them. */
  function KeySet(entries: seq<Entry>): set<Key> {
    set k | 0 <= k < |entries| :: KeyOf(entries[k].key)
  }

  /** A value zip_gen can iterate: strings, containers, and dictionaries (over their keys). */
  function AsColl(v: Value): Option<Coll<Value>> {
    match v
    case StrVal(id, s, unicode) => Some(Sequence(Chars(id, s, unicode)))
    case SeqVal(_, _, items) => Some(Sequence(items))
    case ColVal(_, _, items, sized) => Some(NonSequence(items, sized))
    case MapVal(_, _, entries) => Some(NonSequence(KeysOf(entries), true))
    case _ => None
  }

  /** The position of the first entry whose key equals `key`, which is where `d[key]` looks. */
  function KeyIndex(entries: seq<Entry>, key: Key, i: nat): (j: nat)
    requires exists k :: i <= k < |entries| && KeyOf(entries[k].key) == key
    ensures i <= j < |entries| && KeyOf(entries[j].key) == key
    ensures forall k :: i <= k < j ==> KeyOf(entries[k].key) != key
    decreases |entries| - i
  {
    if KeyOf(entries[i].key) == key then i else KeyIndex(entries, key, i + 1)
  }

  /** The result of a comparison that did not raise: its answer and the loop detector's records. */
  datatype Outcome = Outcome(eq: bool, seen: Seen)

  /** _base_eq: the comparison of two values at least one of which holds no others. */
  function BaseEq(ref: Value, test: Value, flags: map<string, bool>): Result<bool>
    requires FlagNames <= flags.Keys
  {
    if TypeName(ref) != TypeName(test) then
      if !flags["bool"] && ref.BoolVal? then Success(ref.b == Truthy(test))
      else if !flags["str"] && ref.StrVal? && test.StrVal? then Success(Lower(ref.s) == Lower(test.s))
      else Failure(InvalidTypes)
    else if !flags["str"] && ref.StrVal? && test.StrVal? then Success(Lower(ref.s) == Lower(test.s))
    else if ref.StrVal? && test.StrVal? then Success(ref.s == test.s)
    else Success(ref == test)
  }

  /** _deep_equal: the dispatch on the reference value's kind. */
  function DeepEq(ref: Value, test: Value, flags: map<string, bool>, seen: Seen): Result<Outcome>
    requires FlagNames <= flags.Keys
    decreases ref, 3, 0
  {
    match ref
    case MapVal(_, _, _) => DictEq(ref, test, flags, seen)
    case SeqVal(_, _, _) => IterEq(ref, test, flags, seen)
    case ColVal(_, _, _, _) => IterEq(ref, test, flags, seen)
    case _ =>
      match BaseEq(ref, test, flags)
      case Success(b) => Success(Outcome(b, seen))
      case Failure(e) => Failure(e)
  }

  /** _deep_dict_eq. */
  function DictEq(ref: Value, test: Value, flags: map<string, bool>, seen: Seen): Result<Outcome>
    requires FlagNames <= flags.Keys
    requires ref.MapVal?
    decreases ref, 2, 0
  {
    if flags["map"] && TypeName(ref) != TypeName(test) then Failure(InvalidTypes)
    else if !test.MapVal? then Failure(InvalidTypes)
    else match LoopStep(seen, ref.id, test.id)
      case Failure(e) => Failure(e)
      case Success((loop, seen')) =>
        if loop then Success(Outcome(true, seen'))
        else if flags["map_keys"] && |ref.entries| != |test.entries| then Failure(InvalidKeys)
        else if !(KeySet(ref.entries) <= KeySet(test.entries)) then Success(Outcome(false, seen'))
        else KeysEq(ref, test, 0, flags, seen')
  }

  /** The loop over the reference dictionary's keys, stopping at the first value that differs. */
  function KeysEq(ref: Value, test: Value, k: nat, flags: map<string, bool>, seen: Seen): Result<Outcome>
    requires FlagNames <= flags.Keys
    requires ref.MapVal? && test.MapVal? && k <= |ref.entries|
    requires KeySet(ref.entries) <= KeySet(test.entries)
    decreases ref, 1, |ref.entries| - k
  {
    if k == |ref.entries| then Success(Outcome(true, seen))
    else
      var key := KeyOf(ref.entries[k].key);
      assert key in KeySet(test.entries);
      var refVal := ref.entries[KeyIndex(ref.entries, key, 0)].val;
      var testVal := test.entries[KeyIndex(test.entries, key, 0)].val;
      match DeepEq(refVal, testVal, flags, seen)
      case Failure(e) => Failure(e)
      case Success(o) => if !o.eq then Success(o) else KeysEq(ref, test, k + 1, flags, o.seen)
  }

  /** _deep_iter_eq. */
  function IterEq(ref: Value, test: Value, flags: map<string, bool>, seen: Seen): Result<Outcome>
    requires FlagNames <= flags.Keys
    requires ref.SeqVal? || ref.ColVal?
    decreases ref, 2, 0
  {
    if flags["iter"] && TypeName(ref) != TypeName(test) then Failure(InvalidTypes)
    else if AsColl(test).None? then Failure(InvalidTypes)
    else match LoopStep(seen, ref.id, test.id)
      case Failure(e) => Failure(e)
      case Success((loop, seen')) =>
        if loop then Success(Outcome(true, seen'))
        else PairsEq(ref, Zip(AsColl(ref).value, AsColl(test).value), 0, flags, seen')
  }

  /**
   * The loop over zip_gen's pairs: the first pair that differs ends it,
   * otherwise the generator's closing exception, if any, is raised.
   */
  function PairsEq(ref: Value, z: Zipped<Value>, k: nat, flags: map<string, bool>, seen: Seen): Result<Outcome>
    requires FlagNames <= flags.Keys
    requires ref.SeqVal? || ref.ColVal?
    requires k <= |z.pairs| <= |ref.items|
    requires forall j :: 0 <= j < |z.pairs| ==> z.pairs[j].0 == ref.items[j]
    decreases ref, 1, |z.pairs| - k
  {
    if k == |z.pairs| then
      if z.raised.Some? then Failure(z.raised.value) else Success(Outcome(true, seen))
    else
      match DeepEq(z.pairs[k].0, z.pairs[k].1, flags, seen)
      case Failure(e) => Failure(e)
      case Success(o) => if !o.eq then Success(o) else PairsEq(ref, z, k + 1, flags, o.seen)
  }

  /** deep_equal: set up the switches, then compare with an empty loop detector. */
  function DeepEqual(ref: Value, test: Value, opt: StrictOption): Result<bool> {
    match StrictFlags(opt)
    case Failure(e) => Failure(e)
    case Success(flags) =>
      match DeepEq(ref, test, flags, NoneSeen)
      case Failure(e) => Failure(e)
      case Success(o) => Success(o.eq)
  }

  // ---------------------------------------------------------------------
  // Properties of the comparison.

  /** Every switch of the table is on. */
  predicate AllStrict(flags: map<string, bool>)
    requires FlagNames <= flags.Keys
  {
    forall k :: k in FlagNames ==> flags[k]
  }

  /**
   * With every switch on, values of two different types are never compared:
   * the comparison raises. (The docstring promises TypeError; the code
   * raises DeepEqualsError.)
   */
  lemma StrictTypeMismatchRaises(ref: Value, test: Value, flags: map<string, bool>, seen: Seen)
    requires FlagNames <= flags.Keys && AllStrict(flags)
    requires TypeName(ref) != TypeName(test)
    ensures DeepEq(ref, test, flags, seen) == Failure(InvalidTypes)
  {
    assert flags["map"] && flags["iter"] && flags["bool"] && flags["str"];
  }

  /** Every non-sequence inside the value defines a length. */
  ghost predicate Sized(v: Value) {
    match v
    case SeqVal(_, _, items) => forall k :: 0 <= k < |items| ==> Sized(items[k])
    case ColVal(_, _, items, sized) => sized && forall k :: 0 <= k < |items| ==> Sized(items[k])
    case MapVal(_, _, entries) => forall k :: 0 <= k < |entries| ==> Sized(entries[k].val)
    case _ => true
  }

  /** The records of a comparison of a value with itself: every container paired with itself. */
  ghost predicate SelfPaired(s: Seen) {
    s.ref.Keys == s.test.Keys && forall a :: a in s.ref ==> s.ref[a] == a && s.test[a] == a
  }

  lemma SelfPairedStep(s: Seen, id: Ident)
    requires SelfPaired(s)
    ensures LoopStep(s, id, id).Success?
    ensures SelfPaired(LoopStep(s, id, id).value.1)
    ensures LoopStep(s, id, id).value.0 ==> LoopStep(s, id, id).value.1 == s
  {
  }

  /**
   * Deep equality is reflexive: a value compared with itself is equal to it,
   * under any switches, as long as every non-sequence in it defines a length.
   */
  lemma DeepEqualReflexive(v: Value, opt: StrictOption)
    requires !opt.StrictOther?
    requires Sized(v)
    ensures DeepEqual(v, v, opt) == Success(true)
  {
    var flags := StrictFlags(opt).value;
    DeepEqRefl(v, flags, NoneSeen);
  }

  lemma {:induction false} DeepEqRefl(v: Value, flags: map<string, bool>, seen: Seen)
    requires FlagNames <= flags.Keys && SelfPaired(seen) && Sized(v)
    ensures DeepEq(v, v, flags, seen).Success?
    ensures DeepEq(v, v, flags, seen).value.eq && SelfPaired(DeepEq(v, v, flags, seen).value.seen)
    decreases v, 3, 0
  {
    match v
    case MapVal(_, _, _) => DictEqRefl(v, flags, seen);
    case SeqVal(_, _, _) => IterEqRefl(v, flags, seen);
    case ColVal(_, _, _, _) => IterEqRefl(v, flags, seen);
    case _ =>
  }

  lemma {:induction false} DictEqRefl(v: Value, flags: map<string, bool>, seen: Seen)
    requires FlagNames <= flags.Keys && SelfPaired(seen) && Sized(v) && v.MapVal?
    ensures DictEq(v, v, flags, seen).Success?
    ensures DictEq(v, v, flags, seen).value.eq && SelfPaired(DictEq(v, v, flags, seen).value.seen)
    decreases v, 2, 0
  {
    SelfPairedStep(seen, v.id);
    var step := LoopStep(seen, v.id, v.id).value;
    if !step.0 {
      KeysEqRefl(v, 0, flags, step.1);
    }
  }

  lemma {:induction false} KeysEqRefl(v: Value, k: nat, flags: map<string, bool>, seen: Seen)
    requires FlagNames <= flags.Keys && SelfPaired(seen) && Sized(v) && v.MapVal? && k <= |v.entries|
    ensures KeysEq(v, v, k, flags, seen).Success?
    ensures KeysEq(v, v, k, flags, seen).value.eq && SelfPaired(KeysEq(v, v, k, flags, seen).value.seen)
    decreases v, 1, |v.entries| - k
  {
    if k < |v.entries| {
      var key := KeyOf(v.entries[k].key);
      assert key in KeySet(v.entries);
      var j := KeyIndex(v.entries, key, 0);
      DeepEqRefl(v.entries[j].val, flags, seen);
      var o := DeepEq(v.entries[j].val, v.entries[j].val, flags, seen).value;
      KeysEqRefl(v, k + 1, flags, o.seen);
    }
  }

  lemma {:induction false} IterEqRefl(v: Value, flags: map<string, bool>, seen: Seen)
    requires FlagNames <= flags.Keys && SelfPaired(seen) && Sized(v) && (v.SeqVal? || v.ColVal?)
    ensures IterEq(v, v, flags, seen).Success?
    ensures IterEq(v, v, flags, seen).value.eq && SelfPaired(IterEq(v, v, flags, seen).value.seen)
    decreases v, 2, 0
  {
    SelfPairedStep(seen, v.id);
    var step := LoopStep(seen, v.id, v.id).value;
    if !step.0 {
      var c := AsColl(v).value;
      var z := Zip(c, c);
      assert z == ZipSteps(v.items, v.items, 0);
      PairsEqRefl(v, z, 0, flags, step.1);
    }
  }

  lemma {:induction false} PairsEqRefl(v: Value, z: Zipped<Value>, k: nat, flags: map<string, bool>, seen: Seen)
    requires FlagNames <= flags.Keys && SelfPaired(seen) && Sized(v) && (v.SeqVal? || v.ColVal?)
    requires k <= |z.pairs| <= |v.items|
    requires forall j :: 0 <= j < |z.pairs| ==> z.pairs[j] == (v.items[j], v.items[j])
    requires z.raised.None?
    ensures PairsEq(v, z, k, flags, seen).Success?
    ensures PairsEq(v, z, k, flags, seen).value.eq && SelfPaired(PairsEq(v, z, k, flags, seen).value.seen)
    decreases v, 1, |z.pairs| - k
  {
    if k < |z.pairs| {
      DeepEqRefl(v.items[k], flags, seen);
      var o := DeepEq(v.items[k], v.items[k], flags, seen).value;
      PairsEqRefl(v, z, k + 1, flags, o.seen);
    }
  }

  /** The records `s'` keep every pairing of `s`. */
  ghost predicate Extends(s: Seen, s': Seen) {
    && (forall a :: a in s.ref ==> a in s'.ref && s'.ref[a] == s.ref[a])
    && (forall b :: b in s.test ==> b in s'.test && s'.test[b] == s.test[b])
  }

  lemma ExtendsTrans(s1: Seen, s2: Seen, s3: Seen)
    requires Extends(s1, s2) && Extends(s2, s3)
    ensures Extends(s1, s3)
  {
  }

  lemma LoopStepExtends(s: Seen, refId: Ident, testId: Ident)
    requires SeenValid(s) && LoopStep(s, refId, testId).Success?
    ensures SeenValid(LoopStep(s, refId, testId).value.1)
    ensures Extends(s, LoopStep(s, refId, testId).value.1)
  {
    LoopStepValid(s, refId, testId);
  }

  /**
   * Throughout a comparison that does not raise, the detector's records
   * stay inverse to each other and only grow: a container, once paired,
   * stays paired with the same container.
   */
  lemma {:induction false} DeepEqKeepsRecords(ref: Value, test: Value, flags: map<string, bool>, seen: Seen)
    requires FlagNames <= flags.Keys && SeenValid(seen)
    requires DeepEq(ref, test, flags, seen).Success?
    ensures SeenValid(DeepEq(ref, test, flags, seen).value.seen)
    ensures Extends(seen, DeepEq(ref, test, flags, seen).value.seen)
    decreases ref, 3, 0
  {
    match ref
    case MapVal(_, _, _) => DictEqKeepsRecords(ref, test, flags, seen);
    case SeqVal(_, _, _) => IterEqKeepsRecords(ref, test, flags, seen);
    case ColVal(_, _, _, _) => IterEqKeepsRecords(ref, test, flags, seen);
    case _ =>
  }

  lemma {:induction false} DictEqKeepsRecords(ref: Value, test: Value, flags: map<string, bool>, seen: Seen)
    requires FlagNames <= flags.Keys && SeenValid(seen) && ref.MapVal?
    requires DictEq(ref, test, flags, seen).Success?
    ensures SeenValid(DictEq(ref, test, flags, seen).value.seen)
    ensures Extends(seen, DictEq(ref, test, flags, seen).value.seen)
    decreases ref, 2, 0
  {
    LoopStepExtends(seen, ref.id, test.id);
    var step := LoopStep(seen, ref.id, test.id).value;
    if !step.0 && KeySet(ref.entries) <= KeySet(test.entries) &&
      !(flags["map_keys"] && |ref.entries| != |test.entries|)
    {
      KeysEqKeepsRecords(ref, test, 0, flags, step.1);
      ExtendsTrans(seen, step.1, DictEq(ref, test, flags, seen).value.seen);
    }
  }

  lemma {:induction false} KeysEqKeepsRecords(ref: Value, test: Value, k: nat, flags: map<string, bool>, seen: Seen)
    requires FlagNames <= flags.Keys && SeenValid(seen)
    requires ref.MapVal? && test.MapVal? && k <= |ref.entries|
    requires KeySet(ref.entries) <= KeySet(test.entries)
    requires KeysEq(ref, test, k, flags, seen).Success?
    ensures SeenValid(KeysEq(ref, test, k, flags, seen).value.seen)
    ensures Extends(seen, KeysEq(ref, test, k, flags, seen).value.seen)
    decreases ref, 1, |ref.entries| - k
  {
    if k < |ref.entries| {
      var key := KeyOf(ref.entries[k].key);
      assert key in KeySet(test.entries);
      var refVal := ref.entries[KeyIndex(ref.entries, key, 0)].val;
      var testVal := test.entries[KeyIndex(test.entries, key, 0)].val;
      DeepEqKeepsRecords(refVal, testVal, flags, seen);
      var o := DeepEq(refVal, testVal, flags, seen).value;
      if o.eq {
        KeysEqKeepsRecords(ref, test, k + 1, flags, o.seen);
        ExtendsTrans(seen, o.seen, KeysEq(ref, test, k + 1, flags, o.seen).value.seen);
      }
    }
  }

  lemma {:induction false} IterEqKeepsRecords(ref: Value, test: Value, flags: map<string, bool>, seen: Seen)
    requires FlagNames <= flags.Keys && SeenValid(seen) && (ref.SeqVal? || ref.ColVal?)
    requires IterEq(ref, test, flags, seen).Success?
    ensures SeenValid(IterEq(ref, test, flags, seen).value.seen)
    ensures Extends(seen, IterEq(ref, test, flags, seen).value.seen)
    decreases ref, 2, 0
  {
    LoopStepExtends(seen, ref.id, test.id);
    var step := LoopStep(seen, ref.id, test.id).value;
    if !step.0 {
      var z := Zip(AsColl(ref).value, AsColl(test).value);
      PairsEqKeepsRecords(ref, z, 0, flags, step.1);
      ExtendsTrans(seen, step.1, PairsEq(ref, z, 0, flags, step.1).value.seen);
    }
  }

  lemma {:induction false} PairsEqKeepsRecords(ref: Value, z: Zipped<Value>, k: nat, flags: map<string, bool>, seen: Seen)
    requires FlagNames <= flags.Keys && SeenValid(seen) && (ref.SeqVal? || ref.ColVal?)
    requires k <= |z.pairs| <= |ref.items|
    requires forall j :: 0 <= j < |z.pairs| ==> z.pairs[j].0 == ref.items[j]
    requires PairsEq(ref, z, k, flags, seen).Success?
    ensures SeenValid(PairsEq(ref, z, k, flags, seen).value.seen)
    ensures Extends(seen, PairsEq(ref, z, k, flags, seen).value.seen)
    decreases ref, 1, |z.pairs| - k
  {
    if k < |z.pairs| {
      DeepEqKeepsRecords(z.pairs[k].0, z.pairs[k].1, flags, seen);
      var o := DeepEq(z.pairs[k].0, z.pairs[k].1, flags, seen).value;
      if o.eq {
        PairsEqKeepsRecords(ref, z, k + 1, flags, o.seen);
        ExtendsTrans(seen, o.seen, PairsEq(ref, z, k + 1, flags, o.seen).value.seen);
      }
    }
  }

  /**
   * A dictionary found equal, other than as a recognised loop: the test
   * value is a dictionary holding every key of the reference, and as many
   * keys when `map_keys` is strict.
   */
  lemma DictEqTrueKeys(ref: Value, test: Value, flags: map<string, bool>, seen: Seen)
    requires FlagNames <= flags.Keys && ref.MapVal? && ref.id !in seen.ref
    requires DictEq(ref, test, flags, seen).Success? && DictEq(ref, test, flags, seen).value.eq
    ensures test.MapVal? && KeySet(ref.entries) <= KeySet(test.entries)
    ensures flags["map_keys"] ==> |ref.entries| == |test.entries|
    ensures flags["map"] ==> TypeName(ref) == TypeName(test)
  {
  }

  /**
   * A reference dictionary holding a key that no key of the test
   * dictionary equals is found unequal, unless `map_keys` is strict and the key counts differ,
   * which raises.
   */
  lemma DictMissingKey(ref: Value, test: Value, flags: map<string, bool>, seen: Seen, key: Key)
    requires FlagNames <= flags.Keys && ref.MapVal? && test.MapVal?
    requires !flags["map"] || TypeName(ref) == TypeName(test)
    requires LoopStep(seen, ref.id, test.id).Success? && !LoopStep(seen, ref.id, test.id).value.0
    requires key in KeySet(ref.entries) && key !in KeySet(test.entries)
    ensures flags["map_keys"] && |ref.entries| != |test.entries| ==>
      DictEq(ref, test, flags, seen) == Failure(InvalidKeys)
    ensures !(flags["map_keys"] && |ref.entries| != |test.entries|) ==>
      DictEq(ref, test, flags, seen) == Success(Outcome(false, LoopStep(seen, ref.id, test.id).value.1))
  {
  }

  /**
   * Keys are matched by value: a string key held in another object, and
   * `True` against the key 1, find their entries, so the dictionaries
   * below are equal even with every switch strict.
   */
  lemma DictKeysByValue()
    ensures DeepEqual(MapVal(ObjId(0), "dict", [Entry(StrVal(ObjId(1), "ab", false), IntVal(1))]),
                      MapVal(ObjId(3), "dict", [Entry(StrVal(ObjId(2), "ab", false), IntVal(1))]),
                      StrictBool(true)) == Success(true)
    ensures DeepEqual(MapVal(ObjId(0), "dict", [Entry(IntVal(1), IntVal(5))]),
                      MapVal(ObjId(1), "dict", [Entry(BoolVal(true), IntVal(5))]),
                      StrictBool(true)) == Success(true)
  {
    OneEntryDictsEqual(0, 3, StrVal(ObjId(1), "ab", false), StrVal(ObjId(2), "ab", false), 1);
    OneEntryDictsEqual(0, 1, IntVal(1), BoolVal(true), 5);
  }

  /** Two one-entry dictionaries whose keys are equal and whose values are the same number. */
  lemma OneEntryDictsEqual(refId: nat, testId: nat, refKey: Value, testKey: Value, n: int)
    requires KeyOf(refKey) == KeyOf(testKey)
    ensures DeepEqual(MapVal(ObjId(refId), "dict", [Entry(refKey, IntVal(n))]),
                      MapVal(ObjId(testId), "dict", [Entry(testKey, IntVal(n))]),
                      StrictBool(true)) == Success(true)
  {
    var flags := map k | k in FlagNames :: true;
    var ref := MapVal(ObjId(refId), "dict", [Entry(refKey, IntVal(n))]);
    var test := MapVal(ObjId(testId), "dict", [Entry(testKey, IntVal(n))]);
    var seen := Seen(map[ObjId(refId) := ObjId(testId)], map[ObjId(testId) := ObjId(refId)]);
    assert KeyOf(ref.entries[0].key) == KeyOf(refKey) == KeyOf(test.entries[0].key);
    assert KeyOf(refKey) in KeySet(test.entries);
    assert KeySet(ref.entries) <= KeySet(test.entries);
    assert KeyIndex(ref.entries, KeyOf(refKey), 0) == 0 == KeyIndex(test.entries, KeyOf(refKey), 0);
    assert DeepEq(IntVal(n), IntVal(n), flags, seen) == Success(Outcome(true, seen));
    assert KeysEq(ref, test, 1, flags, seen) == Success(Outcome(true, seen));
    assert KeysEq(ref, test, 0, flags, seen) == Success(Outcome(true, seen));
    assert DictEq(ref, test, flags, NoneSeen) == Success(Outcome(true, seen));
  }

  lemma {:induction false} PairsEqTrueRaisedNothing(ref: Value, z: Zipped<Value>, k: nat, flags: map<string, bool>, seen: Seen)
    requires FlagNames <= flags.Keys && (ref.SeqVal? || ref.ColVal?)
    requires k <= |z.pairs| <= |ref.items|
    requires forall j :: 0 <= j < |z.pairs| ==> z.pairs[j].0 == ref.items[j]
    requires PairsEq(ref, z, k, flags, seen).Success? && PairsEq(ref, z, k, flags, seen).value.eq
    ensures z.raised.None?
    decreases |z.pairs| - k
  {
    if k < |z.pairs| {
      var o := DeepEq(z.pairs[k].0, z.pairs[k].1, flags, seen).value;
      PairsEqTrueRaisedNothing(ref, z, k + 1, flags, o.seen);
    }
  }

  /**
   * Two iterables found equal, other than as a recognised loop: the test
   * value is iterable, of the same sequence-ness, and has exactly as many
   * elements as the reference.
   */
  lemma IterEqTrueLengths(ref: Value, test: Value, flags: map<string, bool>, seen: Seen)
    requires FlagNames <= flags.Keys && (ref.SeqVal? || ref.ColVal?) && ref.id !in seen.ref
    requires IterEq(ref, test, flags, seen).Success? && IterEq(ref, test, flags, seen).value.eq
    ensures AsColl(test).Some?
    ensures |AsColl(test).value.items| == |ref.items|
    ensures ref.SeqVal? <==> AsColl(test).value.Sequence?
  {
    var step := LoopStep(seen, ref.id, test.id).value;
    var z := Zip(AsColl(ref).value, AsColl(test).value);
    PairsEqTrueRaisedNothing(ref, z, 0, flags, step.1);
    ZipOutcome(AsColl(ref).value, AsColl(test).value);
  }
}
