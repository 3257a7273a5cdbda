// The progression scheduler: submissions that failed the same set of test
// cases form one signature group; from every group that failed enough
// cases, up to three of the shortest submissions that still run in time
// are picked, and the groups are listed from the fewest to the most
// correct cases.
//
// Reading files, measuring lengths and running a candidate are not
// modelled: their outcomes come in as parameters. The orders in which
// Python iterates a dictionary's keys or a set come in as parameters too.
module ProgressionScheduler {
  import opened Wrappers

  const MinSignatureSize := 1
  const MaxRuntimeS := 37
  const MinNumFailed := 1
  const ProgramsToDisplay := 3

  // ---------------------------------------------------------------------
  // Python's sorted(), a stable sort, on (key, payload) pairs.

  type Keyed<T> = (int, T)

  ghost predicate SortedByKey<T>(s: seq<Keyed<T>>) {
    forall p, q :: 0 <= p < q < |s| ==> s[p].0 <= s[q].0
  }

  /** The pairs of `s` under the key `k`, in their order in `s`. */
  function WithKey<T>(s: seq<Keyed<T>>, k: int): seq<Keyed<T>> {
    if s == [] then [] else (if s[0].0 == k then [s[0]] else []) + WithKey(s[1..], k)
  }

  /** Puts `x` after every pair whose key is not greater than its own. */
  function Insert<T>(s: seq<Keyed<T>>, x: Keyed<T>): seq<Keyed<T>> {
    if s == [] then [x]
    else if x.0 < s[0].0 then [x] + s
    else [s[0]] + Insert(s[1..], x)
  }

  /** Insertion sort, taking the pairs in their input order. */
  function SortByKey<T>(s: seq<Keyed<T>>): seq<Keyed<T>> {
    if s == [] then [] else Insert(SortByKey(s[..|s| - 1]), s[|s| - 1])
  }

  lemma {:induction false} InsertKeeps<T>(s: seq<Keyed<T>>, x: Keyed<T>)
    ensures multiset(Insert(s, x)) == multiset(s) + multiset{x}
    ensures |Insert(s, x)| == |s| + 1
    ensures forall y :: y in Insert(s, x) ==> y == x || y in s
    decreases |s|
  {
    if s != [] && x.0 >= s[0].0 {
      InsertKeeps(s[1..], x);
      assert s == [s[0]] + s[1..];
    }
  }

  lemma {:induction false} InsertSorted<T>(s: seq<Keyed<T>>, x: Keyed<T>)
    requires SortedByKey(s)
    ensures SortedByKey(Insert(s, x))
    decreases |s|
  {
    if s != [] && x.0 >= s[0].0 {
      InsertSorted(s[1..], x);
      InsertBound(s[1..], x, s[0].0);
      var r := Insert(s[1..], x);
      var t := [s[0]] + r;
      forall p, q | 0 <= p < q < |t| ensures t[p].0 <= t[q].0 {
        assert t[q] == r[q - 1];
        if p > 0 {
          assert t[p] == r[p - 1];
        }
      }
    }
  }

  /** Inserting a pair whose key is at least b among pairs whose keys are at least b. */
  lemma {:induction false} InsertBound<T>(s: seq<Keyed<T>>, x: Keyed<T>, b: int)
    requires forall p :: 0 <= p < |s| ==> b <= s[p].0
    requires b <= x.0
    ensures forall p :: 0 <= p < |Insert(s, x)| ==> b <= Insert(s, x)[p].0
    decreases |s|
  {
    if s != [] && x.0 >= s[0].0 {
      InsertBound(s[1..], x, b);
      var r := Insert(s[1..], x);
      forall p | 0 <= p < |[s[0]] + r| ensures b <= ([s[0]] + r)[p].0 {
        if p > 0 {
          assert ([s[0]] + r)[p] == r[p - 1];
        }
      }
    }
  }

  /** The sort puts the keys in non-decreasing order and keeps every pair, as often as it occurs. */
  lemma {:induction false} SortByKeySorts<T>(s: seq<Keyed<T>>)
    ensures SortedByKey(SortByKey(s))
    ensures multiset(SortByKey(s)) == multiset(s)
    ensures |SortByKey(s)| == |s|
    decreases |s|
  {
    if s != [] {
      SortByKeySorts(s[..|s| - 1]);
      InsertSorted(SortByKey(s[..|s| - 1]), s[|s| - 1]);
      InsertKeeps(SortByKey(s[..|s| - 1]), s[|s| - 1]);
      assert s == s[..|s| - 1] + [s[|s| - 1]];
    }
  }

  lemma {:induction false} WithKeyAppend<T>(a: seq<Keyed<T>>, b: seq<Keyed<T>>, k: int)
    ensures WithKey(a + b, k) == WithKey(a, k) + WithKey(b, k)
    decreases |a|
  {
    if a == [] {
      assert a + b == b;
    } else {
      WithKeyAppend(a[1..], b, k);
      var h := if a[0].0 == k then [a[0]] else [];
      assert (a + b)[0] == a[0];
      assert (a + b)[1..] == a[1..] + b;
      assert WithKey(a + b, k) == h + (WithKey(a[1..], k) + WithKey(b, k));
      assert h + (WithKey(a[1..], k) + WithKey(b, k)) == (h + WithKey(a[1..], k)) + WithKey(b, k);
    }
  }

  lemma {:induction false} WithSmallerKeyNone<T>(s: seq<Keyed<T>>, k: int)
    requires SortedByKey(s) && s != [] && k < s[0].0
    ensures WithKey(s, k) == []
    decreases |s|
  {
    if |s| > 1 {
      WithSmallerKeyNone(s[1..], k);
    }
  }

  lemma {:induction false} InsertWithKey<T>(s: seq<Keyed<T>>, x: Keyed<T>, k: int)
    requires SortedByKey(s)
    ensures WithKey(Insert(s, x), k) == WithKey(s, k) + (if x.0 == k then [x] else [])
    decreases |s|
  {
    var e := if x.0 == k then [x] else [];
    if s == [] {
    } else if x.0 < s[0].0 {
      assert ([x] + s)[1..] == s;
      assert WithKey([x] + s, k) == e + WithKey(s, k);
      if x.0 == k {
        WithSmallerKeyNone(s, k);
      }
    } else {
      SortedTail(s);
      InsertWithKey(s[1..], x, k);
      var r := Insert(s[1..], x);
      var h := if s[0].0 == k then [s[0]] else [];
      assert ([s[0]] + r)[1..] == r;
      assert WithKey([s[0]] + r, k) == h + (WithKey(s[1..], k) + e);
      assert h + (WithKey(s[1..], k) + e) == (h + WithKey(s[1..], k)) + e;
    }
  }

  lemma SortedTail<T>(s: seq<Keyed<T>>)
    requires SortedByKey(s) && s != []
    ensures SortedByKey(s[1..])
  {
    forall p, q | 0 <= p < q < |s| - 1 ensures s[1..][p].0 <= s[1..][q].0 {
      assert s[1..][p] == s[p + 1] && s[1..][q] == s[q + 1];
    }
  }

  /** The sort is stable: the pairs sharing a key keep their input order. */
  lemma {:induction false} SortByKeyStable<T>(s: seq<Keyed<T>>, k: int)
    ensures WithKey(SortByKey(s), k) == WithKey(s, k)
    decreases |s|
  {
    if s != [] {
      var init, last := s[..|s| - 1], s[|s| - 1];
      assert SortByKey(s) == Insert(SortByKey(init), last);
      SortByKeyStable(init, k);
      SortByKeySorts(init);
      InsertWithKey(SortByKey(init), last, k);
      assert s == init + [last];
      WithKeyAppend(init, [last], k);
      assert [last][1..] == [];
      assert WithKey([last], k) == (if last.0 == k then [last] else []);
    }
  }

  /** `s` with every payload relabelled by `f`. */
  function Relabel<A, B>(s: seq<Keyed<A>>, f: A -> B): (r: seq<Keyed<B>>)
    ensures |r| == |s|
    ensures forall p :: 0 <= p < |s| ==> r[p] == (s[p].0, f(s[p].1))
  {
    seq(|s|, p requires 0 <= p < |s| => (s[p].0, f(s[p].1)))
  }

  lemma {:induction false} InsertRelabel<A, B>(s: seq<Keyed<A>>, x: Keyed<A>, f: A -> B)
    ensures Insert(Relabel(s, f), (x.0, f(x.1))) == Relabel(Insert(s, x), f)
    decreases |s|
  {
    if s != [] && x.0 >= s[0].0 {
      InsertRelabel(s[1..], x, f);
      assert Relabel(s, f)[1..] == Relabel(s[1..], f);
    }
  }

  /** The sort looks at keys only: relabelling the payloads commutes with it. */
  lemma {:induction false} SortByKeyRelabel<A, B>(s: seq<Keyed<A>>, f: A -> B)
    ensures SortByKey(Relabel(s, f)) == Relabel(SortByKey(s), f)
    decreases |s|
  {
    if s != [] {
      var init, last := s[..|s| - 1], s[|s| - 1];
      SortByKeyRelabel(init, f);
      assert Relabel(s, f)[..|s| - 1] == Relabel(init, f);
      InsertRelabel(SortByKey(init), last, f);
    }
  }

  /** The pairs (keys[i], payloads[i]). */
  function Pairs<T>(keys: seq<int>, payloads: seq<T>): (r: seq<Keyed<T>>)
    requires |keys| == |payloads|
    ensures |r| == |keys|
  {
    seq(|keys|, p requires 0 <= p < |keys| => (keys[p], payloads[p]))
  }

  function Payloads<T>(s: seq<Keyed<T>>): (r: seq<T>)
    ensures |r| == |s|
  {
    seq(|s|, p requires 0 <= p < |s| => s[p].1)
  }

  function Range(n: nat): (r: seq<nat>)
    ensures |r| == n && forall i :: 0 <= i < n ==> r[i] == i
  {
    seq(n, i => i)
  }

  /** sorted(range(len(keys)), key=keys.__getitem__): the positions, stably ordered by their keys. */
  function SortedPositions(keys: seq<int>): seq<nat> {
    Payloads<nat>(SortByKey<nat>(Pairs<nat>(keys, Range(|keys|))))
  }

  /** The sorted positions are the positions 0 .. |keys| - 1, each once. */
  lemma SortedPositionsRange(keys: seq<int>)
    ensures |SortedPositions(keys)| == |keys|
    ensures forall p :: 0 <= p < |keys| ==> SortedPositions(keys)[p] < |keys|
    ensures multiset(SortedPositions(keys)) == multiset(Range(|keys|))
  {
    var idx := Pairs<nat>(keys, Range(|keys|));
    SortByKeySorts<nat>(idx);
    SortByKeyPayloads<nat>(idx);
    assert Payloads<nat>(idx) == Range(|keys|);
    var sorted := SortByKey<nat>(idx);
    forall p | 0 <= p < |keys| ensures sorted[p].1 < |keys| {
      assert sorted[p] in multiset(idx);
      var j :| 0 <= j < |idx| && idx[j] == sorted[p];
    }
  }

  /** Sorting the positions and then reading the payloads sorts the payloads themselves. */
  lemma SortedPositionsSelect<T>(keys: seq<int>, payloads: seq<T>)
    requires |keys| == |payloads|
    ensures |SortedPositions(keys)| == |keys|
    ensures forall p :: 0 <= p < |keys| ==> SortedPositions(keys)[p] < |payloads|
    ensures Payloads<T>(SortByKey<T>(Pairs<T>(keys, payloads))) ==
      seq(|keys|, p requires 0 <= p < |keys| => payloads[SortedPositions(keys)[p]])
  {
    SortedPositionsRange(keys);
    if |keys| > 0 {
      var idx := Pairs<nat>(keys, Range(|keys|));
      var f: nat -> T := (i: nat) => if i < |payloads| then payloads[i] else payloads[0];
      assert Relabel<nat, T>(idx, f) == Pairs<T>(keys, payloads);
      SortByKeyRelabel<nat, T>(idx, f);
    }
  }

  // ---------------------------------------------------------------------
  // dict_sort.

  /**
   * The first loop of dict_sort: the metric of every candidate's file, or
   * the IndexError or KeyError of the first lookup that fails.
   */
  function Metrics(allFiles: seq<string>, cands: seq<nat>, dic: map<string, int>): (r: Result<seq<int>>)
    ensures r.Success? ==> |r.value| == |cands|
    decreases |cands|
  {
    if cands == [] then Success([])
    else if cands[0] >= |allFiles| then Failure("IndexError")
    else if allFiles[cands[0]] !in dic then Failure("KeyError")
    else match Metrics(allFiles, cands[1..], dic)
      case Failure(e) => Failure(e)
      case Success(rest) => Success([dic[allFiles[cands[0]]]] + rest)
  }

  /**
   * The lookups fail exactly when some candidate has no file or its file
   * no metric; otherwise each candidate gets the metric of its file.
   */
  lemma {:induction false} MetricsLookUp(allFiles: seq<string>, cands: seq<nat>, dic: map<string, int>)
    ensures Metrics(allFiles, cands, dic).Failure? <==>
      exists p :: 0 <= p < |cands| && (cands[p] >= |allFiles| || allFiles[cands[p]] !in dic)
    ensures Metrics(allFiles, cands, dic).Success? ==> forall p :: 0 <= p < |cands| ==>
      cands[p] < |allFiles| && allFiles[cands[p]] in dic && Metrics(allFiles, cands, dic).value[p] == dic[allFiles[cands[p]]]
    decreases |cands|
  {
    if cands != [] && cands[0] < |allFiles| && allFiles[cands[0]] in dic {
      MetricsLookUp(allFiles, cands[1..], dic);
      assert forall p :: 1 <= p < |cands| ==> cands[p] == cands[1..][p - 1];
      if Metrics(allFiles, cands[1..], dic).Failure? {
        var p :| 0 <= p < |cands[1..]| && (cands[1..][p] >= |allFiles| || allFiles[cands[1..][p]] !in dic);
        assert cands[p + 1] == cands[1..][p];
      }
    }
  }

  /** The candidates, stably sorted by the metric of their file. */
  function DictSortSpec(allFiles: seq<string>, cands: seq<nat>, dic: map<string, int>): Result<seq<nat>> {
    match Metrics(allFiles, cands, dic)
    case Failure(e) => Failure(e)
    case Success(lst) => Success(Payloads<nat>(SortByKey<nat>(Pairs<nat>(lst, cands))))
  }

  /** Every candidate names a file that has a metric. */
  ghost predicate Measured(fs: seq<nat>, allFiles: seq<string>, dic: map<string, int>) {
    forall p :: 0 <= p < |fs| ==> fs[p] < |allFiles| && allFiles[fs[p]] in dic
  }

  /** The candidates of `fs` whose file has the metric `m`, in their order in `fs`. */
  function WithMetric(fs: seq<nat>, allFiles: seq<string>, dic: map<string, int>, m: int): seq<nat>
    requires Measured(fs, allFiles, dic)
  {
    if fs == [] then []
    else (if dic[allFiles[fs[0]]] == m then [fs[0]] else []) + WithMetric(fs[1..], allFiles, dic, m)
  }

  /** Every pair carries the metric of its candidate's file as its key. */
  ghost predicate Labelled(s: seq<Keyed<nat>>, allFiles: seq<string>, dic: map<string, int>) {
    forall p :: 0 <= p < |s| ==> s[p].1 < |allFiles| && allFiles[s[p].1] in dic && s[p].0 == dic[allFiles[s[p].1]]
  }

  lemma {:induction false} InsertPayloads<T>(s: seq<Keyed<T>>, x: Keyed<T>)
    ensures multiset(Payloads(Insert(s, x))) == multiset(Payloads(s)) + multiset{x.1}
    decreases |s|
  {
    if s == [] {
    } else if x.0 < s[0].0 {
      assert Payloads([x] + s) == [x.1] + Payloads(s);
    } else {
      InsertPayloads(s[1..], x);
      assert Payloads([s[0]] + Insert(s[1..], x)) == [s[0].1] + Payloads(Insert(s[1..], x));
      assert Payloads(s) == [s[0].1] + Payloads(s[1..]);
    }
  }

  lemma {:induction false} SortByKeyPayloads<T>(s: seq<Keyed<T>>)
    ensures multiset(Payloads(SortByKey(s))) == multiset(Payloads(s))
    decreases |s|
  {
    if s != [] {
      var init, last := s[..|s| - 1], s[|s| - 1];
      SortByKeyPayloads(init);
      InsertPayloads(SortByKey(init), last);
      assert Payloads(s) == Payloads(init) + [last.1];
    }
  }

  lemma {:induction false} LabelledWithKey(s: seq<Keyed<nat>>, allFiles: seq<string>, dic: map<string, int>, m: int)
    requires Labelled(s, allFiles, dic)
    ensures Measured(Payloads(s), allFiles, dic)
    ensures Payloads(WithKey(s, m)) == WithMetric(Payloads(s), allFiles, dic, m)
    decreases |s|
  {
    if s != [] {
      LabelledWithKey(s[1..], allFiles, dic, m);
      assert Payloads(s)[1..] == Payloads(s[1..]);
      assert Payloads(WithKey(s, m)) ==
        Payloads(if s[0].0 == m then [s[0]] else []) + Payloads(WithKey(s[1..], m));
    }
  }

  /** Sorting keeps every pair, so it keeps the pairs labelled. */
  lemma LabelledSorted(pairs: seq<Keyed<nat>>, allFiles: seq<string>, dic: map<string, int>)
    requires Labelled(pairs, allFiles, dic)
    ensures Labelled(SortByKey<nat>(pairs), allFiles, dic)
  {
    var sorted := SortByKey<nat>(pairs);
    SortByKeySorts<nat>(pairs);
    forall p | 0 <= p < |sorted|
      ensures sorted[p].1 < |allFiles| && allFiles[sorted[p].1] in dic && sorted[p].0 == dic[allFiles[sorted[p].1]]
    {
      assert sorted[p] in multiset(pairs);
      var j :| 0 <= j < |pairs| && pairs[j] == sorted[p];
    }
  }

  /**
   * When every lookup succeeds, dict_sort returns the same candidates, as
   * often as they were given, in non-decreasing order of their metric, and
   * candidates with equal metrics keep the order they were given in.
   */
  lemma DictSortOrders(allFiles: seq<string>, cands: seq<nat>, dic: map<string, int>)
    requires Measured(cands, allFiles, dic)
    ensures DictSortSpec(allFiles, cands, dic).Success?
    ensures var ret := DictSortSpec(allFiles, cands, dic).value;
      && multiset(ret) == multiset(cands)
      && Measured(ret, allFiles, dic)
      && (forall p, q :: 0 <= p < q < |ret| ==> dic[allFiles[ret[p]]] <= dic[allFiles[ret[q]]])
      && (forall m :: WithMetric(ret, allFiles, dic, m) == WithMetric(cands, allFiles, dic, m))
  {
    MetricsLookUp(allFiles, cands, dic);
    var lst := Metrics(allFiles, cands, dic).value;
    var pairs := Pairs<nat>(lst, cands);
    var sorted := SortByKey<nat>(pairs);
    SortByKeySorts<nat>(pairs);
    SortByKeyPayloads<nat>(pairs);
    assert Payloads<nat>(pairs) == cands;
    assert Labelled(pairs, allFiles, dic);
    LabelledSorted(pairs, allFiles, dic);
    LabelledWithKey(sorted, allFiles, dic, 0);
    forall m ensures WithMetric(Payloads<nat>(sorted), allFiles, dic, m) == WithMetric(cands, allFiles, dic, m) {
      SortByKeyStable<nat>(pairs, m);
      LabelledWithKey(sorted, allFiles, dic, m);
      LabelledWithKey(pairs, allFiles, dic, m);
    }
  }

  /** dict_sort: the candidates, stably sorted by the metric of their file. */
  method DictSort(allFiles: seq<string>, cands: seq<nat>, dic: map<string, int>) returns (r: Result<seq<nat>>)
    ensures r == DictSortSpec(allFiles, cands, dic)
  {
    var looked := LookUpMetrics(allFiles, cands, dic);
    if looked.Failure? {
      return Failure(looked.error);
    }
    var lst := looked.value;
    var indexList := SortedPositions(lst);
    SortedPositionsSelect<nat>(lst, cands);
    var ret: seq<nat> := [];
    var i := 0;
    while i < |indexList|
      invariant i <= |indexList| == |cands|
      invariant ret == seq(i, p requires 0 <= p < i => cands[indexList[p]])
    {
      ret := ret + [cands[indexList[i]]];
      i := i + 1;
    }
    ghost var sorted := Payloads<nat>(SortByKey<nat>(Pairs<nat>(lst, cands)));
    assert |ret| == |sorted|;
    assert forall p :: 0 <= p < |ret| ==> ret[p] == sorted[p];
    assert ret == sorted;
    assert DictSortSpec(allFiles, cands, dic) == Success(sorted);
    r := Success(ret);
  }

  /** The first loop of dict_sort. */
  method LookUpMetrics(allFiles: seq<string>, cands: seq<nat>, dic: map<string, int>) returns (r: Result<seq<int>>)
    ensures r == Metrics(allFiles, cands, dic)
  {
    var lst: seq<int> := [];
    var k := 0;
    assert cands[0..] == cands;
    match Metrics(allFiles, cands, dic) {
      case Success(rest) => assert lst + rest == rest;
      case Failure(_) =>
    }
    while k < |cands|
      invariant k <= |cands|
      invariant Metrics(allFiles, cands, dic) == MetricsFrom(allFiles, cands, dic, lst, k)
    {
      var findex := cands[k];
      assert cands[k..][0] == findex;
      if findex >= |allFiles| {
        return Failure("IndexError");
      }
      if allFiles[findex] !in dic {
        return Failure("KeyError");
      }
      assert cands[k..][1..] == cands[k + 1..];
      match Metrics(allFiles, cands[k + 1..], dic) {
        case Success(rest) =>
          assert lst + ([dic[allFiles[findex]]] + rest) == (lst + [dic[allFiles[findex]]]) + rest;
        case Failure(_) =>
      }
      lst := lst + [dic[allFiles[findex]]];
      k := k + 1;
    }
    assert Metrics(allFiles, cands[k..], dic) == Success([]);
    assert lst + [] == lst;
    r := Success(lst);
  }

  /** The lookups still to do after `k` candidates were looked up into `lst`. */
  function MetricsFrom(allFiles: seq<string>, cands: seq<nat>, dic: map<string, int>, lst: seq<int>, k: nat): Result<seq<int>>
    requires k <= |cands|
  {
    match Metrics(allFiles, cands[k..], dic)
    case Failure(e) => Failure(e)
    case Success(rest) => Success(lst + rest)
  }

  /** A successful dict_sort lists only positions of the file list. */
  lemma DictSortIndices(allFiles: seq<string>, cands: seq<nat>, dic: map<string, int>)
    requires DictSortSpec(allFiles, cands, dic).Success?
    ensures forall p :: 0 <= p < |DictSortSpec(allFiles, cands, dic).value| ==> DictSortSpec(allFiles, cands, dic).value[p] < |allFiles|
  {
    DictSortFails(allFiles, cands, dic);
    DictSortOrders(allFiles, cands, dic);
  }

  /** dict_sort fails exactly when some candidate has no file or its file has no metric. */
  lemma DictSortFails(allFiles: seq<string>, cands: seq<nat>, dic: map<string, int>)
    ensures DictSortSpec(allFiles, cands, dic).Failure? <==> !Measured(cands, allFiles, dic)
  {
    MetricsLookUp(allFiles, cands, dic);
  }

  // ---------------------------------------------------------------------
  // get_monitor: grouping the submissions by their signature, the set of
  // cases they failed. The SHA-224 digest of the serialised set stands in
  // the source for the set itself; it is taken to be injective, and equal
  // sets are taken to serialise alike (json.dumps of list(set) follows the
  // set's iteration order), so the set is the key here, and the source's
  // hashmonitor, which maps each digest back to its set, becomes the
  // identity.

  /** The files of `done` under each failure set that one of them has. */
  function GroupsOf(fileCase: map<nat, set<nat>>, done: set<nat>): map<set<nat>, set<nat>>
    requires done <= fileCase.Keys
  {
    map sig | sig in Signatures(fileCase, done) :: set f | f in done && fileCase[f] == sig
  }

  function Signatures(fileCase: map<nat, set<nat>>, done: set<nat>): set<set<nat>>
    requires done <= fileCase.Keys
  {
    set f | f in done :: fileCase[f]
  }

  function Groups(fileCase: map<nat, set<nat>>): map<set<nat>, set<nat>> {
    GroupsOf(fileCase, fileCase.Keys)
  }

  /**
   * Every file lies in the group of its own failure set and in no other;
   * no group is empty.
   */
  lemma GroupsPartition(fileCase: map<nat, set<nat>>)
    ensures forall f :: f in fileCase ==> fileCase[f] in Groups(fileCase) && f in Groups(fileCase)[fileCase[f]]
    ensures forall sig, f :: sig in Groups(fileCase) && f in Groups(fileCase)[sig] ==>
      f in fileCase && fileCase[f] == sig
    ensures forall sig :: sig in Groups(fileCase) ==> Groups(fileCase)[sig] != {}
  {
    forall sig | sig in Groups(fileCase) ensures Groups(fileCase)[sig] != {} {
      var f :| f in fileCase && fileCase[f] == sig;
      assert f in Groups(fileCase)[sig];
    }
  }

  /**
   * A group's number of correct cases is what each of its files passed,
   * when failures are recorded only for known cases.
   */
  lemma GroupCorrectCount(fileCase: map<nat, set<nat>>, cases: set<nat>, sig: set<nat>, f: nat)
    requires forall g :: g in fileCase ==> fileCase[g] <= cases
    requires sig in Groups(fileCase) && f in Groups(fileCase)[sig]
    ensures |cases| - |sig| == |cases - fileCase[f]|
  {
    GroupsPartition(fileCase);
    assert cases == (cases - sig) + sig;
  }

  lemma GroupsOfAdd(fileCase: map<nat, set<nat>>, done: set<nat>, f: nat)
    requires done <= fileCase.Keys && f in fileCase && f !in done
    ensures var g := GroupsOf(fileCase, done);
      GroupsOf(fileCase, done + {f}) ==
        if fileCase[f] in g then g[fileCase[f] := g[fileCase[f]] + {f}] else g[fileCase[f] := {f}]
  {
    var g := GroupsOf(fileCase, done);
    var h := GroupsOf(fileCase, done + {f});
    var want := if fileCase[f] in g then g[fileCase[f] := g[fileCase[f]] + {f}] else g[fileCase[f] := {f}];
    assert h.Keys == want.Keys;
    forall sig | sig in h ensures h[sig] == want[sig] {
    }
  }

  /** get_monitor's loop: each file joins the group of its failure set. */
  method GetMonitor(fileCase: map<nat, set<nat>>) returns (monitor: map<set<nat>, set<nat>>)
    ensures monitor == Groups(fileCase)
  {
    monitor := map[];
    var todo := fileCase.Keys;
    assert GroupsOf(fileCase, {}) == map[];
    while todo != {}
      invariant todo <= fileCase.Keys
      invariant monitor == GroupsOf(fileCase, fileCase.Keys - todo)
      decreases todo
    {
      var findex :| findex in todo;
      var key := fileCase[findex];
      GroupsOfAdd(fileCase, fileCase.Keys - todo, findex);
      assert (fileCase.Keys - todo) + {findex} == fileCase.Keys - (todo - {findex});
      if key in monitor {
        monitor := monitor[key := monitor[key] + {findex}];
      } else {
        monitor := monitor[key := {findex}];
      }
      todo := todo - {findex};
    }
    assert fileCase.Keys - todo == fileCase.Keys;
  }

  // ---------------------------------------------------------------------
  // Picking up to three candidates of a signature.

  /**
   * The candidate was shown: test_candidate accepted it within
   * MAX_RUNTIME_S seconds. Both come from running the candidate, so both
   * are parameters.
   */
  predicate Runs(testFlag: string -> bool, duration: string -> real, name: string) {
    testFlag(name) && duration(name) < MaxRuntimeS as real
  }

  /** The candidates that run, in their order. */
  function Passing(names: seq<string>, testFlag: string -> bool, duration: string -> real): (r: seq<string>)
    ensures forall n :: n in r <==> n in names && Runs(testFlag, duration, n)
  {
    if names == [] then []
    else (if Runs(testFlag, duration, names[0]) then [names[0]] else []) + Passing(names[1..], testFlag, duration)
  }

  function Take(s: seq<string>, n: nat): seq<string> {
    if |s| <= n then s else s[..n]
  }

  /** The loop over the sorted candidates, with its `picked` counter. */
  function Pick(names: seq<string>, testFlag: string -> bool, duration: string -> real, picked: nat): seq<string>
    requires picked <= ProgramsToDisplay
    decreases |names|
  {
    if names == [] || picked == ProgramsToDisplay then []
    else if Runs(testFlag, duration, names[0]) then [names[0]] + Pick(names[1..], testFlag, duration, picked + 1)
    else Pick(names[1..], testFlag, duration, picked)
  }

  /** The loop keeps the first candidates that run, as many as may still be shown. */
  lemma {:induction false} PickTakesFirstPassing(names: seq<string>, testFlag: string -> bool, duration: string -> real, picked: nat)
    requires picked <= ProgramsToDisplay
    ensures Pick(names, testFlag, duration, picked) == Take(Passing(names, testFlag, duration), ProgramsToDisplay - picked)
    decreases |names|
  {
    if names != [] && picked < ProgramsToDisplay {
      PickTakesFirstPassing(names[1..], testFlag, duration, if Runs(testFlag, duration, names[0]) then picked + 1 else picked);
    }
  }

  /**
   * At most PROGRAMS_TO_DISPLAY candidates are picked, each of them runs,
   * and a candidate that runs is left out only when three were picked
   * before it.
   */
  lemma PickBounded(names: seq<string>, testFlag: string -> bool, duration: string -> real)
    ensures var r := Pick(names, testFlag, duration, 0);
      && |r| <= ProgramsToDisplay
      && (forall n :: n in r ==> n in names && Runs(testFlag, duration, n))
      && (|r| < ProgramsToDisplay ==> forall n :: n in names && Runs(testFlag, duration, n) ==> n in r)
  {
    PickTakesFirstPassing(names, testFlag, duration, 0);
    var ps := Passing(names, testFlag, duration);
    if |ps| > ProgramsToDisplay {
      forall n | n in ps[..ProgramsToDisplay] ensures n in ps {
        var j :| 0 <= j < ProgramsToDisplay && ps[..ProgramsToDisplay][j] == n;
        assert ps[j] == n;
      }
    }
  }

  function Names(allFiles: seq<string>, cands: seq<nat>): (r: seq<string>)
    requires forall p :: 0 <= p < |cands| ==> cands[p] < |allFiles|
    ensures |r| == |cands|
  {
    seq(|cands|, p requires 0 <= p < |cands| => allFiles[cands[p]])
  }

  /** The inner loop of pick_programs over one signature's sorted candidates. */
  method PickCandidates(allFiles: seq<string>, cands: seq<nat>, testFlag: string -> bool, duration: string -> real)
    returns (names: seq<string>)
    requires forall p :: 0 <= p < |cands| ==> cands[p] < |allFiles|
    ensures names == Pick(Names(allFiles, cands), testFlag, duration, 0)
  {
    ghost var all := Names(allFiles, cands);
    names := [];
    var picked := 0;
    var k := 0;
    assert all[0..] == all;
    while k < |cands|
      invariant k <= |cands| && picked <= ProgramsToDisplay
      invariant names + Pick(all[k..], testFlag, duration, picked) == Pick(all, testFlag, duration, 0)
    {
      if picked == ProgramsToDisplay {
        break;
      }
      var candidate := allFiles[cands[k]];
      assert all[k..][0] == candidate && all[k..][1..] == all[k + 1..];
      if Runs(testFlag, duration, candidate) {
        names := names + [candidate];
        picked := picked + 1;
      }
      k := k + 1;
    }
    assert names + [] == names;
  }

  // ---------------------------------------------------------------------
  // pick_programs.

  /**
   * What pick_programs works from: the number of test cases, the signature
   * groups, the order in which the groups' keys are visited, the order in
   * which each group's set of files is listed, the file names by index,
   * the length of each file, and the outcome and duration of running each
   * candidate.
   */
  datatype Scheduling = Scheduling(
    numCases: int,
    monitor: map<set<nat>, set<nat>>,
    listed: set<nat> -> seq<nat>,
    allFiles: seq<string>,
    lengths: map<string, int>,
    testFlag: string -> bool,
    duration: string -> real)

  /** One signature's entry: its number of correct cases and the candidates shown for it. */
  datatype Selection = Selection(correct: int, names: seq<string>)

  /** The signature is common enough and failed enough cases to be shown. */
  predicate Qualifies(sig: set<nat>, files: set<nat>) {
    |files| >= MinSignatureSize && |sig| >= MinNumFailed
  }

  /** The body of pick_programs' loop for one signature. */
  function SelectFor(sc: Scheduling, sig: set<nat>): Result<Option<Selection>>
    requires sig in sc.monitor
  {
    if !Qualifies(sig, sc.monitor[sig]) then Success(None)
    else
      var cands := sc.listed(sc.monitor[sig]);
      match DictSortSpec(sc.allFiles, cands, sc.lengths)
      case Failure(e) => Failure(e)
      case Success(sorted) =>
        DictSortIndices(sc.allFiles, cands, sc.lengths);
        Success(Some(Selection(sc.numCases - |sig|, Pick(Names(sc.allFiles, sorted), sc.testFlag, sc.duration, 0))))
  }

  /** pick_programs' loop over the signatures, visited in the order `keys`. */
  function Selections(sc: Scheduling, keys: seq<set<nat>>): Result<seq<Selection>>
    requires forall p :: 0 <= p < |keys| ==> keys[p] in sc.monitor
    decreases |keys|
  {
    if keys == [] then Success([])
    else match SelectFor(sc, keys[0])
      case Failure(e) => Failure(e)
      case Success(one) =>
        match Selections(sc, keys[1..])
        case Failure(e) => Failure(e)
        case Success(rest) => Success((if one.Some? then [one.value] else []) + rest)
  }

  function Corrects(sels: seq<Selection>): (r: seq<int>)
    ensures |r| == |sels| && forall p :: 0 <= p < |sels| ==> r[p] == sels[p].correct
  {
    seq(|sels|, p requires 0 <= p < |sels| => sels[p].correct)
  }

  /** The selections in the order they are written out: by their positions sorted on the correct counts. */
  function Ordered(sels: seq<Selection>): seq<Selection> {
    SortedPositionsRange(Corrects(sels));
    var order := SortedPositions(Corrects(sels));
    seq(|sels|, p requires 0 <= p < |sels| => sels[order[p]])
  }

  /** pick_programs: the selections of the qualifying signatures, in writing order. */
  function PickProgramsSpec(sc: Scheduling, keys: seq<set<nat>>): Result<seq<Selection>>
    requires forall p :: 0 <= p < |keys| ==> keys[p] in sc.monitor
  {
    match Selections(sc, keys)
    case Failure(e) => Failure(e)
    case Success(sels) => Success(Ordered(sels))
  }

  /** The selections of `sels` with `c` correct cases, in their order in `sels`. */
  function WithCorrect(sels: seq<Selection>, c: int): seq<Selection> {
    if sels == [] then [] else (if sels[0].correct == c then [sels[0]] else []) + WithCorrect(sels[1..], c)
  }

  lemma {:induction false} CorrectWithKey(s: seq<Keyed<Selection>>, c: int)
    requires forall p :: 0 <= p < |s| ==> s[p].0 == s[p].1.correct
    ensures Payloads<Selection>(WithKey<Selection>(s, c)) == WithCorrect(Payloads<Selection>(s), c)
    decreases |s|
  {
    if s != [] {
      CorrectWithKey(s[1..], c);
      assert Payloads<Selection>(s)[1..] == Payloads<Selection>(s[1..]);
      assert Payloads<Selection>(WithKey<Selection>(s, c)) ==
        Payloads<Selection>(if s[0].0 == c then [s[0]] else []) + Payloads<Selection>(WithKey<Selection>(s[1..], c));
    }
  }

  /**
   * The selections are written out from the fewest to the most correct
   * cases; every selection is written once, and selections with equal
   * counts keep the order in which their signatures were visited.
   */
  lemma OrderedSorts(sels: seq<Selection>)
    ensures multiset(Ordered(sels)) == multiset(sels)
    ensures forall p, q :: 0 <= p < q < |Ordered(sels)| ==> Ordered(sels)[p].correct <= Ordered(sels)[q].correct
    ensures forall c :: WithCorrect(Ordered(sels), c) == WithCorrect(sels, c)
  {
    var pairs := Pairs<Selection>(Corrects(sels), sels);
    SortedPositionsSelect<Selection>(Corrects(sels), sels);
    var sorted := SortByKey<Selection>(pairs);
    assert Ordered(sels) == Payloads<Selection>(sorted);
    SortByKeySorts<Selection>(pairs);
    SortByKeyPayloads<Selection>(pairs);
    assert Payloads<Selection>(pairs) == sels;
    forall p | 0 <= p < |sorted| ensures sorted[p].0 == sorted[p].1.correct {
      assert sorted[p] in multiset(pairs);
      var j :| 0 <= j < |pairs| && pairs[j] == sorted[p];
    }
    forall c ensures WithCorrect(Ordered(sels), c) == WithCorrect(sels, c) {
      SortByKeyStable<Selection>(pairs, c);
      CorrectWithKey(sorted, c);
      CorrectWithKey(pairs, c);
    }
  }

  /** The visited signatures that qualify, in visiting order. */
  function Qualifying(sc: Scheduling, keys: seq<set<nat>>): seq<set<nat>>
    requires forall p :: 0 <= p < |keys| ==> keys[p] in sc.monitor
  {
    if keys == [] then []
    else (if Qualifies(keys[0], sc.monitor[keys[0]]) then [keys[0]] else []) + Qualifying(sc, keys[1..])
  }

  /** `xs` lists the set `s`: each element once and nothing else, as `list()` of a set does. */
  ghost predicate Lists<T(!new)>(xs: seq<T>, s: set<T>) {
    && (forall i, j :: 0 <= i < j < |xs| ==> xs[i] != xs[j])
    && (forall x :: x in xs <==> x in s)
  }

  /** Listing a group gives that group's files, each once. */
  ghost predicate ListsGroups(sc: Scheduling) {
    forall sig :: sig in sc.monitor ==> Lists(sc.listed(sc.monitor[sig]), sc.monitor[sig])
  }

  /** Every file of the signature's group has a name and a metric. */
  ghost predicate GroupMeasured(sc: Scheduling, sig: set<nat>)
    requires sig in sc.monitor
  {
    forall c :: c in sc.monitor[sig] ==> c < |sc.allFiles| && sc.allFiles[c] in sc.lengths
  }

  /** The signatures of the monitor that qualify. */
  ghost function QualifyingSet(sc: Scheduling): set<set<nat>> {
    set sig | sig in sc.monitor && Qualifies(sig, sc.monitor[sig])
  }

  /**
   * `sel` is what the signature `sig` shows: the signature qualifies, its
   * correct count is the number of cases less the ones it failed, every
   * file of its group is measured, and the shown names are at most three
   * files of its group, each of which runs; fewer than three are shown
   * only when no other file of the group runs.
   */
  ghost predicate ChosenFor(sc: Scheduling, sig: set<nat>, sel: Selection) {
    && sig in sc.monitor
    && Qualifies(sig, sc.monitor[sig])
    && sel.correct == sc.numCases - |sig|
    && |sel.names| <= ProgramsToDisplay
    && GroupMeasured(sc, sig)
    && (forall n :: n in sel.names ==>
         Runs(sc.testFlag, sc.duration, n) && exists c :: c in sc.monitor[sig] && sc.allFiles[c] == n)
    && (|sel.names| < ProgramsToDisplay ==> forall c :: c in sc.monitor[sig] && Runs(sc.testFlag, sc.duration, sc.allFiles[c]) ==>
         sc.allFiles[c] in sel.names)
  }

  /** list(monitor[sig]): the signature's files in the order the set is listed. */
  function Candidates(sc: Scheduling, sig: set<nat>): seq<nat>
    requires sig in sc.monitor
  {
    sc.listed(sc.monitor[sig])
  }

  /** The candidates are the group's files, so they are measured exactly when the group is. */
  lemma CandidatesGroup(sc: Scheduling, sig: set<nat>)
    requires ListsGroups(sc) && sig in sc.monitor
    ensures forall c :: c in Candidates(sc, sig) <==> c in sc.monitor[sig]
    ensures Measured(Candidates(sc, sig), sc.allFiles, sc.lengths) <==> GroupMeasured(sc, sig)
  {
    var cands := Candidates(sc, sig);
    assert Lists(cands, sc.monitor[sig]);
    if Measured(cands, sc.allFiles, sc.lengths) {
      forall c | c in sc.monitor[sig] ensures c < |sc.allFiles| && sc.allFiles[c] in sc.lengths {
        var p :| 0 <= p < |cands| && cands[p] == c;
      }
    }
    if GroupMeasured(sc, sig) {
      forall p | 0 <= p < |cands| ensures cands[p] < |sc.allFiles| && sc.allFiles[cands[p]] in sc.lengths {
        assert cands[p] in cands;
      }
    }
  }

  /** One signature: skipped, failing on a missing file or metric, or showing its picks. */
  lemma SelectForChooses(sc: Scheduling, sig: set<nat>)
    requires ListsGroups(sc) && sig in sc.monitor
    ensures SelectFor(sc, sig) == Success(None) <==> !Qualifies(sig, sc.monitor[sig])
    ensures SelectFor(sc, sig).Failure? <==> Qualifies(sig, sc.monitor[sig]) && !GroupMeasured(sc, sig)
    ensures SelectFor(sc, sig).Success? && SelectFor(sc, sig).value.Some? ==>
      ChosenFor(sc, sig, SelectFor(sc, sig).value.value)
  {
    CandidatesGroup(sc, sig);
    var cands := sc.listed(sc.monitor[sig]);
    DictSortFails(sc.allFiles, cands, sc.lengths);
    if Qualifies(sig, sc.monitor[sig]) && Measured(cands, sc.allFiles, sc.lengths) {
      DictSortOrders(sc.allFiles, cands, sc.lengths);
      var sorted := DictSortSpec(sc.allFiles, cands, sc.lengths).value;
      var names := Names(sc.allFiles, sorted);
      PickBounded(names, sc.testFlag, sc.duration);
      var sel := SelectFor(sc, sig).value.value;
      forall n | n in names ensures exists c :: c in cands && sc.allFiles[c] == n {
        var i :| 0 <= i < |names| && names[i] == n;
        assert sorted[i] in multiset(cands);
      }
      forall c | c in cands ensures sc.allFiles[c] in names {
        assert c in multiset(sorted);
        var i :| 0 <= i < |sorted| && sorted[i] == c;
        assert names[i] == sc.allFiles[c];
      }
    }
  }

  /**
   * The loop over the signatures fails exactly when a file of a qualifying
   * signature's group has no name or no metric; otherwise it yields one
   * selection per qualifying signature, in visiting order.
   */
  lemma SelectionsChoose(sc: Scheduling, keys: seq<set<nat>>)
    requires forall p :: 0 <= p < |keys| ==> keys[p] in sc.monitor
    requires ListsGroups(sc)
    ensures Selections(sc, keys).Failure? <==>
      (exists p :: 0 <= p < |keys| && Qualifies(keys[p], sc.monitor[keys[p]]) && !GroupMeasured(sc, keys[p]))
    ensures Selections(sc, keys).Success? ==>
      && |Selections(sc, keys).value| == |Qualifying(sc, keys)|
      && forall p :: 0 <= p < |Qualifying(sc, keys)| ==> ChosenFor(sc, Qualifying(sc, keys)[p], Selections(sc, keys).value[p])
  {
    SelectionsFail(sc, keys);
    SelectionsChosen(sc, keys);
  }

  lemma {:induction false} SelectionsFail(sc: Scheduling, keys: seq<set<nat>>)
    requires forall p :: 0 <= p < |keys| ==> keys[p] in sc.monitor
    requires ListsGroups(sc)
    ensures Selections(sc, keys).Failure? <==>
      (exists p :: 0 <= p < |keys| && Qualifies(keys[p], sc.monitor[keys[p]]) && !GroupMeasured(sc, keys[p]))
    decreases |keys|
  {
    if keys != [] {
      SelectForChooses(sc, keys[0]);
      SelectionsFail(sc, keys[1..]);
      assert forall p :: 1 <= p < |keys| ==> keys[p] == keys[1..][p - 1];
      if Selections(sc, keys[1..]).Failure? {
        var p :| 0 <= p < |keys[1..]| && Qualifies(keys[1..][p], sc.monitor[keys[1..][p]])
          && !GroupMeasured(sc, keys[1..][p]);
        assert keys[p + 1] == keys[1..][p];
      }
    }
  }

  lemma {:induction false} SelectionsChosen(sc: Scheduling, keys: seq<set<nat>>)
    requires forall p :: 0 <= p < |keys| ==> keys[p] in sc.monitor
    requires ListsGroups(sc)
    ensures Selections(sc, keys).Success? ==>
      && |Selections(sc, keys).value| == |Qualifying(sc, keys)|
      && forall p :: 0 <= p < |Qualifying(sc, keys)| ==> ChosenFor(sc, Qualifying(sc, keys)[p], Selections(sc, keys).value[p])
    decreases |keys|
  {
    if keys != [] {
      SelectForChooses(sc, keys[0]);
      SelectionsChosen(sc, keys[1..]);
    }
  }

  /** With the monitor's keys each visited once, the qualifying ones are the qualifying signatures, each once. */
  lemma {:induction false} QualifyingLists(sc: Scheduling, keys: seq<set<nat>>)
    requires forall p :: 0 <= p < |keys| ==> keys[p] in sc.monitor
    requires forall i, j :: 0 <= i < j < |keys| ==> keys[i] != keys[j]
    ensures forall i, j :: 0 <= i < j < |Qualifying(sc, keys)| ==> Qualifying(sc, keys)[i] != Qualifying(sc, keys)[j]
    ensures forall sig :: sig in Qualifying(sc, keys) <==> sig in keys && Qualifies(sig, sc.monitor[sig])
    decreases |keys|
  {
    if keys != [] {
      assert forall p :: 1 <= p < |keys| ==> keys[p] == keys[1..][p - 1];
      QualifyingLists(sc, keys[1..]);
      assert keys[0] !in keys[1..];
    }
  }

  /**
   * What pick_programs writes, when the monitor's keys are each visited
   * once and each group is listed as its files: the selections of the
   * qualifying signatures, one per signature and each chosen as ChosenFor
   * says, reordered from the fewest to the most correct cases.
   */
  lemma PickProgramsWrites(sc: Scheduling, keys: seq<set<nat>>)
    requires forall p :: 0 <= p < |keys| ==> keys[p] in sc.monitor
    requires ListsGroups(sc) && Lists(keys, sc.monitor.Keys)
    requires PickProgramsSpec(sc, keys).Success?
    ensures Selections(sc, keys).Success?
    ensures var out := PickProgramsSpec(sc, keys).value;
      var sels := Selections(sc, keys).value;
      var sigs := Qualifying(sc, keys);
      && Lists(sigs, QualifyingSet(sc))
      && |sels| == |sigs|
      && (forall p :: 0 <= p < |sigs| ==> ChosenFor(sc, sigs[p], sels[p]))
      && multiset(out) == multiset(sels)
      && (forall p, q :: 0 <= p < q < |out| ==> out[p].correct <= out[q].correct)
  {
    QualifyingLists(sc, keys);
    SelectionsChoose(sc, keys);
    OrderedSorts(Selections(sc, keys).value);
  }

  /** The selections still to come after `done` were collected from the first visited signatures. */
  function SelectionsFrom(sc: Scheduling, done: seq<Selection>, keys: seq<set<nat>>): Result<seq<Selection>>
    requires forall p :: 0 <= p < |keys| ==> keys[p] in sc.monitor
  {
    match Selections(sc, keys)
    case Failure(e) => Failure(e)
    case Success(rest) => Success(done + rest)
  }

  /** pick_programs, visiting the signatures in the order `keys`. */
  method PickPrograms(sc: Scheduling, keys: seq<set<nat>>) returns (r: Result<seq<Selection>>)
    requires forall p :: 0 <= p < |keys| ==> keys[p] in sc.monitor
    ensures r == PickProgramsSpec(sc, keys)
  {
    var sels := CollectSelections(sc, keys);
    if sels.Failure? {
      return Failure(sels.error);
    }
    var numCorrectCases := Corrects(sels.value);
    var indexList := SortedPositions(numCorrectCases);
    SortedPositionsRange(numCorrectCases);
    var out: seq<Selection> := [];
    var i := 0;
    while i < |indexList|
      invariant i <= |indexList| == |sels.value|
      invariant out == seq(i, p requires 0 <= p < i => sels.value[indexList[p]])
    {
      out := out + [sels.value[indexList[i]]];
      i := i + 1;
    }
    assert out == Ordered(sels.value);
    r := Success(out);
  }

  /** pick_programs' loop over the signatures. */
  method CollectSelections(sc: Scheduling, keys: seq<set<nat>>) returns (r: Result<seq<Selection>>)
    requires forall p :: 0 <= p < |keys| ==> keys[p] in sc.monitor
    ensures r == Selections(sc, keys)
  {
    var sels: seq<Selection> := [];
    var k := 0;
    SelectionsFromStart(sc, keys);
    while k < |keys|
      invariant k <= |keys|
      invariant Selections(sc, keys) == SelectionsFrom(sc, sels, keys[k..])
    {
      var one := SelectOne(sc, keys[k]);
      SelectionsFromStep(sc, keys, k, sels, one);
      if one.Failure? {
        return Failure(one.error);
      }
      sels := sels + if one.value.Some? then [one.value.value] else [];
      k := k + 1;
    }
    SelectionsFromEnd(sc, keys, sels);
    r := Success(sels);
  }

  lemma SelectionsFromStart(sc: Scheduling, keys: seq<set<nat>>)
    requires forall p :: 0 <= p < |keys| ==> keys[p] in sc.monitor
    ensures Selections(sc, keys) == SelectionsFrom(sc, [], keys[0..])
  {
    assert keys[0..] == keys;
    match Selections(sc, keys) {
      case Success(rest) => assert [] + rest == rest;
      case Failure(_) =>
    }
  }

  /** The selections of one signature put before those still to come. */
  function Combine(one: Result<Option<Selection>>, tail: Result<seq<Selection>>): Result<seq<Selection>> {
    match one
    case Failure(e) => Failure(e)
    case Success(o) =>
      match tail
      case Failure(e) => Failure(e)
      case Success(rest) => Success((if o.Some? then [o.value] else []) + rest)
  }

  lemma SelectionsUnfold(sc: Scheduling, ks: seq<set<nat>>)
    requires forall p :: 0 <= p < |ks| ==> ks[p] in sc.monitor
    requires ks != []
    ensures Selections(sc, ks) == Combine(SelectFor(sc, ks[0]), Selections(sc, ks[1..]))
  {
  }

  /** One signature visited: a failure ends the loop with its error, otherwise its selection (if any) is collected. */
  lemma SelectionsFromStep(sc: Scheduling, keys: seq<set<nat>>, k: nat, sels: seq<Selection>, one: Result<Option<Selection>>)
    requires forall p :: 0 <= p < |keys| ==> keys[p] in sc.monitor
    requires k < |keys| && one == SelectFor(sc, keys[k])
    ensures one.Failure? ==> SelectionsFrom(sc, sels, keys[k..]) == Failure(one.error)
    ensures one.Success? ==>
      SelectionsFrom(sc, sels, keys[k..]) == SelectionsFrom(sc, sels + (if one.value.Some? then [one.value.value] else []), keys[k + 1..])
  {
    var ks := keys[k..];
    assert ks[0] == keys[k] && ks[1..] == keys[k + 1..];
    SelectionsUnfold(sc, ks);
    var tail := Selections(sc, keys[k + 1..]);
    assert Selections(sc, ks) == Combine(one, tail);
    if one.Success? {
      var added := if one.value.Some? then [one.value.value] else [];
      if tail.Success? {
        assert sels + (added + tail.value) == (sels + added) + tail.value;
      }
    }
  }

  lemma SelectionsFromEnd(sc: Scheduling, keys: seq<set<nat>>, sels: seq<Selection>)
    requires forall p :: 0 <= p < |keys| ==> keys[p] in sc.monitor
    requires Selections(sc, keys) == SelectionsFrom(sc, sels, keys[|keys|..])
    ensures Selections(sc, keys) == Success(sels)
  {
    assert keys[|keys|..] == [];
    assert sels + [] == sels;
  }

  /** The loop body for one signature: the size filters, dict_sort and the picking loop. */
  method SelectOne(sc: Scheduling, key: set<nat>) returns (r: Result<Option<Selection>>)
    requires key in sc.monitor
    ensures r == SelectFor(sc, key)
  {
    var signatureSize := |sc.monitor[key]|;
    if signatureSize < MinSignatureSize {
      return Success(None);
    }
    var candidateList := sc.listed(sc.monitor[key]);
    var numFailed := |key|;
    if numFailed < MinNumFailed {
      return Success(None);
    }
    var sorted := DictSort(sc.allFiles, candidateList, sc.lengths);
    if sorted.Failure? {
      return Failure(sorted.error);
    }
    DictSortFails(sc.allFiles, candidateList, sc.lengths);
    DictSortOrders(sc.allFiles, candidateList, sc.lengths);
    var names := PickCandidates(sc.allFiles, sorted.value, sc.testFlag, sc.duration);
    r := Success(Some(Selection(sc.numCases - numFailed, names)));
  }
}
