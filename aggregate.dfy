/** `compute_max_duration` and `compute_average_duration`: combine the duration
    lists of several origins into one list holding one tuple per coordinate. */
module Aggregate {
  import opened Types

  /** The input lists concatenated, in the order the nested loops visit them. */
  function Flatten<T>(lists: seq<seq<T>>): seq<T>
  {
    if lists == [] then [] else Flatten(lists[..|lists| - 1]) + lists[|lists| - 1]
  }

  /** The coordinates that occur in a list of tuples. */
  function KeysOf<V(==)>(ts: seq<Timed<V>>): set<Coord>
  {
    set t | t in ts :: t.Key()
  }

  lemma KeysOfSnoc<V>(ts: seq<Timed<V>>, t: Timed<V>)
    ensures KeysOf(ts + [t]) == KeysOf(ts) + {t.Key()}
  {
    assert forall u :: u in ts + [t] <==> u in ts || u == t;
  }

  lemma KeysOfAppend<V>(a: seq<Timed<V>>, b: seq<Timed<V>>)
    ensures KeysOf(a + b) == KeysOf(a) + KeysOf(b)
  {
    assert forall u :: u in a + b <==> u in a || u in b;
  }

  /** The union of the coordinate sets of the input lists. */
  function UnionKeys(lists: seq<seq<Timed<int>>>): set<Coord>
  {
    set l, t | l in lists && t in l :: t.Key()
  }

  /** The keys of `durations_dict` in insertion order: every coordinate once, in
      the order of its first appearance. */
  function Order(ts: seq<Timed<int>>): (o: seq<Coord>)
    ensures forall i, j :: 0 <= i < j < |o| ==> o[i] != o[j]
    ensures forall c :: c in o <==> c in KeysOf(ts)
  {
    if ts == [] then []
    else
      var o := Order(ts[..|ts| - 1]);
      var k := ts[|ts| - 1].Key();
      KeysOfSnoc(ts[..|ts| - 1], ts[|ts| - 1]);
      assert ts[..|ts| - 1] + [ts[|ts| - 1]] == ts;
      if k in o then o else o + [k]
  }

  /** `durations_dict[c]`: the durations recorded for `c`, in visiting order. */
  function Contribs(ts: seq<Timed<int>>, c: Coord): (d: seq<int>)
    ensures d != [] <==> c in KeysOf(ts)
  {
    if ts == [] then []
    else
      KeysOfSnoc(ts[..|ts| - 1], ts[|ts| - 1]);
      assert ts[..|ts| - 1] + [ts[|ts| - 1]] == ts;
      Contribs(ts[..|ts| - 1], c) + (if ts[|ts| - 1].Key() == c then [ts[|ts| - 1].dur] else [])
  }

  /** Python's `max()` over a non-empty list. */
  function SeqMax(s: seq<int>): (m: int)
    requires s != []
    ensures m in s && forall v :: v in s ==> v <= m
  {
    if |s| == 1 then s[0]
    else
      var m := SeqMax(s[..|s| - 1]);
      assert forall v :: v in s ==> v in s[..|s| - 1] || v == s[|s| - 1] by {
        assert s == s[..|s| - 1] + [s[|s| - 1]];
      }
      if s[|s| - 1] > m then s[|s| - 1] else m
  }

  /** The least element; only used to state where an average lies. */
  function SeqMin(s: seq<int>): (m: int)
    requires s != []
    ensures m in s && forall v :: v in s ==> m <= v
  {
    if |s| == 1 then s[0]
    else
      var m := SeqMin(s[..|s| - 1]);
      assert forall v :: v in s ==> v in s[..|s| - 1] || v == s[|s| - 1] by {
        assert s == s[..|s| - 1] + [s[|s| - 1]];
      }
      if s[|s| - 1] < m then s[|s| - 1] else m
  }

  /** Python's `sum()`. */
  function Sum(s: seq<int>): int
  {
    if s == [] then 0 else Sum(s[..|s| - 1]) + s[|s| - 1]
  }

  /** `sum(durations) / len(durations)` (true division). */
  function Mean(s: seq<int>): real
    requires s != []
  {
    Sum(s) as real / |s| as real
  }

  /** The list `compute_max_duration(lists)` returns. */
  function MaxCombine(lists: seq<seq<Timed<int>>>): seq<Timed<int>>
  {
    var ts := Flatten(lists);
    var o := Order(ts);
    seq(|o|, i requires 0 <= i < |o| => Timed(o[i].lat, o[i].lon, SeqMax(Contribs(ts, o[i]))))
  }

  /** The list `compute_average_duration(lists)` returns. */
  function MeanCombine(lists: seq<seq<Timed<int>>>): seq<Timed<real>>
  {
    var ts := Flatten(lists);
    var o := Order(ts);
    seq(|o|, i requires 0 <= i < |o| => Timed(o[i].lat, o[i].lon, Mean(Contribs(ts, o[i]))))
  }

  // ---------------------------------------------------------------- the loops

  /** The state of `durations_dict` after the tuples `seen`: its key order and map. */
  ghost predicate Grouped(seen: seq<Timed<int>>, order: seq<Coord>, durations: map<Coord, seq<int>>)
  {
    && order == Order(seen)
    && durations.Keys == KeysOf(seen)
    && forall c :: c in durations ==> durations[c] == Contribs(seen, c)
  }

  /** `durations_dict[(lat, lon)].append(duration)` for one more tuple. */
  lemma GroupStep(seen: seq<Timed<int>>, t: Timed<int>, order: seq<Coord>, durations: map<Coord, seq<int>>)
    requires Grouped(seen, order, durations)
    ensures Grouped(seen + [t],
      if t.Key() in durations then order else order + [t.Key()],
      durations[t.Key() := (if t.Key() in durations then durations[t.Key()] else []) + [t.dur]])
  {
    var all := seen + [t];
    assert all[..|seen|] == seen;
    KeysOfSnoc(seen, t);
    var after := durations[t.Key() := (if t.Key() in durations then durations[t.Key()] else []) + [t.dur]];
    forall c | c in after ensures after[c] == Contribs(all, c) {
      assert Contribs(all, c) == Contribs(seen, c) + (if t.Key() == c then [t.dur] else []);
    }
  }

  lemma FlattenSnoc<T>(lists: seq<seq<T>>, i: nat)
    requires i < |lists|
    ensures Flatten(lists[..i + 1]) == Flatten(lists[..i]) + lists[i]
  {
    assert lists[..i + 1][..i] == lists[..i];
  }

  /** The inner loop over one origin's tuples: append each duration to its
      coordinate's list, creating the list on first sight. */
  method GroupList(ghost done: seq<Timed<int>>, lst: seq<Timed<int>>, order0: seq<Coord>, durations0: map<Coord, seq<int>>)
    returns (order: seq<Coord>, durations: map<Coord, seq<int>>)
    requires Grouped(done, order0, durations0)
    ensures Grouped(done + lst, order, durations)
  {
    order, durations := order0, durations0;
    assert done + lst[..0] == done;
    for j := 0 to |lst|
      invariant Grouped(done + lst[..j], order, durations)
    {
      var t := lst[j];
      var key := t.Key();
      GroupStep(done + lst[..j], t, order, durations);
      assert done + lst[..j + 1] == (done + lst[..j]) + [t];
      var current := if key in durations then durations[key] else [];
      if key !in durations {
        order := order + [key];
      }
      durations := durations[key := current + [t.dur]];
    }
    assert lst[..|lst|] == lst;
  }

  /** The first loop shared by both functions: fill `durations_dict`, a
      `defaultdict(list)`, here its key order and its key-to-list map. */
  method GroupByCoord(lists: seq<seq<Timed<int>>>) returns (order: seq<Coord>, durations: map<Coord, seq<int>>)
    ensures Grouped(Flatten(lists), order, durations)
  {
    order, durations := [], map[];
    for i := 0 to |lists|
      invariant Grouped(Flatten(lists[..i]), order, durations)
    {
      order, durations := GroupList(Flatten(lists[..i]), lists[i], order, durations);
      FlattenSnoc(lists, i);
    }
    assert lists[..|lists|] == lists;
  }

  /** `compute_max_duration`. */
  method ComputeMaxDuration(lists: seq<seq<Timed<int>>>) returns (times: seq<Timed<int>>)
    ensures times == MaxCombine(lists)
  {
    var order, durations := GroupByCoord(lists);
    // `max_durations` is filled in the key order of `durations_dict`, so the
    // final comprehension lists the keys in that same order.
    times := [];
    for k := 0 to |order|
      invariant |times| == k
      invariant forall i :: 0 <= i < k ==> times[i] == MaxCombine(lists)[i]
    {
      var key := order[k];
      times := times + [Timed(key.lat, key.lon, SeqMax(durations[key]))];
    }
  }

  /** `compute_average_duration`. */
  method ComputeAverageDuration(lists: seq<seq<Timed<int>>>) returns (times: seq<Timed<real>>)
    ensures times == MeanCombine(lists)
  {
    var order, durations := GroupByCoord(lists);
    times := [];
    for k := 0 to |order|
      invariant |times| == k
      invariant forall i :: 0 <= i < k ==> times[i] == MeanCombine(lists)[i]
    {
      var key := order[k];
      var average := Sum(durations[key]) as real / |durations[key]| as real;
      times := times + [Timed(key.lat, key.lon, average)];
    }
  }

  // ---------------------------------------------------------------- properties

  /** `a` appears in `ts` before any occurrence of `b`. */
  ghost predicate FirstBefore(ts: seq<Timed<int>>, a: Coord, b: Coord)
  {
    forall q :: 0 <= q < |ts| && ts[q].Key() == b ==> exists p :: 0 <= p < q && ts[p].Key() == a
  }

  /** The combined list is in order of first occurrence across all inputs. */
  lemma {:induction false} OrderIsFirstOccurrence(ts: seq<Timed<int>>)
    ensures forall i, j :: 0 <= i < j < |Order(ts)| ==> FirstBefore(ts, Order(ts)[i], Order(ts)[j])
  {
    if ts != [] {
      var init := ts[..|ts| - 1];
      var last := |ts| - 1;
      OrderIsFirstOccurrence(init);
      var o, o' := Order(init), Order(ts);
      forall i, j | 0 <= i < j < |o'| ensures FirstBefore(ts, o'[i], o'[j]) {
        assert o'[i] in KeysOf(init) by { assert o'[i] in o; }
        var p0 :| p0 in init && p0.Key() == o'[i];
        var pi :| 0 <= pi < |init| && init[pi] == p0;
        forall q | 0 <= q < |ts| && ts[q].Key() == o'[j]
          ensures exists p :: 0 <= p < q && ts[p].Key() == o'[i]
        {
          if j < |o| {
            if q < last {
              assert init[q] == ts[q];
              assert FirstBefore(init, o[i], o[j]);
              var p :| 0 <= p < q && init[p].Key() == o[i];
              assert ts[p] == init[p];
            } else {
              assert ts[pi] == init[pi];
            }
          } else {
            // o'[j] is the new key, so it first occurs at the end.
            assert ts[pi] == init[pi];
          }
        }
      }
    }
  }

  lemma {:induction false} FlattenKeys(lists: seq<seq<Timed<int>>>)
    ensures KeysOf(Flatten(lists)) == UnionKeys(lists)
  {
    if lists != [] {
      var init, last := lists[..|lists| - 1], lists[|lists| - 1];
      FlattenKeys(init);
      KeysOfAppend(Flatten(init), last);
      assert forall l :: l in lists <==> l in init || l == last;
      assert UnionKeys(lists) == UnionKeys(init) + KeysOf(last);
    }
  }

  /** Every duration recorded for `c` comes from a tuple at `c`. */
  lemma {:induction false} ContribsFrom(ts: seq<Timed<int>>, c: Coord, v: int)
    requires v in Contribs(ts, c)
    ensures exists k :: 0 <= k < |ts| && ts[k].Key() == c && ts[k].dur == v
  {
    var init := ts[..|ts| - 1];
    if v in Contribs(init, c) {
      ContribsFrom(init, c, v);
      var k :| 0 <= k < |init| && init[k].Key() == c && init[k].dur == v;
      assert ts[k] == init[k];
    }
  }

  /** Every tuple at `c` has its duration recorded for `c`. */
  lemma {:induction false} ContribsHas(ts: seq<Timed<int>>, k: nat)
    requires k < |ts|
    ensures ts[k].dur in Contribs(ts, ts[k].Key())
  {
    var init := ts[..|ts| - 1];
    if k < |init| {
      ContribsHas(init, k);
      assert init[k] == ts[k];
    }
  }

  /** `compute_max_duration`, keys: one tuple per coordinate of any input, and no
      coordinate twice. */
  lemma MaxCombineKeys(lists: seq<seq<Timed<int>>>)
    ensures forall i, j :: 0 <= i < j < |MaxCombine(lists)| ==> MaxCombine(lists)[i].Key() != MaxCombine(lists)[j].Key()
    ensures KeysOf(MaxCombine(lists)) == UnionKeys(lists)
  {
    var ts, r := Flatten(lists), MaxCombine(lists);
    var o := Order(ts);
    FlattenKeys(lists);
    assert forall i :: 0 <= i < |r| ==> r[i].Key() == o[i];
    forall c | c in KeysOf(ts) ensures c in KeysOf(r) {
      var i :| 0 <= i < |o| && o[i] == c;
      assert r[i] in r;
    }
  }

  /** `compute_max_duration`, values: each is the largest duration any origin
      reported for that coordinate, and is one of those durations. */
  lemma MaxCombineValues(lists: seq<seq<Timed<int>>>)
    ensures forall i, k :: 0 <= i < |MaxCombine(lists)| && 0 <= k < |Flatten(lists)| && Flatten(lists)[k].Key() == MaxCombine(lists)[i].Key()
              ==> Flatten(lists)[k].dur <= MaxCombine(lists)[i].dur
    ensures forall i :: 0 <= i < |MaxCombine(lists)| ==>
              exists k :: 0 <= k < |Flatten(lists)| && Flatten(lists)[k] == MaxCombine(lists)[i]
  {
    var ts, r := Flatten(lists), MaxCombine(lists);
    forall i | 0 <= i < |r| ensures exists k :: 0 <= k < |ts| && ts[k] == r[i] {
      CombineAt(lists, i);
      ContribsFrom(ts, r[i].Key(), r[i].dur);
      var k :| 0 <= k < |ts| && ts[k].Key() == r[i].Key() && ts[k].dur == r[i].dur;
      assert ts[k] == r[i];
    }
    forall i, k | 0 <= i < |r| && 0 <= k < |ts| && ts[k].Key() == r[i].Key() ensures ts[k].dur <= r[i].dur {
      CombineAt(lists, i);
      ContribsHas(ts, k);
    }
  }

  lemma {:induction false} SumBounds(s: seq<int>, lo: int, hi: int)
    requires forall i :: 0 <= i < |s| ==> lo <= s[i] <= hi
    ensures |s| * lo <= Sum(s) <= |s| * hi
  {
    if s != [] {
      SumBounds(s[..|s| - 1], lo, hi);
    }
  }

  lemma DivBounds(total: real, n: real, lo: real, hi: real)
    requires n > 0.0 && n * lo <= total <= n * hi
    ensures lo <= total / n <= hi
  {
    assert n * (total / n) == total;
  }

  lemma MulAsReal(a: int, b: int)
    ensures (a * b) as real == a as real * b as real
  {
  }

  lemma AverageBetween(total: int, n: nat, lo: int, hi: int)
    requires n > 0 && n * lo <= total <= n * hi
    ensures lo as real <= total as real / n as real <= hi as real
  {
    var below, above := n * lo, n * hi;
    MulAsReal(n, lo);
    MulAsReal(n, hi);
    assert n as real * lo as real <= total as real;
    assert total as real <= n as real * hi as real;
    DivBounds(total as real, n as real, lo as real, hi as real);
  }

  /** An average lies between the least and the largest of the averaged durations,
      and the average of one duration is that duration. */
  lemma MeanBounds(s: seq<int>)
    requires s != []
    ensures SeqMin(s) as real <= Mean(s) <= SeqMax(s) as real
    ensures |s| == 1 ==> Mean(s) == s[0] as real
  {
    var lo, hi := SeqMin(s), SeqMax(s);
    assert forall i :: 0 <= i < |s| ==> lo <= s[i] <= hi by {
      assert forall i :: 0 <= i < |s| ==> s[i] in s;
    }
    SumBounds(s, lo, hi);
    AverageBetween(Sum(s), |s|, lo, hi);
    if |s| == 1 {
      assert s[..0] == [];
    }
  }

  /** `compute_average_duration`: the same coordinates in the same order as the max
      variant, each with the average of that coordinate's durations, which lies
      between their least and their largest. */
  lemma MeanCombineSpec(lists: seq<seq<Timed<int>>>)
    ensures |MeanCombine(lists)| == |MaxCombine(lists)|
    ensures forall i :: 0 <= i < |MeanCombine(lists)| ==>
      MeanCombine(lists)[i].Key() == MaxCombine(lists)[i].Key()
      && MeanCombine(lists)[i].dur <= MaxCombine(lists)[i].dur as real
      && MeanCombine(lists)[i].dur == Mean(Contribs(Flatten(lists), MeanCombine(lists)[i].Key()))
    ensures forall i, k :: 0 <= i < |MeanCombine(lists)| && 0 <= k < |Flatten(lists)| && Flatten(lists)[k].Key() == MeanCombine(lists)[i].Key()
              ==> SeqMin(Contribs(Flatten(lists), MeanCombine(lists)[i].Key())) as real <= MeanCombine(lists)[i].dur
  {
    var ts := Flatten(lists);
    var o := Order(ts);
    forall i | 0 <= i < |o| ensures Mean(Contribs(ts, o[i])) <= SeqMax(Contribs(ts, o[i])) as real {
      MeanBounds(Contribs(ts, o[i]));
    }
    forall i, k | 0 <= i < |o| && 0 <= k < |ts| && ts[k].Key() == o[i]
      ensures SeqMin(Contribs(ts, o[i])) as real <= Mean(Contribs(ts, o[i]))
    {
      MeanBounds(Contribs(ts, o[i]));
    }
  }

  // ---------------------------------------------------------------- one or two origins

  /** No coordinate occurs twice in the list. */
  ghost predicate DistinctKeys(g: seq<Timed<int>>)
  {
    forall i, j :: 0 <= i < j < |g| ==> g[i].Key() != g[j].Key()
  }

  lemma {:induction false} OrderOfDistinct(g: seq<Timed<int>>)
    requires DistinctKeys(g)
    ensures Order(g) == seq(|g|, i requires 0 <= i < |g| => g[i].Key())
    ensures forall i :: 0 <= i < |g| ==> Contribs(g, g[i].Key()) == [g[i].dur]
  {
    if g != [] {
      var init := g[..|g| - 1];
      var last := g[|g| - 1];
      OrderOfDistinct(init);
      assert last.Key() !in Order(init);
      forall i | 0 <= i < |g| ensures Contribs(g, g[i].Key()) == [g[i].dur] {
        if i < |g| - 1 {
          assert init[i] == g[i];
          assert g[i].Key() != last.Key();
        } else {
          assert last.Key() !in KeysOf(init);
        }
      }
    }
  }

  lemma FlattenOne<T>(g: seq<T>)
    ensures Flatten([g]) == g
  {
    assert [g][..0] == [];
  }

  lemma FlattenTwo<T>(g1: seq<T>, g2: seq<T>)
    ensures Flatten([g1, g2]) == g1 + g2
  {
    assert [g1, g2][..1] == [g1];
    FlattenOne(g1);
  }

  lemma MeanSingleton(v: int)
    ensures Mean([v]) == v as real
  {
    SumSingleton(v);
  }

  lemma SumSingleton(v: int)
    ensures Sum([v]) == v
  {
    var s := [v];
    assert s[..|s| - 1] == [];
  }

  lemma SumPair(a: int, b: int)
    ensures Sum([a, b]) == a + b
  {
    var s := [a, b];
    assert s[..|s| - 1] == [a];
    SumSingleton(a);
  }

  /** Max-combining a single list that names each coordinate once gives that list
      back: the single-origin bypass agrees with aggregation. */
  lemma SingleListMax(g: seq<Timed<int>>)
    requires DistinctKeys(g)
    ensures MaxCombine([g]) == g
  {
    var r := MaxCombine([g]);
    SingleListMaxLength(g);
    forall i | 0 <= i < |g| ensures r[i] == g[i] {
      SingleListMaxAt(g, i);
    }
  }

  lemma SingleListMaxLength(g: seq<Timed<int>>)
    requires DistinctKeys(g)
    ensures |MaxCombine([g])| == |g|
  {
    FlattenOne(g);
    OrderOfDistinct(g);
  }

  lemma SingleListMaxAt(g: seq<Timed<int>>, i: nat)
    requires DistinctKeys(g) && i < |g|
    ensures i < |MaxCombine([g])| && MaxCombine([g])[i] == g[i]
  {
    FlattenOne(g);
    OrderOfDistinct(g);
    assert Contribs(g, g[i].Key()) == [g[i].dur];
  }

  /** Averaging a single list that names each coordinate once gives that list back,
      its durations as floats. */
  lemma SingleListMean(g: seq<Timed<int>>)
    requires DistinctKeys(g)
    ensures MeanCombine([g]) == seq(|g|, i requires 0 <= i < |g| => Timed(g[i].lat, g[i].lon, g[i].dur as real))
  {
    var a := MeanCombine([g]);
    SingleListMeanLength(g);
    forall i | 0 <= i < |g| ensures a[i] == Timed(g[i].lat, g[i].lon, g[i].dur as real) {
      SingleListMeanAt(g, i);
    }
  }

  lemma SingleListMeanLength(g: seq<Timed<int>>)
    requires DistinctKeys(g)
    ensures |MeanCombine([g])| == |g|
  {
    FlattenOne(g);
    OrderOfDistinct(g);
  }

  lemma SingleListMeanAt(g: seq<Timed<int>>, i: nat)
    requires DistinctKeys(g) && i < |g|
    ensures i < |MeanCombine([g])| && MeanCombine([g])[i] == Timed(g[i].lat, g[i].lon, g[i].dur as real)
  {
    FlattenOne(g);
    OrderOfDistinct(g);
    assert Contribs(g, g[i].Key()) == [g[i].dur];
    MeanSingleton(g[i].dur);
  }

  lemma {:induction false} ContribsAppend(a: seq<Timed<int>>, b: seq<Timed<int>>, c: Coord)
    ensures Contribs(a + b, c) == Contribs(a, c) + Contribs(b, c)
  {
    if b != [] {
      ContribsAppend(a, b[..|b| - 1], c);
      assert (a + b)[..|a + b| - 1] == a + b[..|b| - 1];
    } else {
      assert a + b == a;
    }
  }

  /** Durations recorded for `c` in a list that names each coordinate once. */
  lemma ContribsOfDistinct(g: seq<Timed<int>>, c: Coord)
    requires DistinctKeys(g)
    ensures c !in KeysOf(g) ==> Contribs(g, c) == []
    ensures forall i :: 0 <= i < |g| && g[i].Key() == c ==> Contribs(g, c) == [g[i].dur]
  {
    OrderOfDistinct(g);
  }

  /** Two origins: where both report a coordinate, with `a` and `b` seconds, max
      mode gives `max(a, b)` and average mode `(a + b) / 2`; where only one reports
      it, both modes give that origin's value. */
  lemma TwoOrigins(g1: seq<Timed<int>>, g2: seq<Timed<int>>, k: nat)
    requires DistinctKeys(g1) && DistinctKeys(g2)
    requires k < |MaxCombine([g1, g2])|
    ensures k < |MeanCombine([g1, g2])| && MeanCombine([g1, g2])[k].Key() == MaxCombine([g1, g2])[k].Key()
    ensures forall i, j :: 0 <= i < |g1| && 0 <= j < |g2| && g1[i].Key() == MaxCombine([g1, g2])[k].Key() == g2[j].Key() ==>
      MaxCombine([g1, g2])[k].dur == (if g1[i].dur >= g2[j].dur then g1[i].dur else g2[j].dur)
      && MeanCombine([g1, g2])[k].dur == (g1[i].dur + g2[j].dur) as real / 2.0
    ensures forall i :: 0 <= i < |g1| && g1[i].Key() == MaxCombine([g1, g2])[k].Key() && g1[i].Key() !in KeysOf(g2) ==>
      MaxCombine([g1, g2])[k].dur == g1[i].dur && MeanCombine([g1, g2])[k].dur == g1[i].dur as real
    ensures forall j :: 0 <= j < |g2| && g2[j].Key() == MaxCombine([g1, g2])[k].Key() && g2[j].Key() !in KeysOf(g1) ==>
      MaxCombine([g1, g2])[k].dur == g2[j].dur && MeanCombine([g1, g2])[k].dur == g2[j].dur as real
  {
    CombineAt([g1, g2], k);
    var c := MaxCombine([g1, g2])[k].Key();
    forall i, j | 0 <= i < |g1| && 0 <= j < |g2| && g1[i].Key() == c == g2[j].Key()
      ensures MaxCombine([g1, g2])[k].dur == (if g1[i].dur >= g2[j].dur then g1[i].dur else g2[j].dur)
      ensures MeanCombine([g1, g2])[k].dur == (g1[i].dur + g2[j].dur) as real / 2.0
    {
      TwoOriginsContribs(g1, g2, c);
      SumPair(g1[i].dur, g2[j].dur);
    }
    forall i | 0 <= i < |g1| && g1[i].Key() == c && c !in KeysOf(g2)
      ensures MaxCombine([g1, g2])[k].dur == g1[i].dur && MeanCombine([g1, g2])[k].dur == g1[i].dur as real
    {
      TwoOriginsContribs(g1, g2, c);
      MeanSingleton(g1[i].dur);
    }
    forall j | 0 <= j < |g2| && g2[j].Key() == c && c !in KeysOf(g1)
      ensures MaxCombine([g1, g2])[k].dur == g2[j].dur && MeanCombine([g1, g2])[k].dur == g2[j].dur as real
    {
      TwoOriginsContribs(g1, g2, c);
      MeanSingleton(g2[j].dur);
    }
  }

  /** Both combiners walk the same key order; entry `k` folds the durations recorded for its key. */
  lemma CombineAt(lists: seq<seq<Timed<int>>>, k: nat)
    requires k < |MaxCombine(lists)|
    ensures k < |MeanCombine(lists)| && MeanCombine(lists)[k].Key() == MaxCombine(lists)[k].Key()
    ensures Contribs(Flatten(lists), MaxCombine(lists)[k].Key()) != []
    ensures MaxCombine(lists)[k].dur == SeqMax(Contribs(Flatten(lists), MaxCombine(lists)[k].Key()))
    ensures MeanCombine(lists)[k].dur == Mean(Contribs(Flatten(lists), MaxCombine(lists)[k].Key()))
  {
  }

  /** The durations two origins record for `c`, each naming a coordinate at most once. */
  lemma TwoOriginsContribs(g1: seq<Timed<int>>, g2: seq<Timed<int>>, c: Coord)
    requires DistinctKeys(g1) && DistinctKeys(g2)
    ensures forall i, j :: 0 <= i < |g1| && 0 <= j < |g2| && g1[i].Key() == c == g2[j].Key() ==>
      Contribs(Flatten([g1, g2]), c) == [g1[i].dur, g2[j].dur]
    ensures forall i :: 0 <= i < |g1| && g1[i].Key() == c && c !in KeysOf(g2) ==>
      Contribs(Flatten([g1, g2]), c) == [g1[i].dur]
    ensures forall j :: 0 <= j < |g2| && g2[j].Key() == c && c !in KeysOf(g1) ==>
      Contribs(Flatten([g1, g2]), c) == [g2[j].dur]
  {
    FlattenTwo(g1, g2);
    ContribsAppend(g1, g2, c);
    ContribsOfDistinct(g1, c);
    ContribsOfDistinct(g2, c);
  }
}
