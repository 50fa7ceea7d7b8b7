/** The optional prefix cut of the polyline list and the bucketing of the
    (possibly cut) list by layer into an insertion-ordered dictionary. */
module Layers {
  import opened Geometry

  /** `polylines[:cap]` when the cap is truthy. `None` and `0` are falsy and leave
      the list alone; a negative cap is a Python slice bound counted from the end. */
  function Truncate(pls: seq<Polyline>, cap: Option<int>): (r: seq<Polyline>)
    ensures r <= pls
    ensures cap == None || cap == Some(0) ==> r == pls
    ensures cap.Some? && cap.value > 0 ==> |r| == if cap.value < |pls| then cap.value else |pls|
    ensures cap.Some? && cap.value < 0 ==> |r| == if |pls| + cap.value > 0 then |pls| + cap.value else 0
  {
    match cap
    case None => pls
    case Some(n) =>
      if n == 0 then pls
      else if n > 0 then (if n < |pls| then pls[..n] else pls)
      else (if |pls| + n > 0 then pls[..|pls| + n] else [])
  }

  /** The layer names in order of first occurrence: the key order of the
      dictionary the grouping loop builds. */
  function LayerOrder(pls: seq<Polyline>): (order: seq<string>)
    ensures forall m, n :: 0 <= m < n < |order| ==> order[m] != order[n]
    ensures forall k :: k in order <==> exists i :: 0 <= i < |pls| && LayerOf(pls[i]) == k
  {
    if pls == [] then []
    else
      var init := pls[..|pls| - 1];
      var prev := LayerOrder(init);
      var k := LayerOf(pls[|pls| - 1]);
      assert forall i :: 0 <= i < |init| ==> init[i] == pls[i];
      if k in prev then prev else prev + [k]
  }

  /** The polylines of layer `k`, in input order. */
  function Bucket(pls: seq<Polyline>, k: string): seq<Polyline>
  {
    if pls == [] then []
    else
      var last := pls[|pls| - 1];
      Bucket(pls[..|pls| - 1], k) + (if LayerOf(last) == k then [last] else [])
  }

  /** Layer `a` appears in `pls` before any occurrence of layer `b`. */
  ghost predicate OccursBefore(pls: seq<Polyline>, a: string, b: string)
  {
    exists i :: 0 <= i < |pls| && LayerOf(pls[i]) == a && forall j :: 0 <= j <= i ==> LayerOf(pls[j]) != b
  }

  /** The grouping loop: for each polyline in turn, a layer not yet in the
      dictionary gets an empty list, then the polyline is appended to its
      layer's list. The dictionary is the key order `order` together with the
      map `layers` from key to bucket. */
  method GroupByLayer(polylines: seq<Polyline>) returns (order: seq<string>, layers: map<string, seq<Polyline>>)
    ensures order == LayerOrder(polylines)
    ensures layers.Keys == set k | k in order
    ensures forall k :: k in layers ==> layers[k] == Bucket(polylines, k)
  {
    order, layers := [], map[];
    var i := 0;
    while i < |polylines|
      invariant 0 <= i <= |polylines|
      invariant Grouped(polylines[..i], order, layers)
    {
      var pl := polylines[i];
      var layer := LayerOf(pl);
      GroupStep(polylines, i, order, layers);
      var bucket := [];
      if layer in layers {
        bucket := layers[layer];
      } else {
        order := order + [layer];
      }
      layers := layers[layer := bucket + [pl]];
      i := i + 1;
    }
    assert polylines[..i] == polylines;
  }

  /** The dictionary `order`/`layers` is the grouping of `pls`. */
  ghost predicate Grouped(pls: seq<Polyline>, order: seq<string>, layers: map<string, seq<Polyline>>)
  {
    && order == LayerOrder(pls)
    && layers.Keys == set k | k in order
    && forall k :: k in layers ==> layers[k] == Bucket(pls, k)
  }

  /** One step of the grouping loop keeps the dictionary the grouping of the
      polylines seen: a new layer is appended to the key order, and the polyline
      to the bucket of its layer. */
  lemma GroupStep(pls: seq<Polyline>, i: nat, order: seq<string>, layers: map<string, seq<Polyline>>)
    requires i < |pls| && Grouped(pls[..i], order, layers)
    ensures var k := LayerOf(pls[i]);
      Grouped(pls[..i + 1], if k in layers then order else order + [k],
              layers[k := (if k in layers then layers[k] else []) + [pls[i]]])
  {
    var k := LayerOf(pls[i]);
    var prev := pls[..i];
    var next := pls[..i + 1];
    var order' := if k in layers then order else order + [k];
    var layers' := layers[k := (if k in layers then layers[k] else []) + [pls[i]]];
    assert next[..i] == prev && next[i] == pls[i];
    assert LayerOrder(next) == order';
    assert layers'.Keys == set j | j in order' by {
      assert k in layers <==> k in order;
    }
    if k !in layers {
      BucketOfAbsentLayer(prev, k);
    }
    forall j | j in layers' ensures layers'[j] == Bucket(next, j) {
      assert Bucket(next, j) == Bucket(prev, j) + if k == j then [pls[i]] else [];
    }
  }

  /** A layer that does not occur has an empty bucket. */
  lemma {:induction false} BucketOfAbsentLayer(pls: seq<Polyline>, k: string)
    requires k !in LayerOrder(pls)
    ensures Bucket(pls, k) == []
  {
    if pls != [] {
      var init := pls[..|pls| - 1];
      assert forall i :: 0 <= i < |init| ==> init[i] == pls[i];
      assert LayerOf(pls[|pls| - 1]) != k;
      BucketOfAbsentLayer(init, k);
    }
  }

  /** Every polyline of a bucket is an input polyline of that bucket's layer. */
  lemma {:induction false} BucketMembers(pls: seq<Polyline>, k: string)
    ensures forall pl :: pl in Bucket(pls, k) ==> pl in pls && LayerOf(pl) == k
  {
    if pls != [] {
      var init := pls[..|pls| - 1];
      BucketMembers(init, k);
      assert forall pl :: pl in init ==> pl in pls;
    }
  }

  /** Every input polyline is in the bucket of its own layer, which is a key. */
  lemma {:induction false} InOwnBucket(pls: seq<Polyline>, pl: Polyline)
    requires pl in pls
    ensures LayerOf(pl) in LayerOrder(pls)
    ensures pl in Bucket(pls, LayerOf(pl))
  {
    var i :| 0 <= i < |pls| && pls[i] == pl;
    var init := pls[..|pls| - 1];
    if i < |pls| - 1 {
      assert init[i] == pl;
      InOwnBucket(init, pl);
    }
  }

  /** Each polyline lands in exactly one bucket: the one keyed by its layer. */
  lemma ExactlyOneBucket(pls: seq<Polyline>, pl: Polyline, k: string)
    requires pl in pls
    ensures pl in Bucket(pls, k) <==> k == LayerOf(pl)
    ensures LayerOf(pl) in LayerOrder(pls)
  {
    InOwnBucket(pls, pl);
    BucketMembers(pls, k);
  }

  /** The key order is the order of first occurrence: of two keys, the earlier
      one appears in the input before any polyline of the later one. */
  lemma {:induction false} OrderOfFirstOccurrence(pls: seq<Polyline>)
    ensures forall m, n :: 0 <= m < n < |LayerOrder(pls)| ==>
      OccursBefore(pls, LayerOrder(pls)[m], LayerOrder(pls)[n])
  {
    if pls != [] {
      var init := pls[..|pls| - 1];
      var prev := LayerOrder(init);
      var order := LayerOrder(pls);
      var k := LayerOf(pls[|pls| - 1]);
      OrderOfFirstOccurrence(init);
      forall m, n | 0 <= m < n < |order| ensures OccursBefore(pls, order[m], order[n]) {
        assert order[m] == prev[m];
        if n < |prev| {
          assert order[n] == prev[n];
          assert OccursBefore(init, prev[m], prev[n]);
          var i :| 0 <= i < |init| && LayerOf(init[i]) == prev[m] && forall j :: 0 <= j <= i ==> LayerOf(init[j]) != prev[n];
          assert forall j :: 0 <= j <= i ==> init[j] == pls[j];
          assert LayerOf(pls[i]) == order[m];
        } else {
          assert order[n] == k && k !in prev;
          assert prev[m] in prev;
          var i :| 0 <= i < |init| && LayerOf(init[i]) == prev[m];
          assert forall j :: 0 <= j <= i ==> init[j] == pls[j];
          assert forall j :: 0 <= j <= i ==> LayerOf(pls[j]) != k;
          assert LayerOf(pls[i]) == order[m];
        }
      }
    }
  }

  /** The buckets of `keys`, concatenated in key order. */
  function Regroup(keys: seq<string>, pls: seq<Polyline>): seq<Polyline>
  {
    if keys == [] then [] else Regroup(keys[..|keys| - 1], pls) + Bucket(pls, keys[|keys| - 1])
  }

  /** A bucket holds every copy of the polylines of its layer and nothing else. */
  lemma {:induction false} BucketMultiplicity(pls: seq<Polyline>, k: string, p: Polyline)
    ensures multiset(Bucket(pls, k))[p] == if LayerOf(p) == k then multiset(pls)[p] else 0
  {
    if pls != [] {
      var init := pls[..|pls| - 1];
      BucketMultiplicity(init, k, p);
      assert pls == init + [pls[|pls| - 1]];
    }
  }

  /** With distinct keys, the regrouped buckets hold every copy of the polylines
      whose layer is a key, and nothing else. */
  lemma {:induction false} RegroupMultiplicity(keys: seq<string>, pls: seq<Polyline>, p: Polyline)
    requires forall m, n :: 0 <= m < n < |keys| ==> keys[m] != keys[n]
    ensures multiset(Regroup(keys, pls))[p] == if LayerOf(p) in keys then multiset(pls)[p] else 0
  {
    if keys != [] {
      var init := keys[..|keys| - 1];
      var last := keys[|keys| - 1];
      assert forall m :: 0 <= m < |init| ==> init[m] == keys[m];
      assert last !in init;
      RegroupMultiplicity(init, pls, p);
      BucketMultiplicity(pls, last, p);
      assert keys == init + [last];
    }
  }

  /** The buckets together hold exactly the input polylines, each once: the
      grouping is a permutation of the input. */
  lemma GroupingIsPermutation(pls: seq<Polyline>)
    ensures multiset(Regroup(LayerOrder(pls), pls)) == multiset(pls)
  {
    forall p ensures multiset(Regroup(LayerOrder(pls), pls))[p] == multiset(pls)[p] {
      RegroupMultiplicity(LayerOrder(pls), pls, p);
      if p in pls {
        InOwnBucket(pls, p);
      }
    }
  }

  /** The bucket sizes add up to the number of input polylines. */
  lemma BucketSizesSum(pls: seq<Polyline>)
    ensures |Regroup(LayerOrder(pls), pls)| == |pls|
  {
    GroupingIsPermutation(pls);
    assert |multiset(Regroup(LayerOrder(pls), pls))| == |multiset(pls)|;
  }

  /** Appending one polyline: its layer joins the keys if it is new, and it
      joins the end of its own bucket only. */
  lemma AppendOne(pls: seq<Polyline>, p: Polyline, k: string)
    ensures LayerOrder(pls + [p]) ==
      if LayerOf(p) in LayerOrder(pls) then LayerOrder(pls) else LayerOrder(pls) + [LayerOf(p)]
    ensures Bucket(pls + [p], k) == Bucket(pls, k) + (if LayerOf(p) == k then [p] else [])
  {
    assert (pls + [p])[..|pls|] == pls;
  }

  /** The first step of GroupingExample: one polyline on layer a. */
  lemma ExampleFirst(a: string, b: string, p0: Polyline)
    requires a != b && LayerOf(p0) == a
    ensures LayerOrder([p0]) == [a] && Bucket([p0], a) == [p0] && Bucket([p0], b) == []
  {
    var s0: seq<Polyline> := [];
    assert s0 + [p0] == [p0];
    AppendOne(s0, p0, a);
    AppendOne(s0, p0, b);
  }

  /** The second step of GroupingExample: a polyline on layer b follows. */
  lemma ExampleSecond(a: string, b: string, p0: Polyline, p1: Polyline)
    requires a != b && LayerOf(p0) == a && LayerOf(p1) == b
    ensures LayerOrder([p0, p1]) == [a, b] && Bucket([p0, p1], a) == [p0] && Bucket([p0, p1], b) == [p1]
  {
    ExampleFirst(a, b, p0);
    assert [p0] + [p1] == [p0, p1];
    AppendOne([p0], p1, a);
    AppendOne([p0], p1, b);
  }

  /** Polylines on two different layers a, b, a give the keys a, b, with bucket
      a holding polylines 0 and 2 and bucket b holding polyline 1. */
  lemma GroupingExample(a: string, b: string, p0: Polyline, p1: Polyline, p2: Polyline)
    requires a != b
    requires LayerOf(p0) == a && LayerOf(p1) == b && LayerOf(p2) == a
    ensures LayerOrder([p0, p1] + [p2]) == [a, b]
    ensures Bucket([p0, p1] + [p2], a) == [p0, p2]
    ensures Bucket([p0, p1] + [p2], b) == [p1]
  {
    ExampleSecond(a, b, p0, p1);
    AppendOne([p0, p1], p2, a);
    AppendOne([p0, p1], p2, b);
  }
}
