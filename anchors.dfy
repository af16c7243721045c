/**
  Anchor extraction: every vertex of the candle mesh is raised by a fixed
  offset and keyed by its x and z printed to two decimals; per key the
  highest raised vertex is kept, and the kept points, in the order their
  keys were first inserted into the map, are the flame anchors.
*/
module Anchors {
  import opened Geometry

  /** How far a flame sits above the candle surface. */
  const Lift := 0.1

  /**
    One coordinate as `toFixed(2)` prints it: a minus sign exactly when the
    value is negative, then the magnitude rounded to hundredths with ties
    going up. Two such prints are equal strings exactly when these fields are.
  */
  datatype Fixed2 = Fixed2(negative: bool, hundredths: int)

  /** The `"<x>|<z>"` map key of a vertex. */
  datatype CellKey = CellKey(x: Fixed2, z: Fixed2)

  /** The candle mesh as found in the loaded scene: absent (or without geometry) or its world-space vertices. */
  datatype Mesh = NoCandle | Candle(vertices: seq<Point>)

  function ToFixed2(r: real): (f: Fixed2)
    ensures f.negative <==> r < 0.0
    ensures 0 <= f.hundredths
    // the nearest whole number of hundredths to |r|, the larger one on a tie
    ensures Abs(r) * 100.0 - 0.5 < f.hundredths as real <= Abs(r) * 100.0 + 0.5
  {
    Fixed2(r < 0.0, (Abs(r) * 100.0 + 0.5).Floor)
  }

  function KeyOf(p: Point): CellKey
  {
    CellKey(ToFixed2(p.x), ToFixed2(p.z))
  }

  /** The flame's position over a vertex: lifted, in the same cell. */
  function Raise(v: Point): (p: Point)
    ensures KeyOf(p) == KeyOf(v)
  {
    Point(v.x, v.y + Lift, v.z)
  }

  /** Two coordinates with the same printed form lie less than a hundredth apart. */
  lemma SameFixed2Close(a: real, b: real)
    requires ToFixed2(a) == ToFixed2(b)
    ensures Abs(a - b) < 0.01
  {
    var n := ToFixed2(a).hundredths as real;
    assert Abs(a) * 100.0 - 0.5 < n <= Abs(a) * 100.0 + 0.5;
    assert Abs(b) * 100.0 - 0.5 < n <= Abs(b) * 100.0 + 0.5;
  }

  /** The sign is part of the key: -0.001 prints "-0.00" and 0.001 prints "0.00". */
  lemma NegativeZeroCellIsSeparate()
    ensures ToFixed2(-0.001).hundredths == ToFixed2(0.001).hundredths == 0
    ensures ToFixed2(-0.001) != ToFixed2(0.001)
  {
  }

  /** The state of the JS `Map` during the loop: keys in insertion order and the entries. */
  datatype Scan = Scan(order: seq<CellKey>, best: map<CellKey, Point>)

  const EmptyScan := Scan([], map[])

  /** One iteration of the loop body for an already raised vertex `p`. */
  function Visit(s: Scan, p: Point): Scan
  {
    var key := KeyOf(p);
    if key !in s.best then Scan(s.order + [key], s.best[key := p])
    else if s.best[key].y < p.y then Scan(s.order, s.best[key := p])
    else s
  }

  /** The map after the loop has visited all of `vs`. */
  function ScanAll(vs: seq<Point>): Scan
  {
    if vs == [] then EmptyScan else Visit(ScanAll(vs[..|vs| - 1]), Raise(vs[|vs| - 1]))
  }

  ghost function KeysOf(vs: seq<Point>): set<CellKey>
  {
    set i | 0 <= i < |vs| :: KeyOf(vs[i])
  }

  ghost predicate Distinct<T>(s: seq<T>)
  {
    forall i, j :: 0 <= i < j < |s| ==> s[i] != s[j]
  }

  /**
    `p` is what the map holds for key `k` after visiting `vs`: it is some
    vertex `j` of that key, raised; no vertex of that key is higher; and every
    earlier vertex of that key is strictly lower (the first of equals stays).
  */
  ghost predicate Kept(vs: seq<Point>, k: CellKey, p: Point)
  {
    exists j :: 0 <= j < |vs| && KeyOf(vs[j]) == k && p == Raise(vs[j]) &&
      (forall i :: 0 <= i < j && KeyOf(vs[i]) == k ==> vs[i].y + Lift < p.y)
      && (forall i :: 0 <= i < |vs| && KeyOf(vs[i]) == k ==> vs[i].y + Lift <= p.y)
  }

  /** The shape of the map: each key once in the order, the same keys as the entries, one per vertex at most. */
  ghost predicate WellFormed(vs: seq<Point>, s: Scan)
  {
    && Distinct(s.order)
    && (forall k :: k in s.order <==> k in s.best)
    && s.best.Keys == KeysOf(vs)
    && |s.order| <= |vs|
  }

  ghost predicate ScanInvariant(vs: seq<Point>, s: Scan)
  {
    WellFormed(vs, s) && forall k :: k in s.best ==> Kept(vs, k, s.best[k])
  }

  lemma KeysOfSnoc(vs: seq<Point>, v: Point)
    ensures KeysOf(vs + [v]) == KeysOf(vs) + {KeyOf(v)}
  {
    var vs' := vs + [v];
    forall k | k in KeysOf(vs') ensures k in KeysOf(vs) + {KeyOf(v)} {
      var i :| 0 <= i < |vs'| && KeyOf(vs'[i]) == k;
      if i < |vs| { assert vs'[i] == vs[i]; }
    }
    forall k | k in KeysOf(vs) ensures k in KeysOf(vs') {
      var i :| 0 <= i < |vs| && KeyOf(vs[i]) == k;
      assert vs'[i] == vs[i];
    }
    assert vs'[|vs|] == v;
  }

  lemma {:induction false} ScanAllWellFormed(vs: seq<Point>)
    ensures WellFormed(vs, ScanAll(vs))
  {
    if vs != [] {
      var n := |vs| - 1;
      assert vs == vs[..n] + [vs[n]];
      ScanAllWellFormed(vs[..n]);
      KeysOfSnoc(vs[..n], vs[n]);
      assert KeyOf(Raise(vs[n])) == KeyOf(vs[n]);
    }
  }

  lemma {:induction false} ScanAllInvariant(vs: seq<Point>)
    ensures ScanInvariant(vs, ScanAll(vs))
  {
    ScanAllWellFormed(vs);
    if vs == [] {
      return;
    }
    var n := |vs| - 1;
    var init, v := vs[..n], vs[n];
    assert vs == init + [v];
    ScanAllInvariant(init);
    var s := ScanAll(init);
    var p := Raise(v);
    var key := KeyOf(p);
    assert KeyOf(v) == key;
    var s' := Visit(s, p);
    forall k | k in s'.best ensures Kept(vs, k, s'.best[k]) {
      if k != key {
        KeptExtends(init, v, k, s.best[k]);
      } else if key !in s.best {
        KeptNew(init, v);
      } else if s.best[key].y < p.y {
        KeptReplaced(init, v, s.best[key]);
      } else {
        KeptExtends(init, v, k, s.best[k]);
      }
    }
  }

  /** A kept point survives a later vertex that does not replace it. */
  lemma KeptExtends(vs: seq<Point>, v: Point, k: CellKey, p: Point)
    requires Kept(vs, k, p)
    requires KeyOf(v) == k ==> v.y + Lift <= p.y
    ensures Kept(vs + [v], k, p)
  {
    var j :| 0 <= j < |vs| && KeyOf(vs[j]) == k && p == Raise(vs[j]) &&
      (forall i :: 0 <= i < j && KeyOf(vs[i]) == k ==> vs[i].y + Lift < p.y)
      && (forall i :: 0 <= i < |vs| && KeyOf(vs[i]) == k ==> vs[i].y + Lift <= p.y);
    var vs' := vs + [v];
    assert forall i :: 0 <= i < |vs| ==> vs'[i] == vs[i];
    assert KeyOf(vs'[j]) == k && p == Raise(vs'[j]);
  }

  /** A vertex whose key is new becomes the kept point of its key. */
  lemma KeptNew(vs: seq<Point>, v: Point)
    requires KeyOf(v) !in KeysOf(vs)
    ensures Kept(vs + [v], KeyOf(v), Raise(v))
  {
    var vs' := vs + [v];
    forall i | 0 <= i < |vs| ensures KeyOf(vs'[i]) != KeyOf(v) {
      assert vs'[i] == vs[i];
      assert KeyOf(vs[i]) in KeysOf(vs);
    }
    assert vs'[|vs|] == v;
  }

  /** A strictly higher vertex replaces the kept point of its key. */
  lemma KeptReplaced(vs: seq<Point>, v: Point, q: Point)
    requires Kept(vs, KeyOf(v), q)
    requires q.y < v.y + Lift
    ensures Kept(vs + [v], KeyOf(v), Raise(v))
  {
    var vs' := vs + [v];
    var k := KeyOf(v);
    forall i | 0 <= i < |vs| && KeyOf(vs'[i]) == k ensures vs'[i].y + Lift < v.y + Lift {
      assert vs'[i] == vs[i];
    }
    assert vs'[|vs|] == v;
  }

  /**
    The map's values in insertion order (the spread of `pointsMap.values()`).
    When each key is listed once and each entry lies in its own key's cell,
    the values are one point per key: the `i`-th lies in the `i`-th inserted
    key's cell, so no two share a cell and every key of the map has one.
  */
  function ValuesOf(s: Scan): (anchors: seq<Point>)
    requires Distinct(s.order)
    requires forall k :: k in s.order <==> k in s.best
    requires forall k :: k in s.best ==> KeyOf(s.best[k]) == k
    ensures |anchors| == |s.order|
    ensures forall i :: 0 <= i < |s.order| ==> anchors[i] == s.best[s.order[i]]
    ensures forall a, b :: 0 <= a < b < |anchors| ==> KeyOf(anchors[a]) != KeyOf(anchors[b])
    ensures forall i :: 0 <= i < |anchors| ==> KeyOf(anchors[i]) == s.order[i]
  {
    seq(|s.order|, i requires 0 <= i < |s.order| => s.best[s.order[i]])
  }

  /** Every entry of the map lies in the cell of the key it is stored under. */
  lemma EntriesInOwnCell(vs: seq<Point>)
    ensures WellFormed(vs, ScanAll(vs))
    ensures forall k :: k in ScanAll(vs).best ==> KeyOf(ScanAll(vs).best[k]) == k
  {
    ScanAllInvariant(vs);
    var s := ScanAll(vs);
    forall k | k in s.best ensures KeyOf(s.best[k]) == k {
      KeptKey(vs, k, s.best[k]);
    }
  }

  /** The anchors that the load callback derives from the candle mesh. */
  function AnchorsOf(mesh: Mesh): seq<Point>
  {
    match mesh
    case NoCandle => []
    case Candle(vs) =>
      EntriesInOwnCell(vs);
      ValuesOf(ScanAll(vs))
  }

  /** The extraction loop: the JS map is kept as its insertion order and its entries. */
  method ExtractAnchors(mesh: Mesh) returns (anchors: seq<Point>)
    ensures anchors == AnchorsOf(mesh)
  {
    anchors := [];
    if mesh.Candle? {
      var vs := mesh.vertices;
      var order: seq<CellKey> := [];
      var points: map<CellKey, Point> := map[];
      for i := 0 to |vs|
        invariant Scan(order, points) == ScanAll(vs[..i])
      {
        assert vs[..i + 1][..i] == vs[..i];
        var x, y, z := vs[i].x, vs[i].y + Lift, vs[i].z;
        var key := KeyOf(Point(x, y, z));
        if key !in points || points[key].y < y {
          if key !in points {
            order := order + [key];
          }
          points := points[key := Point(x, y, z)];
        }
      }
      assert vs[..|vs|] == vs;
      EntriesInOwnCell(vs);
      anchors := ValuesOf(Scan(order, points));
    }
  }

  // Properties of the extracted anchors.

  /** No candle mesh, or a mesh without vertices, gives no anchors. */
  lemma NoVerticesNoAnchors(mesh: Mesh)
    requires mesh.NoCandle? || mesh.vertices == []
    ensures AnchorsOf(mesh) == []
  {
  }

  /** There are never more anchors than vertices, and at least one when there is a vertex. */
  lemma AnchorCount(vs: seq<Point>)
    ensures |AnchorsOf(Candle(vs))| <= |vs|
    ensures vs != [] ==> AnchorsOf(Candle(vs)) != []
  {
    ScanAllInvariant(vs);
    if vs != [] {
      assert KeyOf(vs[0]) in KeysOf(vs);
    }
  }

  /** At most one anchor per cell key. */
  lemma AnchorsHaveDistinctKeys(vs: seq<Point>)
    ensures forall a, b :: 0 <= a < b < |AnchorsOf(Candle(vs))| ==>
      KeyOf(AnchorsOf(Candle(vs))[a]) != KeyOf(AnchorsOf(Candle(vs))[b])
  {
    ScanAllInvariant(vs);
    var s := ScanAll(vs);
    var anchors := AnchorsOf(Candle(vs));
    forall a, b | 0 <= a < b < |anchors| ensures KeyOf(anchors[a]) != KeyOf(anchors[b]) {
      KeptKey(vs, s.order[a], anchors[a]);
      KeptKey(vs, s.order[b], anchors[b]);
    }
  }

  lemma KeptKey(vs: seq<Point>, k: CellKey, p: Point)
    requires Kept(vs, k, p)
    ensures KeyOf(p) == k
  {
  }

  /** Every vertex's cell is represented by an anchor no lower than the raised vertex. */
  lemma EveryCellHasHighestAnchor(vs: seq<Point>, i: int)
    requires 0 <= i < |vs|
    ensures exists a :: (0 <= a < |AnchorsOf(Candle(vs))| &&
      KeyOf(AnchorsOf(Candle(vs))[a]) == KeyOf(vs[i]) &&
      vs[i].y + Lift <= AnchorsOf(Candle(vs))[a].y)
  {
    ScanAllInvariant(vs);
    var s := ScanAll(vs);
    var anchors := AnchorsOf(Candle(vs));
    var k := KeyOf(vs[i]);
    assert k in KeysOf(vs);
    var a :| 0 <= a < |s.order| && s.order[a] == k;
    assert anchors[a] == s.best[k];
    KeptKey(vs, k, s.best[k]);
    assert Kept(vs, k, s.best[k]);
    KeptHighest(vs, k, s.best[k], i);
  }

  lemma KeptHighest(vs: seq<Point>, k: CellKey, p: Point, i: int)
    requires Kept(vs, k, p) && 0 <= i < |vs| && KeyOf(vs[i]) == k
    ensures vs[i].y + Lift <= p.y
  {
  }

  /**
    Each anchor is a raised input vertex (same x and z, y plus the lift),
    the highest of its cell, and the first such vertex when several tie.
  */
  lemma AnchorIsFirstHighestVertex(vs: seq<Point>, a: int)
    requires 0 <= a < |AnchorsOf(Candle(vs))|
    ensures exists j :: (0 <= j < |vs| &&
      var p := AnchorsOf(Candle(vs))[a];
      && p == Point(vs[j].x, vs[j].y + Lift, vs[j].z)
      && (forall i :: 0 <= i < |vs| && KeyOf(vs[i]) == KeyOf(p) ==> vs[i].y + Lift <= p.y)
      && (forall i :: 0 <= i < j && KeyOf(vs[i]) == KeyOf(p) ==> vs[i].y + Lift < p.y))
  {
    ScanAllInvariant(vs);
    var s := ScanAll(vs);
    var k := s.order[a];
    EntryIsFirstHighestVertex(vs, k, s.best[k]);
  }

  /** A kept point is its first highest raised vertex, in its key's own cell. */
  lemma EntryIsFirstHighestVertex(vs: seq<Point>, k: CellKey, p: Point)
    requires Kept(vs, k, p)
    ensures exists j :: (0 <= j < |vs|
      && p == Point(vs[j].x, vs[j].y + Lift, vs[j].z)
      && (forall i :: 0 <= i < |vs| && KeyOf(vs[i]) == KeyOf(p) ==> vs[i].y + Lift <= p.y)
      && (forall i :: 0 <= i < j && KeyOf(vs[i]) == KeyOf(p) ==> vs[i].y + Lift < p.y))
  {
    KeptKey(vs, k, p);
  }

  /** The example of three vertices, two sharing a cell: two anchors, the higher one kept. */
  lemma ThreeVertexExample()
    ensures AnchorsOf(Candle([Point(0.0, 0.0, 0.0), Point(0.0, 1.0, 0.0), Point(1.0, 0.0, 1.0)]))
      == [Point(0.0, 1.1, 0.0), Point(1.0, 0.1, 1.0)]
  {
    var vs := [Point(0.0, 0.0, 0.0), Point(0.0, 1.0, 0.0), Point(1.0, 0.0, 1.0)];
    assert vs[..2][..1] == [vs[0]];
    assert vs[..2] == [vs[0], vs[1]];
    assert ScanAll([vs[0]]) == Scan([KeyOf(vs[0])], map[KeyOf(vs[0]) := Raise(vs[0])]);
    assert KeyOf(vs[1]) == KeyOf(vs[0]);
    assert ScanAll(vs[..2]) == Scan([KeyOf(vs[0])], map[KeyOf(vs[0]) := Raise(vs[1])]);
    assert KeyOf(vs[2]) != KeyOf(vs[0]);
  }
}
