/** Automatic target finding of target_detection.py: the circles the Hough
    transform reports are sorted by radius; the smallest is the bull and the
    next four (at most) are the rings.  The Hough transform itself is an
    input: the circles it found, already rounded to whole pixels. */
module TargetDetection {
  import opened Common

  datatype Circle = Circle(x: int, y: int, r: int)

  /** The `target_geometry` dictionary. */
  datatype Geometry = Geometry(center: (int, int), bullRadiusPx: int, ringsPx: seq<int>)

  /** How many rings beyond the bull are kept (circles[1:5]). */
  const MaxRings: nat := 4

  predicate SortedByRadius(s: seq<Circle>)
  {
    forall i, j :: 0 <= i < j < |s| ==> s[i].r <= s[j].r
  }

  /** The circles of `s` whose radius is `r`, in their order in `s`. */
  function WithRadius(s: seq<Circle>, r: int): seq<Circle>
  {
    if s == [] then []
    else (if s[0].r == r then [s[0]] else []) + WithRadius(s[1..], r)
  }

  /** Places `c` in front of the first circle at least as large. */
  function Insert(c: Circle, s: seq<Circle>): (t: seq<Circle>)
    requires SortedByRadius(s)
    ensures SortedByRadius(t)
    ensures multiset(t) == multiset(s) + multiset{c}
    ensures |t| == |s| + 1
    ensures forall k :: 0 <= k < |t| ==> t[k] == c || t[k] in s
  {
    if s == [] then [c]
    else if c.r <= s[0].r then [c] + s
    else
      var rest := Insert(c, s[1..]);
      assert s == [s[0]] + s[1..];
      HeadBelowRest(c, s, rest);
      [s[0]] + rest
  }

  /** Insert keeps ties in order: `c` goes before every circle of its own
      radius, and every other radius class is untouched. */
  lemma {:induction false} InsertKeepsTies(c: Circle, s: seq<Circle>, r: int)
    requires SortedByRadius(s)
    ensures WithRadius(Insert(c, s), r) == (if c.r == r then [c] else []) + WithRadius(s, r)
  {
    if s == [] {
      TiesFront(c, [], r);
    } else if c.r <= s[0].r {
      TiesFront(c, s, r);
    } else {
      SortedTail(s);
      InsertKeepsTies(c, s[1..], r);
      TiesBehind(c, s, Insert(c, s[1..]), r);
    }
  }

  /** WithRadius of a circle put in front. */
  lemma TiesFront(c: Circle, s: seq<Circle>, r: int)
    ensures WithRadius([c] + s, r) == (if c.r == r then [c] else []) + WithRadius(s, r)
  {
    assert ([c] + s)[1..] == s;
  }

  /** WithRadius when `c` is inserted behind a strictly smaller head. */
  lemma TiesBehind(c: Circle, s: seq<Circle>, rest: seq<Circle>, r: int)
    requires |s| > 0 && s[0].r < c.r
    requires WithRadius(rest, r) == (if c.r == r then [c] else []) + WithRadius(s[1..], r)
    ensures WithRadius([s[0]] + rest, r) == (if c.r == r then [c] else []) + WithRadius(s, r)
  {
    assert ([s[0]] + rest)[1..] == rest;
  }

  lemma SortedTail(s: seq<Circle>)
    requires |s| > 0 && SortedByRadius(s)
    ensures SortedByRadius(s[1..])
  {
    forall i, j | 0 <= i < j < |s[1..]| ensures s[1..][i].r <= s[1..][j].r {
      assert s[1..][i] == s[i + 1] && s[1..][j] == s[j + 1];
    }
  }

  /** In the recursive case of Insert, the head of `s` is no larger than
      anything the recursive call returns. */
  lemma HeadBelowRest(c: Circle, s: seq<Circle>, rest: seq<Circle>)
    requires |s| > 0 && SortedByRadius(s) && s[0].r < c.r
    requires SortedByRadius(rest)
    requires forall k :: 0 <= k < |rest| ==> rest[k] == c || rest[k] in s[1..]
    ensures SortedByRadius([s[0]] + rest)
  {
    forall k | 0 <= k < |rest| ensures s[0].r <= rest[k].r {
      if rest[k] != c {
        var m :| 0 <= m < |s[1..]| && s[1..][m] == rest[k];
        assert s[1 + m] == rest[k];
      }
    }
  }

  /** sorted(circles, key=radius): an ascending-radius arrangement of the
      same circles. */
  function SortByRadius(s: seq<Circle>): (t: seq<Circle>)
    ensures SortedByRadius(t)
    ensures multiset(t) == multiset(s)
    ensures |t| == |s|
  {
    if s == [] then []
    else
      assert s == [s[0]] + s[1..];
      Insert(s[0], SortByRadius(s[1..]))
  }

  /** The sort is stable, as Python's sorted is: circles of equal radius
      keep the order the transform reported them in. */
  lemma {:induction false} SortIsStable(s: seq<Circle>, r: int)
    ensures WithRadius(SortByRadius(s), r) == WithRadius(s, r)
  {
    if s != [] {
      SortIsStable(s[1..], r);
      InsertKeepsTies(s[0], SortByRadius(s[1..]), r);
    }
  }

  /** The geometry derived from a non-empty circle list (lines 24-33). */
  function GeometryOf(circles: seq<Circle>): (g: Geometry)
    requires |circles| > 0
    ensures exists c :: c in circles && g.center == (c.x, c.y) && g.bullRadiusPx == c.r
    ensures forall c :: c in circles ==> g.bullRadiusPx <= c.r
    ensures |g.ringsPx| == if |circles| - 1 < MaxRings then |circles| - 1 else MaxRings
    ensures forall i, j :: 0 <= i < j < |g.ringsPx| ==> g.ringsPx[i] <= g.ringsPx[j]
    ensures forall i :: 0 <= i < |g.ringsPx| ==> g.bullRadiusPx <= g.ringsPx[i]
    ensures forall i :: 0 <= i < |g.ringsPx| ==> exists c :: c in circles && c.r == g.ringsPx[i]
    ensures g.bullRadiusPx == SortByRadius(circles)[0].r
    ensures forall i :: 0 <= i < |g.ringsPx| ==> g.ringsPx[i] == SortByRadius(circles)[1 + i].r
  {
    var sorted := SortByRadius(circles);
    var n := if |sorted| < 1 + MaxRings then |sorted| else 1 + MaxRings;
    var g := Geometry((sorted[0].x, sorted[0].y), sorted[0].r, seq(n - 1, i requires 0 <= i < n - 1 => sorted[1 + i].r));
    GeometryFromSorted(sorted, circles, n, g);
    g
  }

  /** The bull is the head of the ascending arrangement and the rings are
      the radii of the next circles, at most MaxRings of them. */
  lemma GeometryFromSorted(sorted: seq<Circle>, circles: seq<Circle>, n: nat, g: Geometry)
    requires |sorted| > 0 && SortedByRadius(sorted) && multiset(sorted) == multiset(circles)
    requires n == if |sorted| < 1 + MaxRings then |sorted| else 1 + MaxRings
    requires g == Geometry((sorted[0].x, sorted[0].y), sorted[0].r, seq(n - 1, i requires 0 <= i < n - 1 => sorted[1 + i].r))
    ensures exists c :: c in circles && g.center == (c.x, c.y) && g.bullRadiusPx == c.r
    ensures forall c :: c in circles ==> g.bullRadiusPx <= c.r
    ensures |g.ringsPx| == if |circles| - 1 < MaxRings then |circles| - 1 else MaxRings
    ensures forall i, j :: 0 <= i < j < |g.ringsPx| ==> g.ringsPx[i] <= g.ringsPx[j]
    ensures forall i :: 0 <= i < |g.ringsPx| ==> g.bullRadiusPx <= g.ringsPx[i]
    ensures forall i :: 0 <= i < |g.ringsPx| ==> exists c :: c in circles && c.r == g.ringsPx[i]
    ensures |g.ringsPx| < |sorted| && g.bullRadiusPx == sorted[0].r
    ensures forall i :: 0 <= i < |g.ringsPx| ==> g.ringsPx[i] == sorted[1 + i].r
  {
    assert |circles| == |multiset(circles)| == |sorted|;
    SortedElements(sorted, circles);
    assert sorted[0] in circles;
    forall i | 0 <= i < |g.ringsPx| ensures exists c :: c in circles && c.r == g.ringsPx[i] {
      assert sorted[1 + i] in circles;
    }
  }

  /** Every circle of a permutation is one of the originals and the head of
      an ascending arrangement is no larger than any of them. */
  lemma SortedElements(sorted: seq<Circle>, circles: seq<Circle>)
    requires |sorted| > 0 && SortedByRadius(sorted) && multiset(sorted) == multiset(circles)
    ensures forall c :: c in circles ==> sorted[0].r <= c.r
    ensures forall i :: 0 <= i < |sorted| ==> sorted[i] in circles
  {
    forall c | c in circles ensures sorted[0].r <= c.r {
      assert c in multiset(sorted);
      var k :| 0 <= k < |sorted| && sorted[k] == c;
    }
    forall i | 0 <= i < |sorted| ensures sorted[i] in circles {
      assert sorted[i] in multiset(circles);
    }
  }

  /** sorted() is stable, so on a tie for the smallest radius the bull,
      and with it the target centre, is the first such circle in the order
      the transform reported them. */
  lemma BullIsFirstSmallest(circles: seq<Circle>)
    requires |circles| > 0
    ensures exists k :: 0 <= k < |circles| &&
              GeometryOf(circles).center == (circles[k].x, circles[k].y) &&
              GeometryOf(circles).bullRadiusPx == circles[k].r &&
              forall m :: 0 <= m < k ==> circles[m].r > circles[k].r
  {
    var sorted := SortByRadius(circles);
    var bull := sorted[0];
    assert GeometryOf(circles).center == (bull.x, bull.y) && GeometryOf(circles).bullRadiusPx == bull.r;
    SortedElements(sorted, circles);
    SortIsStable(circles, bull.r);
    assert WithRadius(sorted, bull.r)[0] == bull;
    FirstWithRadius(circles, bull.r);
  }

  /** The first circle of `s` with radius `r` heads WithRadius(s, r). */
  lemma {:induction false} FirstWithRadius(s: seq<Circle>, r: int)
    requires WithRadius(s, r) != []
    ensures exists k :: 0 <= k < |s| && s[k] == WithRadius(s, r)[0] && s[k].r == r &&
              forall m :: 0 <= m < k ==> s[m].r != r
  {
    if s[0].r == r {
      assert s[0] == WithRadius(s, r)[0];
    } else {
      FirstWithRadius(s[1..], r);
      var k' :| 0 <= k' < |s[1..]| && s[1..][k'] == WithRadius(s[1..], r)[0] && s[1..][k'].r == r &&
                forall m :: 0 <= m < k' ==> s[1..][m].r != r;
      assert s[k' + 1] == WithRadius(s, r)[0];
      assert forall m :: 0 <= m < k' + 1 ==> s[m].r != r by {
        forall m | 0 <= m < k' + 1 ensures s[m].r != r {
          if m > 0 { assert s[m] == s[1..][m - 1]; }
        }
      }
    }
  }

  /** A single circle is taken for the bull, with no rings. */
  lemma SingleCircleNoRings(c: Circle)
    ensures GeometryOf([c]) == Geometry((c.x, c.y), c.r, [])
  {
  }

  /** How many circles of `s` are smaller than `v`. */
  function CountBelow(s: seq<Circle>, v: int): (n: nat)
    ensures n <= |s|
  {
    if s == [] then 0 else (if s[0].r < v then 1 else 0) + CountBelow(s[1..], v)
  }

  /** Taking out one circle takes out its own contribution to the count. */
  lemma {:induction false} CountBelowRemove(s: seq<Circle>, k: nat, v: int)
    requires k < |s|
    ensures CountBelow(s, v) == (if s[k].r < v then 1 else 0) + CountBelow(s[..k] + s[k + 1..], v)
  {
    if k > 0 {
      CountBelowRemove(s[1..], k - 1, v);
      assert s[1..][..k - 1] + s[1..][k..] == (s[..k] + s[k + 1..])[1..];
    } else {
      assert s[..k] + s[k + 1..] == s[1..];
    }
  }

  lemma MultisetCancel<T>(x: multiset<T>, y: multiset<T>, e: T)
    requires x + multiset{e} == y + multiset{e}
    ensures x == y
  {
    forall z ensures x[z] == y[z] {
      assert (x + multiset{e})[z] == x[z] + multiset{e}[z];
      assert (y + multiset{e})[z] == y[z] + multiset{e}[z];
    }
  }

  lemma RemoveOne<T>(b: seq<T>, k: nat)
    requires k < |b|
    ensures multiset(b) == multiset(b[..k] + b[k + 1..]) + multiset{b[k]}
  {
    assert b == b[..k] + [b[k]] + b[k + 1..];
  }

  /** Rearranging the circles does not change the count. */
  lemma {:induction false} CountBelowPermutation(a: seq<Circle>, b: seq<Circle>, v: int)
    requires multiset(a) == multiset(b)
    ensures CountBelow(a, v) == CountBelow(b, v)
    decreases |a|
  {
    if a != [] {
      assert a[0] in multiset(b);
      var k :| 0 <= k < |b| && b[k] == a[0];
      var rest := b[..k] + b[k + 1..];
      RemoveOne(b, k);
      assert a == [a[0]] + a[1..];
      assert multiset(a) == multiset(a[1..]) + multiset{a[0]};
      MultisetCancel(multiset(a[1..]), multiset(rest), a[0]);
      CountBelowPermutation(a[1..], rest, v);
      CountBelowRemove(b, k, v);
    }
  }

  /** When every circle from position `j` on is at least `v`, at most `j`
      circles are smaller than `v`. */
  lemma {:induction false} CountBelowBound(s: seq<Circle>, v: int, j: nat)
    requires j <= |s|
    requires forall k :: j <= k < |s| ==> s[k].r >= v
    ensures CountBelow(s, v) <= j
  {
    if s != [] {
      CountBelowBound(s[1..], v, if j > 0 then j - 1 else 0);
    }
  }

  /** In an ascending arrangement of the circles, at most `j` of them are
      smaller than the circle at position `j`. */
  lemma RankInSorted(circles: seq<Circle>, sorted: seq<Circle>, j: nat)
    requires SortedByRadius(sorted) && multiset(sorted) == multiset(circles) && j < |sorted|
    ensures CountBelow(circles, sorted[j].r) <= j
  {
    CountBelowPermutation(circles, sorted, sorted[j].r);
    CountBelowBound(sorted, sorted[j].r, j);
  }

  /** The bull is smaller than no circle, and ring `i` is smaller than at
      most `i + 1` circles: the rings are the next smallest radii after the
      bull, by rank, whatever order the transform reported them in. */
  lemma RingsAreNextSmallest(circles: seq<Circle>)
    requires |circles| > 0
    ensures CountBelow(circles, GeometryOf(circles).bullRadiusPx) == 0
    ensures forall i :: 0 <= i < |GeometryOf(circles).ringsPx| ==>
      CountBelow(circles, GeometryOf(circles).ringsPx[i]) <= i + 1
  {
    var sorted := SortByRadius(circles);
    var g := GeometryOf(circles);
    RankInSorted(circles, sorted, 0);
    forall i | 0 <= i < |g.ringsPx| ensures CountBelow(circles, g.ringsPx[i]) <= i + 1 {
      RankInSorted(circles, sorted, i + 1);
    }
  }

  class Detector {
    /** The module-level `target_geometry`, None until a target is found. */
    var geometry: Option<Geometry>

    constructor ()
      ensures geometry.None?
    {
      geometry := None;
    }

    /** detect_target: `circles` is what the Hough transform found, empty
        when it returned None; then the previous geometry is kept. */
    method DetectTarget(circles: seq<Circle>) returns (g: Option<Geometry>)
      modifies this
      ensures circles == [] ==> geometry == old(geometry)
      ensures circles != [] ==> geometry == Some(GeometryOf(circles))
      ensures g == geometry
    {
      if circles != [] {
        geometry := Some(GeometryOf(circles));
      }
      g := geometry;
    }
  }
}
