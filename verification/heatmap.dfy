/** The hit heatmap of heatmap.py: a 720 x 1280 grid of hit counts, one cell
    per target-space pixel, and a display toggle. */
module Heatmap {
  import opened Common

  const Rows: nat := 720
  const Cols: nat := 1280

  /** The 8-bit display value of a cell holding `v` when the largest cell
      holds `peak`: v / peak * 255 truncated, or the count itself when no
      cell is positive. */
  function NormCell(v: int, peak: int): int
  {
    if peak > 0 then v * 255 / peak else v
  }

  /** Display values lie in 0..255, the peak maps to 255, and a larger
      count never displays darker. */
  lemma NormCellRange(v: int, w: int, peak: int)
    requires 0 <= v <= w <= peak
    ensures 0 <= NormCell(v, peak) <= NormCell(w, peak) <= 255
    ensures peak > 0 ==> NormCell(peak, peak) == 255
    ensures peak == 0 ==> NormCell(v, peak) == 0
  {
    if peak > 0 {
      ScaleMonotone(v, w);
      ScaleMonotone(w, peak);
      DivMonotone(v * 255, w * 255, peak);
      DivMonotone(w * 255, peak * 255, peak);
      DivExact(255, peak);
      DivMonotone(0, v * 255, peak);
    }
  }

  /** Scaling by 255 keeps order. */
  lemma ScaleMonotone(a: int, b: int)
    requires a <= b
    ensures a * 255 <= b * 255
  {
  }

  /** How many of the registered points `hits` (row, column) fall on cell
      (r, c). */
  ghost function CountAt(hits: seq<(int, int)>, r: int, c: int): nat
  {
    if hits == [] then 0
    else CountAt(hits[..|hits| - 1], r, c) + (if hits[|hits| - 1] == (r, c) then 1 else 0)
  }

  class Grid {
    var heat: array2<int>
    var enabled: bool
    /** Every point passed to RegisterHit since the last reset, truncated. */
    ghost var registered: seq<(int, int)>

    /** The grid has the display size and each cell counts the registered
        points that fell on it. */
    ghost predicate Valid()
      reads this, heat
    {
      && heat.Length0 == Rows && heat.Length1 == Cols
      && forall r, c :: 0 <= r < Rows && 0 <= c < Cols ==> heat[r, c] == CountAt(registered, r, c)
    }

    constructor ()
      ensures Valid() && fresh(heat)
      ensures !enabled && registered == []
    {
      heat := new int[Rows, Cols]((r, c) => 0);
      enabled := false;
      registered := [];
    }

    /** toggle_heatmap. */
    method Toggle() returns (on: bool)
      modifies this
      ensures enabled == !old(enabled) && on == enabled
      ensures heat == old(heat) && registered == old(registered)
    {
      enabled := !enabled;
      on := enabled;
    }

    /** register_hit(x, y): the cell under the truncated point gains one,
        provided it lies on the grid; nothing else changes. */
    method RegisterHit(x: real, y: real)
      requires Valid()
      modifies this, heat
      ensures Valid() && heat == old(heat) && enabled == old(enabled)
      ensures registered == old(registered) + [(Trunc(y), Trunc(x))]
      ensures forall r, c :: 0 <= r < Rows && 0 <= c < Cols ==>
        heat[r, c] == old(heat[r, c]) + (if (r, c) == (Trunc(y), Trunc(x)) then 1 else 0)
    {
      var ix, iy := Trunc(x), Trunc(y);
      registered := registered + [(iy, ix)];
      if 0 <= iy < Rows && 0 <= ix < Cols {
        heat[iy, ix] := heat[iy, ix] + 1;
      }
      assert registered[..|registered| - 1] == old(registered);
    }

    /** reset_heatmap: every cell back to zero, in place. */
    method Reset()
      requires Valid()
      modifies this, heat
      ensures Valid() && heat == old(heat) && enabled == old(enabled)
      ensures registered == []
      ensures forall r, c :: 0 <= r < Rows && 0 <= c < Cols ==> heat[r, c] == 0
    {
      for i := 0 to Rows
        invariant heat == old(heat) && heat.Length0 == Rows && heat.Length1 == Cols && enabled == old(enabled)
        invariant forall r, c :: 0 <= r < i && 0 <= c < Cols ==> heat[r, c] == 0
      {
        for j := 0 to Cols
          invariant heat == old(heat) && heat.Length0 == Rows && heat.Length1 == Cols && enabled == old(enabled)
          invariant forall r, c :: 0 <= r < i && 0 <= c < Cols ==> heat[r, c] == 0
          invariant forall c :: 0 <= c < j ==> heat[i, c] == 0
        {
          heat[i, j] := 0;
        }
      }
      registered := [];
    }

    /** h.max(): the largest count, with a cell that holds it. */
    method Peak() returns (m: int)
      requires Valid()
      ensures forall r, c :: 0 <= r < Rows && 0 <= c < Cols ==> heat[r, c] <= m
      ensures exists r, c :: 0 <= r < Rows && 0 <= c < Cols && heat[r, c] == m
    {
      m := heat[0, 0];
      ghost var wr, wc := 0, 0;
      for i := 0 to Rows
        invariant 0 <= wr < Rows && 0 <= wc < Cols && heat[wr, wc] == m
        invariant forall r, c :: 0 <= r < i && 0 <= c < Cols ==> heat[r, c] <= m
      {
        for j := 0 to Cols
          invariant 0 <= wr < Rows && 0 <= wc < Cols && heat[wr, wc] == m
          invariant forall r, c :: 0 <= r < i && 0 <= c < Cols ==> heat[r, c] <= m
          invariant forall c :: 0 <= c < j ==> heat[i, c] <= m
        {
          if heat[i, j] > m {
            m := heat[i, j];
            wr, wc := i, j;
          }
        }
      }
    }

    /** get_heatmap_normalized: a fresh 8-bit image scaled so that the
        busiest cell, holding `peak`, shows 255; the counts are left alone. */
    method Normalized() returns (img: array2<int>, ghost peak: int)
      requires Valid()
      ensures forall r, c :: 0 <= r < Rows && 0 <= c < Cols ==> heat[r, c] <= peak
      ensures exists r, c :: 0 <= r < Rows && 0 <= c < Cols && heat[r, c] == peak
      ensures fresh(img) && img.Length0 == Rows && img.Length1 == Cols
      ensures forall r, c :: 0 <= r < Rows && 0 <= c < Cols ==> img[r, c] == NormCell(heat[r, c], peak)
      ensures forall r, c :: 0 <= r < Rows && 0 <= c < Cols ==> 0 <= img[r, c] <= 255
      ensures (exists r, c :: 0 <= r < Rows && 0 <= c < Cols && heat[r, c] > 0) ==>
        exists r, c :: 0 <= r < Rows && 0 <= c < Cols && img[r, c] == 255
      ensures (forall r, c :: 0 <= r < Rows && 0 <= c < Cols ==> heat[r, c] == 0) ==>
        forall r, c :: 0 <= r < Rows && 0 <= c < Cols ==> img[r, c] == 0
      ensures forall r1, c1, r2, c2 ::
        (0 <= r1 < Rows && 0 <= c1 < Cols && 0 <= r2 < Rows && 0 <= c2 < Cols && heat[r1, c1] <= heat[r2, c2]) ==>
        img[r1, c1] <= img[r2, c2]
    {
      var m := Peak();
      peak := m;
      img := new int[Rows, Cols];
      for i := 0 to Rows
        invariant forall r, c :: 0 <= r < i && 0 <= c < Cols ==> img[r, c] == NormCell(heat[r, c], m)
      {
        for j := 0 to Cols
          invariant forall r, c :: 0 <= r < i && 0 <= c < Cols ==> img[r, c] == NormCell(heat[r, c], m)
          invariant forall c :: 0 <= c < j ==> img[i, c] == NormCell(heat[i, c], m)
        {
          img[i, j] := NormCell(heat[i, j], m);
        }
      }
      forall r1, c1, r2, c2 | 0 <= r1 < Rows && 0 <= c1 < Cols && 0 <= r2 < Rows && 0 <= c2 < Cols
        && heat[r1, c1] <= heat[r2, c2]
        ensures 0 <= img[r1, c1] <= img[r2, c2] <= 255
      {
        NormCellRange(heat[r1, c1], heat[r2, c2], peak);
      }
      ghost var wr, wc :| 0 <= wr < Rows && 0 <= wc < Cols && heat[wr, wc] == peak;
      if peak > 0 {
        NormCellRange(peak, peak, peak);
        assert img[wr, wc] == 255;
      }
    }
  }
}
