/** Column widths and row placement of the exported PDF table, in exact arithmetic. */
module TableLayout {

  const MARGIN := 40.0
  const PADDING := 8.0
  const MIN_COL_WIDTH := 30.0
  const MAX_COL_WIDTH := 220.0
  const HEADER_HEIGHT := 15.0
  const ROW_GAP := 5.0

  function Sum(s: seq<real>): real {
    if |s| == 0 then 0.0 else Sum(s[..|s| - 1]) + s[|s| - 1]
  }

  function Weight(contentWidth: real): (w: real)
    ensures MIN_COL_WIDTH <= w <= MAX_COL_WIDTH
  {
    var padded := contentWidth + PADDING;
    var raised := if padded > MIN_COL_WIDTH then padded else MIN_COL_WIDTH;
    if raised < MAX_COL_WIDTH then raised else MAX_COL_WIDTH
  }

  function Weights(contentWidths: seq<real>): (ws: seq<real>)
    ensures |ws| == |contentWidths|
    ensures forall k :: 0 <= k < |ws| ==> MIN_COL_WIDTH <= ws[k] <= MAX_COL_WIDTH
  {
    seq(|contentWidths|, k requires 0 <= k < |contentWidths| => Weight(contentWidths[k]))
  }

  function Share(usable: real, weight: real, total: real): real
    requires total > 0.0
  {
    usable * weight / total
  }

  function Shares(usable: real, ws: seq<real>, total: real): (shares: seq<real>)
    requires total > 0.0
    ensures |shares| == |ws|
    ensures forall k :: 0 <= k < |ws| ==> shares[k] == Share(usable, ws[k], total)
  {
    seq(|ws|, k requires 0 <= k < |ws| => Share(usable, ws[k], total))
  }

  function Floors(s: seq<real>): (f: seq<real>)
    ensures |f| == |s|
    ensures forall k :: 0 <= k < |s| ==> f[k] == s[k].Floor as real
  {
    seq(|s|, k requires 0 <= k < |s| => s[k].Floor as real)
  }

  lemma {:induction false} WeightsTotal(ws: seq<real>)
    requires forall k :: 0 <= k < |ws| ==> MIN_COL_WIDTH <= ws[k] <= MAX_COL_WIDTH
    ensures MIN_COL_WIDTH * |ws| as real <= Sum(ws) <= MAX_COL_WIDTH * |ws| as real
  {
    if |ws| > 0 {
      WeightsTotal(ws[..|ws| - 1]);
    }
  }

  /** The widths before the remainder is handed out. */
  function BaseWidths(contentWidths: seq<real>, usable: real): seq<real>
    requires |contentWidths| > 0
  {
    var ws := Weights(contentWidths);
    WeightsTotal(ws);
    Floors(Shares(usable, ws, Sum(ws)))
  }

  predicate IsFirstWidest(s: seq<real>, i: nat) {
    && i < |s|
    && (forall k :: 0 <= k < |s| ==> s[k] <= s[i])
    && (forall k :: 0 <= k < i ==> s[k] < s[i])
  }

  lemma {:induction false} SumUpdate(s: seq<real>, i: nat, x: real)
    requires i < |s|
    ensures Sum(s[i := x]) == Sum(s) - s[i] + x
  {
    if i < |s| - 1 {
      assert s[i := x][..|s| - 1] == s[..|s| - 1][i := x];
      SumUpdate(s[..|s| - 1], i, x);
    } else {
      assert s[i := x][..|s| - 1] == s[..|s| - 1];
    }
  }

  lemma ShareDistributes(usable: real, a: real, b: real, total: real)
    requires total > 0.0
    ensures Share(usable, a, total) + Share(usable, b, total) == Share(usable, a + b, total)
  {
  }

  lemma {:induction false} SharesSum(usable: real, ws: seq<real>, total: real)
    requires total > 0.0
    ensures Sum(Shares(usable, ws, total)) == Share(usable, Sum(ws), total)
  {
    if |ws| > 0 {
      SharesSum(usable, ws[..|ws| - 1], total);
      ShareDistributes(usable, Sum(ws[..|ws| - 1]), ws[|ws| - 1], total);
      assert Shares(usable, ws, total)[..|ws| - 1] == Shares(usable, ws[..|ws| - 1], total);
    }
  }

  lemma {:induction false} FloorsSum(s: seq<real>)
    ensures Sum(Floors(s)) <= Sum(s)
    ensures |s| > 0 ==> Sum(s) < Sum(Floors(s)) + |s| as real
  {
    if |s| > 0 {
      FloorsSum(s[..|s| - 1]);
      assert Floors(s)[..|s| - 1] == Floors(s[..|s| - 1]);
    }
  }

  lemma WholeShare(usable: real, total: real)
    requires total > 0.0
    ensures Share(usable, total, total) == usable
  {
  }

  /** Rounding down leaves less than one unit per column to hand out. */
  lemma RemainderIsSmall(contentWidths: seq<real>, usable: real)
    requires |contentWidths| > 0
    ensures 0.0 <= usable - Sum(BaseWidths(contentWidths, usable)) < |contentWidths| as real
  {
    var ws := Weights(contentWidths);
    WeightsTotal(ws);
    SharesSum(usable, ws, Sum(ws));
    WholeShare(usable, Sum(ws));
    FloorsSum(Shares(usable, ws, Sum(ws)));
  }

  lemma SmallestShare(usable: real, weight: real, total: real, n: real)
    requires usable >= 0.0 && n >= 1.0
    requires MIN_COL_WIDTH <= weight && 0.0 < total <= MAX_COL_WIDTH * n
    ensures 3.0 * usable / (22.0 * n) <= Share(usable, weight, total)
  {
    var least := 3.0 * usable / (22.0 * n);
    assert least * (22.0 * n) == 3.0 * usable;
    assert least >= 0.0;
    assert least * total <= least * (MAX_COL_WIDTH * n);
    assert least * (MAX_COL_WIDTH * n) == 10.0 * (least * (22.0 * n)) == usable * MIN_COL_WIDTH;
    assert usable * MIN_COL_WIDTH <= usable * weight;
    DivideBoth(least, usable * weight, total);
  }

  lemma DivideBoth(a: real, b: real, d: real)
    requires d > 0.0 && a * d <= b
    ensures a <= b / d
  {
    var q := b / d;
    assert q * d == b;
    assert (q - a) * d >= 0.0;
  }

  /** Even the narrowest column gets its floor: the weights differ by at most 30 to 220. */
  lemma NoColumnStarves(contentWidths: seq<real>, usable: real)
    requires |contentWidths| > 0 && usable >= 0.0
    ensures forall k :: 0 <= k < |contentWidths| ==>
              (3.0 * usable / (22.0 * |contentWidths| as real)).Floor as real <= BaseWidths(contentWidths, usable)[k]
  {
    var ws := Weights(contentWidths);
    WeightsTotal(ws);
    var n := |contentWidths| as real;
    forall k | 0 <= k < |contentWidths|
      ensures (3.0 * usable / (22.0 * n)).Floor as real <= BaseWidths(contentWidths, usable)[k]
    {
      SmallestShare(usable, ws[k], Sum(ws), n);
    }
  }

  /** The weight of a column: its content and padding, but at least 30 and at most 220. */
  predicate Clamped(w: real, contentWidth: real) {
    && (contentWidth + 8.0 < 30.0 ==> w == 30.0)
    && (30.0 <= contentWidth + 8.0 <= 220.0 ==> w == contentWidth + 8.0)
    && (220.0 < contentWidth + 8.0 ==> w == 220.0)
  }

  /** Rounded down, the widths share the usable width as the weights do. */
  ghost predicate SharedByWeight(base: seq<real>, ws: seq<real>, contentWidths: seq<real>, usable: real) {
    && |base| == |ws| == |contentWidths| && Sum(ws) > 0.0
    && (forall k :: 0 <= k < |ws| ==> Clamped(ws[k], contentWidths[k]))
    && forall k :: 0 <= k < |ws| ==> base[k] == (usable * ws[k] / Sum(ws)).Floor as real
  }

  lemma BaseIsShared(contentWidths: seq<real>, usable: real)
    requires |contentWidths| > 0
    ensures SharedByWeight(BaseWidths(contentWidths, usable), Weights(contentWidths), contentWidths, usable)
  {
    var ws := Weights(contentWidths);
    WeightsTotal(ws);
    forall k | 0 <= k < |ws| ensures Clamped(ws[k], contentWidths[k]) {
      assert ws[k] == Weight(contentWidths[k]);
    }
  }

  /** What the layout promises of its final widths: they fill the usable width exactly, they are the
      shares by content, rounded down, except that the first widest column takes the whole remainder, and none
      starves. */
  ghost predicate FillsPage(widths: seq<real>, contentWidths: seq<real>, usable: real)
    requires |contentWidths| > 0
  {
    var base := BaseWidths(contentWidths, usable);
    && |widths| == |contentWidths|
    && Sum(widths) == usable
    && (exists ws :: SharedByWeight(base, ws, contentWidths, usable))
    && (forall k :: 0 <= k < |widths| ==>
          (3.0 * usable / (22.0 * |contentWidths| as real)).Floor as real <= base[k] <= widths[k])
    && (exists i :: IsFirstWidest(base, i) && forall k :: 0 <= k < |widths| && k != i ==> widths[k] == base[k])
  }

  method AllocateColumns(contentWidths: seq<real>, usable: real) returns (colWidths: array<real>)
    requires |contentWidths| > 0 && usable >= 0.0
    ensures fresh(colWidths)
    ensures FillsPage(colWidths[..], contentWidths, usable)
  {
    var base := BaseWidths(contentWidths, usable);
    BaseIsShared(contentWidths, usable);
    NoColumnStarves(contentWidths, usable);
    RemainderIsSmall(contentWidths, usable);
    colWidths := new real[|base|](k requires 0 <= k < |base| => base[k]);
    assert colWidths[..] == base;
    var remainder := usable - Sum(base);
    var widestIndex := WidestIndex(base);
    if remainder > 0.0 {
      SumUpdate(base, widestIndex, base[widestIndex] + remainder);
      colWidths[widestIndex] := colWidths[widestIndex] + remainder;
      assert colWidths[..] == base[widestIndex := base[widestIndex] + remainder];
    }
  }

  method WidestIndex(widths: seq<real>) returns (index: nat)
    requires |widths| > 0
    ensures IsFirstWidest(widths, index)
  {
    index := 0;
    for k := 1 to |widths|
      invariant index < k
      invariant forall j :: 0 <= j < k ==> widths[j] <= widths[index]
      invariant forall j :: 0 <= j < index ==> widths[j] < widths[index]
    {
      if widths[k] > widths[index] {
        index := k;
      }
    }
  }

  /** The columns lie side by side from the left margin, without gap or overlap, and the last one ends
      at the right margin. */
  method ColumnOffsets(colWidths: seq<real>) returns (colX: seq<real>)
    ensures |colX| == |colWidths|
    ensures |colX| > 0 ==> colX[0] == MARGIN
    ensures forall k :: 0 <= k < |colX| - 1 ==> colX[k + 1] == colX[k] + colWidths[k]
    ensures |colX| > 0 ==> colX[|colX| - 1] + colWidths[|colX| - 1] == MARGIN + Sum(colWidths)
  {
    colX := [];
    var acc := MARGIN;
    for i := 0 to |colWidths|
      invariant |colX| == i
      invariant acc == MARGIN + Sum(colWidths[..i])
      invariant i > 0 ==> colX[0] == MARGIN && acc == colX[i - 1] + colWidths[i - 1]
      invariant forall k :: 0 <= k < i - 1 ==> colX[k + 1] == colX[k] + colWidths[k]
    {
      assert colWidths[..i + 1][..i] == colWidths[..i];
      colX := colX + [acc];
      acc := acc + colWidths[i];
    }
    assert colWidths[..|colWidths|] == colWidths;
  }

  // ----- rows on pages

  datatype Placement = Placement(page: nat, y: real)

  predicate IsTallest(height: real, cells: seq<real>) {
    && (forall i :: 0 <= i < |cells| ==> cells[i] <= height)
    && (height == 0.0 || height in cells)
  }

  method TallestCell(cells: seq<real>) returns (maxHeight: real)
    requires forall i :: 0 <= i < |cells| ==> cells[i] >= 0.0
    ensures IsTallest(maxHeight, cells) && maxHeight >= 0.0
  {
    maxHeight := 0.0;
    for i := 0 to |cells|
      invariant IsTallest(maxHeight, cells[..i]) && maxHeight >= 0.0
    {
      assert cells[..i + 1] == cells[..i] + [cells[i]];
      if cells[i] > maxHeight {
        maxHeight := cells[i];
      }
    }
    assert cells[..|cells|] == cells;
  }

  /** Where a row of height `height` goes when the one before it ended at `end` on page `page`. */
  predicate Follows(p: Placement, height: real, page: nat, end: real, bottom: real) {
    if end + height + ROW_GAP > bottom then p == Placement(page + 1, MARGIN + HEADER_HEIGHT)
    else p == Placement(page, end)
  }

  /** Rows run down the page; a row that would pass the bottom limit starts the next page under a fresh
      header, so every row ends above the limit or is the first after a page break. */
  method PlaceRows(rows: seq<seq<real>>, tableTop: real, bottom: real) returns (placed: seq<Placement>, heights: seq<real>)
    requires forall r, i :: 0 <= r < |rows| && 0 <= i < |rows[r]| ==> rows[r][i] >= 0.0
    ensures |placed| == |heights| == |rows|
    ensures forall r :: 0 <= r < |rows| ==> IsTallest(heights[r], rows[r])
    ensures |rows| > 0 ==> Follows(placed[0], heights[0], 0, tableTop + HEADER_HEIGHT, bottom)
    ensures forall r :: 1 <= r < |rows| ==>
              Follows(placed[r], heights[r], placed[r - 1].page, placed[r - 1].y + heights[r - 1] + ROW_GAP, bottom)
    ensures forall r :: 0 <= r < |rows| ==>
              || placed[r].y + heights[r] + ROW_GAP <= bottom
              || (placed[r].y == MARGIN + HEADER_HEIGHT && placed[r].page == (if r == 0 then 0 else placed[r - 1].page) + 1)
  {
    placed, heights := [], [];
    var currentY := tableTop + HEADER_HEIGHT;
    var page := 0;
    for r := 0 to |rows|
      invariant |placed| == |heights| == r
      invariant forall k :: 0 <= k < r ==> IsTallest(heights[k], rows[k])
      invariant r > 0 ==> Follows(placed[0], heights[0], 0, tableTop + HEADER_HEIGHT, bottom)
      invariant forall k :: 1 <= k < r ==>
                  Follows(placed[k], heights[k], placed[k - 1].page, placed[k - 1].y + heights[k - 1] + ROW_GAP, bottom)
      invariant page == if r == 0 then 0 else placed[r - 1].page
      invariant currentY == if r == 0 then tableTop + HEADER_HEIGHT else placed[r - 1].y + heights[r - 1] + ROW_GAP
    {
      var maxHeight := TallestCell(rows[r]);
      if currentY + maxHeight + ROW_GAP > bottom {
        page := page + 1;
        currentY := MARGIN + HEADER_HEIGHT;
      }
      placed := placed + [Placement(page, currentY)];
      heights := heights + [maxHeight];
      currentY := currentY + maxHeight + ROW_GAP;
    }
    forall r | 0 <= r < |rows|
      ensures || placed[r].y + heights[r] + ROW_GAP <= bottom
              || (placed[r].y == MARGIN + HEADER_HEIGHT && placed[r].page == (if r == 0 then 0 else placed[r - 1].page) + 1)
    {
      if r > 0 {
        assert Follows(placed[r], heights[r], placed[r - 1].page, placed[r - 1].y + heights[r - 1] + ROW_GAP, bottom);
      }
    }
  }
}
