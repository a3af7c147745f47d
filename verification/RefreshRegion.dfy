// The browser's screen updates: a requested rectangle is clipped with C's mixed signed and unsigned
// arithmetic, kept off the on-screen keyboard, and widened to the display controller's grid of eight pixels.
module RefreshRegion {
  import opened Wrappers

  const PANEL_WIDTH := 1404
  const PANEL_HEIGHT := 1872
  const OSK_Y := 1272
  const WORD: int := 0x1_0000_0000

  datatype Region = Region(left: int, top: int, right: int, bottom: int)

  function ToU32(a: int): u32 {
    a % WORD
  }

  lemma ToU32Is(a: int)
    requires -WORD <= a < 2 * WORD
    ensures ToU32(a) == if a < 0 then a + WORD else if a < WORD then a else a - WORD
  {
  }

  function ToI32(a: u32): i32 {
    if a < 0x8000_0000 then a else a - WORD
  }

  lemma SmallIsSigned(a: u32)
    requires a < 0x8000_0000
    ensures ToI32(a) == a
  {
  }

  /** A number with its lowest three bits cleared, in two's complement. */
  function Down8(a: int): (r: int)
    ensures r % 8 == 0 && r <= a < r + 8
  {
    a - a % 8
  }

  // --- The region submitted for a request ---

  /** One axis of a rectangle that starts off the panel loses the part before it; what is left may wrap around. */
  function CutStart(x: i32, w: u32): u32 {
    if x < 0 then ToU32(w + x) else w
  }

  function Start(x: i32): nat {
    if x < 0 then 0 else x
  }

  /** The comparison with the end of the panel is made on unsigned words. */
  function CutEnd(x: nat, w: u32, limit: nat): u32
    requires x < limit <= 0x7FFF_FFFF
  {
    if ToU32(x + w) > limit then limit - x else w
  }

  /** The grid cells an area touches, as submitted to the controller; none if it is empty. */
  function Widened(left: int, top: int, width: int, height: int): Option<Region> {
    var right, bottom := Down8(left + width + 7), Down8(top + height + 7);
    var r := Region(Down8(left), Down8(top), if right > PANEL_WIDTH then PANEL_WIDTH else right,
                    if bottom > PANEL_HEIGHT then PANEL_HEIGHT else bottom);
    if r.right <= r.left || r.bottom <= r.top then None else Some(r)
  }

  /** The clipped rectangle of a request, if it is not empty. */
  function Clipped(x: i32, y: i32, w: u32, h: u32): Option<(nat, nat, u32, u32)> {
    if w == 0 || h == 0 then Some((0, 0, PANEL_WIDTH, PANEL_HEIGHT))
    else if Start(x) >= PANEL_WIDTH || Start(y) >= PANEL_HEIGHT || CutStart(x, w) == 0 || CutStart(y, h) == 0 then None
    else Some((Start(x), Start(y), CutEnd(Start(x), CutStart(x, w), PANEL_WIDTH), CutEnd(Start(y), CutStart(y, h), PANEL_HEIGHT)))
  }

  /** The region submitted for a clipped rectangle. */
  function SubmittedFor(x: nat, y: nat, w: u32, h: u32, osk: bool): Option<Region> {
    if osk && y + ToI32(h) > OSK_Y then
      if y >= OSK_Y then None else Widened(x, y, ToI32(w), OSK_Y - y)
    else Widened(x, y, ToI32(w), ToI32(h))
  }

  function Submitted(x: i32, y: i32, w: u32, h: u32, osk: bool): Option<Region> {
    match Clipped(x, y, w, h)
    case None => None
    case Some((cx, cy, cw, ch)) => SubmittedFor(cx, cy, cw, ch, osk)
  }

  // --- The driver ---

  /** SaveRow takes over one row of the panel into the backup of what the keyboard covers. */
  datatype Draw = UrlBar | SaveRow(row: int) | Keyboard | Refresh(region: Region, flash: bool)

  function SavedRows(start: int, end: int): (rows: seq<Draw>)
    ensures forall d :: d in rows ==> d.SaveRow?
    decreases end - start
  {
    if end <= start then [] else SavedRows(start, end - 1) + [SaveRow(end - 1)]
  }

  function Larger(a: int, b: int): int {
    if a > b then a else b
  }

  function Smaller(a: int, b: int): int {
    if a < b then a else b
  }

  /** A clipped rectangle reaches below the upper edge of a shown keyboard. */
  predicate ReachesKeyboard(y: nat, h: u32, osk: bool) {
    osk && y + ToI32(h) > OSK_Y
  }

  /** What is drawn over the page before anything is submitted. */
  function Overdrawn(x: nat, y: nat, w: u32, h: u32, osk: bool, backup: bool): (d: seq<Draw>)
    ensures forall e :: e in d ==> !e.Refresh?
  {
    var bar := if y < 75 && x + ToI32(w) > 140 then [UrlBar] else [];
    var rows := if backup then SavedRows(Larger(y, OSK_Y), Smaller(y + ToI32(h), PANEL_HEIGHT)) else [];
    bar + if ReachesKeyboard(y, h, osk) then rows + [Keyboard] else []
  }

  /** What is drawn for a clipped rectangle, and the region submitted at the end. */
  function Drawing(x: nat, y: nat, w: u32, h: u32, osk: bool, backup: bool, first: bool): seq<Draw> {
    var r := SubmittedFor(x, y, w, h, osk);
    var height := if ReachesKeyboard(y, h, osk) then OSK_Y - y else h;
    Overdrawn(x, y, w, h, osk, backup) + if r.None? then [] else [Refresh(r.value, first && w >= 1000 && height >= 1000)]
  }

  /** Nothing flashes. */
  predicate Calm(drawn: seq<Draw>) {
    forall d :: d in drawn && d.Refresh? ==> !d.flash
  }

  lemma {:induction false} RowIsSaved(start: int, end: int, row: int)
    ensures SaveRow(row) in SavedRows(start, end) <==> start <= row < end
    decreases end - start
  {
    if start < end {
      RowIsSaved(start, end - 1, row);
    }
  }

  /** With the keyboard shown exactly the rows of the rectangle that it covers are taken over, all inside the backup. */
  lemma SavesCoveredRows(x: nat, y: nat, w: u32, h: u32, osk: bool, backup: bool, first: bool, row: int)
    ensures SaveRow(row) in Drawing(x, y, w, h, osk, backup, first) <==>
            osk && backup && 1272 <= row < 1872 && y <= row < y + ToI32(h)
  {
    RowIsSaved(Larger(y, OSK_Y), Smaller(y + ToI32(h), PANEL_HEIGHT), row);
    hide SubmittedFor, ToI32, SavedRows;
    assert !(SaveRow(row) in [UrlBar]) && !(SaveRow(row) in [Keyboard]);
  }

  class Display {
    var oskActive: bool
    var oskBackup: bool
    var firstFullFrame: bool
    var drawn: seq<Draw>

    constructor ()
      ensures !oskActive && !oskBackup && firstFullFrame && drawn == []
    {
      oskActive, oskBackup, firstFullFrame, drawn := false, false, true, [];
    }

    method RefreshArea(left: int, top: int, width: int, height: int, flash: bool)
      modifies this`drawn
      ensures var r := Widened(left, top, width, height);
              drawn == old(drawn) + if r.None? then [] else [Refresh(r.value, flash)]
    {
      var alignedLeft := Down8(left);
      var alignedTop := Down8(top);
      var alignedRight := Down8(left + width + 7);
      var alignedBottom := Down8(top + height + 7);
      if alignedRight > PANEL_WIDTH {
        alignedRight := PANEL_WIDTH;
      }
      if alignedBottom > PANEL_HEIGHT {
        alignedBottom := PANEL_HEIGHT;
      }
      if alignedRight <= alignedLeft || alignedBottom <= alignedTop {
        return;
      }
      drawn := drawn + [Refresh(Region(alignedLeft, alignedTop, alignedRight, alignedBottom), flash)];
    }

    /** Takes over the rows of the rectangle that the keyboard covers. */
    method SaveRows(y: nat, h: u32)
      modifies this`drawn
      ensures drawn == old(drawn) + if oskBackup then SavedRows(Larger(y, OSK_Y), Smaller(y + ToI32(h), PANEL_HEIGHT)) else []
    {
      if oskBackup {
        var startY := if y > OSK_Y then y else OSK_Y;
        var endY := if y + ToI32(h) < PANEL_HEIGHT then y + ToI32(h) else PANEL_HEIGHT;
        var cy := startY;
        ghost var start := drawn;
        while cy < endY
          invariant startY <= cy && (startY <= endY ==> cy <= endY) && (endY < startY ==> cy == startY)
          invariant drawn == start + SavedRows(startY, cy)
        {
          drawn := drawn + [SaveRow(cy)];
          cy := cy + 1;
        }
      }
    }

    /** Draws over the page what belongs above it. */
    method DrawOver(x: nat, y: nat, w: u32, h: u32)
      modifies this`drawn
      ensures drawn == old(drawn) + Overdrawn(x, y, w, h, oskActive, oskBackup)
    {
      hide ToI32, SavedRows;
      if y < 75 && x + ToI32(w) > 140 {
        drawn := drawn + [UrlBar];
      }
      if oskActive && y + ToI32(h) > OSK_Y {
        SaveRows(y, h);
        drawn := drawn + [Keyboard];
      }
    }

    /** Refreshes a clipped rectangle, above the keyboard if that is shown. */
    method UpdateClipped(x: nat, y: nat, w: u32, h0: u32)
      modifies this`drawn, this`firstFullFrame
      ensures drawn == old(drawn) + Drawing(x, y, w, h0, oskActive, oskBackup, old(firstFullFrame))
      ensures firstFullFrame ==> old(firstFullFrame) && Calm(Drawing(x, y, w, h0, oskActive, oskBackup, old(firstFullFrame)))
    {
      hide Widened, ToI32, Overdrawn;
      var h := h0;
      DrawOver(x, y, w, h);
      if oskActive && y + ToI32(h) > OSK_Y {
        if y >= OSK_Y {
          return;
        }
        h := OSK_Y - y;
        assert ToI32(h) == h by { SmallIsSigned(h); }
      }
      if firstFullFrame && w >= 1000 && h >= 1000 {
        RefreshArea(x, y, ToI32(w), ToI32(h), true);
        firstFullFrame := false;
      } else {
        RefreshArea(x, y, ToI32(w), ToI32(h), false);
      }
    }

    /** Submits the region of a request, if there is one; only the first large one flashes. */
    method UpdateRect(x0: i32, y0: i32, w0: u32, h0: u32)
      modifies this`drawn, this`firstFullFrame
      ensures var c := Clipped(x0, y0, w0, h0);
              drawn == old(drawn) +
                if c.None? then []
                else Drawing(c.value.0, c.value.1, c.value.2, c.value.3, oskActive, oskBackup, old(firstFullFrame))
      ensures firstFullFrame ==> old(firstFullFrame) && (Calm(old(drawn)) ==> Calm(drawn))
    {
      hide Widened, ToI32, ToU32, Drawing;
      var x, y, w, h := x0, y0, w0, h0;
      if w == 0 || h == 0 {
        x, y, w, h := 0, 0, PANEL_WIDTH, PANEL_HEIGHT;
        ToU32Is(x + w);
        ToU32Is(y + h);
      }
      if x < 0 {
        w := ToU32(w + x);
        x := 0;
      }
      if y < 0 {
        h := ToU32(h + y);
        y := 0;
      }
      if x >= PANEL_WIDTH || y >= PANEL_HEIGHT || w <= 0 || h <= 0 {
        return;
      }
      if ToU32(x + w) > PANEL_WIDTH {
        w := PANEL_WIDTH - x;
      }
      if ToU32(y + h) > PANEL_HEIGHT {
        h := PANEL_HEIGHT - y;
      }
      assert Clipped(x0, y0, w0, h0) == Some((x, y, w, h));
      UpdateClipped(x, y, w, h);
    }
  }

  // --- What is submitted ---

  predicate OnGrid(r: Region) {
    && 0 <= r.left < r.right <= 1404 && 0 <= r.top < r.bottom <= 1872
    && r.left % 8 == 0 && r.top % 8 == 0
    && (r.right % 8 == 0 || r.right == 1404)
    && (r.bottom % 8 == 0 || r.bottom == 1872)
  }

  lemma WidenedIsSafe(left: nat, top: nat, width: int, height: int)
    ensures var r := Widened(left, top, width, height);
            r.Some? ==> OnGrid(r.value) && (top + height <= OSK_Y ==> r.value.bottom <= OSK_Y)
  {
    var bottom := Down8(top + height + 7);
    assert top + height <= OSK_Y ==> bottom < OSK_Y + 8 && bottom % 8 == 0;
  }

  /** Whatever is requested, the region lies on the panel, on the grid, and above the keyboard while that is shown. */
  lemma RegionIsSafe(x: i32, y: i32, w: u32, h: u32, osk: bool)
    ensures var r := Submitted(x, y, w, h, osk);
            r.Some? ==> OnGrid(r.value) && (osk ==> r.value.bottom <= 1272)
  {
    hide OnGrid, Widened, CutStart, CutEnd, ToI32;
    var c := Clipped(x, y, w, h);
    if c.Some? {
      var (cx, cy, cw, ch) := c.value;
      WidenedIsSafe(cx, cy, ToI32(cw), ToI32(ch));
      WidenedIsSafe(cx, cy, ToI32(cw), OSK_Y - cy);
    }
  }

  /** The pixels of the panel a request asks for. A request without width or height asks for all of them. */
  predicate Requested(x: i32, y: i32, w: u32, h: u32, px: int, py: int) {
    && 0 <= px < 1404 && 0 <= py < 1872
    && (w == 0 || h == 0 || (x <= px < x + w && y <= py < y + h))
  }

  predicate InRegion(r: Option<Region>, px: int, py: int) {
    r.Some? && r.value.left <= px < r.value.right && r.value.top <= py < r.value.bottom
  }

  /** The end of the rectangle fits a word, or is cut off before it is compared. */
  predicate EndFits(x: i32, w: u32) {
    x < 0 || x + w < WORD
  }

  /** Where an axis of a request ends after clipping; an end that has wrapped around lies before the start. */
  function EndOf(x: i32, w: u32, limit: nat): int {
    if !EndFits(x, w) then x + w - WORD else if x + w < limit then x + w else limit
  }

  lemma ClippedAxis(x: i32, w: u32, limit: nat, p: int)
    requires 0 < limit <= 0x7FFF_FFFF && 0 <= p < limit && x <= p < x + w
    ensures Start(x) < limit && CutStart(x, w) > 0
    ensures Start(x) + ToI32(CutEnd(Start(x), CutStart(x, w), limit)) == EndOf(x, w, limit)
  {
    ToU32Is(w + x);
    ToU32Is(Start(x) + CutStart(x, w));
    hide ToU32;
  }

  lemma WidenedPixels(left: int, top: int, width: int, height: int, px: int, py: int)
    requires px < PANEL_WIDTH && py < PANEL_HEIGHT
    ensures InRegion(Widened(left, top, width, height), px, py) <==>
            Down8(left) <= px < Down8(left + width + 7) && Down8(top) <= py < Down8(top + height + 7)
  {
  }

  /** The rows the keyboard leaves visible. */
  function VisibleRows(osk: bool): nat {
    if osk then 1272 else 1872
  }

  predicate Visible(x: i32, y: i32, w: u32, h: u32, osk: bool, px: int, py: int) {
    Requested(x, y, w, h, px, py) && py < VisibleRows(osk)
  }

  /** Where the refreshed rows of a request end. */
  function RowsEnd(y: i32, h: u32, osk: bool): int {
    var end := EndOf(y, h, PANEL_HEIGHT);
    if osk && end > OSK_Y then OSK_Y else end
  }

  lemma SubmittedIs(x: i32, y: i32, w: u32, h: u32, osk: bool, px: int, py: int)
    requires w > 0 && h > 0 && Visible(x, y, w, h, osk, px, py)
    ensures Submitted(x, y, w, h, osk) ==
            Widened(Start(x), Start(y), EndOf(x, w, PANEL_WIDTH) - Start(x), RowsEnd(y, h, osk) - Start(y))
  {
    ClippedAxis(x, w, PANEL_WIDTH, px);
    ClippedAxis(y, h, PANEL_HEIGHT, py);
    hide CutEnd, CutStart, Widened, ToI32, ToU32, EndOf, SubmittedFor;
    var cx, cy := Start(x), Start(y);
    var cw, ch := CutEnd(cx, CutStart(x, w), PANEL_WIDTH), CutEnd(cy, CutStart(y, h), PANEL_HEIGHT);
    assert Submitted(x, y, w, h, osk) == SubmittedFor(cx, cy, cw, ch, osk);
    assert osk ==> cy < OSK_Y;
    hide Submitted, Clipped, Visible, Start;
    ForVisible(cx, cy, cw, ch, osk);
  }

  lemma ForVisible(x: nat, y: nat, w: u32, h: u32, osk: bool)
    requires osk ==> y < OSK_Y
    ensures var end := y + ToI32(h);
            SubmittedFor(x, y, w, h, osk) == Widened(x, y, ToI32(w), (if osk && end > OSK_Y then OSK_Y else end) - y)
  {
    hide Widened, ToI32;
  }

  lemma SubmittedPixels(x: i32, y: i32, w: u32, h: u32, osk: bool, px: int, py: int)
    requires w > 0 && h > 0 && Visible(x, y, w, h, osk, px, py)
    ensures InRegion(Submitted(x, y, w, h, osk), px, py) <==>
            px < Down8(EndOf(x, w, PANEL_WIDTH) + 7) && py < Down8(RowsEnd(y, h, osk) + 7)
  {
    SubmittedIs(x, y, w, h, osk, px, py);
    hide Submitted, Widened, InRegion, EndOf, RowsEnd;
    var width, height := EndOf(x, w, PANEL_WIDTH) - Start(x), RowsEnd(y, h, osk) - Start(y);
    WidenedPixels(Start(x), Start(y), width, height, px, py);
    assert Start(x) + width + 7 == EndOf(x, w, PANEL_WIDTH) + 7 && Start(y) + height + 7 == RowsEnd(y, h, osk) + 7;
  }

  /** An axis is refreshed to its end: it does not wrap around, or its wrapped end still falls into the last grid cell. */
  predicate AxisReaches(x: i32, w: u32, limit: nat) {
    EndFits(x, w) || Down8(x + w - WORD + 7) >= limit
  }

  /** Every requested pixel that the keyboard leaves visible is refreshed. */
  ghost predicate Covers(x: i32, y: i32, w: u32, h: u32, osk: bool) {
    forall px, py :: Visible(x, y, w, h, osk, px, py) ==> InRegion(Submitted(x, y, w, h, osk), px, py)
  }

  lemma WholePanel(x: i32, y: i32, w: u32, h: u32, osk: bool)
    requires w == 0 || h == 0
    ensures Covers(x, y, w, h, osk)
  {
    var r := Submitted(x, y, w, h, osk);
    assert r == Widened(0, 0, PANEL_WIDTH, VisibleRows(osk));
    forall px, py | Visible(x, y, w, h, osk, px, py)
      ensures InRegion(r, px, py)
    {
      WidenedPixels(0, 0, PANEL_WIDTH, VisibleRows(osk), px, py);
    }
  }

  /** The whole visible request is refreshed if and only if both axes are refreshed to their end, for every request that shows
      at least one pixel. */
  lemma RegionCovers(x: i32, y: i32, w: u32, h: u32, osk: bool, px: int, py: int)
    requires Visible(x, y, w, h, osk, px, py)
    ensures Covers(x, y, w, h, osk) <==>
            w == 0 || h == 0 || (AxisReaches(x, w, PANEL_WIDTH) && AxisReaches(y, h, VisibleRows(osk)))
  {
    if w == 0 || h == 0 {
      WholePanel(x, y, w, h, osk);
    } else {
      LastPixel(x, y, w, h, osk, px, py);
      if AxisReaches(x, w, PANEL_WIDTH) && AxisReaches(y, h, VisibleRows(osk)) {
        forall qx, qy | Visible(x, y, w, h, osk, qx, qy)
          ensures InRegion(Submitted(x, y, w, h, osk), qx, qy)
        {
          SubmittedPixels(x, y, w, h, osk, qx, qy);
          AxisEnds(x, y, w, h, osk, qx, qy);
        }
      }
    }
  }

  lemma AxisEnds(x: i32, y: i32, w: u32, h: u32, osk: bool, px: int, py: int)
    requires w > 0 && h > 0 && Visible(x, y, w, h, osk, px, py)
    requires AxisReaches(x, w, PANEL_WIDTH) && AxisReaches(y, h, VisibleRows(osk))
    ensures px < Down8(EndOf(x, w, PANEL_WIDTH) + 7) && py < Down8(RowsEnd(y, h, osk) + 7)
  {
  }

  /** If an axis falls short, the last pixel of the panel's visible part is requested and not refreshed. */
  lemma LastPixel(x: i32, y: i32, w: u32, h: u32, osk: bool, px: int, py: int)
    requires w > 0 && h > 0 && Visible(x, y, w, h, osk, px, py)
    ensures !AxisReaches(x, w, PANEL_WIDTH) ==>
              Visible(x, y, w, h, osk, PANEL_WIDTH - 1, py) && !InRegion(Submitted(x, y, w, h, osk), PANEL_WIDTH - 1, py)
    ensures !AxisReaches(y, h, VisibleRows(osk)) ==>
              Visible(x, y, w, h, osk, px, VisibleRows(osk) - 1) && !InRegion(Submitted(x, y, w, h, osk), px, VisibleRows(osk) - 1)
  {
    hide Submitted, InRegion;
    if !AxisReaches(x, w, PANEL_WIDTH) {
      SubmittedPixels(x, y, w, h, osk, PANEL_WIDTH - 1, py);
    }
    if !AxisReaches(y, h, VisibleRows(osk)) {
      SubmittedPixels(x, y, w, h, osk, px, VisibleRows(osk) - 1);
    }
  }

  /** A request with sides of at most 2^31 is always refreshed to its end. */
  lemma ShortSidesCover(x: i32, y: i32, w: u32, h: u32, osk: bool)
    requires w <= 0x8000_0000 && h <= 0x8000_0000
    ensures Covers(x, y, w, h, osk)
  {
    forall px, py | Visible(x, y, w, h, osk, px, py)
      ensures InRegion(Submitted(x, y, w, h, osk), px, py)
    {
      RegionCovers(x, y, w, h, osk, px, py);
      hide Submitted, InRegion;
    }
  }

  lemma CutIsTight(x: i32, w: u32, limit: nat)
    requires w > 0 && x + w > 0 && 0 < limit <= PANEL_HEIGHT && Start(x) < limit
    ensures Start(x) + ToI32(CutEnd(Start(x), CutStart(x, w), limit)) <= x + w
  {
    ToU32Is(w + x);
    ToU32Is(Start(x) + CutStart(x, w));
    hide ToU32;
  }

  lemma WidenedIsTight(left: int, top: int, width: int, height: int, px: int, py: int)
    requires InRegion(Widened(left, top, width, height), px, py)
    ensures left - 8 < px < left + width + 7 && top - 8 < py < top + height + 7
  {
  }

  /** Refreshed pixels lie within seven pixels of the requested rectangle. */
  ghost predicate Tight(x: i32, y: i32, w: u32, h: u32, osk: bool) {
    forall px, py :: InRegion(Submitted(x, y, w, h, osk), px, py) ==> x - 8 < px < x + w + 7 && y - 8 < py < y + h + 7
  }

  /** A rectangle that ends left of the panel's edge wraps around and refreshes the whole width of its rows. */
  lemma LeftOfPanelRefreshesWidth(x: i32, y: i32, w: u32, h: u32, osk: bool)
    requires w > 0 && h > 0 && x + w < 0
    ensures Submitted(x, y, w, h, osk) == Submitted(0, y, PANEL_WIDTH, h, osk)
  {
    ToU32Is(w + x);
    ToU32Is(0 + CutStart(x, w));
    ToU32Is(0 + PANEL_WIDTH);
    hide ToU32, SubmittedFor;
    assert CutEnd(0, CutStart(x, w), PANEL_WIDTH) == PANEL_WIDTH == CutEnd(0, PANEL_WIDTH, PANEL_WIDTH);
  }

  /** One that ends above the panel refreshes the whole height of its columns. */
  lemma AbovePanelRefreshesHeight(x: i32, y: i32, w: u32, h: u32, osk: bool)
    requires w > 0 && h > 0 && y + h < 0
    ensures Submitted(x, y, w, h, osk) == Submitted(x, 0, w, PANEL_HEIGHT, osk)
  {
    ToU32Is(h + y);
    ToU32Is(0 + CutStart(y, h));
    ToU32Is(0 + PANEL_HEIGHT);
    hide ToU32, SubmittedFor;
    assert CutEnd(0, CutStart(y, h), PANEL_HEIGHT) == PANEL_HEIGHT == CutEnd(0, PANEL_HEIGHT, PANEL_HEIGHT);
  }

  lemma ReachingIsTight(x: i32, y: i32, w: u32, h: u32, osk: bool, px: int, py: int)
    requires w > 0 && h > 0 && x + w >= 0 && y + h >= 0
    requires InRegion(Submitted(x, y, w, h, osk), px, py)
    ensures x - 8 < px < x + w + 7 && y - 8 < py < y + h + 7
  {
    StartsInside(x, w);
    StartsInside(y, h);
    CutIsTight(x, w, PANEL_WIDTH);
    CutIsTight(y, h, PANEL_HEIGHT);
    var cx, cy := Start(x), Start(y);
    var cw, ch := CutEnd(cx, CutStart(x, w), PANEL_WIDTH), CutEnd(cy, CutStart(y, h), PANEL_HEIGHT);
    hide CutEnd, CutStart, Widened, InRegion, ToI32;
    WidenedIsTight(cx, cy, ToI32(cw), if osk && cy + ToI32(ch) > OSK_Y then OSK_Y - cy else ToI32(ch), px, py);
  }

  lemma StartsInside(x: i32, w: u32)
    requires w > 0 && x + w >= 0 && CutStart(x, w) > 0
    ensures x + w > 0
  {
  }

  lemma WidthNotTight(x: i32, y: i32, w: u32, h: u32, osk: bool)
    requires w > 0 && h > 0 && x + w < 0 && Submitted(x, y, w, h, osk).Some?
    ensures !Tight(x, y, w, h, osk)
  {
    LeftOfPanelRefreshesWidth(x, y, w, h, osk);
    RegionIsSafe(x, y, w, h, osk);
    var r := Submitted(x, y, w, h, osk);
    WholeWidth(y, h, osk);
    assert InRegion(r, PANEL_WIDTH - 1, r.value.top);
  }

  lemma WholeWidth(y: i32, h: u32, osk: bool)
    requires h > 0
    ensures var r := Submitted(0, y, PANEL_WIDTH, h, osk); r.Some? ==> r.value.left == 0 && r.value.right == PANEL_WIDTH
  {
    ToU32Is(0 + PANEL_WIDTH);
    hide ToU32, CutStart;
    assert CutEnd(0, PANEL_WIDTH, PANEL_WIDTH) == PANEL_WIDTH;
  }

  lemma HeightNotTight(x: i32, y: i32, w: u32, h: u32, osk: bool)
    requires w > 0 && h > 0 && y + h < 0 && Submitted(x, y, w, h, osk).Some?
    ensures !Tight(x, y, w, h, osk)
  {
    AbovePanelRefreshesHeight(x, y, w, h, osk);
    RegionIsSafe(x, y, w, h, osk);
    var r := Submitted(x, y, w, h, osk);
    WholeHeight(x, w, osk);
    assert InRegion(r, r.value.left, r.value.bottom - 1);
  }

  lemma WholeHeight(x: i32, w: u32, osk: bool)
    requires w > 0
    ensures var r := Submitted(x, 0, w, PANEL_HEIGHT, osk); r.Some? ==> r.value.bottom == VisibleRows(osk)
  {
    ToU32Is(0 + PANEL_HEIGHT);
    hide ToU32, CutStart;
    assert CutEnd(0, PANEL_HEIGHT, PANEL_HEIGHT) == PANEL_HEIGHT;
  }

  // --- What a request shows beside its region ---

  /** The address bar is drawn for exactly the requests that reach the panel above row 75 and end right of column 140. */
  lemma BarFollows(x: i32, y: i32, w: u32, h: u32, osk: bool, backup: bool, first: bool)
    requires w > 0 && h > 0 && x < 1404 && y < 1872 && x + w != 0 && y + h != 0
    ensures var c := Clipped(x, y, w, h);
      c.Some? && (UrlBar in Drawing(c.value.0, c.value.1, c.value.2, c.value.3, osk, backup, first) <==>
                    y < 75 && ClippedEnd(x, w, 1404) > 140)
  {
    ClippedExtent(x, w, PANEL_WIDTH);
    ClippedExtent(y, h, PANEL_HEIGHT);
    var c := Clipped(x, y, w, h).value;
    assert c == (Start(x), Start(y), CutEnd(Start(x), CutStart(x, w), PANEL_WIDTH), CutEnd(Start(y), CutStart(y, h), PANEL_HEIGHT));
    hide Clipped, CutEnd, CutStart, ToI32, ClippedEnd;
    BarDrawn(c.0, c.1, c.2, c.3, osk, backup, first);
  }

  lemma BarDrawn(x: nat, y: nat, w: u32, h: u32, osk: bool, backup: bool, first: bool)
    ensures UrlBar in Drawing(x, y, w, h, osk, backup, first) <==> y < 75 && x + ToI32(w) > 140
  {
    hide SubmittedFor, ToI32, SavedRows, Larger, Smaller;
  }

  lemma RowsBeforeKeys(x: nat, y: nat, w: u32, h: u32, osk: bool, backup: bool, i: nat, j: nat)
    requires var d := Overdrawn(x, y, w, h, osk, backup); i < |d| && j < |d| && d[i].SaveRow? && d[j].Keyboard?
    ensures i < j
  {
    var d := Overdrawn(x, y, w, h, osk, backup);
    var bar := if y < 75 && x + ToI32(w) > 140 then [UrlBar] else [];
    var rows := if backup then SavedRows(Larger(y, OSK_Y), Smaller(y + ToI32(h), PANEL_HEIGHT)) else [];
    hide ToI32, SavedRows;
    assert d == bar + (rows + [Keyboard]) && |d| == |bar| + |rows| + 1;
    assert d[|d| - 1] == Keyboard;
    forall k | 0 <= k < |d| - 1
      ensures !d[k].Keyboard?
    {
      assert k < |bar| || (d[k] == rows[k - |bar|] && rows[k - |bar|] in rows);
    }
  }

  /** The page is taken over before the keyboard is drawn on it, and both before the region is submitted. */
  lemma SavedBeforeDrawn(x: nat, y: nat, w: u32, h: u32, osk: bool, backup: bool, first: bool, i: nat, j: nat)
    requires var d := Drawing(x, y, w, h, osk, backup, first); i < |d| && j < |d|
    ensures var d := Drawing(x, y, w, h, osk, backup, first);
      && (d[i].SaveRow? && d[j].Keyboard? ==> i < j) && (!d[i].Refresh? && d[j].Refresh? ==> i < j)
  {
    var d, o := Drawing(x, y, w, h, osk, backup, first), Overdrawn(x, y, w, h, osk, backup);
    hide SubmittedFor, ToI32, Overdrawn;
    assert (i < |o| ==> d[i] == o[i]) && (j < |o| ==> d[j] == o[j]);
    assert (i < |o| <==> !d[i].Refresh?) && (j < |o| <==> !d[j].Refresh?);
    if d[i].SaveRow? && d[j].Keyboard? {
      RowsBeforeKeys(x, y, w, h, osk, backup, i, j);
    }
  }

  /** Only a region of a thousand columns and rows, with none before it, flashes the panel. */
  lemma FlashMeansLarge(x: nat, y: nat, w: u32, h: u32, osk: bool, backup: bool, first: bool, d: Draw)
    requires d in Drawing(x, y, w, h, osk, backup, first) && d.Refresh?
    ensures d.flash <==> first && w >= 1000 && (if osk && y + ToI32(h) > 1272 then 1272 - y else h) >= 1000
    ensures Some(d.region) == SubmittedFor(x, y, w, h, osk)
  {
    hide SubmittedFor, ToI32, Overdrawn;
  }

  // --- When nothing is submitted ---

  /** An axis of a request reaches the panel: it starts before the limit, does not end at the panel's edge, and if its end wraps
      around, that falls into the grid cell of the start. */
  predicate AxisShows(x: i32, w: u32, limit: nat) {
    x < limit && x + w != 0 && (EndFits(x, w) || Down8(x + w - WORD + 7) > Down8(x))
  }

  /** Where an axis ends after clipping, wherever it ends. */
  function ClippedEnd(x: i32, w: u32, limit: nat): int {
    if x + w < 0 then limit else EndOf(x, w, limit)
  }

  lemma ClippedExtent(x: i32, w: u32, limit: nat)
    requires w > 0 && x < limit && x + w != 0 && 0 < limit <= 0x7FFF_FFFF
    ensures CutStart(x, w) > 0
    ensures Start(x) + ToI32(CutEnd(Start(x), CutStart(x, w), limit)) == ClippedEnd(x, w, limit)
  {
    ToU32Is(w + x);
    ToU32Is(Start(x) + CutStart(x, w));
    hide ToU32;
  }

  lemma WidenedIsEmpty(left: nat, top: nat, width: int, height: int)
    requires left < PANEL_WIDTH && top < PANEL_HEIGHT
    ensures Widened(left, top, width, height).None? <==>
            Down8(left + width + 7) <= Down8(left) || Down8(top + height + 7) <= Down8(top)
  {
  }

  /** A clipped axis is empty after widening exactly if it wraps around to before the grid cell of its start. */
  lemma AxisIsEmpty(x: i32, w: u32, limit: nat, cut: nat)
    requires w > 0 && x < limit && x + w != 0 && 0 < cut <= limit <= 0x7FFF_FFFF && x < cut
    ensures var end := ClippedEnd(x, w, limit);
            Down8((if end > cut then cut else end) + 7) <= Down8(Start(x)) <==> !AxisShows(x, w, cut)
  {
  }

  /** Nothing is submitted for a request with width and height if and only if one of its axes does not reach the visible panel. */
  lemma RegionIsEmpty(x: i32, y: i32, w: u32, h: u32, osk: bool)
    requires w > 0 && h > 0
    ensures Submitted(x, y, w, h, osk).None? <==> !AxisShows(x, w, PANEL_WIDTH) || !AxisShows(y, h, VisibleRows(osk))
  {
    CutToNothing(x, w);
    CutToNothing(y, h);
    if x < PANEL_WIDTH && y < PANEL_HEIGHT && x + w != 0 && y + h != 0 {
      ClippedExtent(x, w, PANEL_WIDTH);
      ClippedExtent(y, h, PANEL_HEIGHT);
      ClippedIsEmpty(x, y, w, h, osk);
    }
  }

  lemma CutToNothing(x: i32, w: u32)
    requires w > 0
    ensures CutStart(x, w) == 0 <==> x + w == 0
  {
    ToU32Is(w + x);
  }

  lemma ClippedIsEmpty(x: i32, y: i32, w: u32, h: u32, osk: bool)
    requires w > 0 && h > 0 && x < PANEL_WIDTH && y < PANEL_HEIGHT && x + w != 0 && y + h != 0
    requires CutStart(x, w) > 0 && CutStart(y, h) > 0
    requires Start(x) + ToI32(CutEnd(Start(x), CutStart(x, w), PANEL_WIDTH)) == ClippedEnd(x, w, PANEL_WIDTH)
    requires Start(y) + ToI32(CutEnd(Start(y), CutStart(y, h), PANEL_HEIGHT)) == ClippedEnd(y, h, PANEL_HEIGHT)
    ensures Submitted(x, y, w, h, osk).None? <==> !AxisShows(x, w, PANEL_WIDTH) || !AxisShows(y, h, VisibleRows(osk))
  {
    hide CutStart, CutEnd, ToI32, ClippedEnd, Widened, Down8, AxisShows;
    var width, bottom := ClippedEnd(x, w, PANEL_WIDTH) - Start(x), ClippedEnd(y, h, PANEL_HEIGHT);
    AxisIsEmpty(x, w, PANEL_WIDTH, PANEL_WIDTH);
    if osk && bottom > OSK_Y {
      if y < OSK_Y {
        AxisIsEmpty(y, h, PANEL_HEIGHT, OSK_Y);
        WidenedIsEmpty(Start(x), Start(y), width, OSK_Y - Start(y));
      } else {
        BelowLimit(y, h, OSK_Y);
      }
    } else {
      WidenedIsEmpty(Start(x), Start(y), width, bottom - Start(y));
      AxisIsEmpty(y, h, PANEL_HEIGHT, PANEL_HEIGHT);
      if osk {
        KeyboardRow(y, h);
      }
    }
  }

  lemma BelowLimit(x: i32, w: u32, limit: nat)
    requires x >= limit
    ensures !AxisShows(x, w, limit)
  {
  }

  /** The keyboard starts on the grid, so a start below its edge does not share a grid cell with an end above it. */
  lemma KeyboardRow(y: i32, h: u32)
    requires h > 0 && y < PANEL_HEIGHT && y + h != 0 && ClippedEnd(y, h, PANEL_HEIGHT) <= OSK_Y
    ensures AxisShows(y, h, PANEL_HEIGHT) <==> AxisShows(y, h, OSK_Y)
  {
  }

  /** The refresh of a request with width and height stays within a grid cell of it if and only if the request ends neither left of
      the panel nor above it, or does not reach the visible panel at all. */
  lemma RegionIsTight(x: i32, y: i32, w: u32, h: u32, osk: bool)
    requires w > 0 && h > 0
    ensures Tight(x, y, w, h, osk) <==>
            (x + w >= 0 && y + h >= 0) || !AxisShows(x, w, PANEL_WIDTH) || !AxisShows(y, h, VisibleRows(osk))
  {
    RegionIsEmpty(x, y, w, h, osk);
    hide AxisShows;
    if Submitted(x, y, w, h, osk).Some? {
      if x + w < 0 {
        WidthNotTight(x, y, w, h, osk);
      } else if y + h < 0 {
        HeightNotTight(x, y, w, h, osk);
      } else {
        forall px, py | InRegion(Submitted(x, y, w, h, osk), px, py)
          ensures x - 8 < px < x + w + 7 && y - 8 < py < y + h + 7
        {
          ReachingIsTight(x, y, w, h, osk, px, py);
        }
      }
    }
  }

  lemma DownIs(a: int, r: int)
    requires r % 8 == 0 && r <= a < r + 8
    ensures Down8(a) == r
  {
  }

  lemma RowIsWidened(x: i32, w: u32)
    requires 0 <= x < PANEL_WIDTH && w > 0
    ensures Submitted(x, 0, w, 8, false) == Widened(x, 0, EndOf(x, w, PANEL_WIDTH) - x, 8)
  {
    assert Visible(x, 0, w, 8, false, x, 0);
    SubmittedIs(x, 0, w, 8, false, x, 0);
    hide Submitted, Widened;
  }

  /** Ten columns left of the panel: all 1404 columns of the panel are refreshed. */
  lemma OffPanelExample(x: i32, w: u32)
    requires x == -20 && w == 10
    ensures Submitted(x, 0, w, 8, false) == Some(Region(0, 0, PANEL_WIDTH, 8)) && !Tight(x, 0, w, 8, false)
  {
    LeftOfPanelRefreshesWidth(x, 0, w, 8, false);
    RowIsWidened(0, PANEL_WIDTH);
    RegionIsTight(x, 0, w, 8, false);
    hide Submitted, Down8, Tight;
    DownIs(8 + 7, 8);
    DownIs(PANEL_WIDTH + 7, 1408);
    DownIs(0, 0);
  }

  /** A region that ends before the panel does leaves a request that does not uncovered. */
  lemma EndsTooSoon(x: i32, w: u32, r: Region)
    requires Submitted(x, 0, w, 8, false) == Some(r) && r.right < PANEL_WIDTH && 0 <= x < PANEL_WIDTH <= x + w
    ensures !Covers(x, 0, w, 8, false)
  {
    assert Visible(x, 0, w, 8, false, PANEL_WIDTH - 1, 0);
    hide Submitted;
    assert !InRegion(Submitted(x, 0, w, 8, false), PANEL_WIDTH - 1, 0);
  }

  lemma WrappedRow(x: i32, w: u32)
    requires x == 700 && w == 0xFFFF_FFFF
    ensures Submitted(x, 0, w, 8, false) == Widened(700, 0, -1, 8)
  {
    RowIsWidened(x, w);
    hide Submitted, Widened;
  }

  /** A rectangle of the largest width from the middle of the panel: only one grid cell of it is refreshed. */
  lemma WrappedExample(x: i32, w: u32)
    requires x == 700 && w == 0xFFFF_FFFF
    ensures Submitted(x, 0, w, 8, false) == Some(Region(696, 0, 704, 8)) && !Covers(x, 0, w, 8, false)
  {
    WrappedRow(x, w);
    OneCell();
    hide Submitted, Widened, Covers;
    EndsTooSoon(x, w, Region(696, 0, 704, 8));
  }

  lemma OneCell()
    ensures Widened(700, 0, -1, 8) == Some(Region(696, 0, 704, 8))
  {
    hide Down8;
    DownIs(8 + 7, 8);
    DownIs(699 + 7, 704);
    DownIs(700, 696);
    DownIs(0, 0);
  }
}
