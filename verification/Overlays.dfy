// The two save-under overlays drawn over the reader's screen: a toast near the top and a media card in
// the middle. What lies under them is saved when they appear and put back when they are hidden.
module Overlays {
  type Color = x: int | 0 <= x < 0x1_0000

  const FB_WIDTH := 1404
  const FB_HEIGHT := 1872
  const FB_STRIDE := 1408
  const FB_SIZE: nat := FB_STRIDE * FB_HEIGHT

  const BLACK: Color := 0x0000
  const WHITE: Color := 0xFFFF
  const GREY: Color := 0xDEFB
  const TOAST_SHOWN_MS := 2200

  datatype Rect = Rect(x: int, y: int, w: int, h: int)

  const TOAST: Rect := Rect(102, 60, 1200, 160)
  const CARD: Rect := Rect(102, 536, 1200, 800)
  /** Both overlays are 1200 pixels wide. */
  const OVERLAY_W := 1200

  // --- Pixels and rectangles ---

  function Row(i: nat): (r: nat) {
    i / 1408
  }

  function Col(i: nat): (c: nat)
    ensures c < FB_STRIDE
  {
    i % 1408
  }

  predicate In(r: Rect, i: nat) {
    r.x <= Col(i) < r.x + r.w && r.y <= Row(i) < r.y + r.h
  }

  /** The part of a rectangle that drawing can reach: the four columns past the panel's width are never drawn. */
  predicate Drawable(r: Rect, i: nat) {
    In(r, i) && Col(i) < 1404
  }

  predicate Within(a: Rect, b: Rect) {
    b.x <= a.x && a.x + a.w <= b.x + b.w && b.y <= a.y && a.y + a.h <= b.y + b.h
  }

  lemma At(y: int, x: int)
    requires 0 <= y < FB_HEIGHT && 0 <= x < FB_STRIDE
    ensures 0 <= y * FB_STRIDE + x < FB_SIZE
    ensures Row(y * FB_STRIDE + x) == y && Col(y * FB_STRIDE + x) == x
    ensures forall i: nat :: Row(i) == y && Col(i) == x ==> i == y * FB_STRIDE + x
  {
  }

  lemma RowsOnPanel()
    ensures forall i: nat :: i < FB_SIZE ==> Row(i) < 1872
  {
  }

  /** Nothing outside the rectangle differs. */
  ghost predicate OnlyIn(r: Rect, before: seq<Color>, after: seq<Color>) {
    |after| == |before| && forall i: nat :: i < |before| && !In(r, i) ==> after[i] == before[i]
  }

  ghost predicate Filled(r: Rect, color: Color, before: seq<Color>, after: seq<Color>) {
    && |after| == |before|
    && forall i: nat :: i < |before| ==> after[i] == if Drawable(r, i) then color else before[i]
  }

  lemma OnlyInTwice(small: Rect, big: Rect, a: seq<Color>, b: seq<Color>, c: seq<Color>)
    requires OnlyIn(big, a, b) && OnlyIn(small, b, c) && Within(small, big)
    ensures OnlyIn(big, a, c)
  {
    hide Row, Col;
  }

  // --- Saved pixels ---

  /** Where the saved copy of a rectangle keeps a pixel. */
  function Slot(r: Rect, i: nat): int {
    (Row(i) - r.y) * OVERLAY_W + (Col(i) - r.x)
  }

  lemma SlotInside(r: Rect, i: nat)
    requires In(r, i) && r.w == OVERLAY_W
    ensures 0 <= Slot(r, i) < r.w * r.h
  {
    hide Row, Col;
    var y, x := Row(i) - r.y, Col(i) - r.x;
    assert 0 <= y <= r.h - 1 && 0 <= x < OVERLAY_W;
  }

  ghost predicate IsCopy(r: Rect, backup: seq<Color>, fb: seq<Color>)
    requires r.w == OVERLAY_W && r.h >= 0 && |backup| == r.w * r.h
  {
    forall i: nat :: i < |fb| && In(r, i) ==> (SlotInside(r, i); backup[Slot(r, i)] == fb[i])
  }

  // --- Drawing ---

  method SetPixel(fb: array<Color>, x: int, y: int, color: Color)
    requires fb.Length == FB_SIZE
    modifies fb
    ensures Filled(Rect(x, y, 1, 1), color, old(fb[..]), fb[..])
  {
    RowsOnPanel();
    if x >= 0 && x < FB_WIDTH && y >= 0 && y < FB_HEIGHT {
      At(y, x);
      hide Row, Col;
      fb[y * FB_STRIDE + x] := color;
    }
  }

  /** Paints one row of a rectangle. */
  method DrawSpan(fb: array<Color>, x: int, y: int, w: int, color: Color)
    requires fb.Length == FB_SIZE && 0 <= y < FB_HEIGHT
    modifies fb
    ensures Filled(Rect(x, y, w, 1), color, old(fb[..]), fb[..])
  {
    hide Row, Col;
    var row := y * FB_STRIDE;
    var cx := x;
    while cx < x + w
      invariant (w <= 0 && cx == x) || x <= cx <= x + w
      invariant Filled(Rect(x, y, cx - x, 1), color, old(fb[..]), fb[..])
    {
      if cx >= 0 && cx < FB_WIDTH {
        At(y, cx);
        fb[row + cx] := color;
      }
      cx := cx + 1;
    }
  }

  method DrawRect(fb: array<Color>, x: int, y: int, w: int, h: int, color: Color)
    requires fb.Length == FB_SIZE
    modifies fb
    ensures Filled(Rect(x, y, w, h), color, old(fb[..]), fb[..])
  {
    RowsOnPanel();
    hide Row, Col;
    var cy := y;
    while cy < y + h
      invariant (h <= 0 && cy == y) || y <= cy <= y + h
      invariant Filled(Rect(x, y, w, cy - y), color, old(fb[..]), fb[..])
    {
      if !(cy < 0 || cy >= FB_HEIGHT) {
        DrawSpan(fb, x, cy, w, color);
      }
      cy := cy + 1;
    }
  }

  /** The pixels of a border of the given thickness. */
  predicate OnOutline(r: Rect, thickness: nat, i: nat) {
    && Drawable(r, i)
    && (Row(i) < r.y + thickness || Row(i) >= r.y + r.h - thickness
        || Col(i) < r.x + thickness || Col(i) >= r.x + r.w - thickness)
  }

  method DrawRectOutline(fb: array<Color>, x: int, y: int, w: int, h: int, thickness: nat, color: Color)
    requires fb.Length == FB_SIZE && thickness <= w && thickness <= h
    modifies fb
    ensures forall i: nat :: i < FB_SIZE ==>
              fb[i] == if OnOutline(Rect(x, y, w, h), thickness, i) then color else old(fb[i])
    ensures OnlyIn(Rect(x, y, w, h), old(fb[..]), fb[..])
  {
    hide Row, Col;
    DrawRect(fb, x, y, w, thickness, color);
    DrawRect(fb, x, y + h - thickness, w, thickness, color);
    DrawRect(fb, x, y, thickness, h, color);
    DrawRect(fb, x + w - thickness, y, thickness, h, color);
  }

  /** One dot of a glyph, drawn as a square of the given size. */
  method DrawDot(fb: array<Color>, x: int, y: int, scale: nat, color: Color)
    requires fb.Length == FB_SIZE
    modifies fb
    ensures Filled(Rect(x, y, scale, scale), color, old(fb[..]), fb[..])
  {
    hide Row, Col;
    var sy := 0;
    while sy < scale
      invariant 0 <= sy <= scale
      invariant Filled(Rect(x, y, scale, sy), color, old(fb[..]), fb[..])
    {
      ghost var above := fb[..];
      var sx := 0;
      while sx < scale
        invariant 0 <= sx <= scale
        invariant Filled(Rect(x, y + sy, sx, 1), color, above, fb[..])
      {
        SetPixel(fb, x + sx, y + sy, color);
        sx := sx + 1;
      }
      sy := sy + 1;
    }
  }

  const GLYPH_W := 8
  const GLYPH_H := 16

  /** A font gives each printable character, by its code minus 32, rows of dots. */
  type Font = (nat, nat, nat) -> bool

  function GlyphBox(x: int, y: int, scale: nat): Rect {
    Rect(x, y, GLYPH_W * scale, GLYPH_H * scale)
  }

  function Dot(x: int, y: int, scale: nat, row: nat, col: nat): Rect {
    Rect(x + col * scale, y + row * scale, scale, scale)
  }

  lemma {:induction false} Apart(scale: nat, a: nat, b: nat)
    requires a < b
    ensures a * scale + scale <= b * scale
  {
    assert b * scale == (b - 1) * scale + scale;
    if a < b - 1 {
      Apart(scale, a, b - 1);
    }
  }

  lemma DotInGlyph(x: int, y: int, scale: nat, row: nat, col: nat)
    requires row < GLYPH_H && col < GLYPH_W
    ensures Within(Dot(x, y, scale, row, col), GlyphBox(x, y, scale))
  {
    Apart(scale, col, GLYPH_W);
    Apart(scale, row, GLYPH_H);
  }

  /** A pixel belongs to at most one dot. */
  lemma DotsApart(x: int, y: int, scale: nat, r: nat, c: nat, r': nat, c': nat)
    requires (r, c) != (r', c')
    ensures forall i: nat :: In(Dot(x, y, scale, r, c), i) ==> !In(Dot(x, y, scale, r', c'), i)
  {
    hide Row, Col;
    if r < r' { Apart(scale, r, r'); } else if r' < r { Apart(scale, r', r); }
    if c < c' { Apart(scale, c, c'); } else if c' < c { Apart(scale, c', c); }
  }

  /** The colour a dot leaves on a pixel: unscaled text on a black background leaves the background as it was. */
  function Ink(font: Font, glyph: nat, scale: nat, fg: Color, bg: Color, row: nat, col: nat, was: Color): Color {
    var color := if font(glyph, row, col) then fg else bg;
    if scale == 1 && color == bg && bg == BLACK then was else color
  }

  function GlyphOf(ch: char): nat {
    if ch as int < 32 || ch as int > 126 then 0 else ch as int - 32
  }

  /** The first so many dots of a glyph, in reading order, are on the screen; the rest of it is untouched. */
  ghost predicate DotsDrawn(font: Font, x: int, y: int, glyph: nat, scale: nat, fg: Color, bg: Color,
                            row: nat, col: nat, before: seq<Color>, after: seq<Color>)
  {
    && |after| == |before|
    && (forall i: nat, r: nat, c: nat :: i < |before| && Drawable(Dot(x, y, scale, r, c), i) && r < GLYPH_H && c < GLYPH_W ==>
         after[i] == if r < row || (r == row && c < col) then Ink(font, glyph, scale, fg, bg, r, c, before[i]) else before[i])
  }

  method DrawOneDot(fb: array<Color>, font: Font, x: int, y: int, glyph: nat, scale: nat, fg: Color, bg: Color, row: nat, col: nat)
    requires fb.Length == FB_SIZE && scale > 0 && row < GLYPH_H && col < GLYPH_W
    modifies fb
    ensures OnlyIn(Dot(x, y, scale, row, col), old(fb[..]), fb[..])
    ensures forall i: nat :: i < FB_SIZE && Drawable(Dot(x, y, scale, row, col), i) ==>
              fb[i] == Ink(font, glyph, scale, fg, bg, row, col, old(fb[i]))
  {
    hide Row, Col;
    var color := if font(glyph, row, col) then fg else bg;
    if scale == 1 {
      if color != bg || bg != 0 {
        SetPixel(fb, x + col, y + row, color);
      }
    } else {
      DrawDot(fb, x + col * scale, y + row * scale, scale, color);
    }
  }

  lemma OneMoreDot(font: Font, x: int, y: int, glyph: nat, scale: nat, fg: Color, bg: Color, row: nat, col: nat,
                   start: seq<Color>, before: seq<Color>, after: seq<Color>)
    requires row < GLYPH_H && col < GLYPH_W
    requires DotsDrawn(font, x, y, glyph, scale, fg, bg, row, col, start, before)
    requires OnlyIn(Dot(x, y, scale, row, col), before, after)
    requires forall i: nat :: i < |before| && Drawable(Dot(x, y, scale, row, col), i) ==>
               after[i] == Ink(font, glyph, scale, fg, bg, row, col, before[i])
    ensures DotsDrawn(font, x, y, glyph, scale, fg, bg, row, col + 1, start, after)
  {
    hide Row, Col, Dot, Ink;
    forall i: nat, r: nat, c: nat | i < |before| && Drawable(Dot(x, y, scale, r, c), i) && r < GLYPH_H && c < GLYPH_W
      ensures after[i] == if r < row || (r == row && c < col + 1) then Ink(font, glyph, scale, fg, bg, r, c, start[i]) else start[i]
    {
      if (r, c) != (row, col) {
        DotsApart(x, y, scale, r, c, row, col);
      }
    }
  }

  /** Draws a glyph dot by dot, inside its box. */
  method DrawChar(fb: array<Color>, font: Font, x: int, y: int, ch: char, scale: nat, fg: Color, bg: Color)
    requires fb.Length == FB_SIZE && scale > 0
    modifies fb
    ensures OnlyIn(GlyphBox(x, y, scale), old(fb[..]), fb[..])
    ensures DotsDrawn(font, x, y, GlyphOf(ch), scale, fg, bg, GLYPH_H, 0, old(fb[..]), fb[..])
  {
    hide Row, Col, Ink, Dot;
    ghost var start := fb[..];
    var glyph := GlyphOf(ch);
    var row := 0;
    while row < GLYPH_H
      invariant 0 <= row <= GLYPH_H
      invariant OnlyIn(GlyphBox(x, y, scale), start, fb[..])
      invariant DotsDrawn(font, x, y, glyph, scale, fg, bg, row, 0, start, fb[..])
    {
      var col := 0;
      while col < GLYPH_W
        invariant 0 <= col <= GLYPH_W
        invariant OnlyIn(GlyphBox(x, y, scale), start, fb[..])
        invariant DotsDrawn(font, x, y, glyph, scale, fg, bg, row, col, start, fb[..])
      {
        ghost var before := fb[..];
        DotInGlyph(x, y, scale, row, col);
        DrawOneDot(fb, font, x, y, glyph, scale, fg, bg, row, col);
        OneMoreDot(font, x, y, glyph, scale, fg, bg, row, col, start, before, fb[..]);
        OnlyInTwice(Dot(x, y, scale, row, col), GlyphBox(x, y, scale), start, before, fb[..]);
        col := col + 1;
      }
      assert DotsDrawn(font, x, y, glyph, scale, fg, bg, row + 1, 0, start, fb[..]);
      row := row + 1;
    }
  }

  function TextBox(x: int, y: int, length: nat, scale: nat): Rect {
    Rect(x, y, length * GLYPH_W * scale, GLYPH_H * scale)
  }

  lemma GlyphInText(x: int, y: int, length: nat, scale: nat, k: nat)
    requires k < length
    ensures Within(GlyphBox(x + k * GLYPH_W * scale, y, scale), TextBox(x, y, length, scale))
  {
    Apart(GLYPH_W * scale, k, length);
  }

  /** The first so many characters are on the screen, each with every dot of its glyph, side by side. */
  ghost predicate TextDrawn(font: Font, x: int, y: int, text: string, length: nat, scale: nat, fg: Color, bg: Color,
                            before: seq<Color>, after: seq<Color>)
    requires length <= |text|
  {
    && OnlyIn(TextBox(x, y, length, scale), before, after)
    && forall k: nat :: k < length ==>
         DotsDrawn(font, x + k * GLYPH_W * scale, y, GlyphOf(text[k]), scale, fg, bg, GLYPH_H, 0, before, after)
  }

  lemma NothingDrawn(font: Font, x: int, y: int, text: string, scale: nat, fg: Color, bg: Color, picture: seq<Color>)
    ensures TextDrawn(font, x, y, text, 0, scale, fg, bg, picture, picture)
  {
  }

  /** A glyph keeps its dots while another picture changes only beside its box. */
  lemma DotsStay(font: Font, x: int, y: int, glyph: nat, scale: nat, fg: Color, bg: Color, other: Rect,
                 start: seq<Color>, before: seq<Color>, after: seq<Color>)
    requires DotsDrawn(font, x, y, glyph, scale, fg, bg, GLYPH_H, 0, start, before)
    requires OnlyIn(other, before, after) && (other.x >= x + GLYPH_W * scale || other.x + other.w <= x)
    ensures DotsDrawn(font, x, y, glyph, scale, fg, bg, GLYPH_H, 0, start, after)
  {
    hide Row, Col, Ink;
    forall i: nat, r: nat, c: nat | i < |start| && Drawable(Dot(x, y, scale, r, c), i) && r < GLYPH_H && c < GLYPH_W
      ensures after[i] == before[i]
    {
      DotInGlyph(x, y, scale, r, c);
    }
  }

  /** A glyph drawn where the picture was as it started. */
  lemma DotsFromStart(font: Font, x: int, y: int, glyph: nat, scale: nat, fg: Color, bg: Color, other: Rect,
                      start: seq<Color>, before: seq<Color>, after: seq<Color>)
    requires OnlyIn(other, start, before) && other.x + other.w <= x
    requires DotsDrawn(font, x, y, glyph, scale, fg, bg, GLYPH_H, 0, before, after)
    ensures DotsDrawn(font, x, y, glyph, scale, fg, bg, GLYPH_H, 0, start, after)
  {
    hide Row, Col, Ink;
    forall i: nat, r: nat, c: nat | i < |start| && Drawable(Dot(x, y, scale, r, c), i) && r < GLYPH_H && c < GLYPH_W
      ensures start[i] == before[i]
    {
      DotInGlyph(x, y, scale, r, c);
    }
  }

  lemma OneMoreGlyph(font: Font, x: int, y: int, text: string, k: nat, scale: nat, fg: Color, bg: Color,
                     start: seq<Color>, before: seq<Color>, after: seq<Color>)
    requires k < |text| && TextDrawn(font, x, y, text, k, scale, fg, bg, start, before)
    requires var cx := x + k * GLYPH_W * scale;
      && OnlyIn(GlyphBox(cx, y, scale), before, after)
      && DotsDrawn(font, cx, y, GlyphOf(text[k]), scale, fg, bg, GLYPH_H, 0, before, after)
    ensures TextDrawn(font, x, y, text, k + 1, scale, fg, bg, start, after)
  {
    hide Row, Col, DotsDrawn, GlyphOf;
    var cx := x + k * GLYPH_W * scale;
    forall j: nat | j < k + 1
      ensures DotsDrawn(font, x + j * GLYPH_W * scale, y, GlyphOf(text[j]), scale, fg, bg, GLYPH_H, 0, start, after)
    {
      if j < k {
        Apart(GLYPH_W * scale, j, k);
        Scaled(j, scale);
        Scaled(k, scale);
        DotsStay(font, x + j * GLYPH_W * scale, y, GlyphOf(text[j]), scale, fg, bg, GlyphBox(cx, y, scale), start, before, after);
      } else {
        DotsFromStart(font, cx, y, GlyphOf(text[k]), scale, fg, bg, TextBox(x, y, k, scale), start, before, after);
      }
    }
    GlyphInText(x, y, k + 1, scale, k);
    TextGrows(x, y, k, scale, start, before);
    OnlyInTwice(GlyphBox(cx, y, scale), TextBox(x, y, k + 1, scale), start, before, after);
  }

  lemma Scaled(k: nat, scale: nat)
    ensures k * GLYPH_W * scale == k * (GLYPH_W * scale)
  {
  }

  lemma TextGrows(x: int, y: int, k: nat, scale: nat, before: seq<Color>, after: seq<Color>)
    requires OnlyIn(TextBox(x, y, k, scale), before, after)
    ensures OnlyIn(TextBox(x, y, k + 1, scale), before, after)
  {
    hide Row, Col;
    assert (k + 1) * GLYPH_W * scale == k * GLYPH_W * scale + GLYPH_W * scale;
  }

  method DrawString(fb: array<Color>, font: Font, x: int, y: int, text: string, scale: nat, fg: Color, bg: Color)
    requires fb.Length == FB_SIZE && scale > 0
    modifies fb
    ensures TextDrawn(font, x, y, text, |text|, scale, fg, bg, old(fb[..]), fb[..])
  {
    hide Row, Col, DotsDrawn, GlyphBox, TextBox, TextDrawn;
    ghost var start := fb[..];
    NothingDrawn(font, x, y, text, scale, fg, bg, start);
    var cx := x;
    var k := 0;
    while k < |text|
      invariant 0 <= k <= |text|
      invariant cx == x + k * GLYPH_W * scale
      invariant TextDrawn(font, x, y, text, k, scale, fg, bg, start, fb[..])
    {
      ghost var before := fb[..];
      DrawChar(fb, font, cx, y, text[k], scale, fg, bg);
      OneMoreGlyph(font, x, y, text, k, scale, fg, bg, start, before, fb[..]);
      cx := cx + 8 * scale;
      k := k + 1;
      assert (k - 1) * GLYPH_W * scale + 8 * scale == k * GLYPH_W * scale;
    }
  }

  /** Division that rounds toward zero. */
  function Half(n: int): (r: int)
    ensures if n >= 0 then n - 1 <= 2 * r <= n else n <= 2 * r <= n + 1
  {
    if n >= 0 then n / 2 else -((-n) / 2)
  }

  predicate Fits(box: Rect, text: string, scale: nat) {
    |text| * GLYPH_W * scale <= box.w && GLYPH_H * scale <= box.h
  }

  /** The text is on the screen in the middle of the box. */
  ghost predicate CentredDrawn(font: Font, box: Rect, text: string, scale: nat, fg: Color, bg: Color,
                               before: seq<Color>, after: seq<Color>)
  {
    TextDrawn(font, box.x + Half(box.w - |text| * GLYPH_W * scale), box.y + Half(box.h - GLYPH_H * scale), text, |text|, scale,
              fg, bg, before, after)
  }

  /** Centred text that fits its box stays inside it. */
  lemma CentredInside(font: Font, box: Rect, text: string, scale: nat, fg: Color, bg: Color, before: seq<Color>, after: seq<Color>)
    requires CentredDrawn(font, box, text, scale, fg, bg, before, after) && Fits(box, text, scale)
    ensures OnlyIn(box, before, after)
  {
    hide Row, Col, DotsDrawn;
    var cx, cy := box.x + Half(box.w - |text| * GLYPH_W * scale), box.y + Half(box.h - GLYPH_H * scale);
    assert Within(TextBox(cx, cy, |text|, scale), box);
    OnlyInTwice(TextBox(cx, cy, |text|, scale), box, before, before, after);
  }

  method DrawStringCentered(fb: array<Color>, font: Font, box: Rect, text: string, scale: nat, fg: Color, bg: Color)
    requires fb.Length == FB_SIZE && scale > 0
    modifies fb
    ensures CentredDrawn(font, box, text, scale, fg, bg, old(fb[..]), fb[..])
    ensures Fits(box, text, scale) ==> OnlyIn(box, old(fb[..]), fb[..])
  {
    hide Row, Col, TextDrawn, Fits;
    ghost var start := fb[..];
    var w := |text| * 8 * scale;
    var h := 16 * scale;
    var cx := box.x + Half(box.w - w);
    var cy := box.y + Half(box.h - h);
    DrawString(fb, font, cx, cy, text, scale, fg, bg);
    if Fits(box, text, scale) {
      CentredInside(font, box, text, scale, fg, bg, start, fb[..]);
    }
  }

  // --- Saving and restoring ---

  method SaveUnder(fb: array<Color>, backup: array<Color>, r: Rect)
    requires fb.Length == FB_SIZE && r.w == OVERLAY_W && r.h >= 0 && backup.Length == r.w * r.h && fb != backup
    requires r.x >= 0 && r.y >= 0 && r.x + r.w <= FB_STRIDE && r.y + r.h <= FB_HEIGHT
    modifies backup
    ensures IsCopy(r, backup[..], fb[..])
  {
    hide Row, Col;
    var y := 0;
    while y < r.h
      invariant 0 <= y <= r.h
      invariant IsCopy(r.(h := y), backup[..OVERLAY_W * y], fb[..])
    {
      SaveRow(fb, backup, r, y);
      y := y + 1;
    }
    assert backup[..OVERLAY_W * y] == backup[..];
  }

  /** Copies one row of the screen into the backup. */
  method SaveRow(fb: array<Color>, backup: array<Color>, r: Rect, y: nat)
    requires fb.Length == FB_SIZE && r.w == OVERLAY_W && backup.Length == r.w * r.h && fb != backup && y < r.h
    requires r.x >= 0 && r.y >= 0 && r.x + r.w <= FB_STRIDE && r.y + r.h <= FB_HEIGHT
    requires IsCopy(r.(h := y), backup[..OVERLAY_W * y], fb[..])
    modifies backup
    ensures IsCopy(r.(h := y + 1), backup[..OVERLAY_W * (y + 1)], fb[..])
  {
    hide Row, Col;
    forall x | 0 <= x < OVERLAY_W {
      backup[y * OVERLAY_W + x] := fb[(r.y + y) * FB_STRIDE + (r.x + x)];
    }
    forall i: nat | i < |fb[..]| && In(r.(h := y + 1), i)
      ensures 0 <= Slot(r, i) < OVERLAY_W * (y + 1) && backup[Slot(r, i)] == fb[i]
    {
      SlotInside(r.(h := y + 1), i);
      At(Row(i), Col(i));
      if Row(i) < r.y + y {
        SlotInside(r.(h := y), i);
        assert In(r.(h := y), i);
        assert old(backup[..OVERLAY_W * y])[Slot(r, i)] == fb[i];
      }
    }
  }

  /** The screen with a rectangle put back from its saved copy. */
  ghost predicate Restored(r: Rect, backup: seq<Color>, before: seq<Color>, after: seq<Color>)
    requires r.w == OVERLAY_W && r.h >= 0 && |backup| == r.w * r.h
  {
    && OnlyIn(r, before, after)
    && IsCopy(r, backup, after)
  }

  method RestoreUnder(fb: array<Color>, backup: array<Color>, r: Rect)
    requires fb.Length == FB_SIZE && r.w == OVERLAY_W && r.h >= 0 && backup.Length == r.w * r.h && fb != backup
    requires r.x >= 0 && r.y >= 0 && r.x + r.w <= FB_STRIDE && r.y + r.h <= FB_HEIGHT
    modifies fb
    ensures Restored(r, backup[..], old(fb[..]), fb[..])
  {
    hide Row, Col;
    var y := 0;
    while y < r.h
      invariant 0 <= y <= r.h
      invariant Restored(r.(h := y), backup[..OVERLAY_W * y], old(fb[..]), fb[..])
    {
      RestoreRow(fb, backup, r, y);
      y := y + 1;
    }
    assert backup[..OVERLAY_W * y] == backup[..];
  }

  /** Copies one row of the backup to the screen. */
  method RestoreRow(fb: array<Color>, backup: array<Color>, r: Rect, y: nat)
    requires fb.Length == FB_SIZE && r.w == OVERLAY_W && backup.Length == r.w * r.h && fb != backup && y < r.h
    requires r.x >= 0 && r.y >= 0 && r.x + r.w <= FB_STRIDE && r.y + r.h <= FB_HEIGHT
    requires IsCopy(r.(h := y), backup[..OVERLAY_W * y], fb[..])
    modifies fb
    ensures IsCopy(r.(h := y + 1), backup[..OVERLAY_W * (y + 1)], fb[..])
    ensures OnlyIn(Rect(r.x, r.y + y, r.w, 1), old(fb[..]), fb[..])
  {
    hide Row, Col, IsCopy;
    ghost var before, saved := fb[..], backup[..];
    assert saved[..OVERLAY_W * y] == backup[..OVERLAY_W * y];
    forall x | 0 <= x < OVERLAY_W {
      fb[(r.y + y) * FB_STRIDE + (r.x + x)] := backup[y * OVERLAY_W + x];
    }
    forall i: nat | i < FB_SIZE && !In(Rect(r.x, r.y + y, r.w, 1), i)
      ensures fb[i] == before[i]
    {
      RowsOnPanel();
      At(Row(i), Col(i));
    }
    forall x | 0 <= x < OVERLAY_W
      ensures CopiedAt(r, y, x, saved, fb[..])
    {
    }
    RowJoinsCopy(r, y, saved, before, fb[..]);
    assert saved[..OVERLAY_W * (y + 1)] == backup[..OVERLAY_W * (y + 1)];
  }

  predicate CopiedAt(r: Rect, y: nat, x: int, backup: seq<Color>, after: seq<Color>) {
    var i, j := (r.y + y) * FB_STRIDE + (r.x + x), y * OVERLAY_W + x;
    0 <= i < |after| && 0 <= j < |backup| && after[i] == backup[j]
  }

  lemma RowJoinsCopy(r: Rect, y: nat, backup: seq<Color>, before: seq<Color>, after: seq<Color>)
    requires |before| == |after| == FB_SIZE && r.w == OVERLAY_W && |backup| == r.w * r.h && y < r.h
    requires r.x >= 0 && r.y >= 0 && r.x + r.w <= FB_STRIDE && r.y + r.h <= FB_HEIGHT
    requires IsCopy(r.(h := y), backup[..OVERLAY_W * y], before)
    requires OnlyIn(Rect(r.x, r.y + y, r.w, 1), before, after)
    requires forall x :: 0 <= x < OVERLAY_W ==> CopiedAt(r, y, x, backup, after)
    ensures IsCopy(r.(h := y + 1), backup[..OVERLAY_W * (y + 1)], after)
  {
    hide Row, Col;
    forall i: nat | i < |after| && In(r.(h := y + 1), i)
      ensures 0 <= Slot(r, i) < OVERLAY_W * (y + 1) && backup[Slot(r, i)] == after[i]
    {
      SlotInside(r.(h := y + 1), i);
      At(Row(i), Col(i));
      if Row(i) < r.y + y {
        SlotInside(r.(h := y), i);
        assert In(r.(h := y), i) && !In(Rect(r.x, r.y + y, r.w, 1), i);
        assert backup[..OVERLAY_W * y][Slot(r, i)] == before[i];
      } else {
        assert CopiedAt(r, y, Col(i) - r.x, backup, after);
      }
    }
  }

  // --- What the overlays show ---

  predicate ToastFits(title: string, subtitle: string) {
    && Fits(TOAST, title, 3)
    && Fits(Rect(TOAST.x, TOAST.y + 95, TOAST.w, 40), subtitle, 2)
  }

  /** Where the toast's text may be. */
  predicate InToastText(subtitle: string, i: nat) {
    subtitle == "" || In(Rect(TOAST.x, TOAST.y + 25, TOAST.w, 55), i) || In(Rect(TOAST.x, TOAST.y + 95, TOAST.w, 40), i)
  }

  /** Around its text the toast is black with a white border. */
  ghost predicate ToastPainted(subtitle: string, after: seq<Color>) {
    forall i: nat :: i < |after| && Drawable(TOAST, i) && !InToastText(subtitle, i) ==>
      after[i] == if OnOutline(TOAST, 4, i) then 0xFFFF else 0x0000
  }

  /** Before its text is drawn, the toast is a black panel with a white border. */
  ghost predicate ToastBlank(before: seq<Color>, blank: seq<Color>) {
    && OnlyIn(TOAST, before, blank)
    && forall i: nat :: i < |blank| && Drawable(TOAST, i) ==> blank[i] == if OnOutline(TOAST, 4, i) then 0xFFFF else 0x0000
  }

  /** The title, and below it the subtitle if there is one, stand in the middle of their boxes; `titled` is the panel with the
      title alone. */
  ghost predicate ToastWritten(font: Font, title: string, subtitle: string, blank: seq<Color>, titled: seq<Color>, after: seq<Color>) {
    if subtitle == "" then
      CentredDrawn(font, TOAST, title, 3, 0xFFFF, 0x0000, blank, titled) && after == titled
    else
      && CentredDrawn(font, Rect(TOAST.x, TOAST.y + 25, TOAST.w, 55), title, 3, 0xFFFF, 0x0000, blank, titled)
      && CentredDrawn(font, Rect(TOAST.x, TOAST.y + 95, TOAST.w, 40), subtitle, 2, 0xDEFB, 0x0000, titled, after)
  }

  method PaintToast(fb: array<Color>, font: Font, title: string, subtitle: string)
    returns (ghost blank: seq<Color>, ghost titled: seq<Color>)
    requires fb.Length == FB_SIZE
    modifies fb
    ensures ToastBlank(old(fb[..]), blank) && ToastWritten(font, title, subtitle, blank, titled, fb[..])
    ensures ToastFits(title, subtitle) ==> OnlyIn(TOAST, old(fb[..]), fb[..]) && ToastPainted(subtitle, fb[..])
  {
    hide Row, Col, CentredDrawn, Fits;
    DrawRect(fb, TOAST.x, TOAST.y, TOAST.w, TOAST.h, BLACK);
    DrawRectOutline(fb, TOAST.x, TOAST.y, TOAST.w, TOAST.h, 4, WHITE);
    blank := fb[..];
    if subtitle != "" {
      DrawStringCentered(fb, font, Rect(TOAST.x, TOAST.y + 25, TOAST.w, 55), title, 3, WHITE, BLACK);
      titled := fb[..];
      DrawStringCentered(fb, font, Rect(TOAST.x, TOAST.y + 95, TOAST.w, 40), subtitle, 2, GREY, BLACK);
      if ToastFits(title, subtitle) {
        TitleFits(title);
      }
    } else {
      DrawStringCentered(fb, font, TOAST, title, 3, WHITE, BLACK);
      titled := fb[..];
    }
  }

  lemma TitleFits(title: string)
    requires Fits(TOAST, title, 3)
    ensures Fits(Rect(TOAST.x, TOAST.y + 25, TOAST.w, 55), title, 3)
  {
  }

  predicate CardFits(status: string) {
    Fits(Rect(CARD.x + 14, CARD.y + 84, CARD.w - 28, 36), status, 2)
  }

  /** One of the four button panels of the media card. */
  method PaintButton(fb: array<Color>, font: Font, x: int, y: int, caption: string, action: string)
    requires fb.Length == FB_SIZE && |caption| <= 35 && |action| <= 23
    modifies fb
    ensures OnlyIn(Rect(x, y, 560, 195), old(fb[..]), fb[..])
  {
    hide Row, Col;
    DrawRect(fb, x, y, 560, 195, WHITE);
    DrawRectOutline(fb, x, y, 560, 195, 3, BLACK);
    DrawStringCentered(fb, font, Rect(x, y + 35, 560, 35), caption, 2, BLACK, WHITE);
    DrawStringCentered(fb, font, Rect(x, y + 95, 560, 55), action, 3, BLACK, WHITE);
  }

  const FOOTER: Rect := Rect(CARD.x, CARD.y + 585, CARD.w, 155)
  const BODY: Rect := Rect(CARD.x + 14, CARD.y + 14, CARD.w - 28, 571)

  /** Beside its footer the card has a black border of six pixels, then white down to the inner border. */
  ghost predicate CardFramed(after: seq<Color>) {
    forall i: nat :: i < |after| && OnOutline(CARD, 10, i) && !In(FOOTER, i) ==>
      after[i] == if OnOutline(CARD, 6, i) then 0x0000 else 0xFFFF
  }

  method PaintCardBody(fb: array<Color>, font: Font, status: string)
    requires fb.Length == FB_SIZE && CardFits(status)
    modifies fb
    ensures OnlyIn(BODY, old(fb[..]), fb[..])
  {
    hide Row, Col;
    DrawRect(fb, CARD.x + 14, CARD.y + 14, CARD.w - 28, 125, BLACK);
    DrawStringCentered(fb, font, Rect(CARD.x + 14, CARD.y + 26, CARD.w - 28, 50), "MEDIA PLAYER CONTROLS", 3, WHITE, BLACK);
    DrawStringCentered(fb, font, Rect(CARD.x + 14, CARD.y + 84, CARD.w - 28, 36), status, 2, WHITE, BLACK);
    PaintButton(fb, font, CARD.x + 25, CARD.y + 160, "[ TOP-LEFT BUTTON (F9) ]", "|<< PREV TRACK");
    PaintButton(fb, font, CARD.x + 615, CARD.y + 160, "[ TOP-RIGHT BUTTON (F11) ]", "NEXT TRACK >>|");
    PaintButton(fb, font, CARD.x + 25, CARD.y + 375, "[ BOTTOM-LEFT BUTTON (F10) ]", "SHUFFLE ON / OFF");
    PaintButton(fb, font, CARD.x + 615, CARD.y + 375, "[ BOTTOM-RIGHT BUTTON (F12) ]", ">|| PLAY / PAUSE");
  }

  method PaintCardFooter(fb: array<Color>, font: Font)
    requires fb.Length == FB_SIZE
    modifies fb
    ensures OnlyIn(FOOTER, old(fb[..]), fb[..])
  {
    hide Row, Col;
    DrawRect(fb, CARD.x + 25, CARD.y + 585, CARD.w - 50, 3, BLACK);
    DrawStringCentered(fb, font, Rect(CARD.x, CARD.y + 605, CARD.w, 35), "HOME BUTTON:  >|| PLAY / PAUSE", 2, BLACK, WHITE);
    DrawStringCentered(fb, font, Rect(CARD.x, CARD.y + 655, CARD.w, 35), "HOLD HOME + BOTTOM-RIGHT:  RETURN TO READING", 2, BLACK, WHITE);
    DrawStringCentered(fb, font, Rect(CARD.x, CARD.y + 705, CARD.w, 35), "(Music continues playing seamlessly in background)", 2,
                       BLACK, WHITE);
  }

  method PaintCard(fb: array<Color>, font: Font, status: string)
    requires fb.Length == FB_SIZE && CardFits(status)
    modifies fb
    ensures OnlyIn(CARD, old(fb[..]), fb[..])
    ensures CardFramed(fb[..])
  {
    hide Row, Col, Filled;
    hide Fits;
    hide CardFits;
    PaintCardFrame(fb);
    PaintCardBody(fb, font, status);
    PaintCardFooter(fb, font);
  }

  method PaintCardFrame(fb: array<Color>)
    requires fb.Length == FB_SIZE
    modifies fb
    ensures OnlyIn(CARD, old(fb[..]), fb[..])
    ensures CardFramed(fb[..])
  {
    hide Row, Col;
    DrawRect(fb, CARD.x, CARD.y, CARD.w, CARD.h, WHITE);
    DrawRectOutline(fb, CARD.x, CARD.y, CARD.w, CARD.h, 6, BLACK);
    DrawRectOutline(fb, CARD.x + 10, CARD.y + 10, CARD.w - 20, CARD.h - 20, 2, BLACK);
  }

  // --- The screen ---

  class Screen {
    const fb: array<Color>
    const font: Font
    const toastBackup: array?<Color>
    const cardBackup: array?<Color>
    var toastActive: bool
    var cardActive: bool
    var toastExpireTime: nat
    /** What the screen shows once its overlays are hidden. */
    ghost var plain: seq<Color>
    /** What the screen would show if no overlay had ever been drawn. */
    ghost var bare: seq<Color>
    /** The pixels whose latest write by the reader was made under a shown overlay. */
    ghost var lost: set<nat>

    ghost predicate Sound()
      reads this
    {
      && fb.Length == FB_SIZE && |plain| == FB_SIZE && |bare| == FB_SIZE
      && (toastBackup != null ==> toastBackup.Length == TOAST.w * TOAST.h && toastBackup != fb)
      && (cardBackup != null ==> cardBackup.Length == CARD.w * CARD.h && cardBackup != fb)
      && (toastBackup != null ==> toastBackup != cardBackup)
    }

    ghost predicate ToastCovers(i: nat)
      reads this
    {
      toastActive && toastBackup != null && In(TOAST, i)
    }

    ghost predicate CardCovers(i: nat)
      reads this
    {
      cardActive && cardBackup != null && In(CARD, i)
    }

    /** A pixel of the screen with the overlays that are shown replaced by what they saved. */
    ghost function Under(i: nat): Color
      requires Sound() && i < FB_SIZE
      reads this, fb, toastBackup, cardBackup
    {
      if ToastCovers(i) then SlotInside(TOAST, i); toastBackup[Slot(TOAST, i)]
      else if CardCovers(i) then SlotInside(CARD, i); cardBackup[Slot(CARD, i)]
      else fb[i]
    }

    /** Only an overlay whose backup could not be allocated loses what lies under it. */
    predicate Kept(i: nat) {
      (In(TOAST, i) ==> toastBackup != null) && (In(CARD, i) ==> cardBackup != null)
    }

    ghost predicate Valid()
      reads this, fb, toastBackup, cardBackup
    {
      && Sound()
      && (forall i: nat :: i < FB_SIZE && Kept(i) ==> Under(i) == plain[i])
      && (forall i: nat :: i in lost ==> In(TOAST, i) || In(CARD, i))
      && (forall i: nat :: i < FB_SIZE && i !in lost ==> plain[i] == bare[i])
    }

    lemma HiddenIsPlain()
      requires Valid() && toastBackup != null && cardBackup != null && !toastActive && !cardActive
      ensures fb[..] == plain
    {
      hide Row, Col;
      assert forall i: nat :: i < FB_SIZE ==> Kept(i) && Under(i) == fb[i];
    }

    /** With no overlay shown the screen is exactly what it would be had none ever been drawn, if and only if every pixel whose
        latest write was made under a shown overlay has the colour of that write anyway. Writes outside the two rectangles are
        never lost. */
    lemma HiddenIsBare()
      requires Valid() && toastBackup != null && cardBackup != null && !toastActive && !cardActive
      ensures fb[..] == bare <==> forall i :: i in lost && i < FB_SIZE ==> plain[i] == bare[i]
      ensures lost == {} ==> fb[..] == bare
      ensures forall i :: i in lost ==> 102 <= Col(i) < 1302 && (60 <= Row(i) < 220 || 536 <= Row(i) < 1336)
    {
      HiddenIsPlain();
      hide Row, Col;
      if forall i :: i in lost && i < FB_SIZE ==> plain[i] == bare[i] {
        assert forall i: nat :: i < FB_SIZE ==> plain[i] == bare[i];
        assert fb[..] == bare;
      }
    }

    constructor (fb: array<Color>, font: Font, toastBackup: array?<Color>, cardBackup: array?<Color>)
      requires fb.Length == FB_SIZE
      requires toastBackup != null ==> toastBackup.Length == TOAST.w * TOAST.h && toastBackup != fb && toastBackup != cardBackup
      requires cardBackup != null ==> cardBackup.Length == CARD.w * CARD.h && cardBackup != fb
      ensures Valid() && plain == bare == fb[..] && lost == {} && !toastActive && !cardActive
      ensures this.fb == fb && this.toastBackup == toastBackup && this.cardBackup == cardBackup
    {
      this.fb, this.font, this.toastBackup, this.cardBackup := fb, font, toastBackup, cardBackup;
      toastActive, cardActive, toastExpireTime := false, false, 0;
      plain, bare, lost := fb[..], fb[..], {};
    }

    /** Saves what the toast is about to cover, unless it is on the screen already. */
    method SaveToast()
      requires Valid()
      modifies this`toastActive, toastBackup
      ensures Valid() && toastActive
    {
      hide Row, Col, Slot;
      if !toastActive {
        if toastBackup != null {
          SaveUnder(fb, toastBackup, TOAST);
        }
        toastActive := true;
        forall i: nat | i < FB_SIZE && Kept(i)
          ensures Under(i) == plain[i]
        {
          assert old(Under(i)) == plain[i];
          if toastBackup != null && In(TOAST, i) {
            SlotInside(TOAST, i);
            assert toastBackup[..][Slot(TOAST, i)] == fb[..][i];
          }
        }
      }
    }

    method ShowToast(title: string, subtitle: string, now: nat)
      requires Valid() && ToastFits(title, subtitle)
      modifies this`toastActive, this`toastExpireTime, fb, toastBackup
      ensures Valid() && toastActive && toastExpireTime == now + 2200
      ensures ToastPainted(subtitle, fb[..])
    {
      SaveToast();
      hide Row, Col, Slot;
      ghost var blank, titled := PaintToast(fb, font, title, subtitle);
      toastExpireTime := now + TOAST_SHOWN_MS;
    }

    method HideToast()
      requires Valid()
      modifies this`toastActive, fb
      ensures Valid()
      ensures toastActive == (old(toastActive) && toastBackup == null)
    {
      if !toastActive || toastBackup == null {
        return;
      }
      hide Row, Col, Slot;
      RestoreUnder(fb, toastBackup, TOAST);
      toastActive := false;
    }

    method SaveCard()
      requires Valid()
      modifies this`cardActive, cardBackup
      ensures Valid() && cardActive
    {
      hide Row, Col, Slot;
      if !cardActive {
        if cardBackup != null {
          SaveUnder(fb, cardBackup, CARD);
        }
        cardActive := true;
        forall i: nat | i < FB_SIZE && Kept(i)
          ensures Under(i) == plain[i]
        {
          assert old(Under(i)) == plain[i];
          if cardBackup != null && In(CARD, i) {
            SlotInside(CARD, i);
            assert cardBackup[..][Slot(CARD, i)] == fb[..][i];
          }
        }
      }
    }

    method ShowMediaCard(status: string)
      requires Valid() && CardFits(status)
      modifies this`cardActive, fb, cardBackup
      ensures Valid() && cardActive && CardFramed(fb[..])
    {
      SaveCard();
      hide Row, Col, Slot;
      PaintCard(fb, font, status);
    }

    method HideMediaCard()
      requires Valid()
      modifies this`cardActive, fb
      ensures Valid()
      ensures cardActive == (old(cardActive) && cardBackup == null)
    {
      if !cardActive || cardBackup == null {
        return;
      }
      hide Row, Col, Slot;
      RestoreUnder(fb, cardBackup, CARD);
      cardActive := false;
    }

    /** A use of the screen after which it differs from the picture without overlays: the reader draws under a shown toast. */
    method DrawUnderToast(i: nat, color: Color, title: string, subtitle: string, now: nat)
      requires Valid() && toastBackup != null && cardBackup != null && !toastActive && !cardActive && ToastFits(title, subtitle)
      requires i < FB_SIZE && In(TOAST, i) && fb[i] != color
      modifies this`toastActive, this`toastExpireTime, this`plain, this`bare, this`lost, fb, toastBackup
      ensures Valid() && !toastActive && !cardActive
      ensures fb[..] == old(fb[..]) && i in lost && bare[i] == color && fb[..] != bare
    {
      hide Row, Col, Slot, ToastPainted;
      HiddenIsPlain();
      ShowToast(title, subtitle, now);
      ReaderDraws(i, color);
      HideToast();
      HiddenIsPlain();
    }

    /** A write by the reader. One under a shown overlay is gone when the overlay is hidden; any other one is kept. */
    method ReaderDraws(i: nat, color: Color)
      requires Valid() && i < FB_SIZE
      modifies this`plain, this`bare, this`lost, fb
      ensures Valid() && bare == old(bare)[i := color]
      ensures plain == if ToastCovers(i) || CardCovers(i) then old(plain) else old(plain)[i := color]
      ensures lost == if ToastCovers(i) || CardCovers(i) then old(lost) + {i} else old(lost) - {i}
    {
      hide Row, Col, Slot;
      fb[i] := color;
      bare := bare[i := color];
      if !ToastCovers(i) && !CardCovers(i) {
        plain := plain[i := color];
        lost := lost - {i};
      } else {
        lost := lost + {i};
      }
    }
  }
}
