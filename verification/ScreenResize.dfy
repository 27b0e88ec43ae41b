/** What a resize keeps. */
module ScreenResize {
  import opened Cells
  import opened Grids
  import opened ScreenModel
  import opened ScreenPairing

  predicate StaysNear(before: Cursor, after: Cursor, width: nat, height: nat) {
    after == Cursor(if before.column < width then before.column else width - 1,
                    if before.row < height then before.row else height - 1, before.visible)
  }

  /** The overlap of the old and the new screen survives, save that a wide character cut by the
      new right edge becomes a blank; the rest is blank, and the cursors move no further than
      they must. */
  ghost predicate KeepsOverlap(before: Buffer, after: Buffer, width: nat, height: nat, style: Cell) {
    && Fits(after.grid, width, height)
    && (forall r, c: nat | 0 <= r < height && c < width ::
          after.grid[r][c] ==
            if r >= |before.grid| || c >= |before.grid[r]| || (c == width - 1 && SplitsPair(before.grid[r], width))
            then Blank(style) else before.grid[r][c])
    && StaysNear(before.cursor, after.cursor, width, height) && StaysNear(before.saved, after.saved, width, height)
  }

  lemma ResizeBufferKeepsOverlap(b: Buffer, a: Area, width: nat, height: nat, style: Cell)
    requires BufferFits(b, a) && PairedGrid(b.grid)
    ensures KeepsOverlap(b, ResizeBuffer(b, width, height, style), width, height, style)
  {
    forall r, c: nat | 0 <= r < height && c < width
      ensures ResizeBuffer(b, width, height, style).grid[r][c] ==
        if r >= |b.grid| || c >= |b.grid[r]| || (c == width - 1 && SplitsPair(b.grid[r], width))
        then Blank(style) else b.grid[r][c]
    {
      if r < |b.grid| {
        ResizeRowPairs(b.grid[r], width, style);
        assert ResizeRow(b.grid[r], width, style)[c] ==
          if c >= |b.grid[r]| || (c == width - 1 && SplitsPair(b.grid[r], width)) then Blank(style) else b.grid[r][c];
      } else {
        assert ResizeBuffer(b, width, height, style).grid[r] == BlankRow(style, width);
      }
    }
  }

  /** A resize to other dimensions that are positive keeps the overlap of both buffers and wide
      characters whole, sets the region to the whole screen, ends a pending wrap and shows as exactly
      one new revision; any other changes nothing. */
  lemma ResizeKeepsScreens(s: State, width: int, height: int)
    requires Geometry(s) && PairedScreens(s.screens)
    ensures var t := Resize(s, width, height);
            if width <= 0 || height <= 0 || (width == s.area.width && height == s.area.height) then t == s
            else
              && KeepsOverlap(s.screens.main, t.screens.main, width, height, s.pen.style)
              && t.screens.alternate.Some? == s.screens.alternate.Some?
              && (s.screens.alternate.Some? ==>
                    KeepsOverlap(s.screens.alternate.value, t.screens.alternate.value, width, height, s.pen.style))
              && PairedScreens(t.screens)
              && t.screens.onAlternate == s.screens.onAlternate
              && t == s.(area := Area(width, height, 0, height - 1), screens := t.screens,
                         wrap := Wrap(false, s.wrap.auto), log := s.log.(revision := s.log.revision + 1))
  {
    if width > 0 && height > 0 {
      ResizeKeepsPairing(s, width, height);
      ResizeBufferKeepsOverlap(s.screens.main, s.area, width, height, s.pen.style);
      if s.screens.alternate.Some? {
        ResizeBufferKeepsOverlap(s.screens.alternate.value, s.area, width, height, s.pen.style);
      }
    }
  }

  lemma ResizeBufferRoundTrip(b: Buffer, a: Area, width: nat, height: nat, style: Cell)
    requires BufferFits(b, a) && PairedGrid(b.grid) && a.width <= width && a.height <= height
    ensures ResizeBuffer(ResizeBuffer(b, width, height, style), a.width, a.height, style) == b
  {
    ResizeGridRoundTrip(b.grid, a.width, a.height, width, height, style, style);
  }

  /** Growing and shrinking back restores both buffers and all four cursors; only the scroll region
      and a pending wrap are lost. */
  lemma GrowShrinkRestores(s: State, width: nat, height: nat)
    requires Geometry(s) && PairedScreens(s.screens)
    requires s.area.width <= width && s.area.height <= height
    requires width != s.area.width || height != s.area.height
    ensures Resize(Resize(s, width, height), s.area.width, s.area.height) ==
            Unwrapped(s).(area := s.area.(top := 0, bottom := s.area.height - 1), log := Bump(Bump(s.log)))
  {
    ResizeBufferRoundTrip(s.screens.main, s.area, width, height, s.pen.style);
    if s.screens.alternate.Some? {
      ResizeBufferRoundTrip(s.screens.alternate.value, s.area, width, height, s.pen.style);
    }
  }
}
