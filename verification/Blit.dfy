/** The status display: only the changed span of each canvas row is scaled and written to the screen. */
module Blit {
  import opened Arithmetic

  const CanvasWidth: nat := 468
  const CanvasHeight: nat := 190
  const MaxScale: nat := 8

  type Pixel = int

  // ----- Layout -----

  datatype Layout = Layout(scale: nat, left: nat, top: nat, rows: nat, cols: nat)

  // Integer scale and offsets that centre the canvas, and how much of the canvas fits.
  function DisplayLayout(width: nat, height: nat): (l: Layout)
    ensures 1 <= l.scale <= MaxScale && l.rows <= CanvasHeight && l.cols <= CanvasWidth
    ensures l.left <= width && l.left + l.cols * l.scale <= width
    ensures l.top <= height && l.top + l.rows * l.scale <= height
    ensures width >= CanvasWidth && height >= CanvasHeight ==> l.cols == CanvasWidth && l.rows == CanvasHeight
  {
    var fit := Min(width / CanvasWidth, height / CanvasHeight);
    var scale: nat := if fit < 1 then 1 else if fit > MaxScale then MaxScale else fit;
    var left, top := Margin(width, CanvasWidth, scale), Margin(height, CanvasHeight, scale);
    Layout(scale, left, top, Fitting(height, top, scale, CanvasHeight), Fitting(width, left, scale, CanvasWidth))
  }

  function Margin(size: nat, canvas: nat, scale: nat): (m: nat)
    ensures m <= size && (canvas * scale <= size ==> m + canvas * scale <= size)
  { if canvas * scale > size then 0 else (size - canvas * scale) / 2 }

  function Fitting(size: nat, margin: nat, scale: nat, canvas: nat): (n: nat)
    requires scale > 0 && margin <= size
    ensures n <= canvas && margin + n * scale <= size
    ensures margin + canvas * scale <= size ==> n == canvas
  {
    var room := (size - margin) / scale;
    assert room * scale <= size - margin;
    if canvas <= room then
      assert canvas * scale <= room * scale;
      canvas
    else
      assert (room + 1) * scale > size - margin;
      assert canvas * scale >= (room + 1) * scale;
      room
  }

  // ----- A full redraw -----

  predicate IsCanvas(pixels: seq<Pixel>) { |pixels| == CanvasWidth * CanvasHeight }

  function At(pixels: seq<Pixel>, row: nat, col: nat): Pixel
    requires IsCanvas(pixels) && row < CanvasHeight && col < CanvasWidth
  { pixels[row * CanvasWidth + col] }

  // The canvas row a screen line shows, and the canvas column of a screen column.
  function Cell(l: Layout, offset: nat, x: nat): nat
    requires l.scale > 0 && offset <= x
  { (x - offset) / l.scale }

  predicate Covered(l: Layout, y: nat, x: nat) {
    l.scale > 0 && l.top <= y && l.left <= x && Cell(l, l.top, y) < l.rows && Cell(l, l.left, x) < l.cols
  }

  predicate IsLayout(l: Layout) { 1 <= l.scale <= MaxScale && l.rows <= CanvasHeight && l.cols <= CanvasWidth }

  predicate PixelShows(l: Layout, pixels: seq<Pixel>, y: nat, x: nat, p: Pixel)
    requires IsLayout(l) && IsCanvas(pixels)
  { Covered(l, y, x) ==> p == At(pixels, Cell(l, l.top, y), Cell(l, l.left, x)) }

  // The screen is the scaled canvas wherever the canvas reaches.
  ghost predicate ScreenShows(screen: array2<Pixel>, l: Layout, pixels: seq<Pixel>)
    requires IsLayout(l) && IsCanvas(pixels)
    reads screen
  { forall y, x :: 0 <= y < screen.Length0 && 0 <= x < screen.Length1 ==> PixelShows(l, pixels, y, x, screen[y, x]) }

  // The canvas whose first `n` rows are new.
  function Mixed(next: seq<Pixel>, prior: seq<Pixel>, n: nat): (m: seq<Pixel>)
    requires IsCanvas(next) && IsCanvas(prior) && n <= CanvasHeight
    ensures IsCanvas(m)
    ensures forall row, col :: 0 <= row < CanvasHeight && 0 <= col < CanvasWidth ==>
      At(m, row, col) == if row < n then At(next, row, col) else At(prior, row, col)
  { next[..n * CanvasWidth] + prior[n * CanvasWidth..] }

  // ----- One row -----

  predicate Differs(next: seq<Pixel>, prior: seq<Pixel>, row: nat, col: nat)
    requires IsCanvas(next) && IsCanvas(prior) && row < CanvasHeight && col < CanvasWidth
  { At(next, row, col) != At(prior, row, col) }

  // The changed columns of a row lie between the first and the last one.
  method ChangedSpan(l: Layout, next: seq<Pixel>, prior: seq<Pixel>, row: nat)
    returns (found: bool, first: nat, last: nat)
    requires IsLayout(l) && IsCanvas(next) && IsCanvas(prior) && row < l.rows
    ensures found <==> exists c :: 0 <= c < l.cols && Differs(next, prior, row, c)
    ensures found ==> first <= last < l.cols && Differs(next, prior, row, first) && Differs(next, prior, row, last)
    ensures found ==> forall c :: 0 <= c < l.cols && Differs(next, prior, row, c) ==> first <= c <= last
  {
    first, last := 0, 0;
    while first < l.cols && !Differs(next, prior, row, first)
      invariant first <= l.cols && forall c :: 0 <= c < first ==> !Differs(next, prior, row, c)
    {
      first := first + 1;
    }
    found := first < l.cols;
    if found {
      last := l.cols - 1;
      while !Differs(next, prior, row, last)
        decreases last
        invariant first <= last < l.cols && forall c :: last < c < l.cols ==> !Differs(next, prior, row, c)
      {
        last := last - 1;
      }
    }
  }

  // What `ScaleSpan` makes of the changed span.
  ghost predicate IsScaled(l: Layout, next: seq<Pixel>, row: nat, first: nat, last: nat, scaled: seq<Pixel>)
    requires IsLayout(l) && IsCanvas(next) && row < l.rows && first <= last < l.cols
  {
    && |scaled| == (last + 1 - first) * l.scale
    && forall k :: 0 <= k < |scaled| ==>
        0 <= k / l.scale <= last - first && scaled[k] == At(next, row, first + k / l.scale)
  }

  method ScaleSpan(l: Layout, next: seq<Pixel>, row: nat, first: nat, last: nat) returns (scaled: seq<Pixel>)
    requires IsLayout(l) && IsCanvas(next) && row < l.rows && first <= last < l.cols
    ensures IsScaled(l, next, row, first, last, scaled)
  {
    scaled := seq(l.scale, _ => At(next, row, first));
    DivBelowAll(l.scale);
    assert IsScaled(l, next, row, first, first, scaled);
    for c := first + 1 to last + 1
      invariant IsScaled(l, next, row, first, c - 1, scaled)
    {
      ScaledGrows(l, next, row, first, c, scaled);
      scaled := scaled + seq(l.scale, _ => At(next, row, c));
    }
  }

  lemma DivBelowAll(d: nat)
    requires d > 0
    ensures forall k: nat :: k < d ==> k / d == 0
  {}

  lemma ScaledGrows(l: Layout, next: seq<Pixel>, row: nat, first: nat, c: nat, scaled: seq<Pixel>)
    requires IsLayout(l) && IsCanvas(next) && row < l.rows && first < c < l.cols
    requires IsScaled(l, next, row, first, c - 1, scaled)
    ensures IsScaled(l, next, row, first, c, scaled + seq(l.scale, _ => At(next, row, c)))
  {
    var more := scaled + seq(l.scale, _ => At(next, row, c));
    assert |more| == (c + 1 - first) * l.scale;
    forall k | 0 <= k < |more| ensures 0 <= k / l.scale <= c - first && more[k] == At(next, row, first + k / l.scale) {
      DivBelow(k, l.scale, c - first);
      DivBelow(k, l.scale, c + 1 - first);
    }
  }

  // A written line shows its row's new pixels.
  lemma LineShows(
    l: Layout, next: seq<Pixel>, prior: seq<Pixel>, row: nat, first: nat, last: nat, scaled: seq<Pixel>, y: nat, x: nat,
    was: Pixel)
    requires IsLayout(l) && IsCanvas(next) && IsCanvas(prior) && row < l.rows && first <= last < l.cols
    requires forall c :: 0 <= c < l.cols && Differs(next, prior, row, c) ==> first <= c <= last
    requires IsScaled(l, next, row, first, last, scaled)
    requires l.top <= y && Cell(l, l.top, y) == row && PixelShows(l, Mixed(next, prior, row), y, x, was)
    ensures var from := l.left + first * l.scale;
      PixelShows(l, Mixed(next, prior, row + 1), y, x, if from <= x < from + |scaled| then scaled[x - from] else was)
  {
    var from := l.left + first * l.scale;
    if Covered(l, y, x) {
      var c := Cell(l, l.left, x);
      DivBelow(x - l.left, l.scale, first);
      DivBelow(x - l.left, l.scale, last + 1);
      assert |scaled| == (last + 1) * l.scale - first * l.scale;
      if from <= x < from + |scaled| {
        CellAfter(x - from, l.scale, first);
        assert x - l.left == x - from + first * l.scale;
        assert c == first + (x - from) / l.scale;
      } else {
        assert !(first <= c <= last);
        assert !Differs(next, prior, row, c);
      }
    }
  }

  lemma SpanIsCovered(l: Layout, row: nat, first: nat, last: nat, len: nat, y: nat, x: nat)
    requires IsLayout(l) && row < l.rows && first <= last < l.cols && len == (last + 1 - first) * l.scale
    requires l.top <= y && Cell(l, l.top, y) == row && l.left + first * l.scale <= x < l.left + first * l.scale + len
    ensures Covered(l, y, x)
  {
    assert first * l.scale + len == (last + 1) * l.scale;
    DivBelow(x - l.left, l.scale, last + 1);
  }

  lemma CellAfter(k: nat, scale: nat, first: nat)
    requires scale > 0
    ensures (k + first * scale) / scale == first + k / scale
  {
    assert k == k / scale * scale + k % scale;
    assert (first + k / scale) * scale == first * scale + k / scale * scale;
    QuotientIs(k + first * scale, scale, first + k / scale, k % scale);
  }

  predicate RowChanged(l: Layout, next: seq<Pixel>, prior: seq<Pixel>, row: nat)
    requires IsLayout(l) && IsCanvas(next) && IsCanvas(prior) && row < l.rows
  { exists c :: 0 <= c < l.cols && Differs(next, prior, row, c) }

  // The screen while a row's lines are written: lines above `end` show the new row.
  ghost predicate LinesShow(screen: array2<Pixel>, l: Layout, next: seq<Pixel>, prior: seq<Pixel>, row: nat, end: nat)
    requires IsLayout(l) && IsCanvas(next) && IsCanvas(prior) && row < CanvasHeight
    reads screen
  {
    forall y, x :: 0 <= y < screen.Length0 && 0 <= x < screen.Length1 ==>
      PixelShows(l, Mixed(next, prior, if y < end then row + 1 else row), y, x, screen[y, x])
  }

  lemma OtherRowsAgree(l: Layout, next: seq<Pixel>, prior: seq<Pixel>, row: nat, y: nat, x: nat, p: Pixel)
    requires IsLayout(l) && IsCanvas(next) && IsCanvas(prior) && row < l.rows
    requires l.top <= y ==> Cell(l, l.top, y) != row
    ensures PixelShows(l, Mixed(next, prior, row), y, x, p) <==> PixelShows(l, Mixed(next, prior, row + 1), y, x, p)
  {}

  // Line `dy` of row `row` is a line of that row and of no other.
  lemma LineOfRow(l: Layout, row: nat, y: nat)
    requires IsLayout(l) && l.top <= y
    ensures Cell(l, l.top, y) == row <==> l.top + row * l.scale <= y < l.top + row * l.scale + l.scale
  {
    DivBelow(y - l.top, l.scale, row);
    DivBelow(y - l.top, l.scale, row + 1);
    assert (row + 1) * l.scale == row * l.scale + l.scale;
  }

  // ----- Writes -----

  // Part of one screen line.
  datatype Span = Span(y: nat, x: nat, len: nat)

  predicate Within(s: Span, y: nat, x: nat) { s.y == y && s.x <= x < s.x + s.len }

  // The pixel lies in a span logged from `from` on.
  ghost predicate Logged(log: seq<Span>, from: nat, y: nat, x: nat) {
    exists i :: from <= i < |log| && Within(log[i], y, x)
  }

  lemma LogGrows(log: seq<Span>, more: seq<Span>, from: nat, y: nat, x: nat)
    requires log <= more && Logged(log, from, y, x)
    ensures Logged(more, from, y, x)
  {
    var i :| from <= i < |log| && Within(log[i], y, x);
    assert more[i] == log[i];
  }

  // The mapped display. Every write goes through `WriteSpan`, which logs it.
  class Scanout {
    const pixels: array2<Pixel>
    ghost var log: seq<Span>

    constructor (width: nat, height: nat, background: Pixel)
      ensures fresh(pixels) && pixels.Length1 == width && pixels.Length0 == height && log == []
      ensures forall y, x :: 0 <= y < height && 0 <= x < width ==> pixels[y, x] == background
    {
      pixels := new Pixel[height, width]((_, _) => background);
      log := [];
    }

    method WriteSpan(y: nat, x: nat, span: seq<Pixel>)
      requires y < pixels.Length0 && x + |span| <= pixels.Length1
      modifies this`log, pixels
      ensures log == old(log) + [Span(y, x, |span|)]
      ensures forall v, u :: 0 <= v < pixels.Length0 && 0 <= u < pixels.Length1 ==>
        pixels[v, u] == if v == y && x <= u < x + |span| then span[u - x] else old(pixels[v, u])
    {
      for k := 0 to |span|
        invariant log == old(log)
        invariant forall v, u :: 0 <= v < pixels.Length0 && 0 <= u < pixels.Length1 ==>
          pixels[v, u] == if v == y && x <= u < x + k then span[u - x] else old(pixels[v, u])
      {
        pixels[y, x + k] := span[k];
      }
      log := log + [Span(y, x, |span|)];
    }
  }

  // ----- One changed row -----

  // A row with its first and last changed columns.
  datatype Change = Change(l: Layout, next: seq<Pixel>, prior: seq<Pixel>, row: nat, first: nat, last: nat) {
    ghost predicate Ok() {
      && IsLayout(l) && IsCanvas(next) && IsCanvas(prior) && row < l.rows && first <= last < l.cols
      && Differs(next, prior, row, first) && Differs(next, prior, row, last)
      && forall c :: 0 <= c < l.cols && Differs(next, prior, row, c) ==> first <= c <= last
    }

    function From(): nat { l.left + first * l.scale }

    function Len(): nat
      requires first <= last
    { (last + 1 - first) * l.scale }
  }

  // A span on a line of a row that changed, from its first to its last changed column.
  ghost predicate SpanOk(l: Layout, next: seq<Pixel>, prior: seq<Pixel>, s: Span) {
    exists c: Change :: c.l == l && c.next == next && c.prior == prior && IsSpanOf(c, s)
  }

  ghost predicate IsSpanOf(c: Change, s: Span) {
    c.Ok() && c.l.top <= s.y && Cell(c.l, c.l.top, s.y) == c.row && s.x == c.From() && s.len == c.Len()
  }

  ghost predicate SpansOk(l: Layout, next: seq<Pixel>, prior: seq<Pixel>, log: seq<Span>, from: nat) {
    forall i :: from <= i < |log| ==> SpanOk(l, next, prior, log[i])
  }

  /** Such spans stay on the display and on rows that changed. */
  lemma SpansStayInside(width: nat, height: nat, next: seq<Pixel>, prior: seq<Pixel>, s: Span, y: nat, x: nat)
    requires SpanOk(DisplayLayout(width, height), next, prior, s)
    ensures s.y < height && s.x + s.len <= width
    ensures IsCanvas(next) && IsCanvas(prior)
    ensures var l := DisplayLayout(width, height);
      Within(s, y, x) ==> Covered(l, y, x) && RowChanged(l, next, prior, Cell(l, l.top, y))
  {
    var l := DisplayLayout(width, height);
    var c: Change :| c.l == l && c.next == next && c.prior == prior && IsSpanOf(c, s);
    RowFits(l, c.row, c.first, c.last, s.len);
    LineOfRow(l, c.row, s.y);
    if Within(s, y, x) { SpanIsCovered(l, c.row, c.first, c.last, s.len, y, x); }
  }

  method WriteLine(screen: Scanout, c: Change, scaled: seq<Pixel>, y: nat)
    requires c.Ok() && IsScaled(c.l, c.next, c.row, c.first, c.last, scaled)
    requires c.l.top <= y < screen.pixels.Length0 && Cell(c.l, c.l.top, y) == c.row
    requires c.From() + |scaled| <= screen.pixels.Length1
    requires LinesShow(screen.pixels, c.l, c.next, c.prior, c.row, y)
    modifies screen`log, screen.pixels
    ensures LinesShow(screen.pixels, c.l, c.next, c.prior, c.row, y + 1)
    ensures screen.log == old(screen.log) + [Span(y, c.From(), c.Len())]
    ensures SpanOk(c.l, c.next, c.prior, screen.log[|old(screen.log)|])
    ensures forall v, u :: 0 <= v < screen.pixels.Length0 && 0 <= u < screen.pixels.Length1 ==>
      screen.pixels[v, u] == old(screen.pixels[v, u]) || Within(screen.log[|old(screen.log)|], v, u)
  {
    screen.WriteSpan(y, c.From(), scaled);
    assert IsSpanOf(c, screen.log[|old(screen.log)|]);
    forall v, u | 0 <= v < screen.pixels.Length0 && 0 <= u < screen.pixels.Length1
      ensures PixelShows(c.l, Mixed(c.next, c.prior, if v < y + 1 then c.row + 1 else c.row), v, u, screen.pixels[v, u])
    {
      assert old(PixelShows(c.l, Mixed(c.next, c.prior, if v < y then c.row + 1 else c.row), v, u,
        screen.pixels[v, u]));
      if v == y { LineShows(c.l, c.next, c.prior, c.row, c.first, c.last, scaled, y, u, old(screen.pixels[v, u])); }
    }
  }

  method WriteLines(screen: Scanout, c: Change, scaled: seq<Pixel>, base: nat)
    requires c.Ok() && IsScaled(c.l, c.next, c.row, c.first, c.last, scaled)
    requires c.l.top <= base && base + c.l.scale <= screen.pixels.Length0
    requires c.From() + |scaled| <= screen.pixels.Length1
    requires forall y: nat :: base <= y < base + c.l.scale ==> Cell(c.l, c.l.top, y) == c.row
    requires LinesShow(screen.pixels, c.l, c.next, c.prior, c.row, base)
    modifies screen`log, screen.pixels
    ensures LinesShow(screen.pixels, c.l, c.next, c.prior, c.row, base + c.l.scale)
    ensures old(screen.log) <= screen.log && SpansOk(c.l, c.next, c.prior, screen.log, |old(screen.log)|)
    ensures forall v, u :: 0 <= v < screen.pixels.Length0 && 0 <= u < screen.pixels.Length1 ==>
      screen.pixels[v, u] == old(screen.pixels[v, u]) || Logged(screen.log, |old(screen.log)|, v, u)
  {
    for y := base to base + c.l.scale
      invariant LinesShow(screen.pixels, c.l, c.next, c.prior, c.row, y)
      invariant old(screen.log) <= screen.log && SpansOk(c.l, c.next, c.prior, screen.log, |old(screen.log)|)
      invariant forall v, u :: 0 <= v < screen.pixels.Length0 && 0 <= u < screen.pixels.Length1 ==>
        screen.pixels[v, u] == old(screen.pixels[v, u]) || Logged(screen.log, |old(screen.log)|, v, u)
    {
      ghost var before := screen.log;
      WriteLine(screen, c, scaled, y);
      forall v, u | Logged(before, |old(screen.log)|, v, u) ensures Logged(screen.log, |old(screen.log)|, v, u) {
        LogGrows(before, screen.log, |old(screen.log)|, v, u);
      }
    }
  }

  method BlitRow(screen: Scanout, c: Change)
    requires c.Ok() && c.l.top + c.l.rows * c.l.scale <= screen.pixels.Length0
    requires c.l.left + c.l.cols * c.l.scale <= screen.pixels.Length1
    requires ScreenShows(screen.pixels, c.l, Mixed(c.next, c.prior, c.row))
    modifies screen`log, screen.pixels
    ensures ScreenShows(screen.pixels, c.l, Mixed(c.next, c.prior, c.row + 1))
    ensures old(screen.log) <= screen.log && SpansOk(c.l, c.next, c.prior, screen.log, |old(screen.log)|)
    ensures forall v, u :: 0 <= v < screen.pixels.Length0 && 0 <= u < screen.pixels.Length1 ==>
      screen.pixels[v, u] == old(screen.pixels[v, u]) || Logged(screen.log, |old(screen.log)|, v, u)
  {
    var scaled := ScaleSpan(c.l, c.next, c.row, c.first, c.last);
    var base := Base(c.l, c.row);
    RowFits(c.l, c.row, c.first, c.last, |scaled|);
    StartLines(screen.pixels, c.l, c.next, c.prior, c.row);
    WriteLines(screen, c, scaled, base);
    EndLines(screen.pixels, c.l, c.next, c.prior, c.row);
  }

  // The first screen line of a row.
  function Base(l: Layout, row: nat): (y: nat)
    ensures y >= l.top
  { l.top + row * l.scale }

  lemma RowFits(l: Layout, row: nat, first: nat, last: nat, len: nat)
    requires IsLayout(l) && row < l.rows && first <= last < l.cols && len == (last + 1 - first) * l.scale
    ensures Base(l, row) + l.scale <= l.top + l.rows * l.scale
    ensures l.left + first * l.scale + len <= l.left + l.cols * l.scale
    ensures forall y: nat :: Base(l, row) <= y < Base(l, row) + l.scale ==> Cell(l, l.top, y) == row
  {
    forall y: nat | Base(l, row) <= y < Base(l, row) + l.scale ensures Cell(l, l.top, y) == row {
      LineOfRow(l, row, y);
    }
    assert (row + 1) * l.scale <= l.rows * l.scale;
    assert (last + 1) * l.scale <= l.cols * l.scale;
    assert first * l.scale + len == (last + 1) * l.scale;
  }

  lemma StartLines(screen: array2<Pixel>, l: Layout, next: seq<Pixel>, prior: seq<Pixel>, row: nat)
    requires IsLayout(l) && IsCanvas(next) && IsCanvas(prior) && row < l.rows
    requires ScreenShows(screen, l, Mixed(next, prior, row))
    ensures LinesShow(screen, l, next, prior, row, Base(l, row))
  {
    forall y, x | 0 <= y < screen.Length0 && 0 <= x < screen.Length1 && y < l.top + row * l.scale
      ensures PixelShows(l, Mixed(next, prior, row + 1), y, x, screen[y, x])
    {
      assert PixelShows(l, Mixed(next, prior, row), y, x, screen[y, x]);
      if l.top <= y { LineOfRow(l, row, y); }
      OtherRowsAgree(l, next, prior, row, y, x, screen[y, x]);
    }
  }

  lemma EndLines(screen: array2<Pixel>, l: Layout, next: seq<Pixel>, prior: seq<Pixel>, row: nat)
    requires IsLayout(l) && IsCanvas(next) && IsCanvas(prior) && row < l.rows
    requires LinesShow(screen, l, next, prior, row, Base(l, row) + l.scale)
    ensures ScreenShows(screen, l, Mixed(next, prior, row + 1))
  {
    forall y, x | 0 <= y < screen.Length0 && 0 <= x < screen.Length1
      ensures PixelShows(l, Mixed(next, prior, row + 1), y, x, screen[y, x])
    {
      if y >= l.top + row * l.scale + l.scale {
        assert PixelShows(l, Mixed(next, prior, row), y, x, screen[y, x]);
        LineOfRow(l, row, y);
        OtherRowsAgree(l, next, prior, row, y, x, screen[y, x]);
      }
    }
  }

  // ----- The display -----

  class Monitor {
    const screen: Scanout
    var canvas: seq<Pixel>
    var shown: seq<Pixel>

    function Scaling(): (l: Layout)
      ensures IsLayout(l)
    { DisplayLayout(screen.pixels.Length1, screen.pixels.Length0) }

    // The screen is a full redraw of the canvas last shown.
    ghost predicate Valid()
      reads this, screen.pixels
    { IsCanvas(canvas) && IsCanvas(shown) && ScreenShows(screen.pixels, Scaling(), shown) }

    // A blank screen shows a blank canvas.
    constructor (width: nat, height: nat, background: Pixel)
      ensures Valid() && fresh(screen) && fresh(screen.pixels) && screen.log == []
      ensures screen.pixels.Length1 == width && screen.pixels.Length0 == height
    {
      screen := new Scanout(width, height, background);
      canvas, shown := seq(CanvasWidth * CanvasHeight, _ => background),
        seq(CanvasWidth * CanvasHeight, _ => background);
    }

    method Draw(pixels: seq<Pixel>)
      requires Valid() && IsCanvas(pixels)
      modifies this`canvas
      ensures Valid() && canvas == pixels
    { canvas := pixels; }

    /** Writing only the changed spans leaves the screen as a full redraw of the canvas would. Every write is the
        changed span of a row that changed, every pixel that changed lies in such a write, and the buffers are
        swapped. */
    method BlitChanges()
      requires Valid()
      modifies this`canvas, this`shown, screen`log, screen.pixels
      ensures Valid() && shown == old(canvas) && canvas == old(shown)
      ensures old(screen.log) <= screen.log && SpansOk(Scaling(), shown, canvas, screen.log, |old(screen.log)|)
      ensures forall v, u :: 0 <= v < screen.pixels.Length0 && 0 <= u < screen.pixels.Length1 ==>
        screen.pixels[v, u] == old(screen.pixels[v, u]) || Logged(screen.log, |old(screen.log)|, v, u)
    {
      var l := Scaling();
      if l.cols > 0 {
        for row := 0 to l.rows
          invariant canvas == old(canvas) && shown == old(shown)
          invariant ScreenShows(screen.pixels, l, Mixed(canvas, shown, row))
          invariant old(screen.log) <= screen.log && SpansOk(l, canvas, shown, screen.log, |old(screen.log)|)
          invariant forall v, u :: 0 <= v < screen.pixels.Length0 && 0 <= u < screen.pixels.Length1 ==>
            screen.pixels[v, u] == old(screen.pixels[v, u]) || Logged(screen.log, |old(screen.log)|, v, u)
        {
          var found, first, last := ChangedSpan(l, canvas, shown, row);
          if found {
            ghost var before := screen.log;
            BlitRow(screen, Change(l, canvas, shown, row, first, last));
            LogKeepsSpans(l, canvas, shown, before, screen.log, |old(screen.log)|);
          } else {
            SameRow(screen.pixels, l, canvas, shown, row);
          }
        }
      }
      AllRows(screen.pixels, l, canvas, shown);
      canvas, shown := shown, canvas;
    }
  }

  // A log that grew by good spans is good, and has what it had.
  lemma LogKeepsSpans(l: Layout, next: seq<Pixel>, prior: seq<Pixel>, before: seq<Span>, after: seq<Span>, from: nat)
    requires from <= |before| && before <= after && SpansOk(l, next, prior, before, from)
    requires SpansOk(l, next, prior, after, |before|)
    ensures SpansOk(l, next, prior, after, from)
    ensures forall y: nat, x: nat :: Logged(before, from, y, x) || Logged(after, |before|, y, x) ==>
      Logged(after, from, y, x)
  {
    forall i | from <= i < |after| ensures SpanOk(l, next, prior, after[i]) {
      if i < |before| { assert after[i] == before[i]; }
    }
    forall y: nat, x: nat | Logged(before, from, y, x) ensures Logged(after, from, y, x) {
      LogGrows(before, after, from, y, x);
    }
  }

  lemma SameRow(screen: array2<Pixel>, l: Layout, next: seq<Pixel>, prior: seq<Pixel>, row: nat)
    requires IsLayout(l) && IsCanvas(next) && IsCanvas(prior) && row < l.rows && !RowChanged(l, next, prior, row)
    requires ScreenShows(screen, l, Mixed(next, prior, row))
    ensures ScreenShows(screen, l, Mixed(next, prior, row + 1))
  {
    forall y, x | 0 <= y < screen.Length0 && 0 <= x < screen.Length1
      ensures PixelShows(l, Mixed(next, prior, row + 1), y, x, screen[y, x])
    {
      assert PixelShows(l, Mixed(next, prior, row), y, x, screen[y, x]);
      if Covered(l, y, x) && Cell(l, l.top, y) == row { assert !Differs(next, prior, row, Cell(l, l.left, x)); }
    }
  }

  lemma AllRows(screen: array2<Pixel>, l: Layout, next: seq<Pixel>, prior: seq<Pixel>)
    requires IsLayout(l) && IsCanvas(next) && IsCanvas(prior)
    requires l.cols == 0 || ScreenShows(screen, l, Mixed(next, prior, l.rows))
    ensures ScreenShows(screen, l, next)
  {
    forall y, x | 0 <= y < screen.Length0 && 0 <= x < screen.Length1 ensures PixelShows(l, next, y, x, screen[y, x]) {
      if l.cols > 0 { assert PixelShows(l, Mixed(next, prior, l.rows), y, x, screen[y, x]); }
    }
  }
}
