/** The absolute drain-window grid: boundaries at every window length from each UTC midnight. */
module Windows {
  import opened Common

  datatype Window = Window(startMs: int, endMs: int)

  /** DayEndOverflow: the end of a day reached by the loop exceeds the 64-bit range, which the code does not check. */
  datatype WindowError = NonPositiveWindow(windowMs: int) | NegativeRange(fromMs: int, toMs: int) | DayEndOverflow

  /** The start of the last UTC day that 64-bit timestamps reach into; it has no representable end. */
  const LAST_DAY: int := 9_223_372_036_828_800_000

  /** A grid boundary: a whole number of window lengths after its UTC midnight. */
  predicate Boundary(t: int, windowMs: int)
    requires windowMs > 0
  {
    t >= 0 && (t % DAY_MS) % windowMs == 0
  }

  /** Two consecutive boundaries. */
  ghost predicate GridWindow(w: Window, windowMs: int)
    requires windowMs > 0
  {
    && Boundary(w.startMs, windowMs) && Boundary(w.endMs, windowMs) && w.startMs < w.endMs
    && forall t :: w.startMs < t < w.endMs ==> !Boundary(t, windowMs)
  }

  function AlignDown(ts: int, windowMs: int): (r: int)
    requires ts >= 0 && windowMs > 0
    ensures r >= 0
  {
    var day := (ts / DAY_MS) * DAY_MS;
    NonNegativeProduct((ts - day) / windowMs, windowMs);
    day + ((ts - day) / windowMs) * windowMs
  }

  function DayEnd(b: int): int {
    (b / DAY_MS) * DAY_MS + DAY_MS
  }

  /** Saturation of the sum cannot be observed: the minimum is taken with the end of the day. */
  function NextBoundary(b: int, windowMs: int): int
    requires b >= 0 && windowMs > 0
  {
    Min(b + windowMs, DayEnd(b))
  }

  function Validate(fromMs: int, toMs: int, windowMs: int): Option<WindowError> {
    if windowMs <= 0 then Some(NonPositiveWindow(windowMs))
    else if fromMs < 0 || toMs < 0 then Some(NegativeRange(fromMs, toMs))
    else None
  }

  /** Strictly between two consecutive multiples of the window length, inside one day, there is no boundary. */
  lemma NoBoundaryBetween(q: int, k: int, windowMs: int, t: int)
    requires windowMs > 0 && k >= 0 && 0 <= t - q * DAY_MS < DAY_MS
    requires 0 < t - q * DAY_MS - k * windowMs < windowMs
    ensures !Boundary(t, windowMs)
  {
    ModAt(t, DAY_MS, q, t - q * DAY_MS);
    ModAt(t - q * DAY_MS, windowMs, k, t - q * DAY_MS - k * windowMs);
  }

  /** A whole number of window lengths after a midnight, inside its day, is a boundary. */
  lemma BoundaryAt(q: int, k: int, windowMs: int)
    requires windowMs > 0 && q >= 0 && k >= 0 && 0 <= k * windowMs < DAY_MS
    ensures Boundary(q * DAY_MS + k * windowMs, windowMs)
    ensures (q * DAY_MS + k * windowMs) / DAY_MS == q
  {
    ModAt(q * DAY_MS + k * windowMs, DAY_MS, q, k * windowMs);
    ModAt(k * windowMs, windowMs, k, 0);
  }

  /** A timestamp as its day, the whole windows of that day before it, and the rest. */
  lemma Decompose(ts: int, windowMs: int) returns (q: int, k: int, rest: int)
    requires ts >= 0 && windowMs > 0
    ensures q == ts / DAY_MS >= 0 && k >= 0 && 0 <= rest < windowMs && ts == q * DAY_MS + k * windowMs + rest
    ensures 0 <= k * windowMs <= ts - q * DAY_MS < DAY_MS
    ensures AlignDown(ts, windowMs) == q * DAY_MS + k * windowMs
    ensures Boundary(ts, windowMs) <==> rest == 0
  {
    q := ts / DAY_MS;
    var r := ts % DAY_MS;
    k, rest := r / windowMs, r % windowMs;
    assert ts == q * DAY_MS + r;
    assert r == k * windowMs + rest;
    NonNegativeProduct(k, windowMs);
  }

  lemma NonNegativeProduct(k: int, m: int)
    requires k >= 0 && m > 0
    ensures k * m >= 0
  {
  }

  /** AlignDown is the greatest boundary not after ts. */
  lemma AlignDownGreatest(ts: int, windowMs: int)
    requires ts >= 0 && windowMs > 0
    ensures var a := AlignDown(ts, windowMs);
            Boundary(a, windowMs) && a <= ts && a / DAY_MS == ts / DAY_MS
            && forall t :: a < t <= ts ==> !Boundary(t, windowMs)
  {
    hide Boundary, AlignDown;
    var q, k, rest := Decompose(ts, windowMs);
    BoundaryAt(q, k, windowMs);
    forall t | AlignDown(ts, windowMs) < t <= ts ensures !Boundary(t, windowMs) {
      NoBoundaryBetween(q, k, windowMs, t);
    }
  }

  /** NextBoundary closes the grid window that starts at b, inside b's UTC day. */
  lemma NextBoundaryLeast(b: int, windowMs: int)
    requires windowMs > 0 && Boundary(b, windowMs)
    ensures GridWindow(Window(b, NextBoundary(b, windowMs)), windowMs)
    ensures NextBoundary(b, windowMs) <= DayEnd(b)
  {
    assert b >= 0;
    hide Boundary, AlignDown;
    var q, k, rest := Decompose(b, windowMs);
    var e := NextBoundary(b, windowMs);
    assert (k + 1) * windowMs == k * windowMs + windowMs;
    if e == DayEnd(b) {
      assert e == (q + 1) * DAY_MS + 0 * windowMs;
      BoundaryAt(q + 1, 0, windowMs);
    } else {
      BoundaryAt(q, k + 1, windowMs);
    }
    forall t | b < t < e ensures !Boundary(t, windowMs) {
      NoBoundaryBetween(q, k, windowMs, t);
    }
  }

  /** A grid window is determined by its start. */
  lemma GridWindowFromStart(w: Window, windowMs: int)
    requires windowMs > 0 && GridWindow(w, windowMs)
    ensures w.startMs >= 0 && w.endMs == NextBoundary(w.startMs, windowMs)
  {
    NextBoundaryLeast(w.startMs, windowMs);
    assert w.startMs >= 0;
    hide Boundary, NextBoundary;
    var e := NextBoundary(w.startMs, windowMs);
    assert !(w.startMs < e < w.endMs) && !(w.startMs < w.endMs < e);
  }

  /** No grid window crosses a UTC midnight, so one date partition holds all its events. */
  lemma WindowWithinDay(w: Window, windowMs: int, ts: int)
    requires windowMs > 0 && GridWindow(w, windowMs) && w.startMs <= ts < w.endMs
    ensures Day(ts) == Day(w.startMs)
  {
    GridWindowFromStart(w, windowMs);
    hide Boundary, GridWindow;
    var q := w.startMs / DAY_MS;
    ModAt(ts, DAY_MS, q, ts - q * DAY_MS);
  }

  /** The grid windows tile time: every non-negative instant lies in exactly one of them. */
  lemma GridTilesTime(ts: int, windowMs: int)
    requires windowMs > 0 && ts >= 0
    ensures var w := Window(AlignDown(ts, windowMs), NextBoundary(AlignDown(ts, windowMs), windowMs));
            && GridWindow(w, windowMs) && w.startMs <= ts < w.endMs
            && forall v :: GridWindow(v, windowMs) && v.startMs <= ts < v.endMs ==> v == w
  {
    AlignDownGreatest(ts, windowMs);
    AlignedBelowNext(ts, windowMs);
    hide Boundary, AlignDown, NextBoundary;
    var a := AlignDown(ts, windowMs);
    NextBoundaryLeast(a, windowMs);
    var w := Window(a, NextBoundary(a, windowMs));
    forall v | GridWindow(v, windowMs) && v.startMs <= ts < v.endMs ensures v == w {
      assert !(a < v.startMs <= ts) && !(v.startMs < a < v.endMs);
      GridWindowFromStart(v, windowMs);
    }
  }

  lemma AlignedBelowNext(ts: int, windowMs: int)
    requires windowMs > 0 && ts >= 0
    ensures 0 <= AlignDown(ts, windowMs) <= ts < NextBoundary(AlignDown(ts, windowMs), windowMs)
  {
    var q, k, rest := Decompose(ts, windowMs);
    BoundaryAt(q, k, windowMs);
  }

  ghost predicate Ascending(ws: seq<Window>) {
    forall i, j :: 0 <= i < j < |ws| ==> ws[i].endMs <= ws[j].startMs
  }

  /** ws is exactly the grid windows satisfying p, in time order. */
  ghost predicate Exactly(ws: seq<Window>, windowMs: int, p: Window -> bool)
    requires windowMs > 0
  {
    Ascending(ws) && forall w :: w in ws <==> GridWindow(w, windowMs) && p(w)
  }

  /** Distinct grid windows do not overlap. */
  lemma GridOrder(v: Window, w: Window, windowMs: int)
    requires windowMs > 0 && GridWindow(v, windowMs) && GridWindow(w, windowMs)
    ensures v == w || v.endMs <= w.startMs || w.endMs <= v.startMs
  {
    GridWindowFromStart(v, windowMs);
    GridWindowFromStart(w, windowMs);
  }

  /** The day end of a non-negative boundary is out of range exactly from the last day on. */
  lemma DayEndFits(b: int)
    requires 0 <= b
    ensures DayEnd(b) > I64_MAX <==> b >= LAST_DAY
    ensures b < LAST_DAY ==> DayEnd(b) <= LAST_DAY
  {
    var q, last := b / DAY_MS, LAST_DAY / DAY_MS;
    assert LAST_DAY == last * DAY_MS && LAST_DAY + DAY_MS > I64_MAX;
    assert b == q * DAY_MS + b % DAY_MS;
    if q < last {
      assert (q + 1) * DAY_MS <= last * DAY_MS;
    }
  }

  /** An input at which the loop overflows: any range that starts in the last day. */
  lemma LastDayOverflows()
    ensures I64_MIN <= LAST_DAY <= I64_MAX && Validate(LAST_DAY, LAST_DAY, 3_600_000) == None
    ensures AlignDown(LAST_DAY, 3_600_000) == LAST_DAY && DayEnd(LAST_DAY) > I64_MAX
  {
    ModAt(LAST_DAY, DAY_MS, 106_751_991_167, 0);
  }

  lemma AlignedInLastDay(ts: int, windowMs: int)
    requires ts >= 0 && windowMs > 0
    ensures AlignDown(ts, windowMs) >= LAST_DAY <==> ts >= LAST_DAY
  {
    var q, k, rest := Decompose(ts, windowMs);
    if ts >= LAST_DAY {
      DayEndFits(ts);
      DayEndFits(AlignDown(ts, windowMs));
      AlignDownGreatest(ts, windowMs);
    }
  }

  /** The step both loops share: the window that starts at a boundary is the next one of the grid. */
  lemma NextWindow(start: int, windowMs: int)
    requires windowMs > 0 && Boundary(start, windowMs)
    ensures var next := Window(start, NextBoundary(start, windowMs));
            && GridWindow(next, windowMs) && start >= 0
            && forall w :: GridWindow(w, windowMs) && w.endMs > start ==> w.endMs >= next.endMs && (w.endMs == next.endMs ==> w == next)
  {
    NextBoundaryLeast(start, windowMs);
    assert start >= 0;
    hide Boundary, NextBoundary;
    var next := Window(start, NextBoundary(start, windowMs));
    forall w | GridWindow(w, windowMs) && w.endMs > start ensures w.endMs >= next.endMs && (w.endMs == next.endMs ==> w == next) {
      GridOrder(w, next, windowMs);
      GridNonEmpty(w, windowMs);
    }
  }

  lemma GridNonEmpty(w: Window, windowMs: int)
    requires windowMs > 0 && GridWindow(w, windowMs)
    ensures w.startMs < w.endMs && Boundary(w.startMs, windowMs) && Boundary(w.endMs, windowMs)
  {
  }

  /**
   * The complete windows of a range: all grid windows with fromMs < end <= toMs,
   * in order. The loop overflows exactly when the range touches the last day.
   */
  method CompleteWindows(fromMs: I64, toMs: I64, windowMs: I64) returns (r: Result<seq<Window>, WindowError>)
    ensures r.Err? <==> windowMs <= 0 || fromMs < 0 || toMs < 0 || fromMs >= LAST_DAY || toMs >= LAST_DAY
    ensures r.Err? ==>
              r.error == if windowMs <= 0 then NonPositiveWindow(windowMs) else if fromMs < 0 || toMs < 0 then NegativeRange(fromMs, toMs) else DayEndOverflow
    ensures r.Ok? ==> windowMs > 0 && Exactly(r.value, windowMs, (w: Window) => fromMs < w.endMs <= toMs)
  {
    var invalid := Validate(fromMs, toMs, windowMs);
    if invalid.Some? {
      return Err(invalid.value);
    }
    hide Boundary, GridWindow, NextBoundary, AlignDown, DayEnd;
    var out: seq<Window> := [];
    var start := AlignDown(fromMs, windowMs);
    AlignDownGreatest(fromMs, windowMs);
    AlignedBelowNext(fromMs, windowMs);
    AlignedInLastDay(fromMs, windowMs);
    GridTilesTime(fromMs, windowMs);
    NothingEndsBetween(fromMs, windowMs);
    while true
      invariant Boundary(start, windowMs) && start >= 0
      invariant start > fromMs ==> start <= toMs
      invariant start <= fromMs ==> start == AlignDown(fromMs, windowMs)
      invariant Ascending(out) && forall w :: w in out ==> w.endMs <= start
      invariant forall w :: w in out <==> GridWindow(w, windowMs) && fromMs < w.endMs <= start && w.endMs <= toMs
      decreases toMs - start
    {
      DayEndFits(start);
      if DayEnd(start) > I64_MAX {
        return Err(DayEndOverflow);
      }
      NextWindow(start, windowMs);
      NextBoundaryLeast(start, windowMs);
      var end := NextBoundary(start, windowMs);
      GridNonEmpty(Window(start, end), windowMs);
      if end > toMs {
        break;
      }
      out := out + [Window(start, end)];
      start := end;
    }
    return Ok(out);
  }

  /** No grid window ends after ts but at or before the boundary below it. */
  lemma NothingEndsBetween(ts: int, windowMs: int)
    requires ts >= 0 && windowMs > 0
    ensures forall w :: GridWindow(w, windowMs) ==> !(ts < w.endMs <= AlignDown(ts, windowMs))
  {
    AlignedBelowNext(ts, windowMs);
  }

  /**
   * The windows the retention gate needs: all grid windows with end > fromMs and
   * start < untilMs, in order. The loop overflows exactly when it has to step
   * through the last day.
   */
  method CoveringWindows(fromMs: I64, untilMs: I64, windowMs: I64) returns (r: Result<seq<Window>, WindowError>)
    ensures r.Err? <==> windowMs <= 0 || fromMs < 0 || untilMs < 0 || (untilMs > LAST_DAY && AlignDown(fromMs, windowMs) < untilMs)
    ensures r.Err? ==>
              r.error == if windowMs <= 0 then NonPositiveWindow(windowMs) else if fromMs < 0 || untilMs < 0 then NegativeRange(fromMs, untilMs) else DayEndOverflow
    ensures r.Ok? ==> windowMs > 0 && Exactly(r.value, windowMs, (w: Window) => w.endMs > fromMs && w.startMs < untilMs)
  {
    var invalid := Validate(fromMs, untilMs, windowMs);
    if invalid.Some? {
      return Err(invalid.value);
    }
    hide Boundary, GridWindow, NextBoundary, AlignDown, DayEnd;
    var out: seq<Window> := [];
    var start := AlignDown(fromMs, windowMs);
    AlignDownGreatest(fromMs, windowMs);
    AlignedBelowNext(fromMs, windowMs);
    NothingEndsBetween(fromMs, windowMs);
    while start < untilMs
      invariant Boundary(start, windowMs) && start >= 0
      invariant start <= fromMs ==> start == AlignDown(fromMs, windowMs)
      invariant start == AlignDown(fromMs, windowMs) || (start <= LAST_DAY && AlignDown(fromMs, windowMs) < untilMs)
      invariant Ascending(out) && forall w :: w in out ==> w.endMs <= start
      invariant forall w :: w in out <==> GridWindow(w, windowMs) && fromMs < w.endMs <= start && w.startMs < untilMs
      decreases untilMs - start
    {
      DayEndFits(start);
      if DayEnd(start) > I64_MAX {
        return Err(DayEndOverflow);
      }
      NextWindow(start, windowMs);
      NextBoundaryLeast(start, windowMs);
      var end := NextBoundary(start, windowMs);
      GridNonEmpty(Window(start, end), windowMs);
      out := out + [Window(start, end)];
      start := end;
    }
    NextWindow(start, windowMs);
    var next := Window(start, NextBoundary(start, windowMs));
    forall w | GridWindow(w, windowMs) && w.endMs > fromMs && w.startMs < untilMs ensures w.endMs <= start {
      GridOrder(w, next, windowMs);
      GridNonEmpty(w, windowMs);
    }
    return Ok(out);
  }
}
