/**
  The integer arithmetic of `tui_progress_draw`: how many bar cells are
  filled, whether an ETA is shown, and how the ETA is split into hours,
  minutes and seconds.

  The floating-point percentage, speed and ETA are not modelled: the draw
  takes the already truncated cell count `(int)(pct * 74)` and the already
  truncated ETA in seconds as inputs. What does not depend on rounding is
  derived from the state: a non-positive total gives an exact 0% and so no
  filled cell, and the speed is positive exactly when the clock has advanced
  past the start and some bytes have arrived.
 */
module Render {
  import opened Progress

  datatype Option<T> = None | Some(value: T)

  /** Width of the bar including its two brackets. */
  const BarWidth: nat := 76

  /** Cells between the brackets. */
  const BarCells: nat := BarWidth - 2

  datatype Cell = Filled | Blank

  /** `n` clamped into `[0, hi]`. */
  function Clamp(n: int, hi: nat): (r: nat)
    ensures r <= hi
    ensures 0 <= n <= hi ==> r == n
    ensures n < 0 ==> r == 0
    ensures n > hi ==> r == hi
  {
    if n < 0 then 0 else if n > hi then hi else n
  }

  /** How many cells of `cells` are filled. */
  function CountFilled(cells: seq<Cell>): (n: nat)
    ensures n <= |cells|
    decreases |cells|
  {
    if |cells| == 0 then 0
    else CountFilled(cells[..|cells| - 1]) + (if cells[|cells| - 1] == Filled then 1 else 0)
  }

  /** The first `n` cells of a bar whose cells before position `filled` are filled. */
  function Cells(n: nat, filled: int): (cells: seq<Cell>)
    ensures |cells| == n
  {
    seq(n, i => if i < filled then Filled else Blank)
  }

  /** A row of `n` cells filled up to position `filled` has `filled` clamped
      into `[0, n]` filled cells. */
  lemma {:induction false} CellsCount(n: nat, filled: int)
    ensures CountFilled(Cells(n, filled)) == Clamp(filled, n)
    decreases n
  {
    if n > 0 {
      var cells := Cells(n, filled);
      assert cells[..n - 1] == Cells(n - 1, filled);
      CellsCount(n - 1, filled);
    }
  }

  /** The bar between the brackets, given the number of cells to fill. */
  function Bar(filled: int): (cells: seq<Cell>)
    // always exactly 74 cells are written
    ensures |cells| == BarCells
    // the filled cells are `filled` clamped into [0, 74] ...
    ensures CountFilled(cells) == Clamp(filled, BarCells)
    // ... and they come first, with no gap
    ensures forall i, j :: 0 <= i <= j < |cells| && cells[j] == Filled ==> cells[i] == Filled
  {
    CellsCount(BarCells, filled);
    Cells(BarCells, filled)
  }

  /** C's `/` on a positive divisor: the quotient truncated toward zero
      (section 6.5.5 of ISO/IEC 9899:2011). */
  function TruncDiv(a: int, b: int): (q: int)
    requires b > 0
    // the quotient has the dividend's sign and never overshoots it in magnitude
    ensures a >= 0 ==> 0 <= q && q * b <= a < q * b + b
    ensures a < 0 ==> q <= 0 && q * b - b < a <= q * b
  {
    if a >= 0 then
      DivBounds(a, b);
      a / b
    else
      DivBounds(-a, b);
      assert -((-a) / b) * b == -(((-a) / b) * b);
      -((-a) / b)
  }

  /** Euclidean division of a natural number brackets it between consecutive multiples. */
  lemma DivBounds(n: nat, b: int)
    requires b > 0
    ensures 0 <= n / b && (n / b) * b <= n < (n / b) * b + b
  {
  }

  /** C's `%` on a positive divisor: the remainder takes the dividend's sign
      (section 6.5.5 of ISO/IEC 9899:2011). */
  function TruncRem(a: int, b: int): (r: int)
    requires b > 0
    // `(a / b) * b + a % b == a`
    ensures TruncDiv(a, b) * b + r == a
    ensures a >= 0 ==> 0 <= r < b
    ensures a < 0 ==> -b < r <= 0
  {
    if a >= 0 then a % b else -((-a) % b)
  }

  datatype Hms = Hms(h: int, m: int, s: int)

  /** The ETA in whole seconds split as `h = eta / 3600`, `m = (eta % 3600) / 60`,
      `s = eta % 60` with C's truncating operators. */
  function SplitEta(eta: int): (t: Hms)
    // the parts add back up to the ETA
    ensures t.h * 3600 + t.m * 60 + t.s == eta
    // minutes and seconds stay below 60 in magnitude
    ensures -60 < t.m < 60 && -60 < t.s < 60
    // a non-negative ETA splits into non-negative parts, a non-positive one into non-positive parts
    ensures eta >= 0 ==> t.h >= 0 && t.m >= 0 && t.s >= 0
    ensures eta <= 0 ==> t.h <= 0 && t.m <= 0 && t.s <= 0
  {
    var magnitude: nat := if eta >= 0 then eta else -eta;
    NaturalSplit(magnitude);
    Hms(TruncDiv(eta, 3600), TruncDiv(TruncRem(eta, 3600), 60), TruncRem(eta, 60))
  }

  /** Euclidean hours, minutes and seconds of a non-negative count of seconds add back up. */
  lemma NaturalSplit(e: nat)
    ensures (e / 3600) * 3600 + ((e % 3600) / 60) * 60 + e % 60 == e
    ensures 0 <= (e % 3600) / 60 < 60
  {
  }

  /** For a non-negative ETA the split is the only one with minutes and
      seconds in `[0, 60)`. */
  lemma SplitEtaUnique(eta: int, h: int, m: int, s: int)
    requires eta >= 0
    requires h * 3600 + m * 60 + s == eta
    requires 0 <= m < 60 && 0 <= s < 60
    ensures SplitEta(eta) == Hms(h, m, s)
  {
  }

  /** The transfer speed in bytes per second, `current / elapsed`, or 0 when
      no time has elapsed; as an exact quotient. */
  function Speed(st: State, now: int): real {
    var elapsed := now - st.startTime;
    if elapsed > 0 then st.current as real / elapsed as real else 0.0
  }

  /** Whether the draw shows an ETA: the speed is positive and the total is
      known. With whole-second clock readings that is exactly when time has
      passed since the start and some bytes have arrived. */
  function ShowsEta(st: State, now: int): (shown: bool)
    ensures shown <==> Speed(st, now) > 0.0 && st.total > 0
  {
    SpeedSign(st, now);
    now > st.startTime && st.current > 0 && st.total > 0
  }

  /** The speed is positive exactly when time has elapsed and some bytes have arrived. */
  lemma SpeedSign(st: State, now: int)
    ensures Speed(st, now) > 0.0 <==> now > st.startTime && st.current > 0
  {
  }

  /** What one draw puts on screen, as far as the model follows it. */
  datatype Frame = Frame(cells: seq<Cell>, eta: Option<Hms>)

  /** `tui_progress_draw` at clock reading `now`. `ratioCells` is the truncated
      `pct * 74` and `eta` the truncated ETA in seconds, both as the
      floating-point computation yields them; each is consulted only where
      the source computes it. */
  function Draw(st: State, now: int, ratioCells: int, eta: int): (f: Option<Frame>)
    // nothing is drawn before a window exists
    ensures f.Some? <==> st.windowOpen
    ensures f.Some? ==> |f.value.cells| == BarCells
    // a zero (or unknown) total is 0%: no cell is filled
    ensures f.Some? && st.total <= 0 ==> CountFilled(f.value.cells) == 0
    ensures f.Some? && st.total > 0 ==> CountFilled(f.value.cells) == Clamp(ratioCells, BarCells)
    // the ETA appears only with a positive speed and a known total, and then adds up to `eta`
    ensures f.Some? ==> (f.value.eta.Some? <==> ShowsEta(st, now))
    // the filled cells come first
    ensures f.Some? ==> forall i, j :: 0 <= i <= j < |f.value.cells| && f.value.cells[j] == Filled ==> f.value.cells[i] == Filled
    // what is shown is the hours/minutes/seconds split of `eta`
    ensures f.Some? && f.value.eta.Some? ==> f.value.eta.value == SplitEta(eta)
  {
    if !st.windowOpen then None
    else
      var filled := if st.total > 0 then ratioCells else 0;
      Some(Frame(Bar(filled), if ShowsEta(st, now) then Some(SplitEta(eta)) else None))
  }
}
