/**
 * Fixed-window rate limiting, process-wide and per principal. The clock is a parameter of each attempt; the
 * source reads it before taking the lock, so attempts may be counted out of the order of their readings.
 */
module RateLimit {
  import opened Basics

  datatype Limits = Limits(max: nat, window: nat)

  datatype Window = Window(start: nat, count: nat)

  function SaturatingSub(a: nat, b: nat): nat {
    if a < b then 0 else a - b
  }

  /** The window after rolling over if its time is up. */
  function Rolled(lim: Limits, w: Window, now: nat): Window {
    if SaturatingSub(now, w.start) >= lim.window then Window(now, 0) else w
  }

  function Admits(lim: Limits, w: Window, now: nat): bool {
    Rolled(lim, w, now).count < lim.max
  }

  function Attempted(lim: Limits, w: Window, now: nat): Window {
    var r := Rolled(lim, w, now);
    if Admits(lim, w, now) then r.(count := r.count + 1) else r
  }

  // -------------------------------------------------------------------------
  // Runs of one limiter
  // -------------------------------------------------------------------------

  /** The window a limiter stands at; None is a principal not seen yet, whose window opens when first seen. */
  function Standing(w: Option<Window>, now: nat): Window {
    w.GetOr(Window(now, 0))
  }

  function After(lim: Limits, init: Option<Window>, times: seq<nat>): Option<Window> {
    if times == [] then init
    else
      var now := times[|times| - 1];
      Some(Attempted(lim, Standing(After(lim, init, times[..|times| - 1]), now), now))
  }

  /** Whether the last attempt of a non-empty run was let through. */
  function LastAdmitted(lim: Limits, init: Option<Window>, times: seq<nat>): bool
    requires times != []
  {
    var now := times[|times| - 1];
    Admits(lim, Standing(After(lim, init, times[..|times| - 1]), now), now)
  }

  /** Whether a reading lies in the interval one window long that starts at `from`. */
  predicate Inside(lim: Limits, from: nat, now: nat) {
    from <= now < from + lim.window
  }

  /** Attempts let through at readings inside that interval. */
  function AdmittedIn(lim: Limits, init: Option<Window>, times: seq<nat>, from: nat): nat {
    if times == [] then 0
    else
      var now := times[|times| - 1];
      AdmittedIn(lim, init, times[..|times| - 1], from)
      + if Inside(lim, from, now) && LastAdmitted(lim, init, times) then 1 else 0
  }

  /**
   * No reading is more than `d` behind an earlier-counted one. The clock itself never goes back, but a caller that
   * has read it may wait for the lock while later readings are counted.
   */
  ghost predicate Lagging(times: seq<nat>, d: nat) {
    forall i, j :: 0 <= i < j < |times| ==> times[i] <= times[j] + d
  }

  /** The limiter as constructed, or a principal's entry before its first attempt. */
  ghost predicate FreshLimiter(init: Option<Window>) {
    init.None? || init == Some(Window(0, 0))
  }

  /** The lags a limiter can bear: one second always, any lag under a cap of one, and a window more under two. */
  predicate Bears(lim: Limits, init: Option<Window>, d: nat) {
    || d <= 1
    || lim.max <= 1
    || (lim.max == 2 && d <= lim.window + 1 && (init.None? || lim.window == 1))
  }

  /** What the attempts let through in [from, from + window) come to, by where the standing window starts. */
  ghost predicate WithinLagOne(lim: Limits, w: Window, admitted: nat, from: nat) {
    && w.count <= lim.max && admitted <= 2 * lim.max
    && (w.start + lim.window <= from ==> admitted == 0)
    && (w.start <= from ==> admitted <= w.count)
    && (w.start <= from + lim.window ==> admitted <= lim.max + w.count)
  }

  ghost predicate WithinCapOne(lim: Limits, w: Window, admitted: nat, from: nat) {
    && w.count <= lim.max && admitted <= 2 * lim.max
    && (w.start > 0 ==> w.count == lim.max)
    && (w.start == 0 ==> admitted <= w.count)
    && (w.start < from ==> admitted <= lim.max)
  }

  ghost predicate WithinCapTwo(lim: Limits, w: Window, admitted: nat, from: nat) {
    && 1 <= w.count <= 2 && admitted <= 4
    && (w.start + lim.window <= from ==> admitted == 0)
    && (w.start < from ==> admitted <= w.count - 1)
    && (w.start <= from ==> admitted <= w.count)
    && (w.start <= from + lim.window ==> admitted <= w.count + 1)
    && (w.start <= from + 2 * lim.window ==> admitted <= w.count + 2)
  }

  ghost predicate Bounded(lim: Limits, d: nat, w: Window, admitted: nat, from: nat) {
    if d <= 1 then WithinLagOne(lim, w, admitted, from)
    else if lim.max <= 1 then WithinCapOne(lim, w, admitted, from)
    else WithinCapTwo(lim, w, admitted, from)
  }

  function More(lim: Limits, w: Window, now: nat, from: nat): nat {
    if Inside(lim, from, now) && Admits(lim, w, now) then 1 else 0
  }

  lemma AttemptKeepsBound(lim: Limits, init: Option<Window>, d: nat, w: Window, admitted: nat, from: nat, now: nat)
    requires lim.window > 0 && Bears(lim, init, d)
    requires Bounded(lim, d, w, admitted, from) && w.start <= now + d
    ensures Bounded(lim, d, Attempted(lim, w, now), admitted + More(lim, w, now, from), from)
  {
  }

  lemma FirstAttemptIsBounded(lim: Limits, init: Option<Window>, d: nat, now: nat, from: nat)
    requires lim.window > 0 && FreshLimiter(init) && Bears(lim, init, d)
    ensures var w := Standing(init, now);
            Bounded(lim, d, Attempted(lim, w, now), More(lim, w, now, from), from)
  {
  }

  /** A window starts at a reading already counted, unless it is the first one. */
  lemma {:induction false} StartIsAReading(lim: Limits, init: Option<Window>, times: seq<nat>)
    requires FreshLimiter(init) && times != []
    ensures After(lim, init, times).Some?
    ensures var start := After(lim, init, times).value.start; start in times || start == 0
  {
    if |times| > 1 {
      StartIsAReading(lim, init, times[..|times| - 1]);
    }
  }

  lemma LaggingBehind(times: seq<nat>, d: nat, start: nat)
    requires Lagging(times, d) && times != [] && (start in times[..|times| - 1] || start == 0)
    ensures start <= times[|times| - 1] + d
  {
  }

  lemma {:induction false} RunIsBounded(lim: Limits, init: Option<Window>, d: nat, times: seq<nat>, from: nat)
    requires lim.window > 0 && FreshLimiter(init) && Bears(lim, init, d) && Lagging(times, d) && times != []
    ensures After(lim, init, times).Some?
    ensures Bounded(lim, d, After(lim, init, times).value, AdmittedIn(lim, init, times, from), from)
  {
    var n := |times| - 1;
    if n == 0 {
      assert times[..n] == [];
      FirstAttemptIsBounded(lim, init, d, times[0], from);
    } else {
      RunIsBounded(lim, init, d, times[..n], from);
      StartIsAReading(lim, init, times[..n]);
      LaggingBehind(times, d, After(lim, init, times[..n]).value.start);
      AttemptKeepsBound(lim, init, d, After(lim, init, times[..n]).value,
                        AdmittedIn(lim, init, times[..n], from), from, times[n]);
    }
  }

  /** Within the lag it bears, a limiter lets through at most twice its cap in any interval one window long. */
  lemma AtMostTwiceTheCap(lim: Limits, init: Option<Window>, d: nat, times: seq<nat>, from: nat)
    requires lim.window > 0 && FreshLimiter(init) && Bears(lim, init, d) && Lagging(times, d)
    ensures AdmittedIn(lim, init, times, from) <= 2 * lim.max
  {
    if times != [] {
      RunIsBounded(lim, init, d, times, from);
    }
  }

  lemma OneMore(lim: Limits, init: Option<Window>, times: seq<nat>, now: nat, from: nat)
    ensures var w := Standing(After(lim, init, times), now);
            && LastAdmitted(lim, init, times + [now]) == Admits(lim, w, now)
            && After(lim, init, times + [now]) == Some(Attempted(lim, w, now))
            && AdmittedIn(lim, init, times + [now], from)
            == AdmittedIn(lim, init, times, from) + if Inside(lim, from, now) && Admits(lim, w, now) then 1 else 0
  {
    assert (times + [now])[..|times|] == times;
  }

  lemma Counted(lim: Limits, times: seq<nat>, now: nat, from: nat, w: Option<Window>, admitted: nat)
    returns (longer: seq<nat>)
    requires After(lim, None, times) == w && AdmittedIn(lim, None, times, from) == admitted
    ensures longer == times + [now]
    ensures After(lim, None, longer) == Some(Attempted(lim, Standing(w, now), now))
    ensures AdmittedIn(lim, None, longer, from) == admitted + More(lim, Standing(w, now), now, from)
  {
    longer := times + [now];
    OneMore(lim, None, times, now, from);
  }

  lemma FirstWindowCounted() returns (times: seq<nat>)
    ensures times == [1, 10, 10, 11, 12]
    ensures After(Limits(3, 10), None, times) == Some(Window(11, 2)) && AdmittedIn(Limits(3, 10), None, times, 10) == 4
  {
    var lim := Limits(3, 10);
    times := Counted(lim, [], 1, 10, None, 0);
    times := Counted(lim, times, 10, 10, Some(Window(1, 1)), 0);
    times := Counted(lim, times, 10, 10, Some(Window(1, 2)), 1);
    times := Counted(lim, times, 11, 10, Some(Window(1, 3)), 2);
    times := Counted(lim, times, 12, 10, Some(Window(11, 1)), 3);
  }

  lemma LateReadingsCounted() returns (times: seq<nat>)
    ensures times == [1, 10, 10, 11, 12, 13, 21, 19, 19]
    ensures AdmittedIn(Limits(3, 10), None, times, 10) == 7
  {
    var lim := Limits(3, 10);
    times := FirstWindowCounted();
    times := Counted(lim, times, 13, 10, Some(Window(11, 2)), 4);
    times := Counted(lim, times, 21, 10, Some(Window(11, 3)), 5);
    times := Counted(lim, times, 19, 10, Some(Window(21, 1)), 5);
    times := Counted(lim, times, 19, 10, Some(Window(21, 2)), 6);
  }

  /** Two seconds behind is too late for the source's own cap on proposals: seven attempts where six is the bound. */
  lemma LateReadingsBreakTheBound()
    ensures var times := [1, 10, 10, 11, 12, 13, 21, 19, 19];
            Lagging(times, 2) && AdmittedIn(Limits(3, 10), None, times, 10) == 7
  {
    var times := LateReadingsCounted();
  }

  function Repeat(now: nat, n: nat): seq<nat> {
    if n == 0 then [] else Repeat(now, n - 1) + [now]
  }

  /** The window after `n` attempts let through at one moment. */
  function Burst(lim: Limits, w: Window, now: nat, n: nat): Window {
    if n == 0 then w else Window(Rolled(lim, w, now).start, Rolled(lim, w, now).count + n)
  }

  lemma BurstStep(lim: Limits, w: Window, now: nat, n: nat)
    requires lim.window > 0 && n > 0 && Rolled(lim, w, now).count + n <= lim.max
    ensures Admits(lim, Burst(lim, w, now, n - 1), now)
    ensures Attempted(lim, Burst(lim, w, now, n - 1), now) == Burst(lim, w, now, n)
  {
  }

  /** A burst that fits the window it starts in is let through whole. */
  lemma {:induction false} BurstPasses(lim: Limits, init: Option<Window>, times: seq<nat>, now: nat, n: nat, w: Window,
                                       from: nat)
    requires After(lim, init, times) == Some(w)
    requires Inside(lim, from, now) && lim.window > 0
    requires n > 0 ==> Rolled(lim, w, now).count + n <= lim.max
    ensures AdmittedIn(lim, init, times + Repeat(now, n), from) == AdmittedIn(lim, init, times, from) + n
    ensures After(lim, init, times + Repeat(now, n)) == Some(Burst(lim, w, now, n))
  {
    if n == 0 {
      assert times + Repeat(now, n) == times;
    } else {
      BurstPasses(lim, init, times, now, n - 1, w, from);
      OneMore(lim, init, times + Repeat(now, n - 1), now, from);
      BurstStep(lim, w, now, n);
      assert times + Repeat(now, n) == times + Repeat(now, n - 1) + [now];
    }
  }

  lemma {:induction false} RepeatIs(now: nat, n: nat)
    ensures |Repeat(now, n)| == n && forall i :: 0 <= i < n ==> Repeat(now, n)[i] == now
  {
    if n > 0 {
      RepeatIs(now, n - 1);
    }
  }

  lemma BurstsAreOrdered(a: nat, b: nat, n: nat)
    requires a <= b
    ensures Lagging(Repeat(a, n) + Repeat(b, n), 0)
  {
    RepeatIs(a, n);
    RepeatIs(b, n);
  }

  lemma BurstFromNothing(lim: Limits, init: Option<Window>, now: nat, n: nat, w: Window, from: nat)
    returns (times: seq<nat>)
    requires init == Some(w) && Inside(lim, from, now) && lim.window > 0
    requires n > 0 ==> Rolled(lim, w, now).count + n <= lim.max
    ensures times == Repeat(now, n)
    ensures AdmittedIn(lim, init, times, from) == n && After(lim, init, times) == Some(Burst(lim, w, now, n))
  {
    times := [] + Repeat(now, n);
    BurstPasses(lim, init, [], now, n, w, from);
  }

  lemma FirstBurst(lim: Limits, from: nat)
    requires lim.window == from + 1
    ensures AdmittedIn(lim, Some(Window(0, 0)), Repeat(from, lim.max), from) == lim.max
    ensures After(lim, Some(Window(0, 0)), Repeat(from, lim.max)) == Some(Window(0, lim.max))
  {
    var times := BurstFromNothing(lim, Some(Window(0, 0)), from, lim.max, Window(0, 0), from);
  }

  /** The bound is attained: a burst at the end of one window and a burst at the start of the next. */
  lemma TwiceTheCapIsReached(lim: Limits)
    requires lim.window > 1
    ensures var times := Repeat(lim.window - 1, lim.max) + Repeat(lim.window, lim.max);
            Lagging(times, 0)
            && AdmittedIn(lim, Some(Window(0, 0)), times, lim.window - 1) == 2 * lim.max
  {
    var from := lim.window - 1;
    BurstsAreOrdered(from, lim.window, lim.max);
    FirstBurst(lim, from);
    BurstPasses(lim, Some(Window(0, 0)), Repeat(from, lim.max), lim.window, lim.max, Window(0, lim.max), from);
  }

  lemma WindowOpens(lim: Limits, init: Option<Window>, times: seq<nat>, start: nat, from: nat)
    requires FreshLimiter(init) && lim.max > 0 && 0 < lim.window <= start
    requires times != [] ==> After(lim, init, times).value.start + lim.window <= start
    ensures After(lim, init, times + [start]) == Some(Window(start, 1))
    ensures AdmittedIn(lim, init, times + [start], from)
         == AdmittedIn(lim, init, times, from) + if Inside(lim, from, start) then 1 else 0
  {
    OneMore(lim, init, times, start, from);
  }

  /** A window opened at `start` and filled with readings from inside the interval, some from before it opened. */
  function Filled(lim: Limits, times: seq<nat>, start: nat, reading: nat): seq<nat>
    requires lim.max > 0
  {
    times + [start] + Repeat(reading, lim.max - 1)
  }

  lemma FilledCounts(lim: Limits, init: Option<Window>, times: seq<nat>, start: nat, reading: nat, from: nat)
    requires FreshLimiter(init) && lim.max > 0 && 0 < lim.window <= start
    requires times != [] ==> After(lim, init, times).value.start + lim.window <= start
    requires Inside(lim, from, reading) && reading < start + lim.window
    ensures After(lim, init, Filled(lim, times, start, reading)) == Some(Window(start, lim.max))
    ensures AdmittedIn(lim, init, Filled(lim, times, start, reading), from)
         == AdmittedIn(lim, init, times, from) + lim.max - 1 + if Inside(lim, from, start) then 1 else 0
  {
    WindowOpens(lim, init, times, start, from);
    BurstPasses(lim, init, times + [start], reading, lim.max - 1, Window(start, 1), from);
  }

  lemma FilledLags(lim: Limits, times: seq<nat>, start: nat, reading: nat, d: nat)
    requires lim.max > 0 && Lagging(times, d) && start <= reading + d
    requires forall t :: t in times ==> t <= start + d && t <= reading + d
    ensures Lagging(Filled(lim, times, start, reading), d) && Filled(lim, times, start, reading) != []
    ensures forall t :: t in Filled(lim, times, start, reading) ==> t in times || t == start || t == reading
  {
    RepeatIs(reading, lim.max - 1);
    assert forall i :: 0 <= i < |times| ==> times[i] in times;
  }

  lemma Fill(lim: Limits, init: Option<Window>, times: seq<nat>, start: nat, reading: nat, from: nat, d: nat)
    returns (filled: seq<nat>)
    requires FreshLimiter(init) && lim.max > 0 && 0 < lim.window <= start
    requires times != [] ==> After(lim, init, times).value.start + lim.window <= start
    requires Inside(lim, from, reading) && reading < start + lim.window && start <= reading + d
    requires Lagging(times, d) && forall t :: t in times ==> t <= start + d && t <= reading + d
    ensures Lagging(filled, d) && (forall t :: t in filled ==> t in times || t == start || t == reading)
    ensures filled != [] && After(lim, init, filled) == Some(Window(start, lim.max))
    ensures AdmittedIn(lim, init, filled, from)
         == AdmittedIn(lim, init, times, from) + lim.max - 1 + if Inside(lim, from, start) then 1 else 0
  {
    FilledCounts(lim, init, times, start, reading, from);
    FilledLags(lim, times, start, reading, d);
    filled := Filled(lim, times, start, reading);
  }

  /** Three windows seen from one interval, when readings two behind are counted. */
  lemma ThreeWindowsInOne(lim: Limits, init: Option<Window>, d: nat) returns (times: seq<nat>)
    requires FreshLimiter(init) && lim.max > 0 && lim.window > 0 && d >= 2
    ensures Lagging(times, d) && (forall t :: t in times ==> t <= 3 * lim.window) && times != []
    ensures After(lim, init, times) == Some(Window(3 * lim.window, lim.max))
    ensures AdmittedIn(lim, init, times, 2 * lim.window - 1) == 3 * lim.max - 2
  {
    var n, from := lim.window, 2 * lim.window - 1;
    times := Fill(lim, init, [], n, from, from, d);
    times := Fill(lim, init, times, 2 * n, from, from, d);
    times := Fill(lim, init, times, 3 * n, 3 * n - 2, from, d);
  }

  /** Under a cap of two a fourth window is needed, and readings a whole window and two seconds behind. */
  lemma FourWindowsInOne(lim: Limits, init: Option<Window>, d: nat) returns (times: seq<nat>)
    requires FreshLimiter(init) && lim.max == 2 && lim.window > 0 && d >= lim.window + 2
    ensures Lagging(times, d) && AdmittedIn(lim, init, times, 2 * lim.window - 1) == 5
  {
    var n := lim.window;
    times := ThreeWindowsInOne(lim, init, d);
    times := Fill(lim, init, times, 4 * n, 3 * n - 2, 2 * n - 1, d);
  }

  /** The process-wide window is open before anyone came, which makes up for an opening attempt. */
  lemma ThreeWindowsFromTheStart(lim: Limits, d: nat) returns (times: seq<nat>)
    requires lim.max == 2 && lim.window > 1 && d >= 2
    ensures Lagging(times, d) && AdmittedIn(lim, Some(Window(0, 0)), times, lim.window - 1) == 5
  {
    var n, init := lim.window, Some(Window(0, 0));
    RepeatIs(n - 1, 2);
    FirstBurst(lim, n - 1);
    times := Fill(lim, init, Repeat(n - 1, 2), n, n, n - 1, d);
    times := Fill(lim, init, times, 2 * n, 2 * n - 2, n - 1, d);
  }

  /** No run with readings at most `d` behind exceeds twice the cap in any interval one window long. */
  ghost predicate StaysWithinTwice(lim: Limits, init: Option<Window>, d: nat) {
    forall times: seq<nat>, from: nat :: Lagging(times, d) ==>
      AdmittedIn(lim, init, times, from) <= 2 * lim.max
  }

  /** The bound over all runs, and exactly how far behind a counted reading may be for it. */
  lemma BoundHoldsExactlyWhenBorne(lim: Limits, init: Option<Window>, d: nat)
    requires lim.window > 0 && FreshLimiter(init)
    ensures StaysWithinTwice(lim, init, d) <==> Bears(lim, init, d)
  {
    var n := lim.window;
    if Bears(lim, init, d) {
      forall times: seq<nat>, from: nat | Lagging(times, d)
        ensures AdmittedIn(lim, init, times, from) <= 2 * lim.max
      {
        AtMostTwiceTheCap(lim, init, d, times, from);
      }
    } else if lim.max > 2 {
      var times := ThreeWindowsInOne(lim, init, d);
      assert AdmittedIn(lim, init, times, 2 * n - 1) > 2 * lim.max;
    } else if d >= n + 2 {
      var times := FourWindowsInOne(lim, init, d);
      assert AdmittedIn(lim, init, times, 2 * n - 1) > 2 * lim.max;
    } else {
      var times := ThreeWindowsFromTheStart(lim, d);
      assert AdmittedIn(lim, init, times, n - 1) > 2 * lim.max;
    }
  }

  /** For a cap of three or more, the proposal cap of three and the login cap of 600 among them: one second. */
  lemma OneSecondIsTheLimit(lim: Limits, init: Option<Window>, d: nat)
    requires lim.window > 0 && lim.max >= 3 && FreshLimiter(init)
    ensures StaysWithinTwice(lim, init, d) <==> d <= 1
  {
    BoundHoldsExactlyWhenBorne(lim, init, d);
  }

  // -------------------------------------------------------------------------
  // Limiters that never refuse
  // -------------------------------------------------------------------------

  /** No attempt of any run is refused, whatever the readings. */
  ghost predicate NeverRefuses(lim: Limits, init: Option<Window>) {
    forall times: seq<nat> :: times != [] ==> LastAdmitted(lim, init, times)
  }

  /** One attempt too many in a filled window. */
  lemma OneTooMany(lim: Limits, init: Option<Window>) returns (times: seq<nat>)
    requires lim.window > 0 && lim.max > 0 && FreshLimiter(init)
    ensures times != [] && !LastAdmitted(lim, init, times)
  {
    var n := lim.window;
    var filled := Fill(lim, init, [], n, n, n, 0);
    OneMore(lim, init, filled, n, n);
    times := filled + [n];
  }

  /** A limiter refuses nobody exactly when its cap is positive and its window has no length. */
  lemma ZeroWindowNeverLimits(lim: Limits, init: Option<Window>)
    requires FreshLimiter(init)
    ensures NeverRefuses(lim, init) <==> lim.window == 0 && lim.max > 0
  {
    if lim.max == 0 {
      assert !LastAdmitted(lim, init, [0]);
    } else if lim.window > 0 {
      var times := OneTooMany(lim, init);
    }
  }

  // -------------------------------------------------------------------------
  // Who is refused
  // -------------------------------------------------------------------------

  /**
   * Attempt `i` is number `ranks[i]`, from zero, of the window opened at `starts[i]`: the standing window, or a new one
   * when the reading is a window's length past its start.
   */
  ghost predicate Falls(lim: Limits, init: Option<Window>, times: seq<nat>, starts: seq<nat>, ranks: seq<nat>, i: nat)
    requires i < |times| == |starts| == |ranks|
  {
    var start := if i > 0 then starts[i - 1] else if init.None? then times[0] else 0;
    var rank := if i > 0 then ranks[i - 1] + 1 else 0;
    if lim.window == 0 || times[i] >= start + lim.window then starts[i] == times[i] && ranks[i] == 0
    else starts[i] == start && ranks[i] == rank
  }

  ghost predicate AllFall(lim: Limits, init: Option<Window>, times: seq<nat>, starts: seq<nat>, ranks: seq<nat>) {
    |times| == |starts| == |ranks| && forall i :: 0 <= i < |times| ==> Falls(lim, init, times, starts, ranks, i)
  }

  /** What a limiter remembers of a window in which so many have asked. */
  ghost predicate Remembers(lim: Limits, w: Option<Window>, start: nat, rank: nat) {
    w == Some(Window(start, if rank < lim.max then rank + 1 else lim.max))
  }

  lemma NextFalls(lim: Limits, init: Option<Window>, times: seq<nat>, now: nat, starts: seq<nat>, ranks: seq<nat>)
    returns (start: nat, rank: nat)
    requires FreshLimiter(init) && AllFall(lim, init, times, starts, ranks)
    requires times == [] || Remembers(lim, After(lim, init, times), starts[|times| - 1], ranks[|times| - 1])
    ensures Falls(lim, init, times + [now], starts + [start], ranks + [rank], |times|)
    ensures Remembers(lim, After(lim, init, times + [now]), start, rank)
    ensures LastAdmitted(lim, init, times + [now]) <==> rank < lim.max
  {
    var n := |times|;
    var before := if n > 0 then starts[n - 1] else if init.None? then now else 0;
    if lim.window == 0 || now >= before + lim.window {
      start, rank := now, 0;
    } else {
      start, rank := before, if n > 0 then ranks[n - 1] + 1 else 0;
    }
    OneMore(lim, init, times, now, 0);
  }

  lemma StillFalls(lim: Limits, init: Option<Window>, times: seq<nat>, now: nat, starts: seq<nat>, ranks: seq<nat>,
                   start: nat, rank: nat)
    requires AllFall(lim, init, times, starts, ranks)
    requires Falls(lim, init, times + [now], starts + [start], ranks + [rank], |times|)
    ensures AllFall(lim, init, times + [now], starts + [start], ranks + [rank])
  {
    forall i | 0 <= i < |times|
      ensures Falls(lim, init, times + [now], starts + [start], ranks + [rank], i)
    {
      assert Falls(lim, init, times, starts, ranks, i);
    }
  }

  /** An attempt is refused exactly when a cap's worth of attempts fell into its window before it. */
  lemma {:induction false} RefusedExactly(lim: Limits, init: Option<Window>, times: seq<nat>)
    returns (starts: seq<nat>, ranks: seq<nat>)
    requires FreshLimiter(init)
    ensures AllFall(lim, init, times, starts, ranks)
    ensures times != [] ==> Remembers(lim, After(lim, init, times), starts[|times| - 1], ranks[|times| - 1])
    ensures forall i :: 0 <= i < |times| ==> (LastAdmitted(lim, init, times[..i + 1]) <==> ranks[i] < lim.max)
  {
    starts, ranks := [], [];
    if times != [] {
      var n := |times| - 1;
      var init', now := times[..n], times[n];
      assert times == init' + [now];
      starts, ranks := RefusedExactly(lim, init, init');
      var start, rank := NextFalls(lim, init, init', now, starts, ranks);
      StillFalls(lim, init, init', now, starts, ranks, start, rank);
      forall i | 0 <= i < n
        ensures LastAdmitted(lim, init, times[..i + 1]) <==> ranks[i] < lim.max
      {
        assert times[..i + 1] == init'[..i + 1];
      }
      assert times[..n + 1] == times;
      starts, ranks := starts + [start], ranks + [rank];
    }
  }

  // -------------------------------------------------------------------------
  // Principals
  // -------------------------------------------------------------------------

  datatype PrincipalAttempt = PrincipalAttempt(principal: string, now: nat)

  function WindowOf(windows: map<string, Window>, p: string): Option<Window> {
    if p in windows then Some(windows[p]) else None
  }

  function AfterAll(lim: Limits, attempts: seq<PrincipalAttempt>): map<string, Window> {
    if attempts == [] then map[]
    else
      var a := attempts[|attempts| - 1];
      var before := AfterAll(lim, attempts[..|attempts| - 1]);
      before[a.principal := Attempted(lim, Standing(WindowOf(before, a.principal), a.now), a.now)]
  }

  lemma AfterOneMore(lim: Limits, attempts: seq<PrincipalAttempt>, a: PrincipalAttempt, windows: map<string, Window>)
    requires windows == AfterAll(lim, attempts)
    ensures AfterAll(lim, attempts + [a])
         == windows[a.principal := Attempted(lim, Standing(WindowOf(windows, a.principal), a.now), a.now)]
  {
    assert (attempts + [a])[..|attempts|] == attempts;
  }

  /** The times of one principal's attempts, in order. */
  function TimesOf(attempts: seq<PrincipalAttempt>, p: string): seq<nat> {
    Collect((a: PrincipalAttempt) => if a.principal == p then Some(a.now) else None, attempts)
  }

  /** One principal's window is what their own attempts alone make of it. */
  lemma {:induction false} PrincipalsAreIndependent(lim: Limits, attempts: seq<PrincipalAttempt>, p: string)
    ensures WindowOf(AfterAll(lim, attempts), p) == After(lim, None, TimesOf(attempts, p))
  {
    if attempts != [] {
      var n := |attempts| - 1;
      PrincipalsAreIndependent(lim, attempts[..n], p);
      var times := TimesOf(attempts[..n], p);
      if attempts[n].principal == p {
        assert (times + [attempts[n].now])[..|times|] == times;
      }
    }
  }

  /** Hence the next attempt's outcome depends on nobody else's attempts. */
  lemma OutcomeIsOnesOwn(lim: Limits, attempts: seq<PrincipalAttempt>, a: PrincipalAttempt,
                         windows: map<string, Window>)
    requires windows == AfterAll(lim, attempts)
    ensures Admits(lim, Standing(WindowOf(windows, a.principal), a.now), a.now)
         == LastAdmitted(lim, None, TimesOf(attempts + [a], a.principal))
  {
    PrincipalsAreIndependent(lim, attempts, a.principal);
    CollectSnoc((x: PrincipalAttempt) => if x.principal == a.principal then Some(x.now) else None, attempts, a);
    var times := TimesOf(attempts, a.principal);
    assert (times + [a.now])[..|times|] == times;
  }

  /** What counting one attempt leaves behind, and what it answers. */
  lemma CountedForOne(lim: Limits, attempts: seq<PrincipalAttempt>, a: PrincipalAttempt, windows: map<string, Window>,
                      longer: seq<PrincipalAttempt>, w: Window, allowed: bool)
    requires windows == AfterAll(lim, attempts) && longer == attempts + [a]
    requires var standing := Standing(WindowOf(windows, a.principal), a.now);
             w == Attempted(lim, standing, a.now) && allowed == Admits(lim, standing, a.now)
    ensures windows[a.principal := w] == AfterAll(lim, longer)
    ensures allowed == LastAdmitted(lim, None, TimesOf(longer, a.principal))
  {
    OutcomeIsOnesOwn(lim, attempts, a, windows);
    AfterOneMore(lim, attempts, a, windows);
  }

  ghost predicate AttemptsLag(attempts: seq<PrincipalAttempt>, d: nat) {
    forall i, j :: 0 <= i < j < |attempts| ==> attempts[i].now <= attempts[j].now + d
  }

  lemma {:induction false} OwnTimesLag(attempts: seq<PrincipalAttempt>, p: string, d: nat, now: nat)
    requires AttemptsLag(attempts, d)
    ensures Lagging(TimesOf(attempts, p), d)
    ensures (forall a :: a in attempts ==> a.now <= now) ==> forall t :: t in TimesOf(attempts, p) ==> t <= now
  {
    if attempts != [] {
      var n := |attempts| - 1;
      OwnTimesLag(attempts[..n], p, d, attempts[n].now + d);
      OwnTimesLag(attempts[..n], p, d, now);
      var times := TimesOf(attempts[..n], p);
      assert forall i :: 0 <= i < |times| ==> times[i] in times;
    }
  }

  /** Each principal stays within twice the cap while readings of all of them lag no further than borne. */
  lemma EveryPrincipalStaysWithinTwice(lim: Limits, attempts: seq<PrincipalAttempt>, p: string, d: nat, from: nat)
    requires lim.window > 0 && Bears(lim, None, d) && AttemptsLag(attempts, d)
    ensures AdmittedIn(lim, None, TimesOf(attempts, p), from) <= 2 * lim.max
  {
    OwnTimesLag(attempts, p, d, 0);
    AtMostTwiceTheCap(lim, None, d, TimesOf(attempts, p), from);
  }

  // -------------------------------------------------------------------------
  // The limiters as the source keeps them
  // -------------------------------------------------------------------------

  /** One attempt against a window: roll over, refuse at the cap, else count. */
  method CountAttempt(lim: Limits, entry: Window, now: nat) returns (w: Window, allowed: bool)
    ensures w == Attempted(lim, entry, now) && allowed == Admits(lim, entry, now)
  {
    w := entry;
    if SaturatingSub(now, w.start) >= lim.window {
      w := Window(now, 0);
    }
    if w.count >= lim.max {
      return w, false;
    }
    return w.(count := w.count + 1), true;
  }

  class RateLimiter {
    const lim: Limits
    var start: nat
    var count: nat
    ghost var times: seq<nat>

    ghost predicate Valid()
      reads this
    {
      After(lim, Some(Window(0, 0)), times) == Some(Window(start, count))
    }

    constructor (max: nat, windowSecs: nat)
      ensures Valid() && lim == Limits(max, windowSecs) && start == 0 && count == 0 && times == []
    {
      lim := Limits(max, windowSecs);
      start, count, times := 0, 0, [];
    }

    method Check(now: nat) returns (allowed: bool)
      requires Valid()
      modifies this
      ensures Valid() && times == old(times) + [now]
      ensures allowed == LastAdmitted(lim, Some(Window(0, 0)), times)
    {
      OneMore(lim, Some(Window(0, 0)), times, now, 0);
      times := times + [now];
      var w;
      w, allowed := CountAttempt(lim, Window(start, count), now);
      start, count := w.start, w.count;
    }
  }

  class PrincipalRateLimiter {
    const lim: Limits
    var windows: map<string, Window>
    ghost var attempts: seq<PrincipalAttempt>

    ghost predicate Valid()
      reads this
    {
      windows == AfterAll(lim, attempts)
    }

    constructor (max: nat, windowSecs: nat)
      ensures Valid() && lim == Limits(max, windowSecs) && windows == map[] && attempts == []
    {
      lim := Limits(max, windowSecs);
      windows, attempts := map[], [];
    }

    method Check(principal: string, now: nat) returns (allowed: bool)
      requires Valid()
      modifies this
      ensures Valid() && attempts == old(attempts) + [PrincipalAttempt(principal, now)]
      ensures allowed == LastAdmitted(lim, None, TimesOf(attempts, principal))
      ensures forall p :: p != principal ==> WindowOf(windows, p) == WindowOf(old(windows), p)
    {
      var w := if principal in windows then windows[principal] else Window(now, 0);
      w, allowed := CountAttempt(lim, w, now);
      ghost var longer := attempts + [PrincipalAttempt(principal, now)];
      CountedForOne(lim, attempts, PrincipalAttempt(principal, now), windows, longer, w, allowed);
      windows := windows[principal := w];
      attempts := longer;
    }
  }
}
