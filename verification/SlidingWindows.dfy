/** Assignment of timestamps to sliding and tumbling windows (sliding_window.py, tumbling_window.py). */
module SlidingWindows {
  import opened Wrappers

  /** Milliseconds; the end is exclusive. */
  datatype TimeWindow = TimeWindow(start: int, end: int)

  datatype WindowError = NotPositive

  datatype SlidingWindow = SlidingWindow(size: int, slide: int, offset: int)

  datatype TumblingWindow = TumblingWindow(size: int, offset: int)

  /** The constructor: a positive size and slide, and the offset modulo the slide. */
  function NewSliding(size: int, slide: int, offset: int): (r: Result<SlidingWindow, WindowError>)
    ensures r.Ok? <==> size > 0 && slide > 0
    ensures r.Ok? ==> ValidSliding(r.value)
  {
    if size <= 0 || slide <= 0 then Err(NotPositive) else Ok(SlidingWindow(size, slide, offset % slide))
  }

  function NewTumbling(size: int, offset: int): (r: Result<TumblingWindow, WindowError>)
    ensures r.Ok? <==> size > 0
  {
    if size <= 0 then Err(NotPositive) else Ok(TumblingWindow(size, offset % size))
  }

  predicate ValidSliding(w: SlidingWindow) {
    w.size > 0 && w.slide > 0 && 0 <= w.offset < w.slide
  }

  /** The start of the last window that does not begin after the timestamp; division rounds down. */
  function LastStart(period: int, offset: int, timestamp: int): int
    requires period > 0
  {
    (timestamp - offset) / period * period + offset
  }

  function TumblingWindowOf(w: TumblingWindow, timestamp: int): TimeWindow
    requires w.size > 0
  {
    var start := LastStart(w.size, w.offset, timestamp);
    TimeWindow(start, start + w.size)
  }

  /** The windows from `start` downwards that still contain the timestamp. */
  function WindowsFrom(w: SlidingWindow, start: int, timestamp: int): seq<TimeWindow>
    requires ValidSliding(w)
    decreases start + w.size - timestamp
  {
    if start + w.size > timestamp then
      [TimeWindow(start, start + w.size)] + WindowsFrom(w, start - w.slide, timestamp)
    else
      []
  }

  method AssignWindows(w: SlidingWindow, timestamp: int) returns (windows: seq<TimeWindow>)
    requires ValidSliding(w)
    ensures windows == WindowsFrom(w, LastStart(w.slide, w.offset, timestamp), timestamp)
  {
    windows := [];
    var start := LastStart(w.slide, w.offset, timestamp);
    while start + w.size > timestamp
      invariant windows + WindowsFrom(w, start, timestamp)
             == WindowsFrom(w, LastStart(w.slide, w.offset, timestamp), timestamp)
      decreases start + w.size - timestamp
    {
      var window := TimeWindow(start, start + w.size);
      assert windows + ([window] + WindowsFrom(w, start - w.slide, timestamp))
          == (windows + [window]) + WindowsFrom(w, start - w.slide, timestamp);
      windows := windows + [window];
      start := start - w.slide;
    }
  }

  // ---- which windows -------------------------------------------------------

  /** A window of this assigner: its start is congruent to the offset. */
  predicate Aligned(w: SlidingWindow, window: TimeWindow)
    requires w.slide > 0
  {
    window.end == window.start + w.size && (window.start - w.offset) % w.slide == 0
  }

  predicate Contains(window: TimeWindow, timestamp: int) {
    window.start <= timestamp < window.end
  }

  lemma Multiple(k: int, period: int)
    requires period > 0
    ensures k * period % period == 0 && k * period / period == k
  {
    DivisionUnique(k * period, period, k, 0);
  }

  lemma DivisionUnique(x: int, period: int, q: int, r: int)
    requires period > 0 && x == q * period + r && 0 <= r < period
    ensures x / period == q && x % period == r
  {
    var d := x / period - q;
    assert d * period == r - x % period;
    MultipleBounds(d, period);
  }

  lemma MultipleBounds(d: int, period: int)
    requires period > 0
    ensures d >= 1 ==> d * period >= period
    ensures d <= -1 ==> d * period <= -period
    ensures d >= 0 ==> d * period >= 0
  {
  }

  lemma LastStartIs(period: int, offset: int, timestamp: int)
    requires period > 0
    ensures LastStart(period, offset, timestamp) <= timestamp < LastStart(period, offset, timestamp) + period
    ensures (LastStart(period, offset, timestamp) - offset) % period == 0
    ensures timestamp - LastStart(period, offset, timestamp) == (timestamp - offset) % period
  {
    Multiple((timestamp - offset) / period, period);
  }

  /** Every other aligned start is a whole number of slides away. */
  lemma AlignedSteps(period: int, offset: int, a: int, b: int) returns (k: int)
    requires period > 0 && (a - offset) % period == 0 && (b - offset) % period == 0
    ensures a - b == k * period && (a >= b ==> k >= 0)
  {
    k := (a - offset) / period - (b - offset) / period;
    assert a - b == k * period;
    if k < 0 {
      assert k * period < 0;
    }
  }

  lemma {:induction false} WindowAt(w: SlidingWindow, start: int, timestamp: int, k: nat)
    requires ValidSliding(w)
    ensures k < |WindowsFrom(w, start, timestamp)| <==> start - k * w.slide + w.size > timestamp
    ensures k < |WindowsFrom(w, start, timestamp)| ==>
      WindowsFrom(w, start, timestamp)[k] == TimeWindow(start - k * w.slide, start - k * w.slide + w.size)
    decreases k
  {
    if k == 0 {
    } else {
      assert start - k * w.slide == (start - w.slide) - (k - 1) * w.slide;
      if start + w.size > timestamp {
        WindowAt(w, start - w.slide, timestamp, k - 1);
      } else {
        assert k * w.slide >= 0;
      }
    }
  }

  function Windows(w: SlidingWindow, timestamp: int): seq<TimeWindow>
    requires ValidSliding(w)
  {
    WindowsFrom(w, LastStart(w.slide, w.offset, timestamp), timestamp)
  }

  /** The assigned windows are exactly the aligned windows that contain the timestamp. */
  lemma WindowsExact(w: SlidingWindow, timestamp: int, window: TimeWindow)
    requires ValidSliding(w)
    ensures window in Windows(w, timestamp) <==> Aligned(w, window) && Contains(window, timestamp)
  {
    var last, windows := LastStart(w.slide, w.offset, timestamp), Windows(w, timestamp);
    LastStartIs(w.slide, w.offset, timestamp);
    if window in windows {
      var k :| 0 <= k < |windows| && windows[k] == window;
      WindowAt(w, last, timestamp, k);
      assert k * w.slide >= 0;
      StepsAligned(w, last, k);
    }
    if Aligned(w, window) && Contains(window, timestamp) {
      var k := AlignedSteps(w.slide, w.offset, last, window.start);
      MultipleBounds(k, w.slide);
      WindowAt(w, last, timestamp, k);
      assert windows[k] == window;
    }
  }

  lemma StepsAligned(w: SlidingWindow, start: int, k: nat)
    requires ValidSliding(w) && (start - w.offset) % w.slide == 0
    ensures (start - k * w.slide - w.offset) % w.slide == 0
  {
    var q := (start - w.offset) / w.slide;
    assert start - k * w.slide - w.offset == (q - k) * w.slide;
    Multiple(q - k, w.slide);
  }

  /** The windows come latest first, without repetition. */
  lemma WindowsDescend(w: SlidingWindow, timestamp: int, i: nat, j: nat)
    requires ValidSliding(w) && i < j < |Windows(w, timestamp)|
    ensures Windows(w, timestamp)[j].start < Windows(w, timestamp)[i].start
  {
    hide LastStart, WindowsFrom;
    var last := LastStart(w.slide, w.offset, timestamp);
    WindowAt(w, last, timestamp, i);
    WindowAt(w, last, timestamp, j);
    MoreSteps(i, j, w.slide);
  }

  lemma MoreSteps(i: nat, j: nat, slide: int)
    requires i < j && slide > 0
    ensures i * slide < j * slide
  {
    MultipleBounds(j - i, slide);
    assert i * slide + (j - i) * slide == j * slide;
  }

  /** `n` is the least number of steps that leads out of the window. */
  lemma StepCount(size: int, slide: int, behind: int, n: nat)
    requires size > 0 && slide > 0 && 0 <= behind < slide
    requires n * slide + behind >= size && (n > 0 ==> (n - 1) * slide + behind < size)
    ensures n == if behind < size then (size - 1 - behind) / slide + 1 else 0
  {
    if n > 0 {
      assert n * slide == (n - 1) * slide + slide;
      DivisionUnique(size - 1 - behind, slide, n - 1, size - 1 - behind - (n - 1) * slide);
      MultipleBounds(n - 1, slide);
    }
  }

  lemma WholeCount(size: int, slide: int, behind: int)
    requires size > 0 && slide > 0 && 0 <= behind < slide && size % slide == 0
    ensures behind < size && (size - 1 - behind) / slide + 1 == size / slide
  {
    var q := size / slide;
    assert size == q * slide;
    MultipleBounds(q, slide);
    assert (q - 1) * slide == size - slide;
    DivisionUnique(size - 1 - behind, slide, q - 1, slide - 1 - behind);
  }

  /** How many windows: those starts down from the last one that reach past the timestamp. */
  lemma WindowCount(w: SlidingWindow, timestamp: int)
    requires ValidSliding(w)
    ensures var behind := (timestamp - w.offset) % w.slide;
      |Windows(w, timestamp)| == if behind < w.size then (w.size - 1 - behind) / w.slide + 1 else 0
    ensures w.size % w.slide == 0 ==> |Windows(w, timestamp)| == w.size / w.slide
  {
    hide WindowsFrom, LastStart;
    var last, n := LastStart(w.slide, w.offset, timestamp), |Windows(w, timestamp)|;
    var behind := (timestamp - w.offset) % w.slide;
    LastStartIs(w.slide, w.offset, timestamp);
    WindowAt(w, last, timestamp, n);
    if n > 0 {
      WindowAt(w, last, timestamp, n - 1);
    }
    StepCount(w.size, w.slide, behind, n);
    if w.size % w.slide == 0 {
      WholeCount(w.size, w.slide, behind);
    }
  }

  /** A sliding window as long as its slide is a tumbling window. */
  lemma TumblingIsSliding(size: int, offset: int, timestamp: int)
    requires size > 0
    ensures Windows(NewSliding(size, size, offset).value, timestamp)
         == [TumblingWindowOf(NewTumbling(size, offset).value, timestamp)]
  {
    var w := NewSliding(size, size, offset).value;
    var last := LastStart(size, w.offset, timestamp);
    LastStartIs(size, w.offset, timestamp);
    assert WindowsFrom(w, last - size, timestamp) == [];
  }

  /** Reducing the offset modulo the period moves no start. */
  lemma SameAlignment(start: int, offset: int, period: int)
    requires period > 0
    ensures (start - offset % period) % period == 0 <==> (start - offset) % period == 0
  {
    var q := offset / period;
    var x, y := start - offset % period, start - offset;
    assert x == y + q * period;
    if x % period == 0 {
      assert y == (x / period - q) * period;
      Multiple(x / period - q, period);
    }
    if y % period == 0 {
      assert x == (y / period + q) * period;
      Multiple(y / period + q, period);
    }
  }

  /**
    What the constructor's arguments mean: a timestamp is in exactly the windows of the given size that
    contain it and start a whole number of slides away from the offset, whatever the offset.
   */
  lemma AssignedWindows(size: int, slide: int, offset: int, timestamp: int, start: int, end: int)
    requires size > 0 && slide > 0
    ensures TimeWindow(start, end) in Windows(NewSliding(size, slide, offset).value, timestamp) <==>
      end - start == size && start <= timestamp < end && (start - offset) % slide == 0
  {
    hide Windows;
    WindowsExact(NewSliding(size, slide, offset).value, timestamp, TimeWindow(start, end));
    SameAlignment(start, offset, slide);
  }

  /** A timestamp is in the one tumbling window of the given size and alignment that contains it. */
  lemma AssignedWindow(size: int, offset: int, timestamp: int)
    requires size > 0
    ensures var window := TumblingWindowOf(NewTumbling(size, offset).value, timestamp);
      && window.end - window.start == size && window.start <= timestamp < window.end
      && (window.start - offset) % size == 0
  {
    hide LastStart;
    LastStartIs(size, offset % size, timestamp);
    SameAlignment(LastStart(size, offset % size, timestamp), offset, size);
  }
}
