/** Half-open time windows, and the window check as the database performs it on text. */
module Clock {
  import opened Prelude
  import opened TimeEncoding

  datatype Window = Window(start: Instant, end: Instant) {
    predicate Contains(at: Instant) { start <= at < end }

    predicate Overlaps(other: Window) { start < other.end && other.start < end }

    function Duration(): int { end - start }

    /** starts_at < other.ends_at AND ends_at > other.starts_at, on the stored text */
    predicate SqlOverlaps(other: Window) { SqlLess(start, other.end) && SqlLess(other.start, end) }

    predicate ComparableWith(other: Window) { Comparable(start, other.end) && Comparable(other.start, end) }

    predicate FourDigitYears() { FourDigitYear(start) && FourDigitYear(end) }
  }

  function NewWindow(start: Instant, end: Instant): (r: Option<Window>)
    ensures r.Some? <==> start < end
    ensures r.Some? ==> r.value.Duration() > 0 && r.value.Contains(start) && !r.value.Contains(end)
  {
    if start < end then Some(Window(start, end)) else None
  }

  /** Two windows overlap exactly when some instant lies in both. */
  lemma OverlapIsSharedInstant(a: Window, b: Window)
    requires a.start < a.end && b.start < b.end
    ensures a.Overlaps(b) <==> exists at: Instant :: a.Contains(at) && b.Contains(at)
  {
    var later := if a.start < b.start then b.start else a.start;
    if a.Overlaps(b) {
      assert a.Contains(later) && b.Contains(later);
    }
  }

  /** On comparable windows the stored-text check is the real overlap test. */
  lemma SqlOverlapOnComparable(a: Window, b: Window)
    requires a.FourDigitYears() && b.FourDigitYears() && a.ComparableWith(b)
    ensures a.SqlOverlaps(b) <==> a.Overlaps(b)
  {
    ComparableOrder(a.start, b.end);
    ComparableOrder(b.start, a.end);
  }

  /** An overlap is detected exactly when the crossing bounds are comparable as text. */
  lemma OverlapDetectedIff(a: Window, b: Window)
    requires a.FourDigitYears() && b.FourDigitYears() && a.Overlaps(b)
    ensures a.SqlOverlaps(b) <==> a.ComparableWith(b)
  {
    TextOrderIsTimeOrder(a.start, b.end);
    TextOrderIsTimeOrder(b.start, a.end);
  }

  /** A window that starts on the second is not seen to overlap one ending later within that second. */
  lemma OverlapIsMissed(held: Window, wanted: Window)
    requires held.FourDigitYears() && wanted.FourDigitYears() && held.Overlaps(wanted)
    requires Nanos(wanted.start) == 0 && Seconds(wanted.start) == Seconds(held.end)
    ensures !held.SqlOverlaps(wanted)
  {
    NanosFit(wanted.start);
    NanosFit(held.end);
    ZerosStripAway(0, 9);
    if FractionDigits(held.end) == "" {
      StripIsInjective(Pad(Nanos(held.end), 9), Pad(Nanos(wanted.start), 9));
      PadOrder(Nanos(held.end), Nanos(wanted.start), 9);
    }
    OverlapDetectedIff(held, wanted);
  }

  lemma {:induction false} ZerosStripAway(n: nat, width: nat)
    requires n == 0
    ensures StripZeros(Pad(n, width)) == ""
    decreases width
  {
    if width > 0 {
      ZerosStripAway(n / 10, width - 1);
      assert Pad(n, width)[..|Pad(n, width)| - 1] == Pad(n / 10, width - 1);
    }
  }

  /** For instance [0 min, 1 min + 0.5 s) and [1 min, 2 min). */
  lemma OverlapCanBeMissed()
    ensures exists held: Window, wanted: Window ::
              held == Window(0, MINUTE + SECOND / 2) && wanted == Window(MINUTE, 2 * MINUTE)
              && held.Overlaps(wanted) && !held.SqlOverlaps(wanted)
  {
    var minute: nat :| minute == MINUTE;
    var held, wanted := Window(0, minute + SECOND / 2), Window(minute, 2 * minute);
    forall t: nat | t <= 2 * minute ensures FourDigitYear(t) { }
    OverlapIsMissed(held, wanted);
  }
}
