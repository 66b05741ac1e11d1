/**
 * `AbstractRelativeInterval`: a stretch of a task's timeline, in seconds relative to the
 * task's start. Both fields are Java `Long`s that the model takes as present.
 */
module RelativeIntervals {

  datatype RelativeInterval = RelativeInterval(durationInSeconds: int, relativeStart: int) {

    /** `getRelativeEnd`: the first second after the interval. */
    function RelativeEnd(): int {
      relativeStart + durationInSeconds
    }

    /** `getRelativePositionInSeconds`: an interval is positioned at its start. */
    function RelativePositionInSeconds(): int {
      relativeStart
    }

    /**
     * `shouldContain`: does the interval hold an element positioned at `position`
     * (that element's `getRelativePositionInSeconds`)?
     */
    predicate ShouldContain(position: int) {
      RelativeStart() <= position && position < RelativeEnd()
    }

    function RelativeStart(): int {
      relativeStart
    }

    /** The interval lies inside `outer`. */
    predicate Within(outer: RelativeInterval) {
      outer.relativeStart <= relativeStart && RelativeEnd() <= outer.RelativeEnd()
    }
  }

  /** The end is the start moved forward by the duration, so the duration is end minus start. */
  lemma EndIsStartPlusDuration(i: RelativeInterval)
    ensures i.RelativeEnd() - i.RelativeStart() == i.durationInSeconds
    ensures i.RelativePositionInSeconds() == i.relativeStart
  {
  }

  /** Containment is the half-open range [relativeStart, relativeStart + durationInSeconds). */
  lemma ShouldContainIsHalfOpen(i: RelativeInterval, position: int)
    ensures i.ShouldContain(position) <==>
              i.relativeStart <= position && position - i.relativeStart < i.durationInSeconds
  {
  }

  /** A non-empty interval holds its own start and never its end. */
  lemma StartInEndOut(i: RelativeInterval)
    ensures i.ShouldContain(i.relativeStart) <==> i.durationInSeconds > 0
    ensures !i.ShouldContain(i.RelativeEnd())
  {
  }

  /** An interval of zero (or negative) duration contains nothing. */
  lemma EmptyIntervalContainsNothing(i: RelativeInterval, position: int)
    requires i.durationInSeconds <= 0
    ensures !i.ShouldContain(position)
  {
  }

  /**
   * Handing an interval to `shouldContain` tests only where it starts: it is accepted even
   * when it runs past the container's end.
   */
  lemma OnlyStartIsTested(container: RelativeInterval, element: RelativeInterval)
    ensures container.ShouldContain(element.RelativePositionInSeconds()) <==>
              container.relativeStart <= element.relativeStart < container.RelativeEnd()
  {
  }

  /** For instance, [0, 10) accepts [5, 25) although the latter ends well past 10. */
  lemma OverhangingElementAccepted()
    ensures RelativeInterval(10, 0).ShouldContain(RelativeInterval(20, 5).RelativePositionInSeconds())
    ensures !RelativeInterval(20, 5).Within(RelativeInterval(10, 0))
  {
  }

  /** Containment is monotone: whatever an inner interval holds, an interval around it holds too. */
  lemma ContainmentIsMonotone(inner: RelativeInterval, outer: RelativeInterval, position: int)
    requires inner.Within(outer)
    requires inner.ShouldContain(position)
    ensures outer.ShouldContain(position)
  {
  }
}
