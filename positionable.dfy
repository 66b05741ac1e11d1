/**
 * `AbstractPositionable`: a record placed at a moment of a task. `getStart` and `setStart`
 * are a second name for the `position` property.
 */
module Positionables {

  /** Joda `LocalDateTime`, as a count of some fixed time unit. */
  type LocalDateTime = int

  class Positionable {
    var taskId: int
    var position: LocalDateTime
    var relativePositionInSeconds: int

    /** The all-arguments constructor. */
    constructor (taskId: int, position: LocalDateTime, relativePositionInSeconds: int)
      ensures this.taskId == taskId
      ensures this.position == position
      ensures this.relativePositionInSeconds == relativePositionInSeconds
    {
      this.taskId := taskId;
      this.position := position;
      this.relativePositionInSeconds := relativePositionInSeconds;
    }

    /** The generated `getPosition`. */
    function GetPosition(): LocalDateTime
      reads this
    {
      position
    }

    /** `getStart`: another name for the position. */
    function GetStart(): (start: LocalDateTime)
      reads this
      ensures start == GetPosition()
    {
      position
    }

    /**
     * `setStart`: moves the record. Only the position changes; the relative position is not
     * recomputed and the task is kept.
     */
    method SetStart(start: LocalDateTime)
      modifies this`position
      ensures GetStart() == start && GetPosition() == start
      ensures taskId == old(taskId)
      ensures relativePositionInSeconds == old(relativePositionInSeconds)
    {
      position := start;
    }
  }
}
