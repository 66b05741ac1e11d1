/**
 * `ProgressMilestone`: a milestone of a developer's journey through a task, anchored to the
 * event that marks it. A milestone is an `AbstractRelativeInterval` whose start is the
 * event's relative position; its duration and capacity distribution are filled in later by
 * the band builder, which is not part of this model.
 */
module Journey {
  import opened Wrappers
  import opened JavaText
  import opened Positionables
  import opened RelativeIntervals

  /** The kinds of event; only `Note` changes what a milestone does. */
  datatype EventType = Note | Milestone | JourneyEvent | Trouble | Discovery | Experiment | Activate | Deactivate

  /** Fraction of a band's time spent in each flow state; the milestone only carries it. */
  type CapacityDistribution(==)

  /** The fields of an event that a milestone reads or writes. */
  class Event {
    var id: int
    var eventType: EventType
    var comment: string
    var position: LocalDateTime
    var relativePositionInSeconds: int
    var fullPath: Option<string>

    constructor (id: int, eventType: EventType, comment: string, position: LocalDateTime,
                 relativePositionInSeconds: int, fullPath: Option<string>)
      ensures this.id == id && this.eventType == eventType && this.comment == comment
      ensures this.position == position && this.relativePositionInSeconds == relativePositionInSeconds
      ensures this.fullPath == fullPath
    {
      this.id := id;
      this.eventType := eventType;
      this.comment := comment;
      this.position := position;
      this.relativePositionInSeconds := relativePositionInSeconds;
      this.fullPath := fullPath;
    }
  }

  const MilestoneSegment: string := "/milestone/"

  /** `getRelativePath`: the milestone's own path segment, named after its event. */
  function RelativeMilestonePath(eventId: int): string {
    MilestoneSegment + LongToString(eventId)
  }

  /** `getFullPath`: the milestone's segment appended to the path of what contains it. */
  function MilestonePath(parentPath: string, eventId: int): string {
    parentPath + RelativeMilestonePath(eventId)
  }

  /** A full path starts with the parent path and ends with "/milestone/" and the event id. */
  lemma MilestonePathShape(parentPath: string, eventId: int)
    ensures |MilestonePath(parentPath, eventId)| > |parentPath| + |MilestoneSegment|
    ensures MilestonePath(parentPath, eventId)[..|parentPath|] == parentPath
    ensures MilestonePath(parentPath, eventId)[|parentPath|..] == RelativeMilestonePath(eventId)
    ensures RelativeMilestonePath(eventId)[..|MilestoneSegment|] == MilestoneSegment
  {
  }

  /**
   * A full path names one milestone: equal full paths come from the same parent path and
   * the same event id. The id's digits hold no '/', so the last '/' of a path is the one
   * that ends "/milestone/".
   */
  lemma MilestonePathInjective(parentPath: string, eventId: int, otherParentPath: string, otherEventId: int)
    requires MilestonePath(parentPath, eventId) == MilestonePath(otherParentPath, otherEventId)
    ensures parentPath == otherParentPath && eventId == otherEventId
  {
    var path := MilestonePath(parentPath, eventId);
    var digits, otherDigits := LongToString(eventId), LongToString(otherEventId);
    if |digits| < |otherDigits| {
      SlashBeforeDigits(parentPath, eventId);
      assert false;
    } else if |otherDigits| < |digits| {
      SlashBeforeDigits(otherParentPath, otherEventId);
      assert false;
    } else {
      assert digits == path[|path| - |digits|..] == otherDigits;
      LongToStringInjective(eventId, otherEventId);
      assert parentPath == path[..|parentPath|] == otherParentPath;
    }
  }

  /** The character right before the id's digits is the '/' that ends "/milestone/". */
  lemma SlashBeforeDigits(parentPath: string, eventId: int)
    ensures var path := MilestonePath(parentPath, eventId);
            |path| > |LongToString(eventId)| &&
            path[|path| - |LongToString(eventId)| - 1] == '/'
  {
    var path := MilestonePath(parentPath, eventId);
    var k := |path| - |LongToString(eventId)| - 1;
    assert path[k] == MilestoneSegment[|MilestoneSegment| - 1];
  }

  class ProgressMilestone {
    // the fields inherited from AbstractRelativeInterval; `None` is a Java null
    var durationInSeconds: Option<int>
    var relativeStart: int

    var event: Event
    var parentPath: string
    var capacityDistribution: Option<CapacityDistribution>
    var painTags: set<string>
    var contextTags: set<string>

    /**
     * `ProgressMilestone(parentPath, progressEvent)`. The milestone starts where its event
     * sits, takes its context tags from the event's comment and has no pain tags yet. A NOTE
     * event is rewritten to carry the milestone's full path; any other event is left as it was.
     * `extractUniqueHashTags` stands for `TagsUtil.extractUniqueHashTags`.
     */
    constructor (parentPath: string, progressEvent: Event, extractUniqueHashTags: string -> set<string>)
      modifies progressEvent`fullPath
      ensures event == progressEvent && this.parentPath == parentPath
      ensures relativeStart == progressEvent.relativePositionInSeconds
      ensures contextTags == extractUniqueHashTags(progressEvent.comment)
      ensures painTags == {}
      ensures durationInSeconds == None && capacityDistribution == None
      ensures progressEvent.eventType == Note ==> progressEvent.fullPath == Some(GetFullPath())
      ensures progressEvent.eventType != Note ==> progressEvent.fullPath == old(progressEvent.fullPath)
      ensures progressEvent.id == old(progressEvent.id)
      ensures progressEvent.eventType == old(progressEvent.eventType)
      ensures progressEvent.comment == old(progressEvent.comment)
      ensures progressEvent.position == old(progressEvent.position)
      ensures progressEvent.relativePositionInSeconds == old(progressEvent.relativePositionInSeconds)
    {
      event := progressEvent;
      this.parentPath := parentPath;
      relativeStart := progressEvent.relativePositionInSeconds;
      contextTags := extractUniqueHashTags(progressEvent.comment);
      painTags := {};
      durationInSeconds := None;
      capacityDistribution := None;
      new;
      if event.eventType == Note {
        event.fullPath := Some(GetFullPath());
      }
    }

    /** `getId`: the event's id. */
    function GetId(): int
      reads this, event
    {
      event.id
    }

    function GetRelativePath(): string
      reads this, event
    {
      RelativeMilestonePath(event.id)
    }

    function GetFullPath(): string
      reads this, event
    {
      parentPath + GetRelativePath()
    }

    /** `getPosition`: the event's moment. */
    function GetPosition(): LocalDateTime
      reads this, event
    {
      event.position
    }

    /** `getStart`: a milestone starts at its event's moment. */
    function GetStart(): (start: LocalDateTime)
      reads this, event
      ensures start == GetPosition()
    {
      event.position
    }

    /** `getDescription`: the event's comment. */
    function GetDescription(): string
      reads this, event
    {
      event.comment
    }

    /** `getFrequency`: a milestone counts once. */
    function GetFrequency(): int {
      1
    }

    /** `getChildStoryElements`: a milestone has no children. */
    function GetChildStoryElements(): seq<object> {
      []
    }

    /** `getRelativePositionInSeconds`, inherited: the start. */
    function RelativePositionInSeconds(): int
      reads this
    {
      relativeStart
    }

    /** The interval view, once the band builder has set a duration. */
    function AsInterval(): RelativeInterval
      reads this
      requires durationInSeconds.Some?
    {
      RelativeInterval(durationInSeconds.value, relativeStart)
    }
  }

  /** The getters hand back the event's own data, and a milestone is a leaf counted once. */
  lemma MilestoneDelegatesToEvent(m: ProgressMilestone)
    ensures m.GetId() == m.event.id
    ensures m.GetPosition() == m.event.position && m.GetStart() == m.GetPosition()
    ensures m.GetDescription() == m.event.comment
    ensures m.GetFrequency() == 1 && m.GetChildStoryElements() == []
  {
  }

  /** The full path is the parent path followed by the milestone's own "/milestone/<id>" segment. */
  lemma FullPathShape(m: ProgressMilestone)
    ensures m.GetFullPath() == MilestonePath(m.parentPath, m.GetId())
    ensures m.GetFullPath()[..|m.parentPath|] == m.parentPath
    ensures m.GetFullPath()[|m.parentPath|..] == m.GetRelativePath()
    ensures m.GetRelativePath()[..|MilestoneSegment|] == MilestoneSegment
  {
    MilestonePathShape(m.parentPath, m.GetId());
  }

  /** Two milestones with the same full path share their parent path and their event id. */
  lemma FullPathIdentifiesMilestone(m: ProgressMilestone, other: ProgressMilestone)
    requires m.GetFullPath() == other.GetFullPath()
    ensures m.parentPath == other.parentPath && m.GetId() == other.GetId()
  {
    MilestonePathInjective(m.parentPath, m.GetId(), other.parentPath, other.GetId());
  }

  /**
   * A milestone positioned at its event's moment holds that event once a duration is set,
   * exactly when the duration is positive.
   */
  lemma MilestoneContainsItsEvent(m: ProgressMilestone)
    requires m.durationInSeconds.Some?
    requires m.relativeStart == m.event.relativePositionInSeconds
    ensures m.AsInterval().ShouldContain(m.event.relativePositionInSeconds) <==> m.durationInSeconds.value > 0
  {
    StartInEndOut(m.AsInterval());
  }

  /**
   * An example client of the constructor's contract: building a milestone for a NOTE records
   * the milestone's path on the note, while a TROUBLE event keeps its own, and two milestones
   * for different events under one parent get different paths.
   */
  method NoteGetsMilestonePath(extractUniqueHashTags: string -> set<string>)
  {
    var note := new Event(7, Note, "fixed #build", 100, 40, None);
    var m := new ProgressMilestone("/task/3", note, extractUniqueHashTags);
    assert m.relativeStart == 40 && m.painTags == {};
    assert note.fullPath == Some(m.GetFullPath());
    FullPathShape(m);
    assert note.fullPath.value[..7] == "/task/3";
    var trouble := new Event(8, Trouble, "stuck", 200, 140, None);
    var m2 := new ProgressMilestone("/task/3", trouble, extractUniqueHashTags);
    assert trouble.fullPath == None;
    assert m2.GetFullPath() != m.GetFullPath() by {
      if m2.GetFullPath() == m.GetFullPath() {
        FullPathIdentifiesMilestone(m2, m);
      }
    }
  }
}
