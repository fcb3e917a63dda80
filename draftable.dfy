/**
 * A model that uses the Draftable trait: its in-memory `published_at`
 * attribute, the mutators that change it, and the record store's `save()`.
 * The application clock (Carbon's `now`, which tests may set) is an object
 * the record reads.
 */
module Draftable {
  import opened Wrappers
  import Publication

  /** The application clock; tests move it with `Set`. */
  class Clock {
    var now: int

    constructor (start: int)
      ensures now == start
    {
      now := start;
    }

    method Set(instant: int)
      modifies this
      ensures now == instant
    {
      now := instant;
    }
  }

  /**
   * A draftable record. `saved` is what the record store has received: one
   * entry, the value of `published_at` at that moment, per call of `save()`,
   * oldest first. Its length counts the saves and its last entry is the
   * persisted copy.
   */
  class Record {
    var publishedAt: Option<int>
    var saved: seq<Option<int>>
    const clock: Clock

    /** `new TestModel(['published_at' => publishedAt])`: built, not yet saved. */
    constructor (clock: Clock, publishedAt: Option<int>)
      ensures this.clock == clock && this.publishedAt == publishedAt && saved == []
    {
      this.clock := clock;
      this.publishedAt := publishedAt;
      saved := [];
    }

    /** `isPublished`, with the clock's current reading. */
    function IsPublished(): (published: bool)
      reads this, clock
      ensures published <==> publishedAt.Some? && publishedAt.value <= clock.now
    {
      Publication.IsPublished(publishedAt, clock.now)
    }

    /** `isDraft`: the negation of `isPublished`, with the same reading of the clock. */
    function IsDraft(): (draft: bool)
      reads this, clock
      ensures draft <==> !IsPublished()
      ensures draft <==> publishedAt.None? || clock.now < publishedAt.value
    {
      Publication.IsDraft(publishedAt, clock.now)
    }

    /** The persisted copy of `published_at`, once the record has been saved. */
    function Persisted(): (copy: Option<Option<int>>)
      reads this
    {
      if saved == [] then None else Some(saved[|saved| - 1])
    }

    /** The record store's `save()`: writes the current attribute, changes nothing else. */
    method Save()
      modifies this
      ensures publishedAt == old(publishedAt)
      ensures saved == old(saved) + [publishedAt]
      ensures Persisted() == Some(publishedAt)
    {
      saved := saved + [publishedAt];
    }

    /** `setPublishedAt`: sets the attribute (NULL stays NULL); does not save. */
    method SetPublishedAt(date: Option<int>) returns (self: Record)
      modifies this
      ensures self == this
      ensures publishedAt == date
      ensures saved == old(saved)
    {
      publishedAt := date;
      self := this;
    }

    /**
     * `setPublished`: unpublishing clears the attribute; publishing a draft
     * stamps it with the current instant; publishing a published record
     * keeps its instant. Does not save.
     */
    method SetPublished(published: bool) returns (self: Record)
      modifies this
      ensures self == this
      ensures publishedAt == Publication.AfterSetPublished(old(publishedAt), published, clock.now)
      ensures !published ==> publishedAt == None
      ensures published ==> IsPublished()
      ensures published && old(IsPublished()) ==> publishedAt == old(publishedAt)
      ensures saved == old(saved)
    {
      if !published {
        self := SetPublishedAt(None);
        return;
      }
      if IsDraft() {
        self := SetPublishedAt(Some(clock.now));
        return;
      }
      self := this;
    }

    /** `publishAt`: `setPublishedAt(date)`, then one save of the new value. */
    method PublishAt(date: Option<int>) returns (self: Record)
      modifies this
      ensures self == this
      ensures publishedAt == date
      ensures saved == old(saved) + [date]
      ensures Persisted() == Some(date)
    {
      var record := SetPublishedAt(date);
      record.Save();
      self := this;
    }

    /** `publish`: `setPublished(publish)`, then one save of the new value. */
    method Publish(publish: bool := true) returns (self: Record)
      modifies this
      ensures self == this
      ensures publishedAt == Publication.AfterSetPublished(old(publishedAt), publish, clock.now)
      ensures publish ==> IsPublished()
      ensures publish && old(IsPublished()) ==> publishedAt == old(publishedAt)
      ensures saved == old(saved) + [publishedAt]
      ensures Persisted() == Some(publishedAt)
    {
      var record := SetPublished(publish);
      record.Save();
      self := this;
    }

    /** `draft`: `publish(false)`, so the attribute is NULL and saved. */
    method Draft() returns (self: Record)
      modifies this
      ensures self == this
      ensures publishedAt == None
      ensures saved == old(saved) + [None]
      ensures Persisted() == Some(None)
      ensures forall later :: Publication.IsDraft(publishedAt, later)
    {
      self := Publish(false);
    }
  }
}
