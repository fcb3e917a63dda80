/**
 * The publication policy of the Draftable trait as pure functions of the
 * `published_at` value and the current instant. Timestamps are integers
 * (seconds on the application clock); `None` is a SQL NULL.
 */
module Publication {
  import opened Wrappers

  /** `isPublished`: the record has a publication instant and it has arrived. */
  function IsPublished(publishedAt: Option<int>, now: int): (published: bool)
    ensures published ==> publishedAt.Some?
    ensures !published <==> publishedAt.None? || now < publishedAt.value
  {
    publishedAt.Some? && publishedAt.value <= now
  }

  /**
   * `isDraft`: the negation of `isPublished`. A draft is either never
   * published (NULL) or scheduled for a later instant.
   */
  function IsDraft(publishedAt: Option<int>, now: int): (draft: bool)
    ensures draft <==> publishedAt.None? || now < publishedAt.value
    ensures draft != IsPublished(publishedAt, now)
  {
    !IsPublished(publishedAt, now)
  }

  /**
   * The value `setPublished(published)` leaves in `published_at` when the
   * clock reads `now`.
   */
  function AfterSetPublished(publishedAt: Option<int>, published: bool, now: int): (r: Option<int>)
    ensures !published ==> r == None
    ensures published ==> IsPublished(r, now)
    ensures published && IsPublished(publishedAt, now) ==> r == publishedAt
    ensures published && IsDraft(publishedAt, now) ==> r == Some(now)
  {
    if !published then None
    else if IsDraft(publishedAt, now) then Some(now)
    else publishedAt
  }

  /** A record with no publication instant is a draft at every instant. */
  lemma NeverPublishedIsDraft(now: int)
    ensures IsDraft(None, now)
  {
  }

  /**
   * A record scheduled for `t0` is a draft strictly before `t0` and
   * published from `t0` on: the state is derived, nothing has to change.
   */
  lemma ScheduledGoesLive(t0: int, now: int)
    ensures IsDraft(Some(t0), now) <==> now < t0
    ensures IsPublished(Some(t0), now) <==> t0 <= now
  {
  }

  /** Once published, a record stays published as the clock moves forward. */
  lemma PublishedStaysPublished(publishedAt: Option<int>, t1: int, t2: int)
    requires t1 <= t2
    requires IsPublished(publishedAt, t1)
    ensures IsPublished(publishedAt, t2)
  {
  }

  /** After `setPublished(false)`, the record is a draft at every later instant. */
  lemma UnpublishedIsDraftForever(publishedAt: Option<int>, now: int, later: int)
    ensures IsDraft(AfterSetPublished(publishedAt, false, now), later)
  {
  }

  /**
   * `setPublished(true)` is idempotent, even on a later call: the second call
   * finds the record published and keeps the first call's instant.
   */
  lemma SetPublishedIdempotent(publishedAt: Option<int>, t1: int, t2: int)
    requires t1 <= t2
    ensures AfterSetPublished(AfterSetPublished(publishedAt, true, t1), true, t2)
         == AfterSetPublished(publishedAt, true, t1)
  {
    PublishedStaysPublished(AfterSetPublished(publishedAt, true, t1), t1, t2);
  }

  /** A scheduled record published early is stamped with the current instant. */
  lemma PublishingScheduledStampsNow(t0: int, now: int)
    requires now < t0
    ensures AfterSetPublished(Some(t0), true, now) == Some(now)
  {
  }
}
