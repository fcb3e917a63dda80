/**
 * Client code for the models above: the behaviours the repository's tests
 * and documentation describe, written as methods whose assertions follow
 * from the contracts alone.
 */
module DraftableScenarios {
  import opened Wrappers
  import Publication
  import opened Draftable
  import opened DraftableScopes

  /** `TestModel::create([...])`: a new record, saved once. */
  method Create(clock: Clock, publishedAt: Option<int>) returns (record: Record)
    ensures fresh(record)
    ensures record.clock == clock && record.publishedAt == publishedAt
    ensures record.saved == [publishedAt]
    ensures record.Persisted() == Some(publishedAt)
  {
    record := new Record(clock, publishedAt);
    record.Save();
  }

  /** A record created without a publication instant is a draft. */
  method SavedAsDraft(start: int)
  {
    var clock := new Clock(start);
    var model := Create(clock, None);
    assert !model.IsPublished();
  }

  /** Created as published now, or created as a draft and then published. */
  method PublishModel(start: int)
  {
    var clock := new Clock(start);
    var methodOne := Create(clock, Some(clock.now));
    var methodTwo := Create(clock, None);
    var _ := methodTwo.Publish();
    assert methodOne.IsPublished();
    assert methodTwo.IsPublished();
    assert methodTwo.saved == [None, Some(start)];
  }

  /** A record scheduled a week ahead goes live when the clock gets there, with no write. */
  method ScheduledRecordGoesLiveOnClock(start: int)
  {
    var week := 7 * 24 * 60 * 60;
    var clock := new Clock(start);
    var model := Create(clock, None);
    var _ := model.PublishAt(Some(start + week));
    assert model.IsDraft();
    clock.Set(start + week);
    assert model.IsPublished();
    assert model.saved == [None, Some(start + week)];
  }

  /** Publishing an already published record keeps its instant; drafting clears it. */
  method RepublishThenDraft(start: int, later: nat)
  {
    var clock := new Clock(start);
    var model := Create(clock, Some(start - 60));
    clock.Set(start + later);
    var _ := model.Publish();
    assert model.publishedAt == Some(start - 60);
    var _ := model.Draft();
    assert model.IsDraft();
    assert model.saved == [Some(start - 60), Some(start - 60), None];
  }

  /** Rows never published, published a minute ago and scheduled for tomorrow. */
  method ThreeRows(now: int)
  {
    var never := Row(1, None);
    var past := Row(2, Some(now - 60));
    var future := Row(3, Some(now + 24 * 60 * 60));
    var rows := [never, past, future];
    assert rows[1..] == [past, future] && rows[1..][1..] == [future];
    assert [future][1..] == [];
    assert Published([future], now) == [];
    assert Published([past, future], now) == [past];
    assert Published(rows, now) == [past];
    assert Drafts([future], now) == [future];
    assert Drafts([past, future], now) == [future];
    assert Drafts(rows, now) == [never, future];
    DefaultAndOnlyDraftsSplitTable(rows, now);
    assert Get(NewQuery(), rows, now) == [past];
    assert Get(OnlyDrafts(NewQuery(), now), rows, now) == [never, future];
    WithDraftsKeepsAll(rows, now);
  }
}
