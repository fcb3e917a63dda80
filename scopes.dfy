/**
 * The three query scopes of the Draftable trait, over one snapshot of the
 * table and one reading of the clock. A query is the `published` global
 * scope (on until `withDrafts` removes it) together with the query's own
 * where-criteria; running it keeps the rows that match, in snapshot order.
 */
module DraftableScopes {
  import opened Wrappers
  import Publication

  /** A stored row: its key and its `published_at` column. */
  datatype Row = Row(id: int, publishedAt: Option<int>)

  /** How a criterion joins the ones before it (`where` versus `orWhere`). */
  datatype Boolean = And | Or

  /** One where-criterion. A nested `where(closure)` group is a single criterion. */
  datatype Clause = Clause(boolean: Boolean, test: Row -> bool)

  datatype Query = Query(publishedScope: bool, wheres: seq<Clause>)

  // Column tests with SQL's NULL semantics: a comparison with NULL never holds.

  predicate IsNull(r: Row) { r.publishedAt.None? }

  predicate IsNotNull(r: Row) { r.publishedAt.Some? }

  predicate AtOrBefore(r: Row, t: int) { r.publishedAt.Some? && r.publishedAt.value <= t }

  predicate After(r: Row, t: int) { r.publishedAt.Some? && r.publishedAt.value > t }

  /**
   * A list of criteria as SQL reads it: `and` binds tighter than `or`, and
   * the connector of the first criterion is dropped. No criteria keep every row.
   */
  function Eval(cs: seq<Clause>, r: Row): (holds: bool)
  {
    if cs == [] then true else Chain(cs[1..], r, false, cs[0].test(r))
  }

  /** `before`: some earlier `or`-group held; `group`: the current `and`-group holds so far. */
  function Chain(cs: seq<Clause>, r: Row, before: bool, group: bool): (holds: bool)
    decreases |cs|
  {
    if cs == [] then before || group
    else match cs[0].boolean
      case And => Chain(cs[1..], r, before, group && cs[0].test(r))
      case Or => Chain(cs[1..], r, before || group, cs[0].test(r))
  }

  /** Every criterion after the first is joined with `and`. */
  predicate Conjunctive(cs: seq<Clause>)
  {
    forall i :: 1 <= i < |cs| ==> cs[i].boolean == And
  }

  /**
   * The global `published` scope: `published_at is not null and published_at <= now`.
   * It selects exactly the rows the record's own `isPublished` calls published.
   */
  function PublishedScope(now: int): (cs: seq<Clause>)
    ensures forall r :: Eval(cs, r) == Publication.IsPublished(r.publishedAt, now)
  {
    var cs := [Clause(And, IsNotNull), Clause(And, r => AtOrBefore(r, now))];
    forall r ensures Eval(cs, r) == Publication.IsPublished(r.publishedAt, now) {
      EvalPair(cs[0], cs[1], r);
    }
    cs
  }

  /**
   * The group `onlyDrafts` adds: `(published_at is null or published_at > now)`.
   * It selects exactly the rows the record's own `isDraft` calls drafts.
   */
  function DraftGroup(now: int): (cs: seq<Clause>)
    ensures forall r :: Eval(cs, r) == Publication.IsDraft(r.publishedAt, now)
  {
    var cs := [Clause(And, IsNull), Clause(Or, r => After(r, now))];
    forall r ensures Eval(cs, r) == Publication.IsDraft(r.publishedAt, now) {
      EvalPair(cs[0], cs[1], r);
    }
    cs
  }

  /** A fresh query on a draftable model: the global scope is registered at boot. */
  function NewQuery(): (q: Query)
  {
    Query(true, [])
  }

  /** `where(test)`: one more criterion joined with `and`. */
  function Where(q: Query, test: Row -> bool): (q': Query)
    ensures q'.publishedScope == q.publishedScope
    ensures Conjunctive(q.wheres) ==> Conjunctive(q'.wheres)
    ensures forall r :: Conjunctive(q.wheres) ==> (Eval(q'.wheres, r) <==> Eval(q.wheres, r) && test(r))
  {
    var q' := q.(wheres := q.wheres + [Clause(And, test)]);
    forall r | Conjunctive(q.wheres)
      ensures Eval(q'.wheres, r) <==> Eval(q.wheres, r) && test(r)
    {
      EvalAppendAnd(q.wheres, test, r);
    }
    q'
  }

  /**
   * `scopeWithDrafts`: removes the global scope, keeps the query's own
   * criteria. At every instant it returns a row exactly when those criteria hold.
   */
  function WithDrafts(q: Query): (q': Query)
    ensures !q'.publishedScope && q'.wheres == q.wheres
    ensures forall now, r :: Matches(q', now, r) <==> Eval(q.wheres, r)
  {
    q.(publishedScope := false)
  }

  /**
   * Eloquent applies a local scope to a query whose criteria are already
   * set by keeping those criteria together as one `and` group, so that an
   * `or` the scope adds cannot escape them.
   */
  function GroupCriteria(q: Query): (q': Query)
    ensures q'.publishedScope == q.publishedScope
    ensures Conjunctive(q'.wheres)
    ensures forall r :: Eval(q'.wheres, r) == Eval(q.wheres, r)
  {
    if q.wheres == [] then q
    else
      var q' := q.(wheres := [Clause(And, r => Eval(q.wheres, r))]);
      assert forall r :: Eval(q'.wheres, r) == Chain([], r, false, Eval(q.wheres, r));
      q'
  }

  /**
   * `scopeOnlyDrafts`: `withDrafts`, then the draft group as one `and`
   * criterion, read from the clock when the scope is applied. The result
   * keeps a row exactly when it is a draft at that instant and meets the
   * query's own criteria.
   */
  function OnlyDrafts(q: Query, now: int): (q': Query)
    ensures !q'.publishedScope
    ensures forall at, r :: Matches(q', at, r) <==> Eval(q.wheres, r) && Publication.IsDraft(r.publishedAt, now)
  {
    Where(GroupCriteria(WithDrafts(q)), r => Eval(DraftGroup(now), r))
  }

  /** Whether running `q` at instant `now` returns row `r`. */
  predicate Matches(q: Query, now: int, r: Row)
  {
    (q.publishedScope ==> Eval(PublishedScope(now), r)) && Eval(q.wheres, r)
  }

  /** Running `q` on the snapshot `rows` at instant `now`. */
  function Get(q: Query, rows: seq<Row>, now: int): (out: seq<Row>)
    ensures forall r :: r in out <==> r in rows && Matches(q, now, r)
    ensures multiset(out) <= multiset(rows)
  {
    if rows == [] then []
    else
      assert rows == [rows[0]] + rows[1..];
      if Matches(q, now, rows[0]) then [rows[0]] + Get(q, rows[1..], now)
      else Get(q, rows[1..], now)
  }

  /** Reference selection: the rows published at `now`, in snapshot order. */
  function Published(rows: seq<Row>, now: int): (out: seq<Row>)
    ensures forall r :: r in out <==> r in rows && Publication.IsPublished(r.publishedAt, now)
  {
    if rows == [] then []
    else if Publication.IsPublished(rows[0].publishedAt, now) then [rows[0]] + Published(rows[1..], now)
    else Published(rows[1..], now)
  }

  /** Reference selection: the rows that are drafts at `now`, in snapshot order. */
  function Drafts(rows: seq<Row>, now: int): (out: seq<Row>)
    ensures forall r :: r in out <==> r in rows && Publication.IsDraft(r.publishedAt, now)
  {
    if rows == [] then []
    else if Publication.IsDraft(rows[0].publishedAt, now) then [rows[0]] + Drafts(rows[1..], now)
    else Drafts(rows[1..], now)
  }

  // ---- The SQL criteria agree with the record's own predicates ----

  /** Two criteria evaluate as their connector says. */
  lemma EvalPair(c0: Clause, c1: Clause, r: Row)
    ensures Eval([c0, c1], r) == match c1.boolean
      case And => c0.test(r) && c1.test(r)
      case Or => c0.test(r) || c1.test(r)
  {
    assert [c0, c1][1..] == [c1];
    assert [c1][1..] == [];
    var g := c0.test(r);
    assert Eval([c0, c1], r) == Chain([c1], r, false, g);
    match c1.boolean
    case And => assert Chain([c1], r, false, g) == Chain([], r, false, g && c1.test(r));
    case Or => assert Chain([c1], r, false, g) == Chain([], r, g, c1.test(r));
  }

  /** Without the parentheses, an `or` appended to existing criteria escapes them. */
  lemma UngroupedOrEscapesCriteria(now: int)
    ensures !Eval([Clause(And, (r: Row) => false), Clause(And, r => Eval(DraftGroup(now), r))], Row(0, Some(now + 1)))
    ensures Eval([Clause(And, (r: Row) => false)] + DraftGroup(now), Row(0, Some(now + 1)))
  {
    var never := Clause(And, (r: Row) => false);
    var row := Row(0, Some(now + 1));
    EvalPair(never, Clause(And, r => Eval(DraftGroup(now), r)), row);
    var flat := [never] + DraftGroup(now);
    assert flat[1..] == DraftGroup(now);
    assert DraftGroup(now)[1..][1..] == [];
  }

  /**
   * Whatever criteria the query already carries, `or`s included, the
   * `onlyDrafts` result never holds a row that is published at the instant
   * the scope is applied.
   */
  lemma EarlierOrStaysGrouped(q: Query, now: int, at: int, r: Row)
    requires Publication.IsPublished(r.publishedAt, now)
    ensures !Matches(OnlyDrafts(q, now), at, r)
  {
  }

  /**
   * One instance: the published row `Row(0, Some(now))` meets the criteria
   * of `where(true)->orWhere(false)`, yet `onlyDrafts` of that query leaves it out.
   */
  lemma EarlierOrStaysGroupedExample(now: int)
    ensures Matches(WithDrafts(Query(true, [Clause(And, (r: Row) => true), Clause(Or, (r: Row) => false)])), now, Row(0, Some(now)))
    ensures !Matches(OnlyDrafts(Query(true, [Clause(And, (r: Row) => true), Clause(Or, (r: Row) => false)]), now), now, Row(0, Some(now)))
  {
    EvalPair(Clause(And, (r: Row) => true), Clause(Or, (r: Row) => false), Row(0, Some(now)));
  }

  lemma {:induction false} ChainAllAnd(cs: seq<Clause>, r: Row, group: bool)
    requires forall i :: 0 <= i < |cs| ==> cs[i].boolean == And
    ensures Chain(cs, r, false, group) <==> group && forall i :: 0 <= i < |cs| ==> cs[i].test(r)
    decreases |cs|
  {
    if cs != [] {
      ChainAllAnd(cs[1..], r, group && cs[0].test(r));
      assert forall i :: 1 <= i < |cs| ==> cs[i] == cs[1..][i - 1];
    }
  }

  /** And-joined criteria hold exactly when each of them holds. */
  lemma EvalConjunctive(cs: seq<Clause>, r: Row)
    requires Conjunctive(cs)
    ensures Eval(cs, r) <==> forall i :: 0 <= i < |cs| ==> cs[i].test(r)
  {
    if cs != [] {
      ChainAllAnd(cs[1..], r, cs[0].test(r));
      assert forall i :: 1 <= i < |cs| ==> cs[i] == cs[1..][i - 1];
    }
  }

  lemma EvalAppendAnd(cs: seq<Clause>, test: Row -> bool, r: Row)
    requires Conjunctive(cs)
    ensures Conjunctive(cs + [Clause(And, test)])
    ensures Eval(cs + [Clause(And, test)], r) <==> Eval(cs, r) && test(r)
  {
    var cs' := cs + [Clause(And, test)];
    assert forall i :: 0 <= i < |cs| ==> cs'[i] == cs[i];
    assert cs'[|cs|] == Clause(And, test);
    EvalConjunctive(cs, r);
    EvalConjunctive(cs', r);
  }

  // ---- The scopes over a whole snapshot ----

  /** A query keeps the published rows among those its own criteria select. */
  lemma {:induction false} DefaultScopeKeepsPublished(q: Query, rows: seq<Row>, now: int)
    requires q.publishedScope
    ensures Get(q, rows, now) == Published(Get(WithDrafts(q), rows, now), now)
  {
    if rows != [] {
      DefaultScopeKeepsPublished(q, rows[1..], now);
    }
  }

  /** `onlyDrafts` keeps the draft rows among those the query's own criteria select. */
  lemma {:induction false} OnlyDraftsKeepsDrafts(q: Query, rows: seq<Row>, now: int)
    ensures Get(OnlyDrafts(q, now), rows, now) == Drafts(Get(WithDrafts(q), rows, now), now)
  {
    if rows != [] {
      OnlyDraftsKeepsDrafts(q, rows[1..], now);
    }
  }

  /** A query with no criteria of its own and the global scope removed returns the whole snapshot. */
  lemma {:induction false} WithDraftsKeepsAll(rows: seq<Row>, now: int)
    ensures Get(WithDrafts(NewQuery()), rows, now) == rows
  {
    if rows != [] {
      assert Matches(WithDrafts(NewQuery()), now, rows[0]);
      WithDraftsKeepsAll(rows[1..], now);
    }
  }

  /** Published and draft rows split a snapshot: disjoint, and together all of it. */
  lemma {:induction false} PublishedDraftsPartition(rows: seq<Row>, now: int)
    ensures multiset(Published(rows, now)) + multiset(Drafts(rows, now)) == multiset(rows)
    ensures forall r :: !(r in Published(rows, now) && r in Drafts(rows, now))
  {
    if rows != [] {
      PublishedDraftsPartition(rows[1..], now);
      assert rows == [rows[0]] + rows[1..];
    }
  }

  /**
   * Within one snapshot and one instant, the default result and the
   * `onlyDrafts` result of a query are disjoint and together make up what
   * `withDrafts` returns.
   */
  lemma ScopesPartition(q: Query, rows: seq<Row>, now: int)
    requires q.publishedScope
    ensures multiset(Get(q, rows, now)) + multiset(Get(OnlyDrafts(q, now), rows, now))
         == multiset(Get(WithDrafts(q), rows, now))
    ensures forall r :: !(r in Get(q, rows, now) && r in Get(OnlyDrafts(q, now), rows, now))
  {
    DefaultScopeKeepsPublished(q, rows, now);
    OnlyDraftsKeepsDrafts(q, rows, now);
    PublishedDraftsPartition(Get(WithDrafts(q), rows, now), now);
  }

  /** On a plain query the default scope and `onlyDrafts` split the whole table. */
  lemma DefaultAndOnlyDraftsSplitTable(rows: seq<Row>, now: int)
    ensures Get(NewQuery(), rows, now) == Published(rows, now)
    ensures Get(OnlyDrafts(NewQuery(), now), rows, now) == Drafts(rows, now)
    ensures multiset(Get(NewQuery(), rows, now)) + multiset(Get(OnlyDrafts(NewQuery(), now), rows, now))
         == multiset(rows)
  {
    WithDraftsKeepsAll(rows, now);
    ScopesPartition(NewQuery(), rows, now);
    DefaultScopeKeepsPublished(NewQuery(), rows, now);
    OnlyDraftsKeepsDrafts(NewQuery(), rows, now);
  }
}
