/** What one pass leaves in the cache: deferred rows untouched, every row accounted for, and after a
    complete snapshot exactly its rows current. */
module TaskSnapshot {
  import opened Options
  import opened Texts
  import opened TaskProjection

  // ---------- deferred rows ----------

  predicate Touched(items: seq<Item>, applied: seq<bool>, key: Key)
    requires |applied| == |items|
  {
    exists i :: 0 <= i < |items| && applied[i] && items[i].Self() == key
  }

  /** Lists, tasks and views are secured resources. */
  predicate HasResource(table: Table) {
    table == TaskLists || table == Tasks || table == TaskViews
  }

  predicate ResourceTouched(items: seq<Item>, applied: seq<bool>, id: string)
    requires |applied| == |items|
  {
    exists i :: 0 <= i < |items| && applied[i] && HasResource(items[i].table) && items[i].id == id
  }

  lemma TouchedFront(items: seq<Item>, applied: seq<bool>, key: Key, id: string)
    requires |applied| == |items| > 0
    ensures Touched(items[..|items| - 1], applied[..|items| - 1], key) ==> Touched(items, applied, key)
    ensures ResourceTouched(items[..|items| - 1], applied[..|items| - 1], id) ==> ResourceTouched(items, applied, id)
  {
  }

  predicate SameRow(a: Cache, b: Cache, key: Key) {
    (key in a.rows <==> key in b.rows) && (key in a.rows ==> a.rows[key] == b.rows[key])
  }

  predicate SameResource(a: Cache, b: Cache, id: string) {
    (id in a.resources <==> id in b.resources) && (id in a.resources ==> a.resources[id] == b.resources[id])
  }

  /** A row that no applied row names keeps its confirmed version, and so does its secured resource:
      a deferral leaves both untouched. */
  lemma {:induction false} DeferredIsUntouched(ctx: Context, cache: Cache, items: seq<Item>, key: Key, id: string)
    requires SweepRows(ctx, cache, items).Swept?
    ensures var swept := SweepRows(ctx, cache, items);
            && (!Touched(items, swept.applied, key) ==> SameRow(cache, swept.cache, key))
            && (!ResourceTouched(items, swept.applied, id) ==> SameResource(cache, swept.cache, id))
  {
    if items != [] {
      var swept, last := SweepRows(ctx, cache, items), |items| - 1;
      DeferredIsUntouched(ctx, cache, items[..last], key, id);
      assert swept.applied[..last] == SweepRows(ctx, cache, items[..last]).applied;
      TouchedFront(items, swept.applied, key, id);
      if swept.applied[last] && items[last].Self() == key { assert Touched(items, swept.applied, key); }
      if swept.applied[last] && HasResource(items[last].table) && items[last].id == id {
        assert ResourceTouched(items, swept.applied, id);
      }
    }
  }

  // ---------- applied rows ----------

  /** The record holds every column and reference the row carries, and the row's version, here. */
  predicate Carries(ctx: Context, record: Record, item: Item) {
    && (forall c :: c in item.columns ==> c in record.columns && record.columns[c] == item.columns[c])
    && (forall c :: c in item.refs ==> if item.refs[c].Some? then c in record.refs && record.refs[c] == item.refs[c].value
                                       else c !in record.refs)
    && record.scope == ctx.scope && record.sourceVersion >= 1 && (item.version >= 1 ==> record.sourceVersion == item.version)
  }

  /** Columns and references the row does not carry are left as they were. */
  predicate LeavesRest(before: Record, after: Record, item: Item) {
    && (forall c :: c in before.columns && c !in item.columns ==> c in after.columns && after.columns[c] == before.columns[c])
    && (forall c :: c in before.refs && c !in item.refs ==> c in after.refs && after.refs[c] == before.refs[c])
  }

  /** A projected row is current in this sandbox; a calendar entry has neither column. */
  predicate ProjectedAs(ctx: Context, prior: Option<Record>, record: Record, table: Table) {
    if table == CalendarEntries then
      match prior
      case None => true
      case Some(p) => record.sandbox == p.sandbox && record.state == p.state && record.staleAt == p.staleAt
    else record.sandbox == ctx.sandbox && record.state == Current && record.staleAt == None
  }

  /** When an entry was invalidated: as the row says, and as before if it does not. */
  predicate InvalidatedAs(prior: Option<Record>, record: Record, item: Item) {
    record.invalidatedAt == if "invalidated_at" in item.columns then item.columns["invalidated_at"]
                            else if prior.Some? then prior.value.invalidatedAt else None
  }

  lemma UpsertMerges(ctx: Context, cache: Cache, item: Item)
    ensures Carries(ctx, Upserted(ctx, cache, item), item)
    ensures item.Self() in cache.rows ==> LeavesRest(cache.rows[item.Self()], Upserted(ctx, cache, item), item)
    ensures var prior := if item.Self() in cache.rows then Some(cache.rows[item.Self()]) else None;
            ProjectedAs(ctx, prior, Upserted(ctx, cache, item), item.table) && InvalidatedAs(prior, Upserted(ctx, cache, item), item)
  {
  }

  predicate LastApplied(items: seq<Item>, applied: seq<bool>, i: nat)
    requires |applied| == |items|
  {
    && i < |items| && applied[i]
    && forall j :: i < j < |items| && applied[j] ==> items[j].Self() != items[i].Self()
  }

  /** Of the rows with one id the last applied one is what the cache holds after a pass, and the
      secured resource of a list, task or view is there with it. */
  lemma {:induction false} LastAppliedWins(ctx: Context, cache: Cache, items: seq<Item>, i: nat)
    requires SweepRows(ctx, cache, items).Swept? && LastApplied(items, SweepRows(ctx, cache, items).applied, i)
    ensures var after := SweepRows(ctx, cache, items).cache;
            && items[i].Self() in after.rows && Carries(ctx, after.rows[items[i].Self()], items[i])
            && (HasResource(items[i].table) ==> items[i].id in after.resources && after.resources[items[i].id].scope == ctx.scope)
  {
    var last, swept := |items| - 1, SweepRows(ctx, cache, items);
    if i < last {
      assert swept.applied[..last] == SweepRows(ctx, cache, items[..last]).applied;
      LastAppliedWins(ctx, cache, items[..last], i);
    } else {
      UpsertMerges(ctx, SweepRows(ctx, cache, items[..last]).cache, items[i]);
    }
  }

  /** The last applied row with an id that names a resource is what the resource says. */
  predicate LastResource(items: seq<Item>, applied: seq<bool>, i: nat)
    requires |applied| == |items|
  {
    && i < |items| && applied[i] && HasResource(items[i].table)
    && forall j :: i < j < |items| && applied[j] && HasResource(items[j].table) ==> items[j].id != items[i].id
  }

  lemma {:induction false} LastResourceWins(ctx: Context, cache: Cache, items: seq<Item>, i: nat)
    requires SweepRows(ctx, cache, items).Swept? && LastResource(items, SweepRows(ctx, cache, items).applied, i)
    ensures var resources := SweepRows(ctx, cache, items).cache.resources;
            && items[i].id in resources && resources[items[i].id].kind == items[i].table
            && resources[items[i].id].scope == ctx.scope && resources[items[i].id].version >= 1
            && (items[i].version >= 1 ==> resources[items[i].id].version == items[i].version)
  {
    var last, swept := |items| - 1, SweepRows(ctx, cache, items);
    if i < last {
      assert swept.applied[..last] == SweepRows(ctx, cache, items[..last]).applied;
      LastResourceWins(ctx, cache, items[..last], i);
    }
  }

  // ---------- which rows are applied, deferred, refused ----------

  /** The cache as row `i` finds it. */
  function Before(ctx: Context, cache: Cache, items: seq<Item>, i: nat): Cache
    requires i <= |items| && SweepRows(ctx, cache, items[..i]).Swept?
  {
    SweepRows(ctx, cache, items[..i]).cache
  }

  /** An id that is not blank, and a row that fits the constraints when its turn comes. */
  predicate RowAccepted(ctx: Context, cache: Cache, items: seq<Item>, i: nat)
    requires i < |items|
  {
    && Strip(ctx.space, items[i].id) != ""
    && (SweepRows(ctx, cache, items[..i]).Swept? ==> ctx.fits(Before(ctx, cache, items, i), items[i]))
  }

  lemma SameFront(ctx: Context, cache: Cache, items: seq<Item>, i: nat)
    requires i < |items| - 1
    ensures RowAccepted(ctx, cache, items, i) <==> RowAccepted(ctx, cache, items[..|items| - 1], i)
  {
    assert items[..|items| - 1][..i] == items[..i];
  }

  lemma LastRowDecides(ctx: Context, cache: Cache, items: seq<Item>)
    requires items != []
    ensures SweepRows(ctx, cache, items).Swept?
            <==> SweepRows(ctx, cache, items[..|items| - 1]).Swept? && RowAccepted(ctx, cache, items, |items| - 1)
  {
  }

  /** A pass is accepted if and only if every row is; one that is not rolls all of it back. */
  lemma {:induction false} AcceptedIff(ctx: Context, cache: Cache, items: seq<Item>)
    ensures SweepRows(ctx, cache, items).Swept? <==> forall i :: 0 <= i < |items| ==> RowAccepted(ctx, cache, items, i)
  {
    if items != [] {
      var front := items[..|items| - 1];
      AcceptedIff(ctx, cache, front);
      LastRowDecides(ctx, cache, items);
      forall i | 0 <= i < |front| ensures RowAccepted(ctx, cache, items, i) <==> RowAccepted(ctx, cache, front, i) {
        SameFront(ctx, cache, items, i);
      }
      if !SweepRows(ctx, cache, front).Swept? {
        var i :| 0 <= i < |front| && !RowAccepted(ctx, cache, front, i);
        assert !RowAccepted(ctx, cache, items, i);
      }
    }
  }

  /** In an accepted pass a row is deferred if and only if one of its references names a key that is
      neither there when its turn comes nor its own. */
  lemma {:induction false} DeferredIff(ctx: Context, cache: Cache, items: seq<Item>, i: nat)
    requires SweepRows(ctx, cache, items).Swept? && i < |items|
    ensures SweepRows(ctx, cache, items[..i]).Swept?
    ensures var there := Before(ctx, cache, items, i);
            !SweepRows(ctx, cache, items).applied[i]
            <==> exists c :: c in items[i].refs && items[i].refs[c].Some?
                             && items[i].refs[c].value !in there.rows && items[i].refs[c].value !in there.others
                             && items[i].refs[c].value != Key(items[i].table, items[i].id)
  {
    var last := |items| - 1;
    if i < last {
      DeferredIff(ctx, cache, items[..last], i);
      assert items[..last][..i] == items[..i];
    } else {
      assert items[..last] == items[..i];
    }
  }

  // ---------- counts ----------

  function Counted(items: seq<Item>, applied: seq<bool>, table: Table): nat
    requires |applied| == |items|
  {
    if items == [] then 0
    else Counted(items[..|items| - 1], applied[..|items| - 1], table)
         + if items[|items| - 1].table == table && applied[|items| - 1] then 1 else 0
  }

  function Skipped(items: seq<Item>, applied: seq<bool>, table: Table): seq<string>
    requires |applied| == |items|
  {
    if items == [] then []
    else Skipped(items[..|items| - 1], applied[..|items| - 1], table)
         + if items[|items| - 1].table == table && !applied[|items| - 1] then [items[|items| - 1].id] else []
  }

  function OfTable(items: seq<Item>, table: Table): seq<Item> {
    if items == [] then []
    else OfTable(items[..|items| - 1], table) + if items[|items| - 1].table == table then [items[|items| - 1]] else []
  }

  /** Applied and deferred rows of a table are its incoming rows. */
  lemma {:induction false} AppliedPlusDeferred(items: seq<Item>, applied: seq<bool>, table: Table)
    requires |applied| == |items|
    ensures Counted(items, applied, table) + |Skipped(items, applied, table)| == |OfTable(items, table)|
  {
    if items != [] { AppliedPlusDeferred(items[..|items| - 1], applied[..|items| - 1], table); }
  }

  /** The skipped ids of a table are those of its deferred rows. */
  lemma {:induction false} SkippedAre(items: seq<Item>, applied: seq<bool>, table: Table, id: string)
    requires |applied| == |items|
    ensures id in Skipped(items, applied, table)
            <==> exists i :: 0 <= i < |items| && items[i].table == table && !applied[i] && items[i].id == id
  {
    if items != [] {
      var last := |items| - 1;
      SkippedAre(items[..last], applied[..last], table, id);
      if i :| 0 <= i < |items| && items[i].table == table && !applied[i] && items[i].id == id {
        if i < last { assert items[..last][i] == items[i] && applied[..last][i] == applied[i]; }
      }
    }
  }

  function AppliedRows(items: seq<Item>, applied: seq<bool>, table: Table): set<int>
    requires |applied| == |items|
  {
    set i | 0 <= i < |items| && items[i].table == table && applied[i]
  }

  lemma AppliedRowsStep(items: seq<Item>, applied: seq<bool>, table: Table)
    requires |applied| == |items| > 0
    ensures var last := |items| - 1;
            var front := AppliedRows(items[..last], applied[..last], table);
            && last !in front
            && AppliedRows(items, applied, table) == if items[last].table == table && applied[last] then front + {last} else front
  {
  }

  /** The applied rows of a table are counted each once. */
  lemma {:induction false} CountedAre(items: seq<Item>, applied: seq<bool>, table: Table)
    requires |applied| == |items|
    ensures Counted(items, applied, table) == |AppliedRows(items, applied, table)|
  {
    if items != [] {
      CountedAre(items[..|items| - 1], applied[..|items| - 1], table);
      AppliedRowsStep(items, applied, table);
    }
  }

  /** Nothing is skipped in any table exactly when every row was applied. */
  lemma {:induction false} NoneSkippedIff(items: seq<Item>, applied: seq<bool>)
    requires |applied| == |items|
    ensures AllApplied(applied) <==> forall table :: Skipped(items, applied, table) == []
  {
    if i :| 0 <= i < |items| && !applied[i] {
      SkippedAre(items, applied, items[i].table, items[i].id);
    }
    forall table, id
      ensures id in Skipped(items, applied, table) ==> !AllApplied(applied)
    {
      SkippedAre(items, applied, table, id);
    }
    forall table | AllApplied(applied)
      ensures Skipped(items, applied, table) == []
    {
      if Skipped(items, applied, table) != [] { assert Skipped(items, applied, table)[0] in Skipped(items, applied, table); }
    }
  }

  // ---------- staleness ----------

  predicate IsCurrent(cache: Cache, key: Key) {
    key in cache.rows && cache.rows[key].state == Current
  }

  lemma {:induction false} SweepKeepsCurrent(ctx: Context, cache: Cache, items: seq<Item>, key: Key)
    requires SweepRows(ctx, cache, items).Swept? && IsCurrent(cache, key)
    ensures IsCurrent(SweepRows(ctx, cache, items).cache, key)
  {
    if items != [] { SweepKeepsCurrent(ctx, cache, items[..|items| - 1], key); }
  }

  /** With any deferral no row becomes stale; nor does one in a pass that replaces nothing. */
  lemma NoStaleWithDeferral(ctx: Context, cache: Cache, items: seq<Item>, replaceSnapshot: bool, key: Key)
    requires Apply(ctx, cache, items, replaceSnapshot).Swept?
    requires !replaceSnapshot || !AllApplied(Apply(ctx, cache, items, replaceSnapshot).applied)
    requires IsCurrent(cache, key)
    ensures IsCurrent(Apply(ctx, cache, items, replaceSnapshot).cache, key)
  {
    SweepKeepsCurrent(ctx, cache, items, key);
  }

  // ---------- snapshot agreement ----------

  function SnapshotIds(items: seq<Item>, table: Table): set<string> {
    set i | 0 <= i < |items| && items[i].table == table :: items[i].id
  }

  function CurrentIds(ctx: Context, cache: Cache, table: Table): set<string> {
    set k | k in cache.rows && k.table == table && CurrentHere(ctx, cache.rows[k]) :: k.id
  }

  predicate AllTrimmed(ctx: Context, items: seq<Item>, table: Table) {
    forall i :: 0 <= i < |items| && items[i].table == table ==> Trimmed(ctx.space, items[i].id)
  }

  /** Every row an accepted pass applied is current here. */
  lemma {:induction false} AppliedIsCurrent(ctx: Context, cache: Cache, items: seq<Item>, i: nat)
    requires SweepRows(ctx, cache, items).Swept? && i < |items| && SweepRows(ctx, cache, items).applied[i]
    requires items[i].table != CalendarEntries
    ensures var after := SweepRows(ctx, cache, items).cache;
            items[i].Self() in after.rows && CurrentHere(ctx, after.rows[items[i].Self()])
    ensures Strip(ctx.space, items[i].id) != ""
  {
    var last := |items| - 1;
    if i < last { AppliedIsCurrent(ctx, cache, items[..last], i); }
  }

  /** The ids that are current after marking: those that were, and are among the snapshot's stripped
      ids. */
  lemma MarkedCurrentIds(ctx: Context, cache: Cache, items: seq<Item>, table: Table)
    requires MarkedTable(table)
    ensures CurrentIds(ctx, MarkAbsent(ctx, cache, items), table) == CurrentIds(ctx, cache, table) * IdsOf(ctx, items, table)
  {
  }

  lemma StrippedIds(ctx: Context, items: seq<Item>, table: Table)
    ensures AllTrimmed(ctx, items, table) && (forall i :: 0 <= i < |items| && items[i].table == table ==> items[i].id != "") ==>
              IdsOf(ctx, items, table) == SnapshotIds(items, table)
    ensures SnapshotIds(items, table) <= IdsOf(ctx, items, table) ==> AllTrimmed(ctx, items, table)
  {
    forall s: string ensures Trimmed(ctx.space, Strip(ctx.space, s)) && (Strip(ctx.space, s) == s <==> Trimmed(ctx.space, s)) {
      StripIsTrimmed(ctx.space, s);
    }
    if SnapshotIds(items, table) <= IdsOf(ctx, items, table) {
      forall i | 0 <= i < |items| && items[i].table == table
        ensures Trimmed(ctx.space, items[i].id)
      {
        assert items[i].id in SnapshotIds(items, table);
      }
    }
  }

  /** Snapshot agreement, with its exact condition: after a replacing pass that deferred nothing, the
      current ids of this scope and sandbox in a marked table are exactly the snapshot's ids if and
      only if all of these were sent trimmed. */
  lemma SnapshotAgreementIff(ctx: Context, cache: Cache, items: seq<Item>, table: Table)
    requires MarkedTable(table) && Apply(ctx, cache, items, true).Swept? && AllApplied(Apply(ctx, cache, items, true).applied)
    ensures CurrentIds(ctx, Apply(ctx, cache, items, true).cache, table) == SnapshotIds(items, table)
            <==> AllTrimmed(ctx, items, table)
  {
    var swept := SweepRows(ctx, cache, items);
    var after, ids := swept.cache, IdsOf(ctx, items, table);
    forall i | 0 <= i < |items| && items[i].table == table
      ensures items[i].id in CurrentIds(ctx, after, table) && Strip(ctx.space, items[i].id) != ""
    {
      AppliedIsCurrent(ctx, cache, items, i);
      var k := items[i].Self();
      assert k in after.rows && k.table == table && CurrentHere(ctx, after.rows[k]) && k.id == items[i].id;
    }
    MarkedCurrentIds(ctx, after, items, table);
    StrippedIds(ctx, items, table);
    if AllTrimmed(ctx, items, table) {
      forall i | 0 <= i < |items| && items[i].table == table
        ensures items[i].id != ""
      {
        StripIsTrimmed(ctx.space, items[i].id);
      }
    }
  }

  /** How it fails: a complete snapshot of one list whose id was sent with a leading blank is applied
      to an empty cache and marked stale in the same pass. */
  lemma UntrimmedIdGoesStale(scope: string, sandbox: string, now: string)
    ensures var ctx := Context(scope, sandbox, now, (_, _) => true, c => c == ' ');
            var items := [Item(TaskLists, " x", map[], map[], 1)];
            var swept := Apply(ctx, Cache(map[], map[], {}), items, true);
            && swept.Swept? && AllApplied(swept.applied) && !AllTrimmed(ctx, items, TaskLists)
            && SnapshotIds(items, TaskLists) == {" x"} && CurrentIds(ctx, swept.cache, TaskLists) == {}
  {
    var ctx := Context(scope, sandbox, now, (_, _) => true, c => c == ' ');
    var items := [Item(TaskLists, " x", map[], map[], 1)];
    var empty := Cache(map[], map[], {});
    assert items[..0] == [] && SweepRows(ctx, empty, items[..0]) == Swept(empty, []);
    assert DropLeft(ctx.space, " x") == DropLeft(ctx.space, "x") == "x" == DropRight(ctx.space, "x");
    assert items[0].table == TaskLists && IdsOf(ctx, items, TaskLists) == {"x"};
    MarkedCurrentIds(ctx, SweepRows(ctx, empty, items).cache, items, TaskLists);
    assert CurrentIds(ctx, SweepRows(ctx, empty, items).cache, TaskLists) <= {" x"};
  }

  /** Whether the snapshot lists an id in a table, trimmed. */
  predicate Listed(ctx: Context, items: seq<Item>, table: Table, id: string) {
    exists i :: 0 <= i < |items| && items[i].table == table && Strip(ctx.space, items[i].id) == id && id != ""
  }

  /** A row that the closing updates of a complete snapshot are about: of the four marked tables, one
      current in this scope and sandbox; of the calendar, one of a task in this scope that is not
      invalidated; and in both cases not listed. */
  predicate Absent(ctx: Context, items: seq<Item>, key: Key, record: Record) {
    && record.scope == ctx.scope && !Listed(ctx, items, key.table, key.id)
    && match key.table
       case CalendarEntries =>
         record.invalidatedAt == None && "target_kind" in record.columns && record.columns["target_kind"] == Some("task")
       case ExecutionRuns => false
       case OtherTable(_) => false
       case _ => record.sandbox == ctx.sandbox && record.state == Current
  }

  /** Exactly what a replacing pass without deferral does after its rows: it marks the absent rows, and
      nothing but the mark changes in them; every other row, of other scopes and sandboxes too, and
      all else in the cache is as the rows left it. */
  lemma ClosingChangesExactly(ctx: Context, cache: Cache, items: seq<Item>, key: Key)
    requires Apply(ctx, cache, items, true).Swept? && AllApplied(Apply(ctx, cache, items, true).applied)
    ensures SweepRows(ctx, cache, items).Swept?
    ensures var before, after := SweepRows(ctx, cache, items).cache, Apply(ctx, cache, items, true).cache;
            && after.rows.Keys == before.rows.Keys && after.resources == before.resources && after.others == before.others
            && (key in before.rows ==>
                  after.rows[key] == if !Absent(ctx, items, key, before.rows[key]) then before.rows[key]
                                     else if key.table == CalendarEntries then before.rows[key].(invalidatedAt := Some(ctx.now))
                                     else before.rows[key].(state := Stale, staleAt := Some(ctx.now)))
  {
    assert Listed(ctx, items, key.table, key.id) <==> key.id in IdsOf(ctx, items, key.table);
  }

  /** Calendar entries of this scope's tasks that the snapshot does not list are no longer live. */
  lemma AbsentEntriesInvalidated(ctx: Context, cache: Cache, items: seq<Item>, key: Key)
    requires Apply(ctx, cache, items, true).Swept? && AllApplied(Apply(ctx, cache, items, true).applied)
    requires key.table == CalendarEntries && key in Apply(ctx, cache, items, true).cache.rows
    requires key.id !in IdsOf(ctx, items, CalendarEntries)
    ensures !LiveTaskEntry(ctx, Apply(ctx, cache, items, true).cache.rows[key])
  {
  }
}
