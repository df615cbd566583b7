/** The task projection as it runs: savepoints, the row loops, and the closing updates. */
module LocalTaskProjection {
  import opened Texts
  import opened TaskProjection
  import opened TaskSnapshot

  const ORDER := [TaskLists, Tasks, TaskViews, TaskCollaborators, CalendarEntries, ExecutionRuns]
  const MARKED := [TaskLists, Tasks, TaskViews, TaskCollaborators, CalendarEntries]

  /** What `apply` returns: per table how many rows were applied and which ids were deferred. */
  datatype Report = Report(counts: map<Table, nat>, skipped: map<Table, seq<string>>, pendingRetry: bool) | ApplyFailed

  /** The rows of a snapshot, table by table in the order they are applied. */
  function Flattened(snapshot: map<Table, seq<Item>>, tables: seq<Table>): seq<Item>
    requires forall i :: 0 <= i < |tables| ==> tables[i] in snapshot
  {
    if tables == [] then []
    else Flattened(snapshot, tables[..|tables| - 1]) + snapshot[tables[|tables| - 1]]
  }

  predicate IsSnapshot(snapshot: map<Table, seq<Item>>) {
    forall i :: 0 <= i < |ORDER| ==> ORDER[i] in snapshot && AllOf(snapshot[ORDER[i]], ORDER[i])
  }

  predicate AllOf(items: seq<Item>, table: Table) {
    forall i :: 0 <= i < |items| ==> items[i].table == table
  }

  lemma {:induction false} SweepRefusedStays(ctx: Context, cache: Cache, items: seq<Item>, n: nat)
    requires n <= |items| && SweepRows(ctx, cache, items[..n]).SweepRefused?
    ensures SweepRows(ctx, cache, items).SweepRefused?
  {
    if n < |items| {
      assert items[..|items| - 1][..n] == items[..n];
      SweepRefusedStays(ctx, cache, items[..|items| - 1], n);
    } else {
      assert items[..n] == items;
    }
  }

  lemma Splitting(items: seq<Item>, applied: seq<bool>, n: nat)
    requires |applied| == |items| && n < |items|
    ensures var last := |items| - 1;
            && items[..last][..n] == items[..n] && applied[..last][..n] == applied[..n]
            && items[n..][..|items[n..]| - 1] == items[..last][n..] && applied[n..][..|items[n..]| - 1] == applied[..last][n..]
            && items[n..][|items[n..]| - 1] == items[last] && applied[n..][|items[n..]| - 1] == applied[last]
  {
  }

  lemma {:induction false} CountedApart(items: seq<Item>, applied: seq<bool>, n: nat, table: Table)
    requires |applied| == |items| && n <= |items|
    ensures Counted(items, applied, table) == Counted(items[..n], applied[..n], table) + Counted(items[n..], applied[n..], table)
  {
    if n == |items| {
      assert items[..n] == items && applied[..n] == applied;
    } else {
      CountedApart(items[..|items| - 1], applied[..|items| - 1], n, table);
      Splitting(items, applied, n);
    }
  }

  lemma {:induction false} SkippedApart(items: seq<Item>, applied: seq<bool>, n: nat, table: Table)
    requires |applied| == |items| && n <= |items|
    ensures Skipped(items, applied, table) == Skipped(items[..n], applied[..n], table) + Skipped(items[n..], applied[n..], table)
  {
    if n == |items| {
      assert items[..n] == items && applied[..n] == applied;
    } else {
      SkippedApart(items[..|items| - 1], applied[..|items| - 1], n, table);
      Splitting(items, applied, n);
    }
  }

  lemma {:induction false} NoneOfOtherTables(items: seq<Item>, applied: seq<bool>, of: Table, table: Table)
    requires |applied| == |items| && AllOf(items, of) && table != of
    ensures Counted(items, applied, table) == 0 && Skipped(items, applied, table) == []
  {
    if items != [] { NoneOfOtherTables(items[..|items| - 1], applied[..|items| - 1], of, table); }
  }

  class TaskCache {
    var rows: map<Key, Record>
    var resources: map<string, Resource>
    const others: set<Key>

    constructor (cache: Cache)
      ensures Contents() == cache
    {
      rows, resources, others := cache.rows, cache.resources, cache.others;
    }

    function Contents(): Cache
      reads this
    {
      Cache(rows, resources, others)
    }

    /** One row in its savepoint: the secured resource is written before the row, and rolled back
        with it. A refusal leaves the rest to the caller's rollback. */
    method ApplyOne(ctx: Context, item: Item) returns (applied: bool, refused: bool)
      modifies this
      ensures match ApplyRow(ctx, old(Contents()), item)
              case Refused => refused
              case Deferred => !refused && !applied && Contents() == old(Contents())
              case Applied(after) => !refused && applied && Contents() == after
    {
      var before := Contents();
      applied, refused := false, !ctx.fits(before, item);
      if Secured(item.table) {
        resources := resources[item.id := Resource(item.table, ctx.scope, SourceVersion(item))];
      }
      if Strip(ctx.space, item.id) == "" {
        refused := true;
      } else if !refused && !ParentsIn(item, before.Keys()) {
        resources := before.resources;
      } else if !refused {
        rows := rows[item.Self() := Upserted(ctx, before, item)];
        applied := true;
      }
    }

    /** The loop over one table's rows, after `done` of a pass that started from `start`. */
    method ApplyTable(ctx: Context, ghost start: Cache, ghost done: seq<Item>, items: seq<Item>, table: Table)
      returns (count: nat, skipped: seq<string>, refused: bool)
      requires AllOf(items, table)
      requires SweepRows(ctx, start, done).Swept? && Contents() == SweepRows(ctx, start, done).cache
      modifies this
      ensures refused ==> SweepRows(ctx, start, done + items).SweepRefused?
      ensures !refused ==> TableDone(ctx, start, done, items, table, Contents(), count, skipped)
    {
      var i := 0;
      count, skipped, refused := 0, [], false;
      NoRowDone(ctx, start, done, items, table);
      while i < |items| && !refused
        invariant i <= |items|
        invariant refused ==> SweepRows(ctx, start, done + items[..i]).SweepRefused?
        invariant !refused ==> TableDone(ctx, start, done, items[..i], table, Contents(), count, skipped)
      {
        RowDone(ctx, start, done, items, i, table, Contents(), count, skipped);
        var applied, failed := ApplyOne(ctx, items[i]);
        if failed {
          refused := true;
        } else if applied {
          count := count + 1;
        } else {
          skipped := skipped + [items[i].id];
        }
        i := i + 1;
      }
      if refused { TableRefused(ctx, start, done, items, i); } else { assert items[..i] == items; }
    }

    /** The six row loops. */
    method ApplyTables(ctx: Context, snapshot: map<Table, seq<Item>>)
      returns (counts: map<Table, nat>, skipped: map<Table, seq<string>>, pending: bool, refused: bool)
      requires IsSnapshot(snapshot)
      modifies this
      ensures refused ==> SweepRows(ctx, old(Contents()), Flattened(snapshot, ORDER)).SweepRefused?
      ensures !refused ==> PassDone(ctx, old(Contents()), snapshot, |ORDER|, Contents(), counts, skipped, pending)
    {
      ghost var start := Contents();
      var i := 0;
      counts, skipped, pending, refused := map[], map[], false, false;
      NoTableDone(ctx, start, snapshot);
      while i < |ORDER| && !refused
        invariant i <= |ORDER|
        invariant refused ==> SweepRows(ctx, start, Flattened(snapshot, ORDER[..i])).SweepRefused?
        invariant !refused ==> PassDone(ctx, start, snapshot, i, Contents(), counts, skipped, pending)
      {
        ghost var before := Contents();
        var count, ids, failed := ApplyTable(ctx, start, Flattened(snapshot, ORDER[..i]), snapshot[ORDER[i]], ORDER[i]);
        assert ORDER[..i + 1][..i] == ORDER[..i];
        if failed {
          refused := true;
        } else {
          OneTableMore(ctx, start, snapshot, i, before, counts, skipped, pending, Contents(), count, ids);
          counts, skipped, pending := counts[ORDER[i] := count], skipped[ORDER[i] := ids], pending || ids != [];
        }
        i := i + 1;
      }
      if refused { PassRefused(ctx, start, snapshot, i); }
    }

    /** `apply`: the row loops, then the closing updates if nothing was deferred. An exception rolls
        everything back. */
    method ApplySnapshot(ctx: Context, snapshot: map<Table, seq<Item>>, replaceSnapshot: bool) returns (report: Report)
      requires IsSnapshot(snapshot)
      modifies this
      ensures var items := Flattened(snapshot, ORDER);
              match Apply(ctx, old(Contents()), items, replaceSnapshot)
              case SweepRefused => report == ApplyFailed && Contents() == old(Contents())
              case Swept(after, applied) =>
                && report.Report? && Contents() == after
                && (report.pendingRetry <==> !AllApplied(applied))
                && forall k :: 0 <= k < |ORDER| ==> Reported(report.counts, report.skipped, items, applied, ORDER[k])
    {
      var before := Contents();
      var counts, skipped, pending, refused := ApplyTables(ctx, snapshot);
      assert ORDER[..|ORDER|] == ORDER;
      if refused {
        rows, resources := before.rows, before.resources;
        report := ApplyFailed;
      } else {
        if replaceSnapshot && !pending { MarkAbsentStale(ctx, Flattened(snapshot, ORDER)); }
        report := Report(counts, skipped, pending);
      }
    }

    /** One UPDATE for each of the five tables that have absentees to mark. */
    method MarkAbsentStale(ctx: Context, items: seq<Item>)
      modifies this
      ensures Contents() == MarkAbsent(ctx, old(Contents()), items)
    {
      var i := 0;
      ghost var start := Contents();
      while i < |MARKED|
        invariant i <= |MARKED|
        invariant Contents() == MarkedSoFar(ctx, start, items, i)
      {
        rows := MarkTable(ctx, Contents(), MARKED[i], IdsOf(ctx, items, MARKED[i])).rows;
        i := i + 1;
      }
      AllMarked(ctx, start, items);
    }
  }

  /** The pass over `done` and then `items` of one table got this far, with this tally of `items`. */
  predicate TableDone(ctx: Context, start: Cache, done: seq<Item>, items: seq<Item>, table: Table, cache: Cache,
                      count: nat, skipped: seq<string>)
  {
    match SweepRows(ctx, start, done + items)
    case SweepRefused => false
    case Swept(after, applied) =>
      && after == cache
      && SweepRows(ctx, start, done).Swept? && SweepRows(ctx, start, done).applied == applied[..|done|]
      && count == Counted(items, applied[|done|..], table) && skipped == Skipped(items, applied[|done|..], table)
  }

  lemma NoRowDone(ctx: Context, start: Cache, done: seq<Item>, items: seq<Item>, table: Table)
    requires SweepRows(ctx, start, done).Swept?
    ensures TableDone(ctx, start, done, items[..0], table, SweepRows(ctx, start, done).cache, 0, [])
  {
    assert done + items[..0] == done;
  }

  lemma TableRefused(ctx: Context, start: Cache, done: seq<Item>, items: seq<Item>, i: nat)
    requires i <= |items| && SweepRows(ctx, start, done + items[..i]).SweepRefused?
    ensures SweepRows(ctx, start, done + items).SweepRefused?
  {
    assert (done + items)[..|done| + i] == done + items[..i];
    SweepRefusedStays(ctx, start, done + items, |done| + i);
  }

  lemma SweepOneMore(ctx: Context, start: Cache, items: seq<Item>, item: Item)
    requires SweepRows(ctx, start, items).Swept?
    ensures var before := SweepRows(ctx, start, items);
            SweepRows(ctx, start, items + [item])
            == match ApplyRow(ctx, before.cache, item)
               case Refused => SweepRefused
               case Deferred => Swept(before.cache, before.applied + [false])
               case Applied(after) => Swept(after, before.applied + [true])
  {
  }

  lemma TallyRow(items: seq<Item>, flags: seq<bool>, item: Item, applied: bool, table: Table)
    requires |flags| == |items| && item.table == table
    ensures Counted(items + [item], flags + [applied], table) == Counted(items, flags, table) + if applied then 1 else 0
    ensures Skipped(items + [item], flags + [applied], table) == Skipped(items, flags, table) + if applied then [] else [item.id]
  {
  }

  lemma RowDone(ctx: Context, start: Cache, done: seq<Item>, items: seq<Item>, i: nat, table: Table, cache: Cache,
                count: nat, skipped: seq<string>)
    requires i < |items| && items[i].table == table && TableDone(ctx, start, done, items[..i], table, cache, count, skipped)
    ensures match ApplyRow(ctx, cache, items[i])
            case Refused => SweepRows(ctx, start, done + items[..i + 1]).SweepRefused?
            case Deferred => TableDone(ctx, start, done, items[..i + 1], table, cache, count, skipped + [items[i].id])
            case Applied(after) => TableDone(ctx, start, done, items[..i + 1], table, after, count + 1, skipped)
  {
    var before := SweepRows(ctx, start, done + items[..i]).applied;
    var applied := ApplyRow(ctx, cache, items[i]).Applied?;
    OneMoreItem(done, items, i);
    SweepOneMore(ctx, start, done + items[..i], items[i]);
    TallyRow(items[..i], before[|done|..], items[i], applied, table);
    OneMoreFlag(before, applied, |done|);
  }

  lemma OneMoreItem(done: seq<Item>, items: seq<Item>, i: nat)
    requires i < |items|
    ensures items[..i + 1] == items[..i] + [items[i]] && done + items[..i + 1] == done + items[..i] + [items[i]]
  {
  }

  lemma OneMoreFlag(flags: seq<bool>, flag: bool, n: nat)
    requires n <= |flags|
    ensures (flags + [flag])[..n] == flags[..n] && (flags + [flag])[n..] == flags[n..] + [flag]
  {
  }

  predicate Reported(counts: map<Table, nat>, skipped: map<Table, seq<string>>, items: seq<Item>, applied: seq<bool>, table: Table)
    requires |applied| == |items|
  {
    && table in counts && counts[table] == Counted(items, applied, table)
    && table in skipped && skipped[table] == Skipped(items, applied, table)
  }

  predicate Tallied(counts: map<Table, nat>, skipped: map<Table, seq<string>>, items: seq<Item>, applied: seq<bool>, n: nat)
    requires |applied| == |items| && n <= |ORDER|
  {
    && (forall k :: 0 <= k < n ==> Reported(counts, skipped, items, applied, ORDER[k]))
    && (forall k :: n <= k < |ORDER| ==> Counted(items, applied, ORDER[k]) == 0 && Skipped(items, applied, ORDER[k]) == [])
  }

  /** Appending rows of one table leaves the tallies of every other table alone. */
  lemma TallyApart(done: seq<Item>, items: seq<Item>, applied: seq<bool>, of: Table, table: Table)
    requires AllOf(items, of) && |applied| == |done| + |items|
    ensures Counted(done + items, applied, table)
            == Counted(done, applied[..|done|], table) + if table == of then Counted(items, applied[|done|..], table) else 0
    ensures Skipped(done + items, applied, table)
            == Skipped(done, applied[..|done|], table) + if table == of then Skipped(items, applied[|done|..], table) else []
  {
    var all := done + items;
    assert all[..|done|] == done && all[|done|..] == items;
    CountedApart(all, applied, |done|, table);
    SkippedApart(all, applied, |done|, table);
    if table != of { NoneOfOtherTables(items, applied[|done|..], of, table); }
  }

  lemma AllAppliedApart(applied: seq<bool>, n: nat)
    requires n <= |applied|
    ensures AllApplied(applied) <==> AllApplied(applied[..n]) && AllApplied(applied[n..])
  {
  }

  lemma OtherTablesTally(done: seq<Item>, items: seq<Item>, applied: seq<bool>, of: Table, table: Table)
    requires AllOf(items, of) && |applied| == |done| + |items| && table != of
    ensures Counted(done + items, applied, table) == Counted(done, applied[..|done|], table)
    ensures Skipped(done + items, applied, table) == Skipped(done, applied[..|done|], table)
  {
    TallyApart(done, items, applied, of, table);
  }

  lemma ThisTableTally(done: seq<Item>, items: seq<Item>, applied: seq<bool>, of: Table)
    requires AllOf(items, of) && |applied| == |done| + |items|
    requires Counted(done, applied[..|done|], of) == 0 && Skipped(done, applied[..|done|], of) == []
    ensures Counted(done + items, applied, of) == Counted(items, applied[|done|..], of)
    ensures Skipped(done + items, applied, of) == Skipped(items, applied[|done|..], of)
  {
    TallyApart(done, items, applied, of, of);
  }

  lemma {:induction false} TallyOneMore(counts: map<Table, nat>, skipped: map<Table, seq<string>>, done: seq<Item>, items: seq<Item>,
                                        applied: seq<bool>, n: nat)
    requires n < |ORDER| && AllOf(items, ORDER[n]) && |applied| == |done| + |items|
    requires Tallied(counts, skipped, done, applied[..|done|], n)
    ensures Tallied(counts[ORDER[n] := Counted(items, applied[|done|..], ORDER[n])],
                    skipped[ORDER[n] := Skipped(items, applied[|done|..], ORDER[n])], done + items, applied, n + 1)
  {
    forall k | 0 <= k < |ORDER| && k != n
      ensures ORDER[k] != ORDER[n]
      ensures Counted(done + items, applied, ORDER[k]) == Counted(done, applied[..|done|], ORDER[k])
      ensures Skipped(done + items, applied, ORDER[k]) == Skipped(done, applied[..|done|], ORDER[k])
    {
      OtherTablesTally(done, items, applied, ORDER[n], ORDER[k]);
    }
    ThisTableTally(done, items, applied, ORDER[n]);
  }

  lemma {:induction false} SkippedMeansDeferred(items: seq<Item>, applied: seq<bool>, table: Table)
    requires |applied| == |items| && AllOf(items, table)
    ensures Skipped(items, applied, table) == [] <==> AllApplied(applied)
  {
    if items != [] {
      var last := |items| - 1;
      SkippedMeansDeferred(items[..last], applied[..last], table);
      if AllApplied(applied[..last]) && applied[last] { assert AllApplied(applied); }
    }
  }

  /** The pass over the first `n` tables got this far. */
  predicate PassDone(ctx: Context, start: Cache, snapshot: map<Table, seq<Item>>, n: nat, cache: Cache,
                     counts: map<Table, nat>, skipped: map<Table, seq<string>>, pending: bool)
    requires IsSnapshot(snapshot) && n <= |ORDER|
  {
    match SweepRows(ctx, start, Flattened(snapshot, ORDER[..n]))
    case SweepRefused => false
    case Swept(after, applied) =>
      && after == cache && (pending <==> !AllApplied(applied))
      && Tallied(counts, skipped, Flattened(snapshot, ORDER[..n]), applied, n)
  }

  lemma NoTableDone(ctx: Context, start: Cache, snapshot: map<Table, seq<Item>>)
    requires IsSnapshot(snapshot)
    ensures PassDone(ctx, start, snapshot, 0, start, map[], map[], false)
  {
  }

  /** One more table's rows, with their tally, after a pass over `done` that is fully tallied. */
  lemma TableTallied(done: seq<Item>, items: seq<Item>, flags: seq<bool>, i: nat, counts: map<Table, nat>,
                     skipped: map<Table, seq<string>>, pending: bool)
    requires i < |ORDER| && AllOf(items, ORDER[i]) && |flags| == |done| + |items|
    requires Tallied(counts, skipped, done, flags[..|done|], i) && (pending <==> !AllApplied(flags[..|done|]))
    ensures var count, ids := Counted(items, flags[|done|..], ORDER[i]), Skipped(items, flags[|done|..], ORDER[i]);
            && Tallied(counts[ORDER[i] := count], skipped[ORDER[i] := ids], done + items, flags, i + 1)
            && (pending || ids != [] <==> !AllApplied(flags))
  {
    TallyOneMore(counts, skipped, done, items, flags, i);
    AllAppliedApart(flags, |done|);
    SkippedMeansDeferred(items, flags[|done|..], ORDER[i]);
  }

  lemma {:induction false} OneTableMore(ctx: Context, start: Cache, snapshot: map<Table, seq<Item>>, i: nat, before: Cache, counts: map<Table, nat>,
                     skipped: map<Table, seq<string>>, pending: bool, cache: Cache, count: nat, ids: seq<string>)
    requires IsSnapshot(snapshot) && i < |ORDER| && PassDone(ctx, start, snapshot, i, before, counts, skipped, pending)
    requires TableDone(ctx, start, Flattened(snapshot, ORDER[..i]), snapshot[ORDER[i]], ORDER[i], cache, count, ids)
    ensures PassDone(ctx, start, snapshot, i + 1, cache, counts[ORDER[i] := count], skipped[ORDER[i] := ids], pending || ids != [])
  {
    var done, items := Flattened(snapshot, ORDER[..i]), snapshot[ORDER[i]];
    FlattenedOneMore(snapshot, i);
    TableTallied(done, items, SweepRows(ctx, start, done + items).applied, i, counts, skipped, pending);
  }

  lemma FlattenedOneMore(snapshot: map<Table, seq<Item>>, i: nat)
    requires IsSnapshot(snapshot) && i < |ORDER|
    ensures Flattened(snapshot, ORDER[..i + 1]) == Flattened(snapshot, ORDER[..i]) + snapshot[ORDER[i]]
  {
    assert ORDER[..i + 1][..i] == ORDER[..i];
  }

  lemma PassRefused(ctx: Context, start: Cache, snapshot: map<Table, seq<Item>>, i: nat)
    requires IsSnapshot(snapshot) && i <= |ORDER| && SweepRows(ctx, start, Flattened(snapshot, ORDER[..i])).SweepRefused?
    ensures SweepRows(ctx, start, Flattened(snapshot, ORDER)).SweepRefused?
  {
    FlattenedPrefix(snapshot, i);
    assert Flattened(snapshot, ORDER)[..|Flattened(snapshot, ORDER[..i])|] == Flattened(snapshot, ORDER[..i]);
    SweepRefusedStays(ctx, start, Flattened(snapshot, ORDER), |Flattened(snapshot, ORDER[..i])|);
  }

  lemma FlattenedPrefix(snapshot: map<Table, seq<Item>>, n: nat)
    requires IsSnapshot(snapshot) && n <= |ORDER|
    ensures Flattened(snapshot, ORDER[..n]) <= Flattened(snapshot, ORDER)
    decreases |ORDER| - n
  {
    if n < |ORDER| {
      FlattenedPrefix(snapshot, n + 1);
      FlattenedOneMore(snapshot, n);
    } else {
      assert ORDER[..n] == ORDER;
    }
  }

  function MarkedSoFar(ctx: Context, cache: Cache, items: seq<Item>, n: nat): Cache
    requires n <= |MARKED|
  {
    cache.(rows := map k | k in cache.rows ::
      if k.table in MARKED[..n] then Marked(ctx, IdsOf(ctx, items, k.table), k, cache.rows[k]) else cache.rows[k])
  }

  lemma AllMarked(ctx: Context, cache: Cache, items: seq<Item>)
    ensures MarkedSoFar(ctx, cache, items, |MARKED|) == MarkAbsent(ctx, cache, items)
  {
    assert MARKED[..|MARKED|] == MARKED;
  }

  // ---------- one pass is enough for a snapshot in order ----------

  /** Lists come before tasks, tasks before views, and these before what hangs on them. */
  function Rank(table: Table): nat {
    match table
    case TaskLists => 0
    case Tasks => 1
    case TaskViews => 2
    case TaskCollaborators => 3
    case CalendarEntries => 4
    case ExecutionRuns => 5
    case OtherTable(_) => 6
  }

  predicate Ranked(items: seq<Item>) {
    forall i, j :: 0 <= i < j < |items| ==> Rank(items[i].table) <= Rank(items[j].table)
  }

  /** Every reference names a key that is there, the row itself, or a row of a table before its own. */
  predicate RefersBack(keys: set<Key>, items: seq<Item>, item: Item) {
    forall c :: c in item.refs && item.refs[c].Some? ==>
      var parent := item.refs[c].value;
      parent in keys || parent == item.Self() || (Rank(parent.table) < Rank(item.table) && exists j :: 0 <= j < |items| && items[j].Self() == parent)
  }

  predicate AllReferBack(keys: set<Key>, items: seq<Item>) {
    forall i :: 0 <= i < |items| ==> RefersBack(keys, items, items[i])
  }

  lemma FrontRefersBack(keys: set<Key>, items: seq<Item>)
    requires items != [] && Ranked(items) && AllReferBack(keys, items)
    ensures Ranked(items[..|items| - 1]) && AllReferBack(keys, items[..|items| - 1])
  {
    var front := items[..|items| - 1];
    forall i | 0 <= i < |front|
      ensures RefersBack(keys, front, front[i])
    {
      assert RefersBack(keys, items, items[i]);
      forall c | c in front[i].refs && front[i].refs[c].Some? && Rank(front[i].refs[c].value.table) < Rank(front[i].table)
        ensures (exists j :: 0 <= j < |items| && items[j].Self() == front[i].refs[c].value)
                ==> exists j :: 0 <= j < |front| && front[j].Self() == front[i].refs[c].value
      {
        if j :| 0 <= j < |items| && items[j].Self() == front[i].refs[c].value {
          assert j < |front| && front[j].Self() == front[i].refs[c].value;
        }
      }
    }
  }

  lemma {:induction false} RankedPassAppliesAll(keys: set<Key>, items: seq<Item>)
    requires Ranked(items) && AllReferBack(keys, items)
    ensures AllApplied(AppliedWith(keys, items))
    ensures keys <= KeysAfter(keys, items) && forall i :: 0 <= i < |items| ==> items[i].Self() in KeysAfter(keys, items)
  {
    if items != [] {
      var front, last := items[..|items| - 1], items[|items| - 1];
      FrontRefersBack(keys, items);
      RankedPassAppliesAll(keys, front);
      assert RefersBack(keys, items, last);
      forall c | c in last.refs && last.refs[c].Some?
        ensures last.refs[c].value in KeysAfter(keys, front) || last.refs[c].value == last.Self()
      {
        var parent := last.refs[c].value;
        if parent !in keys && parent != last.Self() {
          var j :| 0 <= j < |items| && items[j].Self() == parent;
          assert j < |front| && front[j].Self() == parent;
        }
      }
      assert ParentsIn(last, KeysAfter(keys, front));
    }
  }

  lemma {:induction false} FlattenedIsRanked(snapshot: map<Table, seq<Item>>, n: nat)
    requires IsSnapshot(snapshot) && n <= |ORDER|
    ensures Ranked(Flattened(snapshot, ORDER[..n]))
    ensures forall i :: 0 <= i < |Flattened(snapshot, ORDER[..n])| ==> Rank(Flattened(snapshot, ORDER[..n])[i].table) < n
  {
    if n > 0 {
      FlattenedIsRanked(snapshot, n - 1);
      assert ORDER[..n][..n - 1] == ORDER[..n - 1] && Rank(ORDER[n - 1]) == n - 1;
      var front, items := Flattened(snapshot, ORDER[..n - 1]), Flattened(snapshot, ORDER[..n]);
      assert items == front + snapshot[ORDER[n - 1]];
      assert AllOf(snapshot[ORDER[n - 1]], ORDER[n - 1]);
    }
  }

  /** The order of the row loops: a snapshot whose rows refer only to what is there, to themselves and
      to rows of the tables before theirs is applied in one pass, with nothing deferred. */
  lemma OnePassIsEnough(ctx: Context, cache: Cache, snapshot: map<Table, seq<Item>>, replaceSnapshot: bool)
    requires IsSnapshot(snapshot) && AllReferBack(cache.Keys(), Flattened(snapshot, ORDER))
    requires Apply(ctx, cache, Flattened(snapshot, ORDER), replaceSnapshot).Swept?
    ensures AllApplied(Apply(ctx, cache, Flattened(snapshot, ORDER), replaceSnapshot).applied)
  {
    FlattenedIsRanked(snapshot, |ORDER|);
    assert ORDER[..|ORDER|] == ORDER;
    RankedPassAppliesAll(cache.Keys(), Flattened(snapshot, ORDER));
    ApplyByKeys(ctx, cache, Flattened(snapshot, ORDER), replaceSnapshot);
  }
}
