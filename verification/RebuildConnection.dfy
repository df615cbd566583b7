/** The rebuild and the migrators as they run: statement by statement on an open target database. */
module RebuildConnection {
  import opened Options
  import opened OfflineRebuild
  import opened RebuildAgreement

  function TotalRows(db: Database, tables: seq<Table>): nat
    requires forall i :: 0 <= i < |tables| ==> tables[i] in db
  {
    if tables == [] then 0 else TotalRows(db, tables[..|tables| - 1]) + |db[tables[|tables| - 1]]|
  }

  predicate Lists(allowed: seq<Table>, tables: set<Table>) {
    && (forall i :: 0 <= i < |allowed| ==> allowed[i] in tables)
    && (forall i, j :: 0 <= i < j < |allowed| ==> allowed[i] != allowed[j])
    && tables <= (set i | 0 <= i < |allowed| :: allowed[i])
  }

  function EmptyTables(schema: Schema): Database {
    map t | t in schema :: []
  }

  /** The tables copied so far, the others still empty. */
  function CopiedSoFar(source: Database, from: Schema, to: Schema, done: set<Table>): (r: Database)
    requires source.Keys == from.Keys == to.Keys
    ensures r.Keys == to.Keys
  {
    map t | t in to :: if t in done then CopiedRows(t, from[t], to[t], source[t]) else []
  }

  function FirstTables(allowed: seq<Table>, n: nat): set<Table>
    requires n <= |allowed|
  {
    set k | 0 <= k < n :: allowed[k]
  }

  /** The first `n` tables are copied, and so many rows. */
  predicate CopiedFirst(source: Database, from: Schema, to: Schema, allowed: seq<Table>, n: nat, tables: Database, copied: nat)
    requires source.Keys == from.Keys == to.Keys && n <= |allowed|
    requires forall i :: 0 <= i < |allowed| ==> allowed[i] in source
  {
    tables == CopiedSoFar(source, from, to, FirstTables(allowed, n)) && copied == TotalRows(source, allowed[..n])
  }

  lemma NothingCopied(source: Database, from: Schema, to: Schema, allowed: seq<Table>)
    requires source.Keys == from.Keys == to.Keys && forall i :: 0 <= i < |allowed| ==> allowed[i] in source
    ensures CopiedFirst(source, from, to, allowed, 0, EmptyTables(to), 0)
  {
  }

  lemma CopiedOneMore(source: Database, from: Schema, to: Schema, done: set<Table>, t: Table)
    requires source.Keys == from.Keys == to.Keys && t in to && t !in done
    ensures CopiedSoFar(source, from, to, done + {t})
            == CopiedSoFar(source, from, to, done)
                 [t := CopiedSoFar(source, from, to, done)[t] + CopiedRows(t, from[t], to[t], source[t])]
  {
    var before, after := CopiedSoFar(source, from, to, done), CopiedSoFar(source, from, to, done + {t});
    assert [] + CopiedRows(t, from[t], to[t], source[t]) == CopiedRows(t, from[t], to[t], source[t]);
    forall u | u in to && u != t
      ensures after[u] == before[u]
    {
    }
  }

  lemma FirstTablesOneMore(allowed: seq<Table>, n: nat)
    requires n < |allowed| && forall i, j :: 0 <= i < j < |allowed| ==> allowed[i] != allowed[j]
    ensures FirstTables(allowed, n + 1) == FirstTables(allowed, n) + {allowed[n]} && allowed[n] !in FirstTables(allowed, n)
  {
  }

  lemma TotalOneMore(db: Database, tables: seq<Table>, n: nat)
    requires n < |tables| && forall i :: 0 <= i < |tables| ==> tables[i] in db
    ensures TotalRows(db, tables[..n + 1]) == TotalRows(db, tables[..n]) + |db[tables[n]]|
  {
    assert tables[..n + 1][..n] == tables[..n];
  }

  lemma {:induction false} OneTableMore(source: Database, from: Schema, to: Schema, allowed: seq<Table>, n: nat, tables: Database, copied: nat)
    requires source.Keys == from.Keys == to.Keys && Lists(allowed, to.Keys) && n < |allowed|
    requires CopiedFirst(source, from, to, allowed, n, tables, copied)
    ensures allowed[n] in tables
    ensures var t := allowed[n];
            CopiedFirst(source, from, to, allowed, n + 1, tables[t := tables[t] + CopiedRows(t, from[t], to[t], source[t])],
                        copied + |source[t]|)
  {
    FirstTablesOneMore(allowed, n);
    CopiedOneMore(source, from, to, FirstTables(allowed, n), allowed[n]);
    TotalOneMore(source, allowed, n);
  }

  lemma AllCopied(source: Database, from: Schema, to: Schema, allowed: seq<Table>, tables: Database, copied: nat)
    requires source.Keys == from.Keys == to.Keys && Lists(allowed, to.Keys)
    requires CopiedFirst(source, from, to, allowed, |allowed|, tables, copied)
    ensures tables == CopiedDatabase(source, from, to) && copied == TotalRows(source, allowed)
  {
    assert allowed[..|allowed|] == allowed;
  }

  class Connection {
    var tables: Database

    /** A new file with the schema's tables, all empty. */
    constructor (schema: Schema)
      ensures tables == EmptyTables(schema)
    {
      tables := EmptyTables(schema);
    }

    method CopyTable(table: Table, had: set<Column>, columns: set<Column>, rows: Rows) returns (count: nat)
      requires table in tables
      modifies this
      ensures tables == old(tables)[table := old(tables[table]) + CopiedRows(table, had, columns, rows)]
      ensures count == |rows|
    {
      var inserted: Rows := [];
      count := 0;
      while count < |rows|
        invariant count <= |rows| && tables == old(tables)
        invariant inserted == CopiedRows(table, had, columns, rows)[..count]
      {
        var row := Recast(rows[count], columns);
        if table == Recordings && BindingKind !in had { row := row[BindingKind := MEETING]; }
        inserted := inserted + [row];
        count := count + 1;
      }
      assert inserted == CopiedRows(table, had, columns, rows);
      tables := tables[table := tables[table] + inserted];
    }

    /** UPDATE ... SET planning_cycle_id = plan WHERE id = ? [AND planning_cycle_id IS NULL]. */
    method UpdatePlan(table: Table, id: Value, plan: Value, onlyNull: bool) returns (rowcount: nat)
      requires table in tables
      modifies this
      ensures tables == old(tables)[table := SetPlan(old(tables[table]), id, plan, onlyNull)]
      ensures rowcount == RowCount(old(tables[table]), id, onlyNull)
    {
      var rows, updated, i := tables[table], [], 0;
      rowcount := 0;
      while i < |rows|
        invariant i <= |rows| && tables == old(tables)
        invariant updated == SetPlan(rows, id, plan, onlyNull)[..i]
        invariant rowcount == RowCount(rows[..i], id, onlyNull)
      {
        assert rows[..i + 1][..i] == rows[..i];
        if Hit(rows[i], id, onlyNull) {
          updated := updated + [rows[i][PlanningCycleId := plan]];
          rowcount := rowcount + 1;
        } else {
          updated := updated + [rows[i]];
        }
        i := i + 1;
      }
      assert rows[..i] == rows && updated == SetPlan(rows, id, plan, onlyNull);
      tables := tables[table := updated];
    }

    method AssignTaskPlans(links: seq<Link>) returns (refusal: Option<Refusal>)
      requires Tasks in tables
      modifies this
      ensures match AssignTasks(old(tables)[Tasks], links)
              case Built(tasks) => refusal == None && tables == old(tables)[Tasks := tasks]
              case Refused(why) => refusal == Some(why)
    {
      var i := 0;
      refusal := None;
      while i < |links| && refusal.None?
        invariant i <= |links| && Tasks in tables
        invariant refusal.None? ==> AssignTasks(old(tables)[Tasks], links[..i]) == Built(tables[Tasks])
                                    && tables == old(tables)[Tasks := tables[Tasks]]
        invariant refusal.Some? ==> AssignTasks(old(tables)[Tasks], links[..i]) == Refused(refusal.value)
      {
        assert links[..i + 1][..i] == links[..i];
        var updated := UpdatePlan(Tasks, links[i].0, links[i].1, true);
        if updated != 1 { refusal := Some(TaskLinkLost(links[i].0)); }
        i := i + 1;
      }
      if refusal.None? { assert links[..i] == links; } else { TaskRefusalStays(old(tables)[Tasks], links, i); }
    }

    method AssignMeetingPlans(items: seq<Link>) returns (refusal: Option<Refusal>)
      requires Meetings in tables
      modifies this
      ensures match AssignMeetings(old(tables)[Meetings], items)
              case Built(meetings) => refusal == None && tables == old(tables)[Meetings := meetings]
              case Refused(why) => refusal == Some(why)
    {
      var i := 0;
      refusal := None;
      while i < |items| && refusal.None?
        invariant i <= |items| && Meetings in tables
        invariant refusal.None? ==> AssignMeetings(old(tables)[Meetings], items[..i]) == Built(tables[Meetings])
                                    && tables == old(tables)[Meetings := tables[Meetings]]
        invariant refusal.Some? ==> AssignMeetings(old(tables)[Meetings], items[..i]) == Refused(refusal.value)
      {
        assert items[..i + 1][..i] == items[..i];
        var updated := UpdatePlan(Meetings, items[i].0, items[i].1, false);
        if updated != 1 { refusal := Some(MeetingLinkLost(items[i].0)); }
        i := i + 1;
      }
      if refusal.None? { assert items[..i] == items; } else { MeetingRefusalStays(old(tables)[Meetings], items, i); }
    }

    /** `_apply_v8_semantics`: the nested plans counted, the tasks updated from the decision actions,
        the meeting links collected into a dictionary and written. A refusal leaves a half-updated
        target to the caller's rollback. */
    method ApplyV8Semantics(source: Database) returns (refusal: Option<Refusal>)
      requires HasV8Tables(source) && HasV8Tables(tables)
      modifies this
      ensures match V8Semantics(source, old(tables))
              case Built(target) => refusal == None && tables == target
              case Refused(why) => refusal == Some(why)
    {
      var nested := CountNested(source[PlanningCycles]);
      if nested > 0 {
        refusal := Some(NestedPlan);
      } else {
        refusal := AssignTaskPlans(TaskPairs(source));
        if refusal.None? {
          var items;
          items, refusal := CollectMeetingLinks(MeetingPairs(source));
          if refusal.None? { refusal := AssignMeetingPlans(items); }
        }
      }
    }

    method CopyTables(source: Database, allowed: seq<Table>, from: Schema, to: Schema) returns (copied: nat)
      requires source.Keys == from.Keys == to.Keys
      requires Lists(allowed, to.Keys) && tables == EmptyTables(to)
      modifies this
      ensures tables == CopiedDatabase(source, from, to) && copied == TotalRows(source, allowed)
    {
      var i := 0;
      copied := 0;
      NothingCopied(source, from, to, allowed);
      while i < |allowed|
        invariant i <= |allowed| && CopiedFirst(source, from, to, allowed, i, tables, copied)
      {
        OneTableMore(source, from, to, allowed, i, tables, copied);
        var count := CopyTable(allowed[i], from[allowed[i]], to[allowed[i]], source[allowed[i]]);
        copied, i := copied + count, i + 1;
      }
      AllCopied(source, from, to, allowed, tables, copied);
    }

    /** The old identities superseded, the new one and its ledger row inserted. */
    method Insert(stamp: Stamp, generation: Value)
      requires SchemaVersions in tables && MigrationLedger in tables
      modifies this
      ensures tables == Stamped(old(tables), stamp, TEN, generation)
    {
      var rows, i := tables[SchemaVersions], 0;
      while i < |rows|
        invariant i <= |rows| == |tables[SchemaVersions]| && SchemaVersions in tables && tables == old(tables)
        invariant rows == Superseded(old(tables)[SchemaVersions])[..i] + old(tables)[SchemaVersions][i..]
      {
        if Get(rows[i], Status) == ACTIVE { rows := rows[i := rows[i][Status := SUPERSEDED]]; }
        i := i + 1;
      }
      assert rows == Superseded(old(tables)[SchemaVersions]);
      tables := tables[SchemaVersions := rows + [NewIdentity(stamp, TEN, generation)]];
      tables := tables[MigrationLedger := tables[MigrationLedger] + [stamp.ledger]];
    }

    /** `_build_v10`; a refused build is rolled back to the empty target. */
    method BuildV10(source: Database, version: nat, allowed: seq<Table>, from: Schema, to: Schema, stamp: Stamp,
                    sound: Database -> bool)
      returns (outcome: BuildOutcome, copied: nat)
      requires source.Keys == from.Keys == to.Keys && HasV8Tables(source)
      requires SchemaVersions in source && MigrationLedger in source
      requires Lists(allowed, to.Keys) && tables == EmptyTables(to)
      modifies this
      ensures outcome == Build(source, version, from, to, stamp, sound)
      ensures tables == if outcome.BuiltV10? then outcome.db else old(tables)
      ensures outcome.BuiltV10? ==> copied == TotalRows(source, allowed)
    {
      var empty := tables;
      var identity := ActiveIdentity(source[SchemaVersions]);
      copied := 0;
      if identity.None? {
        outcome := NoActiveIdentity;
      } else {
        copied := CopyTables(source, allowed, from, to);
        var refusal: Option<Refusal> := None;
        if version == 8 { refusal := ApplyV8Semantics(source); }
        if refusal.Some? {
          outcome := Lossy(refusal.value);
        } else {
          assert tables == Direct(source, version, from, to).result;
          DirectKeepsShape(source, version, from, to);
          Insert(stamp, Generation(source));
          outcome := if !CountsMatch(source, tables) then CountMismatch else if !sound(tables) then Unsound else BuiltV10(tables);
        }
        if !outcome.BuiltV10? { tables := empty; }
      }
    }

    /** The v8 to v9 migrator's updates: every link written as it comes, nothing refused. */
    method RewriteRelations(source: Database)
      requires HasV8Tables(source) && Tasks in tables && Meetings in tables
      modifies this
      ensures tables == old(tables)[Tasks := SetPlans(old(tables)[Tasks], TaskPairs(source), true)]
                                   [Meetings := SetPlans(old(tables)[Meetings], MeetingPairs(source), false)]
    {
      var links, i := TaskPairs(source), 0;
      while i < |links|
        invariant i <= |links| && Tasks in tables && Meetings in tables
        invariant tables == old(tables)[Tasks := SetPlans(old(tables)[Tasks], links[..i], true)]
      {
        assert links[..i + 1][..i] == links[..i];
        var updated := UpdatePlan(Tasks, links[i].0, links[i].1, true);
        i := i + 1;
      }
      assert links[..i] == links;
      ghost var halfway := tables;
      links, i := MeetingPairs(source), 0;
      while i < |links|
        invariant i <= |links| && Tasks in tables && Meetings in tables
        invariant tables == halfway[Meetings := SetPlans(halfway[Meetings], links[..i], false)]
      {
        assert links[..i + 1][..i] == links[..i];
        var updated := UpdatePlan(Meetings, links[i].0, links[i].1, false);
        i := i + 1;
      }
      assert links[..i] == links;
    }
  }

  method CountNested(plans: Rows) returns (nested: nat)
    ensures nested == NestedPlans(plans)
  {
    var i := 0;
    nested := 0;
    while i < |plans|
      invariant i <= |plans| && nested == NestedPlans(plans[..i])
    {
      assert plans[..i + 1][..i] == plans[..i];
      if Get(plans[i], ParentPlanId) != Value.Null { nested := nested + 1; }
      i := i + 1;
    }
    assert plans[..i] == plans;
  }

  /** The `meeting_links` dictionary, filled link by link; its entries in insertion order. */
  method CollectMeetingLinks(links: seq<Link>) returns (items: seq<Link>, refusal: Option<Refusal>)
    ensures match CollectLinks(links)
            case Built(entries) => refusal == None && items == entries
            case Refused(why) => refusal == Some(why)
  {
    var i := 0;
    items, refusal := [], None;
    while i < |links| && refusal.None?
      invariant i <= |links|
      invariant CollectLinks(links[..i]) == if refusal.None? then Built(items) else Refused(refusal.value)
    {
      assert links[..i + 1][..i] == links[..i];
      var meeting, plan := Str(links[i].0), Str(links[i].1);
      var previous := LastPlan(items, meeting);
      if previous.None? {
        items := items + [(meeting, plan)];
      } else if previous.value != plan {
        refusal := Some(MeetingConflict(meeting));
      }
      i := i + 1;
    }
    if refusal.None? { assert links[..i] == links; } else { CollectRefusalStays(links, i); }
  }

  lemma {:induction false} TaskRefusalStays(tasks: Rows, links: seq<Link>, n: nat)
    requires n <= |links| && AssignTasks(tasks, links[..n]).Refused?
    ensures AssignTasks(tasks, links) == AssignTasks(tasks, links[..n])
  {
    if n < |links| {
      assert links[..|links| - 1][..n] == links[..n];
      TaskRefusalStays(tasks, links[..|links| - 1], n);
    } else {
      assert links[..n] == links;
    }
  }

  lemma {:induction false} MeetingRefusalStays(meetings: Rows, items: seq<Link>, n: nat)
    requires n <= |items| && AssignMeetings(meetings, items[..n]).Refused?
    ensures AssignMeetings(meetings, items) == AssignMeetings(meetings, items[..n])
  {
    if n < |items| {
      assert items[..|items| - 1][..n] == items[..n];
      MeetingRefusalStays(meetings, items[..|items| - 1], n);
    } else {
      assert items[..n] == items;
    }
  }

  lemma {:induction false} CollectRefusalStays(links: seq<Link>, n: nat)
    requires n <= |links| && CollectLinks(links[..n]).Refused?
    ensures CollectLinks(links) == CollectLinks(links[..n])
  {
    if n < |links| {
      assert links[..|links| - 1][..n] == links[..n];
      CollectRefusalStays(links[..|links| - 1], n);
    } else {
      assert links[..n] == links;
    }
  }
}
