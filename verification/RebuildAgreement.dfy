/** What a rebuilt database holds: exactly when the rebuild accepts, when it loses no relation, when
    it agrees with the stepwise migrators, and that the database keeps one identity. */
module RebuildAgreement {
  import opened Options
  import opened OfflineRebuild

  /** No column was dropped in between and taken up again. */
  predicate Composes(v8: set<Column>, v9: set<Column>, v10: set<Column>) {
    v8 * v10 <= v9
  }

  /** The plan of a task or a meeting became a column in v9. */
  predicate PlanAdded(v8: set<Column>, v9: set<Column>, v10: set<Column>) {
    && Id in v8 && Id in v9 && Id in v10
    && PlanningCycleId !in v8 && PlanningCycleId in v9 && PlanningCycleId in v10
  }

  /** What the published v8, v9 and v10 schemas have in common with each other. */
  predicate Published(v8: Schema, v9: Schema, v10: Schema) {
    && v8.Keys == v9.Keys == v10.Keys
    && PlanningCycles in v8 && DecisionActions in v8 && DerivationLineage in v8 && SourceSetMembers in v8
    && Tasks in v8 && Meetings in v8 && Recordings in v8 && SchemaVersions in v8 && MigrationLedger in v8
    && (forall t :: t in v8 ==> Composes(v8[t], v9[t], v10[t]))
    && PlanAdded(v8[Tasks], v9[Tasks], v10[Tasks])
    && PlanAdded(v8[Meetings], v9[Meetings], v10[Meetings])
    && BindingKind !in v8[Recordings] && BindingKind !in v9[Recordings] && BindingKind in v10[Recordings]
  }

  // ---------- acceptance ----------

  predicate MeetingsFit(meetings: Rows, links: seq<Link>) {
    forall i :: 0 <= i < |links| ==> RowCount(meetings, links[i].0, false) == 1
  }

  /** The v8 rows that have a v10 form, the ends of meeting links spelt out. */
  ghost predicate Representable(source: Database)
    requires HasV8Tables(source)
  {
    && (forall i :: 0 <= i < |source[PlanningCycles]| ==> Get(source[PlanningCycles][i], ParentPlanId) == Value.Null)
    && TaskLinksFit(source[Tasks], TaskPairs(source))
    && Consistent(Spelt(MeetingPairs(source)))
    && MeetingsFit(source[Meetings], Spelt(MeetingPairs(source)))
  }

  lemma {:induction false} NestedPlansCounted(rows: Rows)
    ensures NestedPlans(rows) == 0 <==> forall i :: 0 <= i < |rows| ==> !Nested(rows[i])
  {
    if rows != [] { NestedPlansCounted(rows[..|rows| - 1]); }
  }

  lemma CopiedIdsCount(table: Table, had: set<Column>, columns: set<Column>, rows: Rows, id: Value)
    requires Id in columns && (table == Recordings ==> BindingKind in columns)
    ensures RowCount(CopiedRows(table, had, columns, rows), id, false) == RowCount(rows, id, false)
  {
    SameHits(CopiedRows(table, had, columns, rows), rows, id, false, false);
  }

  lemma SameLookupFits(meetings: Rows, items: seq<Link>, links: seq<Link>)
    requires SameLookup(items, links) && Named(items) && Named(links)
    ensures MeetingsFit(meetings, items) <==> MeetingsFit(meetings, links)
  {
    if MeetingsFit(meetings, items) { FitsThrough(meetings, items, links); }
    if MeetingsFit(meetings, links) { FitsThrough(meetings, links, items); }
  }

  lemma FitsThrough(meetings: Rows, items: seq<Link>, links: seq<Link>)
    requires SameLookup(items, links) && Named(items) && Named(links) && MeetingsFit(meetings, items)
    ensures MeetingsFit(meetings, links)
  {
    forall i | 0 <= i < |links|
      ensures RowCount(meetings, links[i].0, false) == 1
    {
      LastPlanMissing(links, links[i].0);
      assert Mentions(links, links[i].0);
      var k := LastPlanFound(items, links[i].0);
    }
  }

  lemma SameLookupSameUpdates(rows: Rows, items: seq<Link>, links: seq<Link>)
    requires SameLookup(items, links)
    ensures SetPlans(rows, items, false) == SetPlans(rows, links, false)
  {
    forall i | 0 <= i < |rows|
      ensures SetPlans(rows, items, false)[i] == SetPlans(rows, links, false)[i]
    {
      LastLinkWins(rows, items, i);
      LastLinkWins(rows, links, i);
    }
  }

  /** The copied rows with the tasks' links and the given meeting links written into them. */
  function Rewritten(source: Database, copied: Database, meetingLinks: seq<Link>): Database
    requires HasV8Tables(source) && HasV8Tables(copied)
  {
    copied[Tasks := SetPlans(copied[Tasks], TaskPairs(source), true)]
          [Meetings := SetPlans(copied[Meetings], meetingLinks, false)]
  }

  lemma MeetingsAccept(meetings: Rows, links: seq<Link>)
    ensures CollectLinks(links).Built? && AssignMeetings(meetings, CollectLinks(links).result).Built?
            <==> Consistent(Spelt(links)) && MeetingsFit(meetings, Spelt(links))
    ensures CollectLinks(links).Built? && AssignMeetings(meetings, CollectLinks(links).result).Built? ==>
              AssignMeetings(meetings, CollectLinks(links).result).result == SetPlans(meetings, Spelt(links), false)
  {
    CollectLinksAccepts(links);
    if CollectLinks(links).Built? {
      var items := CollectLinks(links).result;
      AssignMeetingsAccepts(meetings, items);
      SameLookupFits(meetings, items, Spelt(links));
      SameLookupSameUpdates(meetings, items, Spelt(links));
    }
  }

  lemma CopiedTaskLinksFit(had: set<Column>, columns: set<Column>, tasks: Rows, links: seq<Link>)
    requires Id in columns
    ensures TaskLinksFit(CopiedRows(Tasks, had, columns, tasks), links) <==> TaskLinksFit(tasks, links)
  {
    forall id ensures RowCount(CopiedRows(Tasks, had, columns, tasks), id, false) == RowCount(tasks, id, false) {
      CopiedIdsCount(Tasks, had, columns, tasks, id);
    }
  }

  lemma CopiedMeetingsFit(had: set<Column>, columns: set<Column>, meetings: Rows, links: seq<Link>)
    requires Id in columns
    ensures MeetingsFit(CopiedRows(Meetings, had, columns, meetings), links) <==> MeetingsFit(meetings, links)
  {
    forall id ensures RowCount(CopiedRows(Meetings, had, columns, meetings), id, false) == RowCount(meetings, id, false) {
      CopiedIdsCount(Meetings, had, columns, meetings, id);
    }
  }

  lemma CopiedPlanless(table: Table, had: set<Column>, columns: set<Column>, rows: Rows)
    requires table != Recordings && PlanningCycleId !in had
    requires RowsFit(rows, had)
    ensures Planless(CopiedRows(table, had, columns, rows))
  {
  }

  /** The exact condition: the v8 rebuild accepts the rows that have such a form and no others.
      Nested plans and conflicting links always make it refuse. */
  lemma RebuildAcceptsIff(source: Database, v8: Schema, v9: Schema, v10: Schema)
    requires Published(v8, v9, v10) && Fits(source, v8)
    ensures Direct(source, 8, v8, v10).Built? <==> Representable(source)
    ensures Direct(source, 8, v8, v10).Built? ==>
              Direct(source, 8, v8, v10).result
              == Rewritten(source, CopiedDatabase(source, v8, v10), Spelt(MeetingPairs(source)))
  {
    var tasks := CopiedRows(Tasks, v8[Tasks], v10[Tasks], source[Tasks]);
    var meetings := CopiedRows(Meetings, v8[Meetings], v10[Meetings], source[Meetings]);
    NestedPlansCounted(source[PlanningCycles]);
    CopiedPlanless(Tasks, v8[Tasks], v10[Tasks], source[Tasks]);
    AssignTasksAccepts(tasks, TaskPairs(source));
    CopiedTaskLinksFit(v8[Tasks], v10[Tasks], source[Tasks], TaskPairs(source));
    MeetingsAccept(meetings, MeetingPairs(source));
    CopiedMeetingsFit(v8[Meetings], v10[Meetings], source[Meetings], Spelt(MeetingPairs(source)));
  }

  lemma {:induction false} TaskRefusal(tasks: Rows, links: seq<Link>)
    ensures AssignTasks(tasks, links).Refused? ==>
              AssignTasks(tasks, links).why.TaskLinkLost? && Mentions(links, AssignTasks(tasks, links).why.task)
  {
    if links != [] {
      TaskRefusal(tasks, links[..|links| - 1]);
      MentionsMore(links);
    }
  }

  lemma MentionsMore(links: seq<Link>)
    requires links != []
    ensures forall id :: Mentions(links[..|links| - 1], id) || id == links[|links| - 1].0 ==> Mentions(links, id)
  {
    forall id | Mentions(links[..|links| - 1], id) || id == links[|links| - 1].0
      ensures Mentions(links, id)
    {
      if id == links[|links| - 1].0 { assert links[|links| - 1].0 == id; }
      else { var i :| 0 <= i < |links| - 1 && links[..|links| - 1][i].0 == id; assert links[i].0 == id; }
    }
  }

  lemma {:induction false} CollectRefusal(links: seq<Link>)
    ensures CollectLinks(links).Refused? ==>
              CollectLinks(links).why.MeetingConflict? && Mentions(Spelt(links), CollectLinks(links).why.meeting)
  {
    if links != [] {
      CollectRefusal(links[..|links| - 1]);
      assert Spelt(links)[..|links| - 1] == Spelt(links[..|links| - 1]);
      MentionsMore(Spelt(links));
    }
  }

  lemma {:induction false} MeetingRefusal(meetings: Rows, items: seq<Link>)
    ensures AssignMeetings(meetings, items).Refused? ==>
              AssignMeetings(meetings, items).why.MeetingLinkLost? && Mentions(items, AssignMeetings(meetings, items).why.meeting)
  {
    if items != [] {
      MeetingRefusal(meetings, items[..|items| - 1]);
      MentionsMore(items);
    }
  }

  /** Why a v8 rebuild refuses: the first in this order of a nested plan, task links that do not fit,
      meeting links in conflict, and meeting links that do not fit. */
  lemma RefusalSays(source: Database, v8: Schema, v9: Schema, v10: Schema)
    requires Published(v8, v9, v10) && Fits(source, v8)
    ensures var rebuilt := Direct(source, 8, v8, v10);
            var nested := exists i :: 0 <= i < |source[PlanningCycles]| && Get(source[PlanningCycles][i], ParentPlanId) != Value.Null;
            if nested then rebuilt == Refused(NestedPlan)
            else if !TaskLinksFit(source[Tasks], TaskPairs(source)) then
              rebuilt.Refused? && rebuilt.why.TaskLinkLost? && Mentions(TaskPairs(source), rebuilt.why.task)
            else if !Consistent(Spelt(MeetingPairs(source))) then
              rebuilt.Refused? && rebuilt.why.MeetingConflict? && Mentions(Spelt(MeetingPairs(source)), rebuilt.why.meeting)
            else if !MeetingsFit(source[Meetings], Spelt(MeetingPairs(source))) then
              rebuilt.Refused? && rebuilt.why.MeetingLinkLost?
            else rebuilt.Built?
  {
    var tasks := CopiedRows(Tasks, v8[Tasks], v10[Tasks], source[Tasks]);
    var meetings := CopiedRows(Meetings, v8[Meetings], v10[Meetings], source[Meetings]);
    NestedPlansCounted(source[PlanningCycles]);
    CopiedPlanless(Tasks, v8[Tasks], v10[Tasks], source[Tasks]);
    AssignTasksAccepts(tasks, TaskPairs(source));
    CopiedTaskLinksFit(v8[Tasks], v10[Tasks], source[Tasks], TaskPairs(source));
    CollectLinksAccepts(MeetingPairs(source));
    TaskRefusal(tasks, TaskPairs(source));
    CollectRefusal(MeetingPairs(source));
    RebuildAcceptsIff(source, v8, v9, v10);
    if CollectLinks(MeetingPairs(source)).Built? { MeetingRefusal(meetings, CollectLinks(MeetingPairs(source)).result); }
  }

  // ---------- the two paths ----------

  /** Column by column, copying through v9 is copying straight to v10 unless a column was dropped in
      v9 and came back holding something else than its default. */
  lemma RecastTwice(row: Row, v8: set<Column>, v9: set<Column>, v10: set<Column>)
    requires row.Keys == v8
    ensures v8 * v10 <= v9 ==> Recast(Recast(row, v9), v10) == Recast(row, v10)
  {
  }

  lemma PlanStepwise(row: Row, v8: set<Column>, v9: set<Column>, v10: set<Column>, plan: Option<Value>)
    requires row.Keys == v8 && v8 * v10 <= v9 && PlanningCycleId in v10
    ensures Recast(Planned(Recast(row, v9), plan), v10) == Planned(Recast(row, v10), plan)
  {
  }

  lemma CopiesAgree(t: Table, v8: set<Column>, v9: set<Column>, v10: set<Column>, rows: Rows)
    requires RowsFit(rows, v8) && Composes(v8, v9, v10)
    requires t == Recordings ==> BindingKind !in v8
    ensures ClassifiedRows(t, v10, RecastRows(v9, rows)) == CopiedRows(t, v8, v10, rows)
  {
    forall i | 0 <= i < |rows|
      ensures Classified(t, v10, Recast(rows[i], v9)) == Copied(t, v8, v10, rows[i])
    {
      RecastTwice(rows[i], v8, v9, v10);
    }
  }

  lemma TasksAgree(v8: set<Column>, v9: set<Column>, v10: set<Column>, rows: Rows, links: seq<Link>)
    requires RowsFit(rows, v8) && Composes(v8, v9, v10) && PlanAdded(v8, v9, v10)
    requires Named(links)
    ensures ClassifiedRows(Tasks, v10, SetPlans(RecastRows(v9, rows), links, true))
            == SetPlans(CopiedRows(Tasks, v8, v10, rows), links, true)
  {
    forall i | 0 <= i < |rows|
      ensures Recast(SetPlans(RecastRows(v9, rows), links, true)[i], v10)
              == SetPlans(CopiedRows(Tasks, v8, v10, rows), links, true)[i]
    {
      FirstLinkWins(RecastRows(v9, rows), links, i);
      FirstLinkWins(CopiedRows(Tasks, v8, v10, rows), links, i);
      PlanStepwise(rows[i], v8, v9, v10, FirstPlan(links, Get(rows[i], Id)));
    }
  }

  lemma MeetingsAgree(v8: set<Column>, v9: set<Column>, v10: set<Column>, rows: Rows, links: seq<Link>)
    requires RowsFit(rows, v8) && Composes(v8, v9, v10) && PlanAdded(v8, v9, v10)
    ensures ClassifiedRows(Meetings, v10, SetPlans(RecastRows(v9, rows), links, false))
            == SetPlans(CopiedRows(Meetings, v8, v10, rows), links, false)
  {
    forall i | 0 <= i < |rows|
      ensures Recast(SetPlans(RecastRows(v9, rows), links, false)[i], v10)
              == SetPlans(CopiedRows(Meetings, v8, v10, rows), links, false)[i]
    {
      LastLinkWins(RecastRows(v9, rows), links, i);
      LastLinkWins(CopiedRows(Meetings, v8, v10, rows), links, i);
      PlanStepwise(rows[i], v8, v9, v10, LastPlan(links, Get(rows[i], Id)));
    }
  }

  lemma StepwiseTable(source: Database, v8: Schema, v9: Schema, v10: Schema, t: Table)
    requires source.Keys == v8.Keys == v9.Keys == v10.Keys && HasV8Tables(source) && t in source
    ensures Stepwise(source, v8, v9, v10)[t]
            == ClassifiedRows(t, v10[t],
                 if t == Tasks then SetPlans(RecastRows(v9[t], source[t]), TaskPairs(source), true)
                 else if t == Meetings then SetPlans(RecastRows(v9[t], source[t]), MeetingPairs(source), false)
                 else RecastRows(v9[t], source[t]))
  {
  }

  lemma {:induction false} TableAgrees(source: Database, v8: Schema, v9: Schema, v10: Schema, t: Table)
    requires Published(v8, v9, v10) && Fits(source, v8) && t in source
    ensures Stepwise(source, v8, v9, v10)[t] == Rewritten(source, CopiedDatabase(source, v8, v10), MeetingPairs(source))[t]
  {
    StepwiseTable(source, v8, v9, v10, t);
    assert RowsFit(source[t], v8[t]);
    if t == Tasks {
      TasksAgree(v8[t], v9[t], v10[t], source[t], TaskPairs(source));
    } else if t == Meetings {
      MeetingsAgree(v8[t], v9[t], v10[t], source[t], MeetingPairs(source));
    } else {
      CopiesAgree(t, v8[t], v9[t], v10[t], source[t]);
    }
  }

  lemma SameTables(a: Database, b: Database)
    requires a.Keys == b.Keys && forall t :: t in a ==> a[t] == b[t]
    ensures a == b
  {
  }

  /** The stepwise path is one copy with the stored links written into it. */
  lemma StepwiseIsRewritten(source: Database, v8: Schema, v9: Schema, v10: Schema)
    requires Published(v8, v9, v10) && Fits(source, v8)
    ensures Stepwise(source, v8, v9, v10) == Rewritten(source, CopiedDatabase(source, v8, v10), MeetingPairs(source))
  {
    var a, b := Stepwise(source, v8, v9, v10), Rewritten(source, CopiedDatabase(source, v8, v10), MeetingPairs(source));
    forall t | t in source
      ensures a[t] == b[t]
    {
      TableAgrees(source, v8, v9, v10, t);
    }
    SameTables(a, b);
  }

  /** Every link, once its two ends are spelt out, is also what the last stored link of that very
      meeting says: true whenever no end is NULL, since a NULL end is spelt "None". */
  ghost predicate Definite(links: seq<Link>) {
    forall i :: 0 <= i < |links| ==> LastPlan(links, Str(links[i].0)) == Some(Str(links[i].1))
  }

  lemma {:induction false} LastPlanIsText(links: seq<Link>, id: Value)
    ensures LastPlan(Spelt(links), id) != Some(Value.Null)
  {
    if links != [] {
      assert Spelt(links)[..|links| - 1] == Spelt(links[..|links| - 1]);
      LastPlanIsText(links[..|links| - 1], id);
    }
  }

  lemma {:induction false} SpeltMentions(links: seq<Link>, id: Value)
    requires Mentions(links, id) && id != Value.Null
    ensures Mentions(Spelt(links), id)
  {
  }

  /** Consistent links look up the same spelt or stored exactly when they are definite. */
  lemma DefiniteLooksUpTheSame(links: seq<Link>)
    requires Consistent(Spelt(links))
    ensures Definite(links) <==> SameLookup(links, Spelt(links))
  {
    if Definite(links) {
      forall id
        ensures LastPlan(links, id) == LastPlan(Spelt(links), id)
      {
        if LastPlan(Spelt(links), id).Some? {
          var k := LastPlanFound(Spelt(links), id);
        } else if LastPlan(links, id).Some? {
          var k := LastPlanFound(links, id);
          SpeltMentions(links, id);
          LastPlanMissing(Spelt(links), id);
        }
      }
    }
    if SameLookup(links, Spelt(links)) {
      forall i | 0 <= i < |links|
        ensures LastPlan(links, Str(links[i].0)) == Some(Str(links[i].1))
      {
        assert Mentions(Spelt(links), Str(links[i].0)) by { assert Spelt(links)[i].0 == Str(links[i].0); }
        LastPlanMissing(Spelt(links), Str(links[i].0));
        var k := LastPlanFound(Spelt(links), Str(links[i].0));
        assert Spelt(links)[i].0 == Spelt(links)[k].0;
      }
    }
  }

  lemma {:induction false} HitExists(rows: Rows, id: Value) returns (i: nat)
    requires RowCount(rows, id, false) > 0
    ensures i < |rows| && Hit(rows[i], id, false)
  {
    if Hit(rows[|rows| - 1], id, false) { i := |rows| - 1; } else { i := HitExists(rows[..|rows| - 1], id); }
  }

  /** Meetings updated from the stored links and from the spelt ones agree only if the links are
      definite: every meeting the links name has a row to differ in. */
  lemma SameMeetingsAreDefinite(meetings: Rows, links: seq<Link>)
    requires Planless(meetings) && Consistent(Spelt(links)) && MeetingsFit(meetings, Spelt(links))
    requires SetPlans(meetings, links, false) == SetPlans(meetings, Spelt(links), false)
    ensures Definite(links)
  {
    forall i | 0 <= i < |links|
      ensures LastPlan(links, Str(links[i].0)) == Some(Str(links[i].1))
    {
      var id := Str(links[i].0);
      assert Spelt(links)[i].0 == id;
      assert Mentions(Spelt(links), id);
      LastPlanMissing(Spelt(links), id);
      var k := LastPlanFound(Spelt(links), id);
      assert Spelt(links)[i].1 == Spelt(links)[k].1;
      var r := HitExists(meetings, id);
      LastLinkWins(meetings, links, r);
      LastLinkWins(meetings, Spelt(links), r);
      var spelt := SetPlans(meetings, Spelt(links), false)[r];
      assert Get(spelt, PlanningCycleId) == Str(links[i].1);
    }
  }

  ghost predicate SameBusinessRows(a: Database, b: Database) {
    a.Keys == b.Keys && forall t :: t in a && t != SchemaVersions && t != MigrationLedger ==> a[t] == b[t]
  }

  lemma SameMeetingsIff(meetings: Rows, links: seq<Link>)
    requires Planless(meetings) && Consistent(Spelt(links)) && MeetingsFit(meetings, Spelt(links))
    ensures SetPlans(meetings, links, false) == SetPlans(meetings, Spelt(links), false) <==> Definite(links)
  {
    if Definite(links) {
      DefiniteLooksUpTheSame(links);
      SameLookupSameUpdates(meetings, links, Spelt(links));
    } else if SetPlans(meetings, links, false) == SetPlans(meetings, Spelt(links), false) {
      SameMeetingsAreDefinite(meetings, links);
    }
  }

  lemma RewrittenDiffersInMeetings(source: Database, copied: Database, a: seq<Link>, b: seq<Link>)
    requires HasV8Tables(source) && HasV8Tables(copied)
    ensures SameBusinessRows(Rewritten(source, copied, a), Rewritten(source, copied, b))
            <==> SetPlans(copied[Meetings], a, false) == SetPlans(copied[Meetings], b, false)
  {
    assert Rewritten(source, copied, a)[Meetings] == SetPlans(copied[Meetings], a, false);
    assert Rewritten(source, copied, b)[Meetings] == SetPlans(copied[Meetings], b, false);
  }

  /** Direct equals stepwise: whenever the rebuild accepts a v8 database, its business rows are those
      of the two migrators in turn if and only if the meeting links are definite. */
  lemma DirectEqualsStepwiseIff(source: Database, v8: Schema, v9: Schema, v10: Schema)
    requires Published(v8, v9, v10) && Fits(source, v8) && Direct(source, 8, v8, v10).Built?
    ensures SameBusinessRows(Direct(source, 8, v8, v10).result, Stepwise(source, v8, v9, v10))
            <==> Definite(MeetingPairs(source))
  {
    var links, copied := MeetingPairs(source), CopiedDatabase(source, v8, v10);
    RebuildAcceptsIff(source, v8, v9, v10);
    StepwiseIsRewritten(source, v8, v9, v10);
    RewrittenDiffersInMeetings(source, copied, Spelt(links), links);
    CopiedPlanless(Meetings, v8[Meetings], v10[Meetings], source[Meetings]);
    CopiedMeetingsFit(v8[Meetings], v10[Meetings], source[Meetings], Spelt(links));
    SameMeetingsIff(copied[Meetings], links);
  }

  /** In particular the two paths agree whenever every link names both its ends. */
  lemma DirectEqualsStepwise(source: Database, v8: Schema, v9: Schema, v10: Schema)
    requires Published(v8, v9, v10) && Fits(source, v8) && Direct(source, 8, v8, v10).Built?
    requires Named(MeetingPairs(source))
    ensures SameBusinessRows(Direct(source, 8, v8, v10).result, Stepwise(source, v8, v9, v10))
  {
    var links := MeetingPairs(source);
    assert Spelt(links) == links;
    RebuildAcceptsIff(source, v8, v9, v10);
    DefiniteLooksUpTheSame(links);
    DirectEqualsStepwiseIff(source, v8, v9, v10);
  }

  /** From v9 the rebuild is the v9 to v10 migrator, on every row. */
  lemma V9RebuildIsTheMigrator(source: Database, v8: Schema, v9: Schema, v10: Schema)
    requires Published(v8, v9, v10) && Fits(source, v9)
    ensures Direct(source, 9, v9, v10) == Built(V10FromV9(source, v10))
  {
    var direct := CopiedDatabase(source, v9, v10);
    forall t | t in v10
      ensures direct[t] == V10FromV9(source, v10)[t]
    {
    }
    assert direct == V10FromV9(source, v10);
  }

  // ---------- nothing lost ----------

  function PlanPairs(rows: Rows): set<Link> {
    set i | 0 <= i < |rows| && Get(rows[i], PlanningCycleId) != Value.Null :: (Get(rows[i], Id), Get(rows[i], PlanningCycleId))
  }

  function PairSet(links: seq<Link>): set<Link> {
    set i | 0 <= i < |links| :: links[i]
  }

  lemma TaskPairsKept(tasks: Rows, links: seq<Link>)
    requires Planless(tasks) && Named(links) && TaskLinksFit(tasks, links)
    ensures PlanPairs(SetPlans(tasks, links, true)) == PairSet(links)
  {
    var after := SetPlans(tasks, links, true);
    forall i | 0 <= i < |after| && Get(after[i], PlanningCycleId) != Value.Null
      ensures (Get(after[i], Id), Get(after[i], PlanningCycleId)) in PairSet(links)
    {
      FirstLinkWins(tasks, links, i);
      var k := FirstPlanFound(links, Get(tasks[i], Id));
      assert links[k] in PairSet(links);
    }
    forall k | 0 <= k < |links|
      ensures links[k] in PlanPairs(after)
    {
      var i := HitExists(tasks, links[k].0);
      FirstLinkWins(tasks, links, i);
      FirstPlanMentions(links, links[k].0);
      assert Mentions(links, links[k].0);
      var j := FirstPlanFound(links, links[k].0);
      assert j == k;
      assert (Get(after[i], Id), Get(after[i], PlanningCycleId)) == links[k];
    }
  }

  lemma {:induction false} FirstPlanFound(links: seq<Link>, id: Value) returns (i: int)
    requires FirstPlan(links, id).Some?
    ensures 0 <= i < |links| && links[i].0 == id && FirstPlan(links, id) == Some(links[i].1)
  {
    if FirstPlan(links[..|links| - 1], id).Some? { i := FirstPlanFound(links[..|links| - 1], id); } else { i := |links| - 1; }
  }

  lemma MeetingPairsKept(meetings: Rows, links: seq<Link>)
    requires Planless(meetings) && Named(links) && Consistent(links) && MeetingsFit(meetings, links)
    ensures PlanPairs(SetPlans(meetings, links, false)) == PairSet(links)
  {
    var after := SetPlans(meetings, links, false);
    forall i | 0 <= i < |after| && Get(after[i], PlanningCycleId) != Value.Null
      ensures (Get(after[i], Id), Get(after[i], PlanningCycleId)) in PairSet(links)
    {
      LastLinkWins(meetings, links, i);
      var k := LastPlanFound(links, Get(meetings[i], Id));
      assert links[k] in PairSet(links);
    }
    forall k | 0 <= k < |links|
      ensures links[k] in PlanPairs(after)
    {
      var i := HitExists(meetings, links[k].0);
      LastLinkWins(meetings, links, i);
      LastPlanMissing(links, links[k].0);
      assert Mentions(links, links[k].0);
      var j := LastPlanFound(links, links[k].0);
      assert links[j].1 == links[k].1;
      assert (Get(after[i], Id), Get(after[i], PlanningCycleId)) == links[k];
    }
  }

  ghost predicate RowsKept(before: Rows, after: Rows, columns: set<Column>) {
    |after| == |before| && forall i, c :: 0 <= i < |before| && c in columns ==> Get(after[i], c) == Get(before[i], c)
  }

  /** Every column a row had in v8 and still has, but the two rewritten relations, is unchanged. */
  ghost predicate ColumnsKept(source: Database, target: Database, v8: Schema, v10: Schema) {
    forall t :: t in source && t in target && t in v8 && t in v10 ==>
      RowsKept(source[t], target[t], v8[t] * v10[t])
  }

  lemma CopiedRowsKept(table: Table, had: set<Column>, columns: set<Column>, rows: Rows)
    requires table == Recordings ==> BindingKind !in had
    ensures RowsKept(rows, CopiedRows(table, had, columns, rows), had * columns)
  {
  }

  lemma UpdatedRowsKept(before: Rows, rows: Rows, links: seq<Link>, onlyNull: bool, columns: set<Column>)
    requires RowsKept(before, rows, columns) && PlanningCycleId !in columns
    ensures RowsKept(before, SetPlans(rows, links, onlyNull), columns)
  {
  }

  lemma RewrittenKeepsColumns(source: Database, v8: Schema, v9: Schema, v10: Schema)
    requires Published(v8, v9, v10) && Fits(source, v8)
    ensures ColumnsKept(source, Rewritten(source, CopiedDatabase(source, v8, v10), Spelt(MeetingPairs(source))), v8, v10)
  {
    var links := Spelt(MeetingPairs(source));
    var target := Rewritten(source, CopiedDatabase(source, v8, v10), links);
    forall t | t in source
      ensures RowsKept(source[t], target[t], v8[t] * v10[t])
    {
      var copied := CopiedRows(t, v8[t], v10[t], source[t]);
      CopiedRowsKept(t, v8[t], v10[t], source[t]);
      if t == Tasks {
        UpdatedRowsKept(source[t], copied, TaskPairs(source), true, v8[t] * v10[t]);
      } else if t == Meetings {
        UpdatedRowsKept(source[t], copied, links, false, v8[t] * v10[t]);
      }
    }
  }

  lemma RewrittenTaskPairs(v8: set<Column>, v10: set<Column>, tasks: Rows, links: seq<Link>)
    requires RowsFit(tasks, v8) && PlanningCycleId !in v8 && Id in v10 && Named(links) && TaskLinksFit(tasks, links)
    ensures PlanPairs(SetPlans(CopiedRows(Tasks, v8, v10, tasks), links, true)) == PairSet(links)
  {
    CopiedPlanless(Tasks, v8, v10, tasks);
    CopiedTaskLinksFit(v8, v10, tasks, links);
    TaskPairsKept(CopiedRows(Tasks, v8, v10, tasks), links);
  }

  lemma RewrittenMeetingPairs(v8: set<Column>, v10: set<Column>, meetings: Rows, links: seq<Link>)
    requires RowsFit(meetings, v8) && PlanningCycleId !in v8 && Id in v10
    requires Named(links) && Consistent(links) && MeetingsFit(meetings, links)
    ensures PlanPairs(SetPlans(CopiedRows(Meetings, v8, v10, meetings), links, false)) == PairSet(links)
  {
    CopiedPlanless(Meetings, v8, v10, meetings);
    CopiedMeetingsFit(v8, v10, meetings, links);
    MeetingPairsKept(CopiedRows(Meetings, v8, v10, meetings), links);
  }

  predicate AllMeetings(recordings: Rows) {
    forall i :: 0 <= i < |recordings| ==> Get(recordings[i], BindingKind) == Text("meeting")
  }

  /** The target's task-plan pairs are exactly the source's, its meeting-plan pairs exactly those
      given, and every recording is bound as a meeting. */
  ghost predicate HoldsRelations(source: Database, target: Database, meetingLinks: seq<Link>)
    requires HasV8Tables(source)
  {
    && target.Keys == source.Keys && Recordings in target
    && PlanPairs(target[Tasks]) == PairSet(TaskPairs(source))
    && PlanPairs(target[Meetings]) == PairSet(meetingLinks)
    && AllMeetings(target[Recordings])
  }

  /** All relations of the source are there, as the source has them, and no others. */
  ghost predicate Lossless(source: Database, target: Database)
    requires HasV8Tables(source)
  {
    HoldsRelations(source, target, MeetingPairs(source))
  }

  lemma RecordingsBound(v8: set<Column>, v10: set<Column>, recordings: Rows)
    requires BindingKind !in v8
    ensures AllMeetings(CopiedRows(Recordings, v8, v10, recordings))
  {
  }

  lemma RewrittenPairs(source: Database, v8: Schema, v9: Schema, v10: Schema)
    requires Published(v8, v9, v10) && Fits(source, v8) && Representable(source)
    ensures var target := Rewritten(source, CopiedDatabase(source, v8, v10), Spelt(MeetingPairs(source)));
            && PlanPairs(target[Tasks]) == PairSet(TaskPairs(source))
            && PlanPairs(target[Meetings]) == PairSet(Spelt(MeetingPairs(source)))
  {
    assert RowsFit(source[Tasks], v8[Tasks]) && RowsFit(source[Meetings], v8[Meetings]);
    RewrittenTaskPairs(v8[Tasks], v10[Tasks], source[Tasks], TaskPairs(source));
    RewrittenMeetingPairs(v8[Meetings], v10[Meetings], source[Meetings], Spelt(MeetingPairs(source)));
  }

  lemma RewrittenRecordings(source: Database, v8: Schema, v9: Schema, v10: Schema)
    requires Published(v8, v9, v10) && source.Keys == v8.Keys
    ensures AllMeetings(Rewritten(source, CopiedDatabase(source, v8, v10), Spelt(MeetingPairs(source)))[Recordings])
  {
    RecordingsBound(v8[Recordings], v10[Recordings], source[Recordings]);
  }

  /** Whatever the v8 rebuild accepts, its relations are all there and no others, the ends of meeting
      links spelt out. */
  lemma RebuildHoldsSpeltLinks(source: Database, v8: Schema, v9: Schema, v10: Schema)
    requires Published(v8, v9, v10) && Fits(source, v8) && Direct(source, 8, v8, v10).Built?
    ensures HoldsRelations(source, Direct(source, 8, v8, v10).result, Spelt(MeetingPairs(source)))
  {
    RebuildAcceptsIff(source, v8, v9, v10);
    RewrittenPairs(source, v8, v9, v10);
    RewrittenRecordings(source, v8, v9, v10);
  }

  /** Spelling out keeps a set of links exactly if none of them has a NULL end. */
  lemma SpeltPairsIff(links: seq<Link>)
    ensures PairSet(Spelt(links)) == PairSet(links) <==> Named(links)
  {
    if Named(links) {
      assert Spelt(links) == links;
    } else {
      var i :| 0 <= i < |links| && (links[i].0 == Value.Null || links[i].1 == Value.Null);
      assert links[i] in PairSet(links) && links[i] !in PairSet(Spelt(links));
    }
  }

  /** Lossless rewrite, the exact condition: what the v8 rebuild accepts keeps the source's relations,
      no more and no fewer, if and only if every meeting link names both its ends. */
  lemma RebuildIsLosslessIff(source: Database, v8: Schema, v9: Schema, v10: Schema)
    requires Published(v8, v9, v10) && Fits(source, v8) && Direct(source, 8, v8, v10).Built?
    ensures var target := Direct(source, 8, v8, v10).result;
            && (PlanPairs(target[Meetings]) == PairSet(MeetingPairs(source)) <==> Named(MeetingPairs(source)))
            && (Lossless(source, target) <==> Named(MeetingPairs(source)))
  {
    RebuildHoldsSpeltLinks(source, v8, v9, v10);
    SpeltPairsIff(MeetingPairs(source));
  }

  /** And every other column that v8 and v10 share is unchanged in every row of every table. */
  lemma RebuildKeepsColumns(source: Database, v8: Schema, v9: Schema, v10: Schema)
    requires Published(v8, v9, v10) && Fits(source, v8) && Direct(source, 8, v8, v10).Built?
    ensures ColumnsKept(source, Direct(source, 8, v8, v10).result, v8, v10)
  {
    RebuildAcceptsIff(source, v8, v9, v10);
    RewrittenKeepsColumns(source, v8, v9, v10);
  }

  predicate IsPlanned(rows: Rows, id: Value, plan: Value) {
    exists i :: 0 <= i < |rows| && Get(rows[i], Id) == id && Get(rows[i], PlanningCycleId) == plan
  }

  /** The lossless rewrite on rows: in whatever the v8 rebuild accepts, a task has a plan if and only
      if an action row names both. */
  lemma PlannedTasksAreActions(source: Database, v8: Schema, v9: Schema, v10: Schema, task: Value, plan: Value)
    requires Published(v8, v9, v10) && Fits(source, v8) && Direct(source, 8, v8, v10).Built? && plan != Value.Null
    ensures var actions := source[DecisionActions];
            IsPlanned(Direct(source, 8, v8, v10).result[Tasks], task, plan)
            <==> exists i :: 0 <= i < |actions| && ActionSays(actions[i], task, plan)
  {
    RebuildHoldsSpeltLinks(source, v8, v9, v10);
    PairsArePlanned(Direct(source, 8, v8, v10).result[Tasks], task, plan);
    ActionLinksAreRows(source[DecisionActions], task, plan);
    InPairSet(TaskPairs(source), (task, plan));
  }

  /** A meeting has a plan if and only if a lineage row and a member of its source set say so, a NULL
      on either side spelt "None". */
  lemma PlannedMeetingsAreLineage(source: Database, v8: Schema, v9: Schema, v10: Schema, meeting: Value, plan: Value)
    requires Published(v8, v9, v10) && Fits(source, v8) && Direct(source, 8, v8, v10).Built? && plan != Value.Null
    ensures IsPlanned(Direct(source, 8, v8, v10).result[Meetings], meeting, plan)
            <==> exists m, p :: SomeRowSays(source[DerivationLineage], source[SourceSetMembers], m, p)
                                && SpeltAs(m, meeting) && SpeltAs(p, plan)
  {
    RebuildHoldsSpeltLinks(source, v8, v9, v10);
    PairsArePlanned(Direct(source, 8, v8, v10).result[Meetings], meeting, plan);
    InPairSet(Spelt(MeetingPairs(source)), (meeting, plan));
    SpeltLinksAre(MeetingPairs(source), meeting, plan);
    forall m, p
      ensures (m, p) in MeetingPairs(source) <==> SomeRowSays(source[DerivationLineage], source[SourceSetMembers], m, p)
    {
      MeetingLinksAreRows(source[DerivationLineage], source[SourceSetMembers], m, p);
    }
  }

  predicate SpeltAs(value: Value, spelt: Value) {
    spelt == if value == Value.Null then Text("None") else value
  }

  lemma SpeltLinksAre(links: seq<Link>, a: Value, b: Value)
    ensures (a, b) in Spelt(links) <==> exists m, p :: (m, p) in links && SpeltAs(m, a) && SpeltAs(p, b)
  {
    if (a, b) in Spelt(links) {
      var i :| 0 <= i < |links| && Spelt(links)[i] == (a, b);
      assert (links[i].0, links[i].1) in links && SpeltAs(links[i].0, a) && SpeltAs(links[i].1, b);
    }
    if m, p :| (m, p) in links && SpeltAs(m, a) && SpeltAs(p, b) {
      var i :| 0 <= i < |links| && links[i] == (m, p);
      assert Spelt(links)[i] == (a, b);
    }
  }

  lemma InPairSet(links: seq<Link>, link: Link)
    ensures link in PairSet(links) <==> link in links
  {
  }

  lemma PairsArePlanned(rows: Rows, id: Value, plan: Value)
    requires plan != Value.Null
    ensures (id, plan) in PlanPairs(rows) <==> IsPlanned(rows, id, plan)
  {
  }

  /** From v9 every shared column is unchanged, plans included, and every recording is a meeting's. */
  lemma V9RebuildKeepsColumns(source: Database, v8: Schema, v9: Schema, v10: Schema)
    requires Published(v8, v9, v10) && Fits(source, v9)
    ensures Direct(source, 9, v9, v10).Built?
    ensures ColumnsKept(source, Direct(source, 9, v9, v10).result, v9, v10)
    ensures AllMeetings(Direct(source, 9, v9, v10).result[Recordings])
  {
    forall t | t in source
      ensures RowsKept(source[t], CopiedDatabase(source, v9, v10)[t], v9[t] * v10[t])
    {
      CopiedRowsKept(t, v9[t], v10[t], source[t]);
    }
  }

  // ---------- identity and row counts ----------

  /** NULL sorts first; text sorts by its characters. */
  predicate Earlier(a: Value, b: Value) {
    !b.Null? && (a.Null? || TextLess(a.text, b.text))
  }

  predicate TextLess(a: string, b: string) {
    b != [] && (a == [] || a[0] < b[0] || (a[0] == b[0] && TextLess(a[1..], b[1..])))
  }

  /** `WHERE status='active' ORDER BY activated_at DESC LIMIT 1`. */
  function ActiveIdentity(rows: Rows): Option<Row> {
    if rows == [] then None
    else
      var last := rows[|rows| - 1];
      var best := ActiveIdentity(rows[..|rows| - 1]);
      if Get(last, Status) != ACTIVE then best
      else if best.Some? && !Earlier(Get(best.value, ActivatedAt), Get(last, ActivatedAt)) then best
      else Some(last)
  }

  function Superseded(rows: Rows): (r: Rows)
    ensures |r| == |rows|
  {
    seq(|rows|, i requires 0 <= i < |rows| => if Get(rows[i], Status) == ACTIVE then rows[i][Status := SUPERSEDED] else rows[i])
  }

  /** The columns of the new identity and ledger rows that carry fresh ids, hashes and times. */
  datatype Stamp = Stamp(identity: Row, ledger: Row)

  function NewIdentity(stamp: Stamp, version: Value, generation: Value): Row {
    stamp.identity[Status := ACTIVE][Version := version][DatabaseGenerationId := generation]
  }

  function Stamped(db: Database, stamp: Stamp, version: Value, generation: Value): (r: Database)
    requires SchemaVersions in db && MigrationLedger in db
    ensures r.Keys == db.Keys
  {
    db[SchemaVersions := Superseded(db[SchemaVersions]) + [NewIdentity(stamp, version, generation)]]
      [MigrationLedger := db[MigrationLedger] + [stamp.ledger]]
  }

  predicate CountsMatch(source: Database, target: Database) {
    target.Keys == source.Keys
    && forall t :: t in source ==>
         |target[t]| == |source[t]| + if t == SchemaVersions || t == MigrationLedger then 1 else 0
  }

  const TEN := Text("10")

  datatype BuildOutcome = BuiltV10(db: Database) | NoActiveIdentity | Lossy(why: Refusal) | CountMismatch | Unsound

  /** The generation of the newest active identity, spelt out; the published column is never NULL. */
  function Generation(db: Database): Value
    requires SchemaVersions in db && ActiveIdentity(db[SchemaVersions]).Some?
  {
    Str(Get(ActiveIdentity(db[SchemaVersions]).value, DatabaseGenerationId))
  }

  /** What `_build_v10` makes of the rebuilt rows: identity and ledger rows, then the checks, of which
      `sound` is the verdict of the foreign-key and quick checks. */
  function Finished(source: Database, rows: Outcome<Database>, stamp: Stamp, generation: Value, sound: Database -> bool): BuildOutcome
    requires rows.Built? ==> SchemaVersions in rows.result && MigrationLedger in rows.result
  {
    match rows
    case Refused(why) => Lossy(why)
    case Built(db) =>
      var target := Stamped(db, stamp, TEN, generation);
      if !CountsMatch(source, target) then CountMismatch else if !sound(target) then Unsound else BuiltV10(target)
  }

  /** `_build_v10`. */
  function Build(source: Database, version: nat, from: Schema, to: Schema, stamp: Stamp, sound: Database -> bool): BuildOutcome
    requires source.Keys == from.Keys == to.Keys && HasV8Tables(source)
    requires SchemaVersions in source && MigrationLedger in source
  {
    if ActiveIdentity(source[SchemaVersions]).None? then NoActiveIdentity
    else Finished(source, Direct(source, version, from, to), stamp, Generation(source), sound)
  }

  predicate SameShape(source: Database, target: Database) {
    target.Keys == source.Keys && forall t :: t in source ==> |target[t]| == |source[t]|
  }

  lemma StampedCounts(source: Database, rows: Database, stamp: Stamp, version: Value, generation: Value)
    requires SameShape(source, rows) && SchemaVersions in rows && MigrationLedger in rows
    ensures CountsMatch(source, Stamped(rows, stamp, version, generation))
  {
  }

  lemma DirectKeepsShape(source: Database, version: nat, from: Schema, to: Schema)
    requires source.Keys == from.Keys == to.Keys && HasV8Tables(source) && Direct(source, version, from, to).Built?
    ensures SameShape(source, Direct(source, version, from, to).result)
  {
    var copied := CopiedDatabase(source, from, to);
    if version == 8 {
      AssignTasksKeepsCount(copied[Tasks], TaskPairs(source));
      AssignMeetingsKeepsCount(copied[Meetings], CollectLinks(MeetingPairs(source)).result);
    }
  }

  lemma {:induction false} AssignTasksKeepsCount(tasks: Rows, links: seq<Link>)
    requires AssignTasks(tasks, links).Built?
    ensures |AssignTasks(tasks, links).result| == |tasks|
  {
    if links != [] { AssignTasksKeepsCount(tasks, links[..|links| - 1]); }
  }

  lemma {:induction false} AssignMeetingsKeepsCount(meetings: Rows, items: seq<Link>)
    requires AssignMeetings(meetings, items).Built?
    ensures |AssignMeetings(meetings, items).result| == |meetings|
  {
    if items != [] { AssignMeetingsKeepsCount(meetings, items[..|items| - 1]); }
  }

  lemma FinishedCounts(source: Database, rows: Outcome<Database>, stamp: Stamp, generation: Value, sound: Database -> bool)
    requires SchemaVersions in source && MigrationLedger in source && (rows.Built? ==> SameShape(source, rows.result))
    ensures Finished(source, rows, stamp, generation, sound) != CountMismatch
  {
    if rows.Built? { StampedCounts(source, rows.result, stamp, TEN, generation); }
  }

  /** The row-count check after the rebuild never fires, on any database at all: the copies and the
      updates already fix every count. */
  lemma RowCountsAlwaysMatch(source: Database, version: nat, from: Schema, to: Schema, stamp: Stamp, sound: Database -> bool)
    requires source.Keys == from.Keys == to.Keys && HasV8Tables(source)
    requires SchemaVersions in source && MigrationLedger in source
    ensures Build(source, version, from, to, stamp, sound) != CountMismatch
  {
    if ActiveIdentity(source[SchemaVersions]).Some? {
      if Direct(source, version, from, to).Built? { DirectKeepsShape(source, version, from, to); }
      FinishedCounts(source, Direct(source, version, from, to), stamp, Generation(source), sound);
    }
  }

  predicate IsActive(row: Row) {
    Get(row, Status) == ACTIVE
  }

  lemma {:induction false} NoneActive(rows: Rows)
    requires forall i :: 0 <= i < |rows| ==> !IsActive(rows[i])
    ensures ActiveIdentity(rows) == None
  {
    if rows != [] { NoneActive(rows[..|rows| - 1]); }
  }

  lemma StatusesDiffer()
    ensures ACTIVE != SUPERSEDED
  {
  }

  /** Exactly one row is active: the last, of this version and generation. */
  ghost predicate OneActive(identities: Rows, version: Value, generation: Value) {
    && identities != []
    && (forall i :: 0 <= i < |identities| ==> (IsActive(identities[i]) <==> i == |identities| - 1))
    && ActiveIdentity(identities) == Some(identities[|identities| - 1])
    && Get(identities[|identities| - 1], Version) == version
    && Get(identities[|identities| - 1], DatabaseGenerationId) == generation
  }

  lemma StampedIdentities(rows: Rows, stamp: Stamp, version: Value, generation: Value)
    ensures OneActive(Superseded(rows) + [NewIdentity(stamp, version, generation)], version, generation)
  {
    var identities := Superseded(rows) + [NewIdentity(stamp, version, generation)];
    StatusesDiffer();
    assert identities[..|rows|] == Superseded(rows);
    NoneActive(identities[..|rows|]);
  }

  /** A rebuilt database has exactly one active identity; it is the new v10 one and keeps the
      generation of the source's newest active identity. */
  lemma OneIdentityKept(source: Database, version: nat, from: Schema, to: Schema, stamp: Stamp, sound: Database -> bool)
    requires source.Keys == from.Keys == to.Keys && HasV8Tables(source)
    requires SchemaVersions in source && MigrationLedger in source
    requires Build(source, version, from, to, stamp, sound).BuiltV10?
    ensures OneActive(Build(source, version, from, to, stamp, sound).db[SchemaVersions], TEN, Generation(source))
  {
    StampedIdentities(Direct(source, version, from, to).result[SchemaVersions], stamp, TEN, Generation(source));
  }

  /** Character by character, and a proper prefix first. */
  predicate FirstDiffers(a: string, b: string, k: nat) {
    k <= |a| && k < |b| && a[..k] == b[..k] && (k == |a| || a[k] < b[k])
  }

  lemma {:induction false} TextOrder(a: string, b: string)
    ensures TextLess(a, b) <==> exists k: nat :: FirstDiffers(a, b, k)
  {
    if a != "" && b != "" && a[0] == b[0] {
      TextOrder(a[1..], b[1..]);
      if k: nat :| FirstDiffers(a[1..], b[1..], k) { assert a[..k + 1] == [a[0]] + a[1..][..k] && b[..k + 1] == [b[0]] + b[1..][..k];
                                                     assert FirstDiffers(a, b, k + 1); }
      if k: nat :| FirstDiffers(a, b, k) {
        assert k > 0;
        assert a[1..][..k - 1] == a[..k][1..] && b[1..][..k - 1] == b[..k][1..];
        assert FirstDiffers(a[1..], b[1..], k - 1);
      }
    } else if TextLess(a, b) {
      assert FirstDiffers(a, b, 0);
    }
  }

  /** The active identity is an active row that no active row was activated after. */
  lemma {:induction false} ActiveIdentityIsNewest(rows: Rows)
    ensures ActiveIdentity(rows).None? <==> forall i :: 0 <= i < |rows| ==> Get(rows[i], Status) != Text("active")
    ensures ActiveIdentity(rows).Some? ==> IsNewest(rows, ActiveIdentity(rows).value)
  {
    if rows != [] {
      var front, last := rows[..|rows| - 1], rows[|rows| - 1];
      ActiveIdentityIsNewest(front);
      NotEarlier(Get(last, ActivatedAt));
      var best := ActiveIdentity(front);
      if best.Some? && Earlier(Get(best.value, ActivatedAt), Get(last, ActivatedAt)) {
        forall i | 0 <= i < |front| && Get(front[i], Status) == Text("active")
          ensures !Earlier(Get(last, ActivatedAt), Get(front[i], ActivatedAt))
        {
          EarlierChain(Get(best.value, ActivatedAt), Get(last, ActivatedAt), Get(front[i], ActivatedAt));
        }
      }
    }
  }

  predicate IsNewest(rows: Rows, found: Row) {
    && found in rows && Get(found, Status) == Text("active")
    && forall i :: 0 <= i < |rows| && Get(rows[i], Status) == Text("active") ==>
         !Earlier(Get(found, ActivatedAt), Get(rows[i], ActivatedAt))
  }

  lemma NotEarlier(a: Value)
    ensures !Earlier(a, a)
  {
    if a.Text? { NotLess(a.text); }
  }

  lemma {:induction false} NotLess(a: string)
    ensures !TextLess(a, a)
  {
    if a != "" { NotLess(a[1..]); }
  }

  lemma EarlierChain(a: Value, b: Value, c: Value)
    requires Earlier(a, b) && !Earlier(a, c)
    ensures !Earlier(b, c)
  {
    if Earlier(b, c) && a.Text? { TextChain(a.text, b.text, c.text); }
  }

  lemma {:induction false} TextChain(a: string, b: string, c: string)
    requires TextLess(a, b) && TextLess(b, c)
    ensures TextLess(a, c)
  {
    if a != "" && a[0] == b[0] && b[0] == c[0] { TextChain(a[1..], b[1..], c[1..]); }
  }

  predicate HasActive(rows: Rows) {
    exists i :: 0 <= i < |rows| && Get(rows[i], Status) == Text("active")
  }

  /** The verdict of a build: none without an active identity, the refusal of its rows, or what the
      checks say of the finished database. */
  lemma BuildVerdict(source: Database, version: nat, from: Schema, to: Schema, stamp: Stamp, sound: Database -> bool)
    requires source.Keys == from.Keys == to.Keys && HasV8Tables(source)
    requires SchemaVersions in source && MigrationLedger in source
    ensures ActiveIdentity(source[SchemaVersions]).Some? <==> HasActive(source[SchemaVersions])
    ensures var outcome := Build(source, version, from, to, stamp, sound);
            if !HasActive(source[SchemaVersions]) then outcome == NoActiveIdentity
            else
              match Direct(source, version, from, to)
              case Refused(why) => outcome == Lossy(why)
              case Built(rows) =>
                var target := Stamped(rows, stamp, Text("10"), Generation(source));
                outcome == if sound(target) then BuiltV10(target) else Unsound
  {
    ActiveIdentityIsNewest(source[SchemaVersions]);
    RowCountsAlwaysMatch(source, version, from, to, stamp, sound);
  }

  /** What the build adds to the rows: one ledger row and one identity row; the ledger and, but for
      the status of the active ones, the identity rows stay. */
  lemma StampKeepsHistory(rows: Database, stamp: Stamp, version: Value, generation: Value)
    requires SchemaVersions in rows && MigrationLedger in rows
    ensures var before, stamped := rows[SchemaVersions], Stamped(rows, stamp, version, generation);
            && stamped[MigrationLedger] == rows[MigrationLedger] + [stamp.ledger]
            && |stamped[SchemaVersions]| == |before| + 1
            && forall i :: 0 <= i < |before| ==>
                 stamped[SchemaVersions][i]
                 == if Get(before[i], Status) == Text("active") then before[i][Status := Text("superseded")] else before[i]
    ensures var added := Stamped(rows, stamp, version, generation)[SchemaVersions][|rows[SchemaVersions]|];
            forall c :: Get(added, c) == match c
                                         case Status => Text("active")
                                         case Version => version
                                         case DatabaseGenerationId => generation
                                         case _ => Get(stamp.identity, c)
  {
  }

  // ---------- the migrators with their identities ----------

  const EIGHT := Text("8")
  const NINE := Text("9")

  predicate IsActiveVersion(db: Database, version: Value)
    requires SchemaVersions in db
  {
    var identity := ActiveIdentity(db[SchemaVersions]);
    identity.Some? && Str(Get(identity.value, Version)) == version
  }

  /** The v8 to v9 migrator; it refuses only a source that is not an active v8. */
  function MigratedV9(source: Database, v8: Schema, v9: Schema, stamp: Stamp): (r: Option<Database>)
    requires source.Keys == v8.Keys == v9.Keys && HasV8Tables(source)
    requires SchemaVersions in source && MigrationLedger in source
    ensures r.Some? ==> r.value.Keys == source.Keys
  {
    if IsActiveVersion(source, EIGHT) then Some(Stamped(V9FromV8(source, v8, v9), stamp, NINE, Generation(source))) else None
  }

  function MigratedV10(source: Database, v10: Schema, stamp: Stamp): Option<Database>
    requires source.Keys == v10.Keys && SchemaVersions in source && MigrationLedger in source
  {
    if IsActiveVersion(source, NINE) then Some(Stamped(V10FromV9(source, v10), stamp, TEN, Generation(source))) else None
  }

  /** The two migrators in turn. */
  function Migrated(source: Database, v8: Schema, v9: Schema, v10: Schema, first: Stamp, second: Stamp): Option<Database>
    requires source.Keys == v8.Keys == v9.Keys == v10.Keys && HasV8Tables(source)
    requires SchemaVersions in source && MigrationLedger in source
  {
    match MigratedV9(source, v8, v9, first)
    case None => None
    case Some(nine) => MigratedV10(nine, v10, second)
  }

  lemma StampingSparesBusinessRows(db: Database, stamp: Stamp, version: Value, generation: Value)
    requires SchemaVersions in db && MigrationLedger in db
    ensures SameBusinessRows(Stamped(db, stamp, version, generation), db)
  {
  }

  lemma ClassifyingSparesBusinessRows(a: Database, b: Database, v10: Schema)
    requires a.Keys == v10.Keys && SameBusinessRows(a, b)
    ensures SameBusinessRows(V10FromV9(a, v10), V10FromV9(b, v10))
  {
  }

  lemma SameBusinessRowsChain(a: Database, b: Database, c: Database, d: Database)
    requires SameBusinessRows(a, b) && SameBusinessRows(c, d)
    ensures SameBusinessRows(a, c) <==> SameBusinessRows(b, d)
  {
  }

  lemma NewIdentityIsActive(db: Database, stamp: Stamp, version: Value, generation: Value)
    requires SchemaVersions in db && MigrationLedger in db && version != Value.Null && generation != Value.Null
    ensures var stamped := Stamped(db, stamp, version, generation);
            && OneActive(stamped[SchemaVersions], version, generation)
            && IsActiveVersion(stamped, version) && Generation(stamped) == generation
  {
    StampedIdentities(db[SchemaVersions], stamp, version, generation);
  }

  /** The two migrators in turn always run through on an active v8 database, and leave one identity
      of the same generation. */
  lemma MigratorsCompose(source: Database, v8: Schema, v9: Schema, v10: Schema, first: Stamp, second: Stamp)
    requires source.Keys == v8.Keys == v9.Keys == v10.Keys && HasV8Tables(source)
    requires SchemaVersions in source && MigrationLedger in source && IsActiveVersion(source, EIGHT)
    ensures Migrated(source, v8, v9, v10, first, second).Some?
    ensures var ten := Migrated(source, v8, v9, v10, first, second).value;
            && SchemaVersions in ten && OneActive(ten[SchemaVersions], TEN, Generation(source))
            && SameBusinessRows(ten, Stepwise(source, v8, v9, v10))
  {
    var plain, generation := V9FromV8(source, v8, v9), Generation(source);
    var nine := Stamped(plain, first, NINE, generation);
    NewIdentityIsActive(plain, first, NINE, generation);
    NewIdentityIsActive(V10FromV9(nine, v10), second, TEN, generation);
    StampingSparesBusinessRows(plain, first, NINE, generation);
    StampingSparesBusinessRows(V10FromV9(nine, v10), second, TEN, generation);
    ClassifyingSparesBusinessRows(nine, plain, v10);
  }

  /** The generation is the newest active identity's own. */
  lemma GenerationIsNewest(db: Database)
    requires SchemaVersions in db && HasActive(db[SchemaVersions])
    ensures ActiveIdentity(db[SchemaVersions]).Some?
    ensures exists found :: IsNewest(db[SchemaVersions], found) && SpeltAs(Get(found, DatabaseGenerationId), Generation(db))
  {
    ActiveIdentityIsNewest(db[SchemaVersions]);
    var found := ActiveIdentity(db[SchemaVersions]).value;
    assert IsNewest(db[SchemaVersions], found) && SpeltAs(Get(found, DatabaseGenerationId), Generation(db));
  }

  /** The two migrators run through exactly on a database whose newest active identity is v8. */
  lemma MigratedIff(source: Database, v8: Schema, v9: Schema, v10: Schema, first: Stamp, second: Stamp)
    requires source.Keys == v8.Keys == v9.Keys == v10.Keys && HasV8Tables(source)
    requires SchemaVersions in source && MigrationLedger in source
    ensures var newest := ActiveIdentity(source[SchemaVersions]);
            Migrated(source, v8, v9, v10, first, second).Some? <==> newest.Some? && SpeltAs(Get(newest.value, Version), Text("8"))
  {
    if IsActiveVersion(source, EIGHT) { MigratorsCompose(source, v8, v9, v10, first, second); }
  }

  lemma BuiltHasTheRows(source: Database, version: nat, from: Schema, to: Schema, stamp: Stamp, sound: Database -> bool)
    requires source.Keys == from.Keys == to.Keys && HasV8Tables(source)
    requires SchemaVersions in source && MigrationLedger in source
    requires Build(source, version, from, to, stamp, sound).BuiltV10?
    ensures Direct(source, version, from, to).Built?
    ensures SameBusinessRows(Build(source, version, from, to, stamp, sound).db, Direct(source, version, from, to).result)
  {
    StampingSparesBusinessRows(Direct(source, version, from, to).result, stamp, TEN, Generation(source));
  }

  /** The rebuild against the migrators, identities included: the business rows of a built v10
      database are those of the stepwise path exactly when the meeting links are definite. */
  lemma BuildAgainstMigrators(source: Database, v8: Schema, v9: Schema, v10: Schema, stamp: Stamp, first: Stamp,
                              second: Stamp, sound: Database -> bool)
    requires Published(v8, v9, v10) && Fits(source, v8) && IsActiveVersion(source, EIGHT)
    requires Build(source, 8, v8, v10, stamp, sound).BuiltV10?
    ensures var ten := Migrated(source, v8, v9, v10, first, second);
            ten.Some? && (SameBusinessRows(Build(source, 8, v8, v10, stamp, sound).db, ten.value) <==> Definite(MeetingPairs(source)))
  {
    MigratorsCompose(source, v8, v9, v10, first, second);
    BuiltHasTheRows(source, 8, v8, v10, stamp, sound);
    DirectEqualsStepwiseIff(source, v8, v9, v10);
    SameBusinessRowsChain(Build(source, 8, v8, v10, stamp, sound).db, Direct(source, 8, v8, v10).result,
                          Migrated(source, v8, v9, v10, first, second).value, Stepwise(source, v8, v9, v10));
  }

  // ---------- a database on which the two paths differ ----------

  /** Schemas with the columns the rebuild reads: a plan on tasks and meetings and no plan within a
      plan from v9 on, a binding kind on recordings in v10. */
  function SmallSchema(plan: bool, binding: bool): Schema {
    map[Tasks := if plan then {Id, PlanningCycleId} else {Id},
        Meetings := if plan then {Id, PlanningCycleId} else {Id},
        Recordings := if binding then {Id, BindingKind} else {Id},
        DecisionActions := {Id, TaskId, PlanningCycleId}, PlanningCycles := if plan then {Id} else {Id, ParentPlanId},
        DerivationLineage := {DerivativeKind, DerivativeObjectId, SourceSetId, ScopeId},
        SourceSetMembers := {SourceObjectKind, SourceObjectId, SourceSetId, ScopeId},
        SchemaVersions := {Status, Version, DatabaseGenerationId}, MigrationLedger := {Id}]
  }

  const LINEAGE: Row :=
    map[DerivativeKind := MEETING_PLAN_LINK, DerivativeObjectId := Value.Null, SourceSetId := Text("set"), ScopeId := Text("scope")]

  function Member(plan: string): Row {
    map[SourceObjectKind := PLANNING_CYCLE, SourceObjectId := Text(plan), SourceSetId := Text("set"), ScopeId := Text("scope")]
  }

  /** An active v8 database with one plan, one meeting that happens to be called "None", and a lineage
      link to the plan that names no meeting. */
  function UnnamedLink(plan: string): Database {
    map[Tasks := [], Meetings := [map[Id := Text("None")]], Recordings := [], DecisionActions := [],
        PlanningCycles := [map[Id := Text(plan), ParentPlanId := Value.Null]],
        DerivationLineage := [LINEAGE], SourceSetMembers := [Member(plan)],
        SchemaVersions := [map[Status := ACTIVE, Version := EIGHT, DatabaseGenerationId := Text("generation")]],
        MigrationLedger := []]
  }

  lemma SmallSchemasArePublished()
    ensures Published(SmallSchema(false, false), SmallSchema(true, false), SmallSchema(true, true))
  {
  }

  lemma UnnamedLinkFits(plan: string)
    ensures Fits(UnnamedLink(plan), SmallSchema(false, false))
  {
  }

  lemma UnnamedLinkIsV8(plan: string)
    ensures SchemaVersions in UnnamedLink(plan) && IsActiveVersion(UnnamedLink(plan), EIGHT)
  {
    var identities := UnnamedLink(plan)[SchemaVersions];
    assert identities[..0] == [] && ActiveIdentity(identities[..0]) == None;
  }

  lemma UnnamedLinkPairs(plan: string)
    ensures TaskPairs(UnnamedLink(plan)) == [] && MeetingPairs(UnnamedLink(plan)) == [(Value.Null, Text(plan))]
  {
    var members := [Member(plan)];
    assert members[..0] == [] && JoinOne(LINEAGE, members[..0]) == [];
    assert [LINEAGE][..0] == [] && MeetingLinks([LINEAGE][..0], members) == [];
    assert Joins(LINEAGE, Member(plan));
  }

  lemma UnnamedLinkRepresentable(plan: string)
    ensures Representable(UnnamedLink(plan)) && !Definite(MeetingPairs(UnnamedLink(plan)))
  {
    UnnamedLinkPairs(plan);
    var meetings, links := UnnamedLink(plan)[Meetings], MeetingPairs(UnnamedLink(plan));
    assert Spelt(links) == [(Text("None"), Text(plan))];
    assert RowCount(meetings[..0], Text("None"), false) == 0;
    assert RowCount(meetings, Text("None"), false) == 1;
    assert links[..0] == [] && LastPlan(links, Text("None")) == None;
  }

  /** A link whose meeting is NULL is spelt "None": the rebuild accepts this whole database, hangs the
      plan on the meeting of that name, and so differs from the migrators, which hang it on none. */
  lemma UnnamedMeetingDiverges(plan: string, stamp: Stamp, first: Stamp, second: Stamp)
    ensures var source, v8, v9, v10 := UnnamedLink(plan), SmallSchema(false, false), SmallSchema(true, false), SmallSchema(true, true);
            && Published(v8, v9, v10) && Fits(source, v8) && IsActiveVersion(source, EIGHT)
            && Direct(source, 8, v8, v10).Built?
            && !SameBusinessRows(Direct(source, 8, v8, v10).result, Stepwise(source, v8, v9, v10))
            && Build(source, 8, v8, v10, stamp, _ => true).BuiltV10?
            && Migrated(source, v8, v9, v10, first, second).Some?
            && !SameBusinessRows(Build(source, 8, v8, v10, stamp, _ => true).db, Migrated(source, v8, v9, v10, first, second).value)
  {
    SmallSchemasArePublished();
    UnnamedLinkFits(plan);
    UnnamedLinkIsV8(plan);
    UnnamedLinkRepresentable(plan);
    Diverges(UnnamedLink(plan), SmallSchema(false, false), SmallSchema(true, false), SmallSchema(true, true), stamp, first, second, _ => true);
  }

  /** A relation that no link states, made up from one with a NULL end. */
  ghost predicate MadeUp(source: Database, rebuilt: Outcome<Database>, pair: Link)
    requires HasV8Tables(source)
  {
    && rebuilt.Built? && Meetings in rebuilt.result
    && pair in PlanPairs(rebuilt.result[Meetings]) && pair !in PairSet(MeetingPairs(source))
  }

  lemma SpeltLinkIsMadeUp(source: Database, v8: Schema, v9: Schema, v10: Schema, pair: Link)
    requires Published(v8, v9, v10) && Fits(source, v8) && Representable(source)
    requires pair in Spelt(MeetingPairs(source)) && pair !in MeetingPairs(source)
    ensures MadeUp(source, Direct(source, 8, v8, v10), pair)
  {
    RebuildAcceptsIff(source, v8, v9, v10);
    RebuildHoldsSpeltLinks(source, v8, v9, v10);
  }

  /** The rebuild accepts that database and makes up a relation: the plan of the meeting "None". */
  lemma UnnamedMeetingIsMadeUp(plan: string)
    ensures var source := UnnamedLink(plan);
            MadeUp(source, Direct(source, 8, SmallSchema(false, false), SmallSchema(true, true)), (Text("None"), Text(plan)))
  {
    SmallSchemasArePublished();
    UnnamedLinkFits(plan);
    UnnamedLinkRepresentable(plan);
    UnnamedLinkPairs(plan);
    assert Spelt(MeetingPairs(UnnamedLink(plan)))[0] == (Text("None"), Text(plan));
    SpeltLinkIsMadeUp(UnnamedLink(plan), SmallSchema(false, false), SmallSchema(true, false), SmallSchema(true, true),
                      (Text("None"), Text(plan)));
  }

  lemma NestedPlanRefused(source: Database, v8: Schema, v10: Schema, stamp: Stamp, sound: Database -> bool, k: nat)
    requires source.Keys == v8.Keys == v10.Keys && HasV8Tables(source)
    requires SchemaVersions in source && MigrationLedger in source && ActiveIdentity(source[SchemaVersions]).Some?
    requires k < |source[PlanningCycles]| && Get(source[PlanningCycles][k], ParentPlanId) != Value.Null
    ensures Direct(source, 8, v8, v10) == Refused(NestedPlan) && Build(source, 8, v8, v10, stamp, sound) == Lossy(NestedPlan)
  {
    NestedPlansCounted(source[PlanningCycles]);
    assert Nested(source[PlanningCycles][k]);
  }

  lemma StepwisePlans(source: Database, v8: Schema, v9: Schema, v10: Schema, k: nat)
    requires source.Keys == v8.Keys == v9.Keys == v10.Keys && HasV8Tables(source) && ParentPlanId !in v10[PlanningCycles]
    requires k < |source[PlanningCycles]|
    ensures var plans := Stepwise(source, v8, v9, v10)[PlanningCycles];
            |plans| == |source[PlanningCycles]| && Get(plans[k], ParentPlanId) == Value.Null
  {
    var nine := V9FromV8(source, v8, v9);
    assert Stepwise(source, v8, v9, v10)[PlanningCycles] == ClassifiedRows(PlanningCycles, v10[PlanningCycles], nine[PlanningCycles]);
    assert nine[PlanningCycles] == RecastRows(v9[PlanningCycles], source[PlanningCycles]);
  }

  lemma MigratedPlans(source: Database, v8: Schema, v9: Schema, v10: Schema, first: Stamp, second: Stamp, k: nat)
    requires source.Keys == v8.Keys == v9.Keys == v10.Keys && HasV8Tables(source)
    requires SchemaVersions in source && MigrationLedger in source && IsActiveVersion(source, EIGHT)
    requires ParentPlanId !in v10[PlanningCycles] && k < |source[PlanningCycles]|
    ensures var ten := Migrated(source, v8, v9, v10, first, second);
            && ten.Some? && PlanningCycles in ten.value && |ten.value[PlanningCycles]| == |source[PlanningCycles]|
            && Get(ten.value[PlanningCycles][k], ParentPlanId) == Value.Null
  {
    MigratorsCompose(source, v8, v9, v10, first, second);
    StepwisePlans(source, v8, v9, v10, k);
  }

  /** A plan within a plan: the rebuild refuses the database; the migrators accept it, and with no
      column for it in v10 the relation is gone. */
  lemma NestedPlanIsDropped(source: Database, v8: Schema, v9: Schema, v10: Schema, stamp: Stamp, first: Stamp,
                            second: Stamp, sound: Database -> bool, k: nat)
    requires Published(v8, v9, v10) && Fits(source, v8) && IsActiveVersion(source, EIGHT) && ParentPlanId !in v10[PlanningCycles]
    requires k < |source[PlanningCycles]| && Get(source[PlanningCycles][k], ParentPlanId) != Value.Null
    ensures Direct(source, 8, v8, v10) == Refused(NestedPlan) && Build(source, 8, v8, v10, stamp, sound) == Lossy(NestedPlan)
    ensures var ten := Migrated(source, v8, v9, v10, first, second);
            && ten.Some? && PlanningCycles in ten.value && |ten.value[PlanningCycles]| == |source[PlanningCycles]|
            && Get(ten.value[PlanningCycles][k], ParentPlanId) == Value.Null
  {
    NestedPlanRefused(source, v8, v10, stamp, sound, k);
    MigratedPlans(source, v8, v9, v10, first, second, k);
  }

  /** Every representable database with indefinite links is accepted and diverges. */
  lemma Diverges(source: Database, v8: Schema, v9: Schema, v10: Schema, stamp: Stamp, first: Stamp, second: Stamp,
                 sound: Database -> bool)
    requires Published(v8, v9, v10) && Fits(source, v8) && IsActiveVersion(source, EIGHT)
    requires Representable(source) && !Definite(MeetingPairs(source)) && forall db :: sound(db)
    ensures Direct(source, 8, v8, v10).Built?
    ensures !SameBusinessRows(Direct(source, 8, v8, v10).result, Stepwise(source, v8, v9, v10))
    ensures Build(source, 8, v8, v10, stamp, sound).BuiltV10? && Migrated(source, v8, v9, v10, first, second).Some?
    ensures !SameBusinessRows(Build(source, 8, v8, v10, stamp, sound).db, Migrated(source, v8, v9, v10, first, second).value)
  {
    RebuildAcceptsIff(source, v8, v9, v10);
    DirectEqualsStepwiseIff(source, v8, v9, v10);
    BuildsWhenSound(source, v8, v10, stamp, sound);
    BuildAgainstMigrators(source, v8, v9, v10, stamp, first, second, sound);
  }

  lemma BuildsWhenSound(source: Database, v8: Schema, v10: Schema, stamp: Stamp, sound: Database -> bool)
    requires source.Keys == v8.Keys == v10.Keys && HasV8Tables(source)
    requires SchemaVersions in source && MigrationLedger in source && ActiveIdentity(source[SchemaVersions]).Some?
    requires Direct(source, 8, v8, v10).Built? && forall db :: sound(db)
    ensures Build(source, 8, v8, v10, stamp, sound).BuiltV10?
  {
    RowCountsAlwaysMatch(source, 8, v8, v10, stamp, sound);
  }
}
