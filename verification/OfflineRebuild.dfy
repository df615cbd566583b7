/** The rebuild of a v8 or v9 database into a v10 one, and the older pair of migrators (v8 to v9,
    v9 to v10) written independently of it. Tables are rows in stored order; a row maps each column
    to its value. */
module OfflineRebuild {
  import opened Options

  datatype Value = Null | Text(text: string)

  datatype Column =
    | Id | TaskId | PlanningCycleId | ParentPlanId | BindingKind
    | DerivativeKind | DerivativeObjectId | SourceObjectKind | SourceObjectId | SourceSetId | ScopeId
    | Status | Version | ActivatedAt | DatabaseGenerationId
    | OtherColumn(name: string)

  datatype Table =
    | Tasks | Meetings | Recordings | DecisionActions | PlanningCycles
    | DerivationLineage | SourceSetMembers | SchemaVersions | MigrationLedger
    | OtherTable(name: string)

  type Row = map<Column, Value>
  type Rows = seq<Row>
  type Database = map<Table, Rows>
  type Schema = map<Table, set<Column>>
  type Link = (Value, Value)

  const MEETING := Text("meeting")
  const MEETING_PLAN_LINK := Text("meeting_plan_link")
  const PLANNING_CYCLE := Text("planning_cycle")
  const ACTIVE := Text("active")
  const SUPERSEDED := Text("superseded")

  function Get(row: Row, column: Column): Value {
    if column in row then row[column] else Null
  }

  /** Python's `str` of a stored value. */
  function Str(value: Value): Value {
    if value.Null? then Text("None") else value
  }

  // ---------- copying ----------

  /** One row inserted by its common columns: a column the source lacks takes its default. */
  function Recast(row: Row, columns: set<Column>): Row {
    map c | c in columns :: Get(row, c)
  }

  /** `_copy_table` on one row. */
  function Copied(table: Table, had: set<Column>, columns: set<Column>, row: Row): Row {
    if table == Recordings && BindingKind !in had then Recast(row, columns)[BindingKind := MEETING] else Recast(row, columns)
  }

  function CopiedRows(table: Table, had: set<Column>, columns: set<Column>, rows: Rows): (r: Rows)
    ensures |r| == |rows| && forall i :: 0 <= i < |rows| ==> r[i] == Copied(table, had, columns, rows[i])
  {
    seq(|rows|, i requires 0 <= i < |rows| => Copied(table, had, columns, rows[i]))
  }

  predicate RowsFit(rows: Rows, columns: set<Column>) {
    forall i :: 0 <= i < |rows| ==> rows[i].Keys == columns
  }

  predicate Fits(db: Database, schema: Schema) {
    db.Keys == schema.Keys && forall t :: t in db ==> RowsFit(db[t], schema[t])
  }

  function CopiedDatabase(source: Database, from: Schema, to: Schema): Database
    requires source.Keys == from.Keys == to.Keys
  {
    map t | t in to :: CopiedRows(t, from[t], to[t], source[t])
  }

  // ---------- UPDATE ... SET planning_cycle_id ----------

  /** `WHERE id = ?`, optionally `AND planning_cycle_id IS NULL`: no NULL ever equals anything. */
  predicate Hit(row: Row, id: Value, onlyNull: bool) {
    id != Null && Get(row, Id) == id && (onlyNull ==> Get(row, PlanningCycleId) == Null)
  }

  function WithPlan(row: Row, id: Value, plan: Value, onlyNull: bool): Row {
    if Hit(row, id, onlyNull) then row[PlanningCycleId := plan] else row
  }

  function SetPlan(rows: Rows, id: Value, plan: Value, onlyNull: bool): (r: Rows)
    ensures |r| == |rows| && forall i :: 0 <= i < |rows| ==> r[i] == WithPlan(rows[i], id, plan, onlyNull)
  {
    seq(|rows|, i requires 0 <= i < |rows| => WithPlan(rows[i], id, plan, onlyNull))
  }

  function RowCount(rows: Rows, id: Value, onlyNull: bool): nat {
    if rows == [] then 0
    else RowCount(rows[..|rows| - 1], id, onlyNull) + if Hit(rows[|rows| - 1], id, onlyNull) then 1 else 0
  }

  /** The updates of all links in turn, whatever they hit. */
  function SetPlans(rows: Rows, links: seq<Link>, onlyNull: bool): (r: Rows)
    ensures |r| == |rows|
  {
    if links == [] then rows
    else
      var last := links[|links| - 1];
      SetPlan(SetPlans(rows, links[..|links| - 1], onlyNull), last.0, last.1, onlyNull)
  }

  // ---------- what the source says ----------

  predicate Nested(row: Row) {
    Get(row, ParentPlanId) != Null
  }

  function NestedPlans(rows: Rows): nat {
    if rows == [] then 0 else NestedPlans(rows[..|rows| - 1]) + if Nested(rows[|rows| - 1]) then 1 else 0
  }

  /** Task and plan of each action that names both. */
  function ActionLinks(actions: Rows): (r: seq<Link>)
    ensures forall i :: 0 <= i < |r| ==> r[i].0 != Null && r[i].1 != Null
  {
    if actions == [] then []
    else
      var last := actions[|actions| - 1];
      ActionLinks(actions[..|actions| - 1])
      + if Get(last, TaskId) != Null && Get(last, PlanningCycleId) != Null
        then [(Get(last, TaskId), Get(last, PlanningCycleId))] else []
  }

  predicate Joins(lineage: Row, member: Row) {
    && Get(lineage, DerivativeKind) == MEETING_PLAN_LINK && Get(member, SourceObjectKind) == PLANNING_CYCLE
    && Get(lineage, SourceSetId) != Null && Get(lineage, SourceSetId) == Get(member, SourceSetId)
    && Get(lineage, ScopeId) != Null && Get(lineage, ScopeId) == Get(member, ScopeId)
  }

  function JoinOne(lineage: Row, members: Rows): seq<Link> {
    if members == [] then []
    else
      var last := members[|members| - 1];
      JoinOne(lineage, members[..|members| - 1])
      + if Joins(lineage, last) then [(Get(lineage, DerivativeObjectId), Get(last, SourceObjectId))] else []
  }

  /** Meeting and plan of each lineage link joined with the members of its source set. */
  function MeetingLinks(lineage: Rows, members: Rows): seq<Link> {
    if lineage == [] then []
    else MeetingLinks(lineage[..|lineage| - 1], members) + JoinOne(lineage[|lineage| - 1], members)
  }

  /** An action that names both a task and a plan. */
  predicate ActionSays(action: Row, task: Value, plan: Value) {
    task != Null && plan != Null && Get(action, TaskId) == task && Get(action, PlanningCycleId) == plan
  }

  /** The action links are exactly what the action rows say. */
  lemma {:induction false} ActionLinksAreRows(actions: Rows, task: Value, plan: Value)
    ensures (task, plan) in ActionLinks(actions) <==> exists i :: 0 <= i < |actions| && ActionSays(actions[i], task, plan)
  {
    if actions != [] {
      var front, last := actions[..|actions| - 1], actions[|actions| - 1];
      ActionLinksAreRows(front, task, plan);
      if i :| 0 <= i < |front| && ActionSays(front[i], task, plan) { assert ActionSays(actions[i], task, plan); }
      if i :| 0 <= i < |actions| && ActionSays(actions[i], task, plan) {
        if i < |front| { assert ActionSays(front[i], task, plan); }
      }
      if ActionSays(last, task, plan) { assert ActionSays(actions[|actions| - 1], task, plan); }
    }
  }

  /** A lineage row of a meeting-plan link and a plan that is a member of its source set and scope. */
  predicate LineageSays(lineage: Row, member: Row, meeting: Value, plan: Value) {
    && Get(lineage, DerivativeKind) == Text("meeting_plan_link") && Get(lineage, DerivativeObjectId) == meeting
    && Get(member, SourceObjectKind) == Text("planning_cycle") && Get(member, SourceObjectId) == plan
    && Get(lineage, SourceSetId) == Get(member, SourceSetId) != Null && Get(lineage, ScopeId) == Get(member, ScopeId) != Null
  }

  lemma {:induction false} JoinedMembers(lineage: Row, members: Rows, meeting: Value, plan: Value)
    ensures (meeting, plan) in JoinOne(lineage, members)
            <==> exists j :: 0 <= j < |members| && LineageSays(lineage, members[j], meeting, plan)
  {
    if members != [] {
      var front := members[..|members| - 1];
      JoinedMembers(lineage, front, meeting, plan);
      if j :| 0 <= j < |front| && LineageSays(lineage, front[j], meeting, plan) { assert LineageSays(lineage, members[j], meeting, plan); }
      if j :| 0 <= j < |members| && LineageSays(lineage, members[j], meeting, plan) {
        if j < |front| { assert LineageSays(lineage, front[j], meeting, plan); }
      }
    }
  }

  predicate SomeLineageSays(lineage: Row, members: Rows, meeting: Value, plan: Value) {
    exists j :: 0 <= j < |members| && LineageSays(lineage, members[j], meeting, plan)
  }

  predicate SomeRowSays(lineage: Rows, members: Rows, meeting: Value, plan: Value) {
    exists i :: 0 <= i < |lineage| && SomeLineageSays(lineage[i], members, meeting, plan)
  }

  lemma OneMoreRowSays(lineage: Rows, members: Rows, meeting: Value, plan: Value)
    requires lineage != []
    ensures SomeRowSays(lineage, members, meeting, plan)
            <==> SomeRowSays(lineage[..|lineage| - 1], members, meeting, plan)
                 || SomeLineageSays(lineage[|lineage| - 1], members, meeting, plan)
  {
    var front := lineage[..|lineage| - 1];
    if i :| 0 <= i < |front| && SomeLineageSays(front[i], members, meeting, plan) {
      assert SomeLineageSays(lineage[i], members, meeting, plan);
    }
    if i :| 0 <= i < |lineage| && SomeLineageSays(lineage[i], members, meeting, plan) {
      if i < |front| { assert SomeLineageSays(front[i], members, meeting, plan); }
    }
  }

  /** The meeting links are exactly what lineage and member rows say together. */
  lemma {:induction false} MeetingLinksAreRows(lineage: Rows, members: Rows, meeting: Value, plan: Value)
    ensures (meeting, plan) in MeetingLinks(lineage, members) <==> SomeRowSays(lineage, members, meeting, plan)
  {
    if lineage != [] {
      MeetingLinksAreRows(lineage[..|lineage| - 1], members, meeting, plan);
      JoinedMembers(lineage[|lineage| - 1], members, meeting, plan);
      OneMoreRowSays(lineage, members, meeting, plan);
    }
  }

  function Spelt(links: seq<Link>): (r: seq<Link>)
    ensures |r| == |links| && forall i :: 0 <= i < |r| ==> r[i] == (Str(links[i].0), Str(links[i].1))
  {
    seq(|links|, i requires 0 <= i < |links| => (Str(links[i].0), Str(links[i].1)))
  }

  /** Looking an id up in links: the first or the last that has it. */
  function FirstPlan(links: seq<Link>, id: Value): Option<Value> {
    if links == [] then None
    else
      var earlier := FirstPlan(links[..|links| - 1], id);
      if earlier.Some? then earlier
      else if id != Null && links[|links| - 1].0 == id then Some(links[|links| - 1].1) else None
  }

  function LastPlan(links: seq<Link>, id: Value): Option<Value> {
    if links == [] then None
    else if id != Null && links[|links| - 1].0 == id then Some(links[|links| - 1].1)
    else LastPlan(links[..|links| - 1], id)
  }

  // ---------- the direct rebuild ----------

  datatype Refusal = NestedPlan | TaskLinkLost(task: Value) | MeetingConflict(meeting: Value) | MeetingLinkLost(meeting: Value)
  datatype Outcome<+T> = Built(result: T) | Refused(why: Refusal)

  /** Each action's update must hit exactly one task that has no plan yet. */
  function AssignTasks(tasks: Rows, links: seq<Link>): Outcome<Rows> {
    if links == [] then Built(tasks)
    else
      var last := links[|links| - 1];
      match AssignTasks(tasks, links[..|links| - 1])
      case Refused(why) => Refused(why)
      case Built(rows) =>
        if RowCount(rows, last.0, true) == 1 then Built(SetPlan(rows, last.0, last.1, true)) else Refused(TaskLinkLost(last.0))
  }

  /** The `meeting_links` dictionary in insertion order: `setdefault`, then compare. */
  function CollectLinks(links: seq<Link>): Outcome<seq<Link>> {
    if links == [] then Built([])
    else
      var meeting, plan := Str(links[|links| - 1].0), Str(links[|links| - 1].1);
      match CollectLinks(links[..|links| - 1])
      case Refused(why) => Refused(why)
      case Built(items) =>
        match LastPlan(items, meeting)
        case None => Built(items + [(meeting, plan)])
        case Some(previous) => if previous == plan then Built(items) else Refused(MeetingConflict(meeting))
  }

  /** Each dictionary entry's update must hit exactly one meeting. */
  function AssignMeetings(meetings: Rows, items: seq<Link>): Outcome<Rows> {
    if items == [] then Built(meetings)
    else
      var last := items[|items| - 1];
      match AssignMeetings(meetings, items[..|items| - 1])
      case Refused(why) => Refused(why)
      case Built(rows) =>
        if RowCount(rows, last.0, false) == 1 then Built(SetPlan(rows, last.0, last.1, false)) else Refused(MeetingLinkLost(last.0))
  }

  predicate HasV8Tables(db: Database) {
    PlanningCycles in db && DecisionActions in db && DerivationLineage in db && SourceSetMembers in db
    && Tasks in db && Meetings in db
  }

  function TaskPairs(source: Database): seq<Link>
    requires HasV8Tables(source)
  {
    ActionLinks(source[DecisionActions])
  }

  function MeetingPairs(source: Database): seq<Link>
    requires HasV8Tables(source)
  {
    MeetingLinks(source[DerivationLineage], source[SourceSetMembers])
  }

  /** `_apply_v8_semantics` on the target's tables. */
  function V8Semantics(source: Database, target: Database): Outcome<Database>
    requires HasV8Tables(source) && HasV8Tables(target)
  {
    if NestedPlans(source[PlanningCycles]) > 0 then Refused(NestedPlan)
    else
      match AssignTasks(target[Tasks], TaskPairs(source))
      case Refused(why) => Refused(why)
      case Built(tasks) =>
        match CollectLinks(MeetingPairs(source))
        case Refused(why) => Refused(why)
        case Built(items) =>
          match AssignMeetings(target[Meetings], items)
          case Refused(why) => Refused(why)
          case Built(meetings) => Built(target[Tasks := tasks][Meetings := meetings])
  }

  /** The business rows of the direct rebuild. */
  function Direct(source: Database, version: nat, from: Schema, to: Schema): Outcome<Database>
    requires source.Keys == from.Keys == to.Keys && HasV8Tables(source)
  {
    var copied := CopiedDatabase(source, from, to);
    if version == 8 then V8Semantics(source, copied) else Built(copied)
  }

  // ---------- the stepwise path ----------

  /** v8 to v9: copy, then the updates, with nothing refused. */
  function V9FromV8(source: Database, v8: Schema, v9: Schema): (r: Database)
    requires source.Keys == v8.Keys == v9.Keys && HasV8Tables(source)
    ensures r.Keys == source.Keys
  {
    var copied := map t | t in v9 :: RecastRows(v9[t], source[t]);
    copied[Tasks := SetPlans(copied[Tasks], TaskPairs(source), true)]
          [Meetings := SetPlans(copied[Meetings], MeetingPairs(source), false)]
  }

  function RecastRows(columns: set<Column>, rows: Rows): (r: Rows)
    ensures |r| == |rows| && forall i :: 0 <= i < |rows| ==> r[i] == Recast(rows[i], columns)
  {
    seq(|rows|, i requires 0 <= i < |rows| => Recast(rows[i], columns))
  }

  /** v9 to v10: copy without `binding_kind`, which every recording gets as "meeting". */
  function Classified(table: Table, columns: set<Column>, row: Row): Row {
    if table == Recordings then Recast(row, columns)[BindingKind := MEETING] else Recast(row, columns)
  }

  function ClassifiedRows(table: Table, columns: set<Column>, rows: Rows): (r: Rows)
    ensures |r| == |rows| && forall i :: 0 <= i < |rows| ==> r[i] == Classified(table, columns, rows[i])
  {
    seq(|rows|, i requires 0 <= i < |rows| => Classified(table, columns, rows[i]))
  }

  function V10FromV9(source: Database, v10: Schema): (r: Database)
    requires source.Keys == v10.Keys
    ensures r.Keys == source.Keys
  {
    map t | t in v10 :: ClassifiedRows(t, v10[t], source[t])
  }

  function Stepwise(source: Database, v8: Schema, v9: Schema, v10: Schema): Database
    requires source.Keys == v8.Keys == v9.Keys == v10.Keys && HasV8Tables(source)
  {
    V10FromV9(V9FromV8(source, v8, v9), v10)
  }

  // ---------- what the updates amount to, row by row ----------

  function Planned(row: Row, plan: Option<Value>): Row {
    match plan
    case None => row
    case Some(p) => row[PlanningCycleId := p]
  }

  predicate Named(links: seq<Link>) {
    forall i :: 0 <= i < |links| ==> links[i].0 != Null && links[i].1 != Null
  }

  /** With the NULL guard the first link of a row wins. */
  lemma {:induction false} FirstLinkWins(rows: Rows, links: seq<Link>, i: nat)
    requires i < |rows| && Named(links) && Get(rows[i], PlanningCycleId) == Null
    ensures SetPlans(rows, links, true)[i] == Planned(rows[i], FirstPlan(links, Get(rows[i], Id)))
    ensures Get(SetPlans(rows, links, true)[i], PlanningCycleId) == FirstPlan(links, Get(rows[i], Id)).GetOr(Null)
  {
    if links != [] {
      FirstLinkWins(rows, links[..|links| - 1], i);
      FirstPlanNamed(links[..|links| - 1], Get(rows[i], Id));
    }
  }

  lemma {:induction false} FirstPlanNamed(links: seq<Link>, id: Value)
    requires Named(links)
    ensures FirstPlan(links, id) != Some(Null)
  {
    if links != [] { FirstPlanNamed(links[..|links| - 1], id); }
  }

  /** Without it the last link wins. */
  lemma {:induction false} LastLinkWins(rows: Rows, links: seq<Link>, i: nat)
    requires i < |rows|
    ensures SetPlans(rows, links, false)[i] == Planned(rows[i], LastPlan(links, Get(rows[i], Id)))
  {
    if links != [] {
      LastLinkWins(rows, links[..|links| - 1], i);
      var before := SetPlans(rows, links[..|links| - 1], false)[i];
      assert Get(before, Id) == Get(rows[i], Id);
      var id := Get(rows[i], Id);
      if links[|links| - 1].0 == id && id != Null {
        assert before[PlanningCycleId := links[|links| - 1].1] == rows[i][PlanningCycleId := links[|links| - 1].1];
      }
    }
  }

  // ---------- exactly what is accepted ----------

  lemma {:induction false} SameHits(a: Rows, b: Rows, id: Value, guard: bool, other: bool)
    requires |a| == |b| && forall i :: 0 <= i < |a| ==> Hit(a[i], id, guard) == Hit(b[i], id, other)
    ensures RowCount(a, id, guard) == RowCount(b, id, other)
  {
    if a != [] { SameHits(a[..|a| - 1], b[..|b| - 1], id, guard, other); }
  }

  lemma {:induction false} NoHits(rows: Rows, id: Value, guard: bool)
    ensures RowCount(rows, id, guard) == 0 <==> forall i :: 0 <= i < |rows| ==> !Hit(rows[i], id, guard)
  {
    if rows != [] { NoHits(rows[..|rows| - 1], id, guard); }
  }

  predicate Mentions(links: seq<Link>, id: Value) {
    exists i :: 0 <= i < |links| && links[i].0 == id
  }

  lemma {:induction false} FirstPlanMentions(links: seq<Link>, id: Value)
    requires id != Null
    ensures FirstPlan(links, id).Some? <==> Mentions(links, id)
  {
    if links != [] {
      var front := links[..|links| - 1];
      FirstPlanMentions(front, id);
      if Mentions(front, id) {
        var i :| 0 <= i < |front| && front[i].0 == id;
        assert links[i].0 == id;
      }
      if Mentions(links, id) && links[|links| - 1].0 != id {
        var i :| 0 <= i < |links| && links[i].0 == id;
        assert front[i].0 == id;
      }
    }
  }

  predicate Planless(rows: Rows) {
    forall i :: 0 <= i < |rows| ==> Get(rows[i], PlanningCycleId) == Null
  }

  /** After the updates of `links`, the guarded update of a task hits what it would have hit at
      first, unless an earlier link named the task. */
  lemma HitsLeft(rows: Rows, links: seq<Link>, id: Value)
    requires Planless(rows) && Named(links) && id != Null
    ensures RowCount(SetPlans(rows, links, true), id, true) == if Mentions(links, id) then 0 else RowCount(rows, id, false)
  {
    var after := SetPlans(rows, links, true);
    FirstPlanMentions(links, id);
    forall i | 0 <= i < |rows|
      ensures Hit(after[i], id, true) == (Hit(rows[i], id, false) && !Mentions(links, id))
    {
      FirstLinkWins(rows, links, i);
      FirstPlanNamed(links, Get(rows[i], Id));
    }
    if Mentions(links, id) { NoHits(after, id, true); } else { SameHits(after, rows, id, true, false); }
  }

  /** Every task link names exactly one task, and no two name the same one. */
  ghost predicate TaskLinksFit(tasks: Rows, links: seq<Link>) {
    && (forall i :: 0 <= i < |links| ==> RowCount(tasks, links[i].0, false) == 1)
    && (forall i, j :: 0 <= i < j < |links| ==> links[i].0 != links[j].0)
  }

  lemma TaskLinksFitFront(tasks: Rows, links: seq<Link>)
    requires links != []
    ensures var front, id := links[..|links| - 1], links[|links| - 1].0;
            TaskLinksFit(tasks, links) <==> TaskLinksFit(tasks, front) && RowCount(tasks, id, false) == 1 && !Mentions(front, id)
  {
  }

  lemma {:induction false} AssignTasksAccepts(tasks: Rows, links: seq<Link>)
    requires Planless(tasks) && Named(links)
    ensures AssignTasks(tasks, links).Built? <==> TaskLinksFit(tasks, links)
    ensures AssignTasks(tasks, links).Built? ==> AssignTasks(tasks, links).result == SetPlans(tasks, links, true)
  {
    if links != [] {
      var front := links[..|links| - 1];
      AssignTasksAccepts(tasks, front);
      TaskLinksFitFront(tasks, links);
      HitsLeft(tasks, front, links[|links| - 1].0);
    }
  }

  /** Links that spell the same meeting spell the same plan. */
  ghost predicate Consistent(links: seq<Link>) {
    forall i, j :: 0 <= i < |links| && 0 <= j < |links| && links[i].0 == links[j].0 ==> links[i].1 == links[j].1
  }

  lemma {:induction false} LastPlanFound(links: seq<Link>, id: Value) returns (i: int)
    requires LastPlan(links, id).Some?
    ensures 0 <= i < |links| && links[i].0 == id != Null && LastPlan(links, id) == Some(links[i].1)
  {
    if id != Null && links[|links| - 1].0 == id { i := |links| - 1; } else { i := LastPlanFound(links[..|links| - 1], id); }
  }

  lemma {:induction false} LastPlanMissing(links: seq<Link>, id: Value)
    requires id != Null
    ensures LastPlan(links, id).None? <==> !Mentions(links, id)
  {
    if links != [] {
      var front := links[..|links| - 1];
      LastPlanMissing(front, id);
      if Mentions(links, id) && links[|links| - 1].0 != id {
        var i :| 0 <= i < |links| && links[i].0 == id;
        assert front[i].0 == id;
      }
      if Mentions(front, id) {
        var i :| 0 <= i < |front| && front[i].0 == id;
        assert links[i].0 == id;
      }
    }
  }

  lemma ConsistentFront(links: seq<Link>)
    requires links != [] && links[|links| - 1].0 != Null
    ensures var front, last := links[..|links| - 1], links[|links| - 1];
            Consistent(links) <==> Consistent(front) && (LastPlan(front, last.0).None? || LastPlan(front, last.0) == Some(last.1))
  {
    var front, last := links[..|links| - 1], links[|links| - 1];
    LastPlanMissing(front, last.0);
    if LastPlan(front, last.0).Some? { var k := LastPlanFound(front, last.0); }
    if Consistent(links) {
      assert forall i :: 0 <= i < |front| ==> front[i] == links[i];
    }
    if Consistent(front) && (LastPlan(front, last.0).None? || LastPlan(front, last.0) == Some(last.1)) {
      forall i | 0 <= i < |front| && front[i].0 == last.0
        ensures front[i].1 == last.1
      {
        assert Mentions(front, last.0);
      }
      forall i, j | 0 <= i < |links| && 0 <= j < |links| && links[i].0 == links[j].0
        ensures links[i].1 == links[j].1
      {
        if i < |front| { assert links[i] == front[i]; }
        if j < |front| { assert links[j] == front[j]; }
      }
    }
  }

  ghost predicate SameLookup(a: seq<Link>, b: seq<Link>) {
    forall id :: LastPlan(a, id) == LastPlan(b, id)
  }

  predicate DistinctIds(items: seq<Link>) {
    forall i, j :: 0 <= i < j < |items| ==> items[i].0 != items[j].0
  }

  /** The dictionary is complete and conflict-free exactly for consistent links; then looking a
      meeting up in it is looking it up in the links. */
  lemma {:induction false} CollectLinksAccepts(links: seq<Link>)
    ensures CollectLinks(links).Built? <==> Consistent(Spelt(links))
    ensures CollectLinks(links).Built? ==>
              var items := CollectLinks(links).result;
              SameLookup(items, Spelt(links)) && DistinctIds(items) && Named(items)
  {
    if links != [] {
      var front := links[..|links| - 1];
      CollectLinksAccepts(front);
      assert Spelt(links)[..|links| - 1] == Spelt(front);
      ConsistentFront(Spelt(links));
      if CollectLinks(front).Built? {
        var items := CollectLinks(front).result;
        var meeting, plan := Str(links[|links| - 1].0), Str(links[|links| - 1].1);
        LookupExtended(items, Spelt(front), (meeting, plan));
        assert Spelt(links) == Spelt(front) + [(meeting, plan)];
        LastPlanMissing(items, meeting);
        if LastPlan(items, meeting).None? {
          forall i, j | 0 <= i < j < |items + [(meeting, plan)]|
            ensures (items + [(meeting, plan)])[i].0 != (items + [(meeting, plan)])[j].0
          {
            if j == |items| { assert items[i].0 != meeting; }
          }
        }
      }
    }
  }

  lemma LookupExtended(items: seq<Link>, links: seq<Link>, link: Link)
    requires SameLookup(items, links) && link.0 != Null
    ensures SameLookup(items + [link], links + [link])
    ensures LastPlan(items, link.0) == Some(link.1) ==> SameLookup(items, links + [link])
  {
  }

  lemma PlanKeepsIds(rows: Rows, items: seq<Link>, id: Value)
    ensures RowCount(SetPlans(rows, items, false), id, false) == RowCount(rows, id, false)
  {
    forall i | 0 <= i < |rows|
      ensures Hit(SetPlans(rows, items, false)[i], id, false) == Hit(rows[i], id, false)
    {
      LastLinkWins(rows, items, i);
    }
    SameHits(SetPlans(rows, items, false), rows, id, false, false);
  }

  lemma {:induction false} AssignMeetingsAccepts(meetings: Rows, items: seq<Link>)
    ensures AssignMeetings(meetings, items).Built? <==>
            forall i :: 0 <= i < |items| ==> RowCount(meetings, items[i].0, false) == 1
    ensures AssignMeetings(meetings, items).Built? ==> AssignMeetings(meetings, items).result == SetPlans(meetings, items, false)
  {
    if items != [] {
      var front := items[..|items| - 1];
      AssignMeetingsAccepts(meetings, front);
      PlanKeepsIds(meetings, front, items[|items| - 1].0);
      assert forall i :: 0 <= i < |front| ==> front[i] == items[i];
    }
  }
}
