/** The local cache of cloud tasks: one pass over a snapshot, row by row under savepoints, with rows
    whose foreign-key parents are missing deferred to a later pass. */
module TaskProjection {
  import opened Options
  import opened Texts

  datatype Table = TaskLists | Tasks | TaskViews | TaskCollaborators | CalendarEntries | ExecutionRuns | OtherTable(name: string)
  datatype Key = Key(table: Table, id: string)
  type Columns = map<string, Option<string>>

  /** One incoming row: its id as sent, the foreign-key columns it carries (NULL as `None`), its other
      columns, and its version. */
  datatype Item = Item(table: Table, id: string, refs: map<string, Option<Key>>, columns: Columns, version: int)
  {
    function Self(): Key { Key(table, id) }
  }

  datatype ProjectionState = Current | Stale

  datatype Record = Record(
    refs: map<string, Key>, columns: Columns, scope: string, sandbox: string, sourceVersion: int,
    state: ProjectionState, staleAt: Option<string>, invalidatedAt: Option<string>)

  datatype Resource = Resource(kind: Table, scope: string, version: int)

  /** The six projected tables, the secured resources, and the keys of every other table. */
  datatype Cache = Cache(rows: map<Key, Record>, resources: map<string, Resource>, others: set<Key>)
  {
    function Keys(): set<Key> { rows.Keys + others }
  }

  /** Where a pass writes; `fits` is the verdict of the CHECK, NOT NULL and UNIQUE constraints, and
      `space` says which characters `strip` removes. */
  datatype Context = Context(scope: string, sandbox: string, now: string, fits: (Cache, Item) -> bool, space: char -> bool)

  predicate Secured(table: Table) {
    table == TaskLists || table == Tasks || table == TaskViews
  }

  // ---------- one row ----------

  /** Every non-NULL reference the row carries exists, or is the row itself. */
  predicate ParentsIn(item: Item, keys: set<Key>) {
    forall c :: c in item.refs && item.refs[c].Some? ==> item.refs[c].value in keys || item.refs[c].value == item.Self()
  }

  function MergedRefs(prior: map<string, Key>, refs: map<string, Option<Key>>): map<string, Key> {
    map c | c in prior.Keys + refs.Keys && (c in refs ==> refs[c].Some?) :: if c in refs then refs[c].value else prior[c]
  }

  function SourceVersion(item: Item): int {
    if item.version < 1 then 1 else item.version
  }

  const BLANK := Record(map[], map[], "", "", 1, Stale, None, None)

  /** INSERT ... ON CONFLICT(id) DO UPDATE: the columns the row carries, over what was there. */
  function Upserted(ctx: Context, cache: Cache, item: Item): Record {
    var prior := if item.Self() in cache.rows then cache.rows[item.Self()] else BLANK;
    Record(MergedRefs(prior.refs, item.refs), prior.columns + item.columns, ctx.scope,
           if item.table == CalendarEntries then prior.sandbox else ctx.sandbox, SourceVersion(item),
           if item.table == CalendarEntries then prior.state else Current,
           if item.table == CalendarEntries then prior.staleAt else None,
           if "invalidated_at" in item.columns then item.columns["invalidated_at"] else prior.invalidatedAt)
  }

  datatype RowOutcome = Applied(cache: Cache) | Deferred | Refused

  /** `apply_row`: the resource and the row in one savepoint; only a foreign-key failure is deferred. */
  function ApplyRow(ctx: Context, cache: Cache, item: Item): RowOutcome {
    if Strip(ctx.space, item.id) == "" || !ctx.fits(cache, item) then Refused
    else if !ParentsIn(item, cache.Keys()) then Deferred
    else
      Applied(cache.(
        rows := cache.rows[item.Self() := Upserted(ctx, cache, item)],
        resources := if Secured(item.table) then cache.resources[item.id := Resource(item.table, ctx.scope, SourceVersion(item))]
                     else cache.resources))
  }

  // ---------- one pass ----------

  /** A pass in order; `applied[i]` says whether row `i` was applied or deferred. A refusal anywhere
      rolls the whole pass back. */
  datatype Sweep = Swept(cache: Cache, applied: seq<bool>) | SweepRefused

  function SweepRows(ctx: Context, cache: Cache, items: seq<Item>): (r: Sweep)
    ensures r.Swept? ==> |r.applied| == |items|
  {
    if items == [] then Swept(cache, [])
    else
      match SweepRows(ctx, cache, items[..|items| - 1])
      case SweepRefused => SweepRefused
      case Swept(before, applied) =>
        match ApplyRow(ctx, before, items[|items| - 1])
        case Refused => SweepRefused
        case Deferred => Swept(before, applied + [false])
        case Applied(after) => Swept(after, applied + [true])
  }

  predicate AllApplied(applied: seq<bool>) {
    forall i :: 0 <= i < |applied| ==> applied[i]
  }

  // ---------- marking absentees ----------

  function IdsOf(ctx: Context, items: seq<Item>, table: Table): set<string> {
    set i | 0 <= i < |items| && items[i].table == table && Strip(ctx.space, items[i].id) != "" :: Strip(ctx.space, items[i].id)
  }

  predicate MarkedTable(table: Table) {
    table == TaskLists || table == Tasks || table == TaskViews || table == TaskCollaborators
  }

  /** `projection_state='current'` in this scope and sandbox. */
  predicate CurrentHere(ctx: Context, record: Record) {
    record.scope == ctx.scope && record.sandbox == ctx.sandbox && record.state == Current
  }

  predicate LiveTaskEntry(ctx: Context, record: Record) {
    && record.scope == ctx.scope && record.invalidatedAt == None
    && "target_kind" in record.columns && record.columns["target_kind"] == Some("task")
  }

  function Marked(ctx: Context, ids: set<string>, key: Key, record: Record): Record {
    if MarkedTable(key.table) && CurrentHere(ctx, record) && key.id !in ids then
      record.(state := Stale, staleAt := Some(ctx.now))
    else if key.table == CalendarEntries && LiveTaskEntry(ctx, record) && key.id !in ids then
      record.(invalidatedAt := Some(ctx.now))
    else record
  }

  /** One UPDATE per table. */
  function MarkTable(ctx: Context, cache: Cache, table: Table, ids: set<string>): Cache {
    cache.(rows := map k | k in cache.rows :: if k.table == table then Marked(ctx, ids, k, cache.rows[k]) else cache.rows[k])
  }

  function MarkAbsent(ctx: Context, cache: Cache, items: seq<Item>): Cache {
    cache.(rows := map k | k in cache.rows :: Marked(ctx, IdsOf(ctx, items, k.table), k, cache.rows[k]))
  }

  /** `apply`. */
  function Apply(ctx: Context, cache: Cache, items: seq<Item>, replaceSnapshot: bool): (r: Sweep)
    ensures r.Swept? ==> |r.applied| == |items|
  {
    match SweepRows(ctx, cache, items)
    case SweepRefused => SweepRefused
    case Swept(after, applied) =>
      if replaceSnapshot && AllApplied(applied) then Swept(MarkAbsent(ctx, after, items), applied) else Swept(after, applied)
  }

  // ---------- foreign keys ----------

  ghost predicate Linked(cache: Cache) {
    forall k, c :: k in cache.rows && c in cache.rows[k].refs ==> cache.rows[k].refs[c] in cache.Keys()
  }

  lemma ApplyRowKeepsLinks(ctx: Context, cache: Cache, item: Item)
    requires Linked(cache) && ApplyRow(ctx, cache, item).Applied?
    ensures Linked(ApplyRow(ctx, cache, item).cache)
  {
  }

  lemma {:induction false} SweepKeepsLinks(ctx: Context, cache: Cache, items: seq<Item>)
    requires Linked(cache) && SweepRows(ctx, cache, items).Swept?
    ensures Linked(SweepRows(ctx, cache, items).cache)
  {
    if items != [] {
      SweepKeepsLinks(ctx, cache, items[..|items| - 1]);
      var before := SweepRows(ctx, cache, items[..|items| - 1]).cache;
      if ApplyRow(ctx, before, items[|items| - 1]).Applied? { ApplyRowKeepsLinks(ctx, before, items[|items| - 1]); }
    }
  }

  /** Every pass keeps every foreign key satisfied. */
  lemma ApplyKeepsLinks(ctx: Context, cache: Cache, items: seq<Item>, replaceSnapshot: bool)
    requires Linked(cache) && Apply(ctx, cache, items, replaceSnapshot).Swept?
    ensures Linked(Apply(ctx, cache, items, replaceSnapshot).cache)
  {
    SweepKeepsLinks(ctx, cache, items);
    var after := SweepRows(ctx, cache, items).cache;
    assert MarkAbsent(ctx, after, items).rows.Keys == after.rows.Keys;
  }

  // ---------- deferral over passes ----------

  /** Which rows a pass applies depends only on the keys that are there. */
  function KeysAfter(keys: set<Key>, items: seq<Item>): set<Key> {
    if items == [] then keys
    else
      var before := KeysAfter(keys, items[..|items| - 1]);
      if ParentsIn(items[|items| - 1], before) then before + {items[|items| - 1].Self()} else before
  }

  function AppliedWith(keys: set<Key>, items: seq<Item>): (r: seq<bool>)
    ensures |r| == |items|
  {
    if items == [] then []
    else AppliedWith(keys, items[..|items| - 1]) + [ParentsIn(items[|items| - 1], KeysAfter(keys, items[..|items| - 1]))]
  }

  lemma {:induction false} SweepByKeys(ctx: Context, cache: Cache, items: seq<Item>)
    requires SweepRows(ctx, cache, items).Swept?
    ensures SweepRows(ctx, cache, items).cache.Keys() == KeysAfter(cache.Keys(), items)
    ensures SweepRows(ctx, cache, items).cache.others == cache.others
    ensures SweepRows(ctx, cache, items).applied == AppliedWith(cache.Keys(), items)
  {
    if items != [] { SweepByKeys(ctx, cache, items[..|items| - 1]); }
  }

  lemma ApplyByKeys(ctx: Context, cache: Cache, items: seq<Item>, replaceSnapshot: bool)
    requires Apply(ctx, cache, items, replaceSnapshot).Swept?
    ensures Apply(ctx, cache, items, replaceSnapshot).cache.Keys() == KeysAfter(cache.Keys(), items)
    ensures Apply(ctx, cache, items, replaceSnapshot).applied == AppliedWith(cache.Keys(), items)
  {
    SweepByKeys(ctx, cache, items);
    var after := SweepRows(ctx, cache, items).cache;
    assert MarkAbsent(ctx, after, items).rows.Keys == after.rows.Keys;
  }

  predicate Covers(a: seq<bool>, b: seq<bool>)
    requires |a| == |b|
  {
    forall i :: 0 <= i < |a| && b[i] ==> a[i]
  }

  /** More keys to start from defer no more rows. */
  lemma {:induction false} MoreKeysMoreApplied(small: set<Key>, large: set<Key>, items: seq<Item>)
    requires small <= large
    ensures KeysAfter(small, items) <= KeysAfter(large, items)
    ensures Covers(AppliedWith(large, items), AppliedWith(small, items))
  {
    if items != [] { MoreKeysMoreApplied(small, large, items[..|items| - 1]); }
  }

  lemma {:induction false} KeysOnlyGrow(keys: set<Key>, items: seq<Item>)
    ensures keys <= KeysAfter(keys, items)
  {
    if items != [] { KeysOnlyGrow(keys, items[..|items| - 1]); }
  }

  /** Deferral is antitone: a later pass over the same snapshot defers no row that this one applied,
      whatever else has been added to the cache in between. */
  lemma LaterPassDefersNoMore(ctx: Context, cache: Cache, later: Context, cacheThen: Cache, items: seq<Item>, replaceSnapshot: bool)
    requires Apply(ctx, cache, items, replaceSnapshot).Swept? && Apply(later, cacheThen, items, replaceSnapshot).Swept?
    requires Apply(ctx, cache, items, replaceSnapshot).cache.Keys() <= cacheThen.Keys()
    ensures Covers(Apply(later, cacheThen, items, replaceSnapshot).applied, Apply(ctx, cache, items, replaceSnapshot).applied)
  {
    ApplyByKeys(ctx, cache, items, replaceSnapshot);
    ApplyByKeys(later, cacheThen, items, replaceSnapshot);
    KeysOnlyGrow(cache.Keys(), items);
    MoreKeysMoreApplied(cache.Keys(), cacheThen.Keys(), items);
  }

  /** The keys present before pass `n` (from 0). */
  function KeysBefore(keys: set<Key>, items: seq<Item>, n: nat): set<Key> {
    if n == 0 then keys else KeysAfter(KeysBefore(keys, items, n - 1), items)
  }

  function AppliedIn(keys: set<Key>, items: seq<Item>, pass: nat): (r: seq<bool>)
    ensures |r| == |items|
  {
    AppliedWith(KeysBefore(keys, items, pass), items)
  }

  function Count(applied: seq<bool>): nat {
    if applied == [] then 0 else Count(applied[..|applied| - 1]) + if applied[|applied| - 1] then 1 else 0
  }

  lemma {:induction false} CountBounded(applied: seq<bool>)
    ensures Count(applied) <= |applied|
  {
    if applied != [] { CountBounded(applied[..|applied| - 1]); }
  }

  lemma {:induction false} CoveringCounts(a: seq<bool>, b: seq<bool>)
    requires |a| == |b| && Covers(a, b)
    ensures Count(a) >= Count(b)
    ensures Count(a) == Count(b) ==> a == b
  {
    if a != [] { CoveringCounts(a[..|a| - 1], b[..|b| - 1]); }
  }

  lemma PassesCover(keys: set<Key>, items: seq<Item>, n: nat)
    ensures Covers(AppliedIn(keys, items, n + 1), AppliedIn(keys, items, n))
  {
    KeysOnlyGrow(KeysBefore(keys, items, n), items);
    MoreKeysMoreApplied(KeysBefore(keys, items, n), KeysBefore(keys, items, n + 1), items);
  }

  /** The keys a pass adds are those of the rows it applies. */
  lemma {:induction false} AddedKeys(keys: set<Key>, items: seq<Item>, i: nat)
    requires i < |items| && AppliedWith(keys, items)[i]
    ensures items[i].Self() in KeysAfter(keys, items)
  {
    if i < |items| - 1 { AddedKeys(keys, items[..|items| - 1], i); }
  }

  lemma {:induction false} NothingAdded(keys: set<Key>, items: seq<Item>)
    requires forall i :: 0 <= i < |items| && AppliedWith(keys, items)[i] ==> items[i].Self() in keys
    ensures KeysAfter(keys, items) == keys
  {
    if items != [] {
      var front := items[..|items| - 1];
      assert forall i :: 0 <= i < |front| ==> AppliedWith(keys, items)[i] == AppliedWith(keys, front)[i] && items[i] == front[i];
      NothingAdded(keys, front);
      assert AppliedWith(keys, items)[|items| - 1] == ParentsIn(items[|items| - 1], keys);
    }
  }

  /** Two passes that apply the same rows end all change of keys. */
  lemma SamePassStable(keys: set<Key>, items: seq<Item>)
    requires AppliedWith(KeysAfter(keys, items), items) == AppliedWith(keys, items)
    ensures KeysAfter(KeysAfter(keys, items), items) == KeysAfter(keys, items)
  {
    forall i | 0 <= i < |items| && AppliedWith(KeysAfter(keys, items), items)[i]
      ensures items[i].Self() in KeysAfter(keys, items)
    {
      AddedKeys(keys, items, i);
    }
    NothingAdded(KeysAfter(keys, items), items);
  }

  lemma {:induction false} StableFrom(keys: set<Key>, items: seq<Item>, n: nat, m: nat)
    requires n <= m && KeysBefore(keys, items, n + 1) == KeysBefore(keys, items, n)
    ensures KeysBefore(keys, items, m) == KeysBefore(keys, items, n)
    decreases m
  {
    if n < m { StableFrom(keys, items, n, m - 1); }
  }

  /** Either some earlier pass repeated its predecessor, or every pass so far applied one row more. */
  lemma {:induction false} RepeatsOrGrows(keys: set<Key>, items: seq<Item>, n: nat) returns (k: nat)
    ensures k < n ==> AppliedIn(keys, items, k + 1) == AppliedIn(keys, items, k)
    ensures k >= n ==> Count(AppliedIn(keys, items, n)) >= n
  {
    if n == 0 {
      k := 0;
    } else {
      k := RepeatsOrGrows(keys, items, n - 1);
      if k >= n - 1 {
        PassesCover(keys, items, n - 1);
        CoveringCounts(AppliedIn(keys, items, n), AppliedIn(keys, items, n - 1));
        k := if AppliedIn(keys, items, n) == AppliedIn(keys, items, n - 1) then n - 1 else n;
      }
    }
  }

  /** Deferral convergence: from pass number (rows + 1) on, every pass defers exactly the same rows. */
  lemma DeferralConverges(keys: set<Key>, items: seq<Item>, m: nat)
    requires m >= |items|
    ensures AppliedIn(keys, items, m) == AppliedIn(keys, items, |items|)
  {
    var k := RepeatsOrGrows(keys, items, |items| + 1);
    CountBounded(AppliedIn(keys, items, |items| + 1));
    assert k <= |items|;
    SamePassStable(KeysBefore(keys, items, k), items);
    StableFrom(keys, items, k + 1, |items| + 1);
    StableFrom(keys, items, k + 1, m + 1);
    if k < |items| {
      StableFrom(keys, items, k + 1, |items|);
      StableFrom(keys, items, k + 1, m);
    } else if m > |items| {
      StableFrom(keys, items, k + 1, m);
    }
  }

  /** `n` accepted passes over one snapshot, each at its own time. */
  function Passes(at: nat -> Context, cache: Cache, items: seq<Item>, replaceSnapshot: bool, n: nat): Option<Cache> {
    if n == 0 then Some(cache)
    else
      match Passes(at, cache, items, replaceSnapshot, n - 1)
      case None => None
      case Some(before) =>
        match Apply(at(n - 1), before, items, replaceSnapshot)
        case SweepRefused => None
        case Swept(after, _) => Some(after)
  }

  lemma {:induction false} PassesByKeys(at: nat -> Context, cache: Cache, items: seq<Item>, replaceSnapshot: bool, n: nat)
    requires Passes(at, cache, items, replaceSnapshot, n).Some?
    ensures Passes(at, cache, items, replaceSnapshot, n).value.Keys() == KeysBefore(cache.Keys(), items, n)
  {
    if n > 0 {
      PassesByKeys(at, cache, items, replaceSnapshot, n - 1);
      ApplyByKeys(at(n - 1), Passes(at, cache, items, replaceSnapshot, n - 1).value, items, replaceSnapshot);
    }
  }

  /** Re-applying one snapshot reaches a fixed point within (rows + 1) passes: every later pass
      defers exactly the rows that pass number (rows + 1) defers. */
  lemma {:induction false} RetriesConverge(at: nat -> Context, cache: Cache, items: seq<Item>, replaceSnapshot: bool, m: nat)
    requires m >= |items| && Passes(at, cache, items, replaceSnapshot, m + 1).Some?
    ensures Passes(at, cache, items, replaceSnapshot, |items|).Some? && Passes(at, cache, items, replaceSnapshot, m).Some?
    ensures var final := Apply(at(|items|), Passes(at, cache, items, replaceSnapshot, |items|).value, items, replaceSnapshot);
            var later := Apply(at(m), Passes(at, cache, items, replaceSnapshot, m).value, items, replaceSnapshot);
            final.Swept? && later.Swept? && later.applied == final.applied
  {
    EarlierAccepted(at, cache, items, replaceSnapshot, |items|, m + 1);
    EarlierAccepted(at, cache, items, replaceSnapshot, |items| + 1, m + 1);
    PassesByKeys(at, cache, items, replaceSnapshot, |items|);
    PassesByKeys(at, cache, items, replaceSnapshot, m);
    ApplyByKeys(at(|items|), Passes(at, cache, items, replaceSnapshot, |items|).value, items, replaceSnapshot);
    ApplyByKeys(at(m), Passes(at, cache, items, replaceSnapshot, m).value, items, replaceSnapshot);
    DeferralConverges(cache.Keys(), items, m);
  }

  lemma {:induction false} EarlierAccepted(at: nat -> Context, cache: Cache, items: seq<Item>, replaceSnapshot: bool, n: nat, m: nat)
    requires n <= m && Passes(at, cache, items, replaceSnapshot, m).Some?
    ensures Passes(at, cache, items, replaceSnapshot, n).Some?
    decreases m
  {
    if n < m { EarlierAccepted(at, cache, items, replaceSnapshot, n, m - 1); }
  }

  // ---------- what is deferred in the end ----------

  ghost predicate Closed(keys: set<Key>, items: seq<Item>) {
    forall i :: 0 <= i < |items| && ParentsIn(items[i], keys) ==> items[i].Self() in keys
  }

  /** The keys once the passes have converged. */
  function Limit(keys: set<Key>, items: seq<Item>): set<Key> {
    KeysBefore(keys, items, |items| + 1)
  }

  lemma LimitIsStable(keys: set<Key>, items: seq<Item>)
    ensures KeysAfter(Limit(keys, items), items) == Limit(keys, items)
  {
    DeferralConverges(keys, items, |items| + 1);
    SamePassStable(KeysBefore(keys, items, |items|), items);
  }

  /** With no key to add, every row is judged against the same keys. */
  lemma {:induction false} JudgedByStable(keys: set<Key>, items: seq<Item>, i: nat)
    requires KeysAfter(keys, items) == keys && i < |items|
    ensures AppliedWith(keys, items)[i] <==> ParentsIn(items[i], keys)
  {
    var front := items[..|items| - 1];
    KeysOnlyGrow(keys, front);
    if i < |items| - 1 { JudgedByStable(keys, front, i); }
  }

  lemma {:induction false} PassStaysInside(keys: set<Key>, items: seq<Item>, closed: set<Key>)
    requires keys <= closed && Closed(closed, items)
    ensures KeysAfter(keys, items) <= closed
  {
    if items != [] {
      var front := items[..|items| - 1];
      assert forall i :: 0 <= i < |front| ==> front[i] == items[i];
      PassStaysInside(keys, front, closed);
      if ParentsIn(items[|items| - 1], KeysAfter(keys, front)) { assert ParentsIn(items[|items| - 1], closed); }
    }
  }

  lemma {:induction false} PassesStayInside(keys: set<Key>, items: seq<Item>, closed: set<Key>, n: nat)
    requires keys <= closed && Closed(closed, items)
    ensures KeysBefore(keys, items, n) <= closed
  {
    if n > 0 {
      PassesStayInside(keys, items, closed, n - 1);
      PassStaysInside(KeysBefore(keys, items, n - 1), items, closed);
    }
  }

  lemma {:induction false} StartsBelow(keys: set<Key>, items: seq<Item>, n: nat)
    ensures keys <= KeysBefore(keys, items, n)
  {
    if n > 0 {
      StartsBelow(keys, items, n - 1);
      KeysOnlyGrow(KeysBefore(keys, items, n - 1), items);
    }
  }

  /** The limit is the least set of keys that holds what was there and every row whose parents it
      holds; a row stays deferred for good exactly when a parent is missing from it. */
  lemma LimitIsLeast(keys: set<Key>, items: seq<Item>)
    ensures keys <= Limit(keys, items) && Closed(Limit(keys, items), items)
    ensures forall other :: keys <= other && Closed(other, items) ==> Limit(keys, items) <= other
    ensures forall i :: 0 <= i < |items| ==>
              (AppliedIn(keys, items, |items|)[i] <==> ParentsIn(items[i], Limit(keys, items)))
  {
    var limit := Limit(keys, items);
    StartsBelow(keys, items, |items| + 1);
    LimitIsStable(keys, items);
    forall i | 0 <= i < |items|
      ensures AppliedWith(limit, items)[i] <==> ParentsIn(items[i], limit)
      ensures ParentsIn(items[i], limit) ==> items[i].Self() in limit
    {
      JudgedByStable(limit, items, i);
      if AppliedWith(limit, items)[i] { AddedKeys(limit, items, i); }
    }
    forall other | keys <= other && Closed(other, items)
      ensures limit <= other
    {
      PassesStayInside(keys, items, other, |items| + 1);
    }
    DeferralConverges(keys, items, |items| + 1);
  }

  /** The order in which a snapshot lists its rows decides how many passes are needed, not which rows
      end up deferred. */
  lemma OrderDoesNotMatter(keys: set<Key>, items: seq<Item>, reordered: seq<Item>, i: nat, j: nat)
    requires forall item :: item in items <==> item in reordered
    requires i < |items| && j < |reordered| && items[i] == reordered[j]
    ensures Limit(keys, items) == Limit(keys, reordered)
    ensures AppliedIn(keys, items, |items|)[i] == AppliedIn(keys, reordered, |reordered|)[j]
  {
    LimitIsLeast(keys, items);
    LimitIsLeast(keys, reordered);
    ClosedEitherWay(Limit(keys, items), items, reordered);
    ClosedEitherWay(Limit(keys, reordered), reordered, items);
  }

  lemma ClosedEitherWay(keys: set<Key>, items: seq<Item>, reordered: seq<Item>)
    requires (forall item :: item in items <==> item in reordered) && Closed(keys, items)
    ensures Closed(keys, reordered)
  {
    forall i | 0 <= i < |reordered| && ParentsIn(reordered[i], keys)
      ensures reordered[i].Self() in keys
    {
      assert reordered[i] in items;
    }
  }
}
