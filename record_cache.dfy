/** The client's record cache: one insertion-ordered map per table, from
    record id to the record's latest value, and the merge of a response's
    record map into it (last write wins, nothing is ever removed). */
module RecordCache {
  import opened Wrappers
  import opened Json

  /** The eight tables the cache keeps. */
  datatype Table =
    | Block
    | Collection
    | Space
    | CollectionView
    | NotionUser
    | SpaceView
    | UserRoot
    | UserSettings

  /** The tables in the order the default cache lists them. */
  const AllTables: seq<Table> :=
    [Block, Collection, Space, CollectionView, NotionUser, SpaceView, UserRoot, UserSettings]

  /** A JavaScript `Map` from record id to value: `ids` is its iteration
      (insertion) order, `vals` its contents. */
  datatype IdMap = IdMap(ids: seq<string>, vals: map<string, Value>) {
    ghost predicate Valid() {
      && (forall i, j :: 0 <= i < j < |ids| ==> ids[i] != ids[j])
      && (forall id :: id in vals <==> id in ids)
    }
  }

  /** Every table is one of the eight. */
  lemma TableCases(t: Table)
    ensures t in AllTables
  {
    match t
    case Block => case Collection => case Space => case CollectionView =>
    case NotionUser => case SpaceView => case UserRoot => case UserSettings =>
  }

  /** The cache a client builds when none is supplied: every table empty. */
  function EmptyTables(): (c: map<Table, IdMap>)
    ensures forall t: Table :: t in c && c[t] == IdMap([], map[])
  {
    var c := map[Block := IdMap([], map[]), Collection := IdMap([], map[]),
                 Space := IdMap([], map[]), CollectionView := IdMap([], map[]),
                 NotionUser := IdMap([], map[]), SpaceView := IdMap([], map[]),
                 UserRoot := IdMap([], map[]), UserSettings := IdMap([], map[])];
    assert forall t: Table :: t in AllTables ==> t in c && c[t] == IdMap([], map[]);
    forall t: Table ensures t in AllTables { TableCases(t); }
    c
  }

  /** A cache holds a well-formed map for every table. */
  type Cache = c: map<Table, IdMap> | forall t: Table :: t in c && c[t].Valid()
    witness EmptyTables()

  const EmptyCache: Cache := EmptyTables()

  /** One record of a response: its role and its value (`undefined` when
      the store withholds it). */
  datatype Entry = Entry(role: string, value: Value)

  ghost predicate DistinctIds(es: seq<(string, Entry)>) {
    forall i, j :: 0 <= i < j < |es| ==> es[i].0 != es[j].0
  }

  /** The records of one table of a response, in the order the response
      lists them; a JSON object never repeats a key. */
  type Entries = es: seq<(string, Entry)> | DistinctIds(es) witness []

  /** A response's record map; a table the response does not mention is
      absent. */
  type RecordMap = map<Table, Entries>

  function Ids(es: seq<(string, Entry)>): set<string> {
    set i | 0 <= i < |es| :: es[i].0
  }

  /** `recordMap[table][id]`. */
  function Lookup(es: seq<(string, Entry)>, id: string): (r: Option<Entry>)
    ensures r.Some? ==> exists i :: 0 <= i < |es| && es[i] == (id, r.value)
    ensures r.None? <==> id !in Ids(es)
    decreases |es|
  {
    if es == [] then None
    else if es[|es| - 1].0 == id then Some(es[|es| - 1].1)
    else
      var r := Lookup(es[..|es| - 1], id);
      assert r.Some? ==> es[..|es| - 1] <= es;
      r
  }

  /** `Map.prototype.set`: a new id goes to the end of the iteration order,
      an id already present keeps its place. */
  function Put(m: IdMap, id: string, v: Value): (r: IdMap)
    requires m.Valid()
    ensures r.Valid()
    ensures r.vals == m.vals[id := v]
    ensures r.ids == if id in m.vals then m.ids else m.ids + [id]
  {
    if id in m.vals then IdMap(m.ids, m.vals[id := v])
    else IdMap(m.ids + [id], m.vals[id := v])
  }

  /** The records of one response table set into a table map one by one,
      in the response's order. */
  function MergeEntries(m: IdMap, es: seq<(string, Entry)>): (r: IdMap)
    requires m.Valid()
    ensures r.Valid()
    decreases |es|
  {
    if es == [] then m
    else Put(MergeEntries(m, es[..|es| - 1]), es[|es| - 1].0, es[|es| - 1].1.value)
  }

  /** The cache with table `t` replaced by `m`. */
  function Store(c: Cache, t: Table, m: IdMap): Cache
    requires m.Valid()
  {
    c[t := m]
  }

  /** Merging one more record is one more `Put`. */
  lemma MergeEntriesStep(m: IdMap, es: seq<(string, Entry)>, j: nat)
    requires m.Valid() && j < |es|
    ensures MergeEntries(m, es[..j + 1]) == Put(MergeEntries(m, es[..j]), es[j].0, es[j].1.value)
  {
    assert es[..j + 1][..j] == es[..j];
  }

  /** `saveToCache`: every table of the cache that the response mentions
      takes the response's records. */
  function Merge(c: Cache, rm: RecordMap): Cache {
    map t | t in c :: if t in rm then MergeEntries(c[t], rm[t]) else c[t]
  }

  /** The position of a table in the cache's key order. */
  function IndexOf(t: Table): (k: nat)
    ensures k < |AllTables| && AllTables[k] == t
  {
    match t
    case Block => 0
    case Collection => 1
    case Space => 2
    case CollectionView => 3
    case NotionUser => 4
    case SpaceView => 5
    case UserRoot => 6
    case UserSettings => 7
  }

  /** Each position holds the table at that position. */
  lemma IndexOfAt(k: nat)
    requires k < |AllTables|
    ensures IndexOf(AllTables[k]) == k
  {
    match k
    case 0 => case 1 => case 2 => case 3 => case 4 => case 5 => case 6 => case _ =>
  }

  /** `Merge` restricted to the first `k` tables in key order: the state of
      the cache after `saveToCache` has visited those tables. */
  function MergeTables(c: Cache, rm: RecordMap, k: nat): Cache {
    map t | t in c :: if IndexOf(t) < k && t in rm then MergeEntries(c[t], rm[t]) else c[t]
  }

  /** Visiting every table is the whole merge. */
  lemma MergeAllTables(c: Cache, rm: RecordMap)
    ensures MergeTables(c, rm, |AllTables|) == Merge(c, rm)
  {
  }

  /** Visiting one more table merges that table's records, if any. */
  lemma MergeTablesStep(c: Cache, rm: RecordMap, k: nat)
    requires k < |AllTables|
    ensures var key := AllTables[k]; var prev := MergeTables(c, rm, k);
      MergeTables(c, rm, k + 1)
        == if key in rm then prev[key := MergeEntries(prev[key], rm[key])] else prev
  {
    IndexOfAt(k);
  }

  /** One table's part of `saveToCache`: its records set into its map one
      by one, in order. */
  method SetAll(m: IdMap, records: Entries) returns (r: IdMap)
    requires m.Valid()
    ensures r.Valid() && r == MergeEntries(m, records)
  {
    r := m;
    for j := 0 to |records|
      invariant r == MergeEntries(m, records[..j])
    {
      MergeEntriesStep(m, records, j);
      r := Put(r, records[j].0, records[j].1.value);
    }
    assert records[..|records|] == records;
  }

  /** The values a response table assigns, later records winning. */
  function Assigned(es: seq<(string, Entry)>): map<string, Value>
    decreases |es|
  {
    if es == [] then map[]
    else Assigned(es[..|es| - 1])[es[|es| - 1].0 := es[|es| - 1].1.value]
  }

  /** The ids of a response table that are not in `known`, in response
      order. */
  function NewIds(known: set<string>, es: seq<(string, Entry)>): seq<string>
    decreases |es|
  {
    if es == [] then []
    else NewIds(known, es[..|es| - 1]) + (if es[|es| - 1].0 in known then [] else [es[|es| - 1].0])
  }

  lemma IdsSplit(es: seq<(string, Entry)>)
    requires es != []
    ensures Ids(es) == Ids(es[..|es| - 1]) + {es[|es| - 1].0}
  {
    var init := es[..|es| - 1];
    forall x | x in Ids(es) ensures x in Ids(init) + {es[|es| - 1].0} {
      var i :| 0 <= i < |es| && es[i].0 == x;
      if i < |es| - 1 { assert init[i] == es[i]; }
    }
    forall x | x in Ids(init) ensures x in Ids(es) {
      var i :| 0 <= i < |init| && init[i].0 == x;
      assert es[i] == init[i];
    }
  }

  /** Every id of a table the cache already knows adds nothing to its order. */
  lemma {:induction false} NewIdsOfKnown(known: set<string>, es: seq<(string, Entry)>)
    requires Ids(es) <= known
    ensures NewIds(known, es) == []
    decreases |es|
  {
    if es != [] {
      IdsSplit(es);
      NewIdsOfKnown(known, es[..|es| - 1]);
    }
  }

  lemma {:induction false} AssignedKeys(es: seq<(string, Entry)>)
    ensures Assigned(es).Keys == Ids(es)
    decreases |es|
  {
    if es != [] {
      AssignedKeys(es[..|es| - 1]);
      IdsSplit(es);
    }
  }

  /** With distinct ids, each record's value is the one assigned to its id. */
  lemma {:induction false} AssignedAt(es: seq<(string, Entry)>, i: nat)
    requires DistinctIds(es) && i < |es|
    ensures es[i].0 in Assigned(es) && Assigned(es)[es[i].0] == es[i].1.value
    decreases |es|
  {
    if i < |es| - 1 {
      var init := es[..|es| - 1];
      assert init[i] == es[i];
      AssignedAt(init, i);
    }
  }

  lemma MapUpdateUnion(a: map<string, Value>, b: map<string, Value>, k: string, v: Value)
    ensures (a + b)[k := v] == a + b[k := v]
  {
  }

  /** Closed form of a table merge's contents: the old contents overridden
      by what the response assigns. */
  lemma {:induction false} MergedVals(m: IdMap, es: seq<(string, Entry)>)
    requires m.Valid()
    ensures MergeEntries(m, es).vals == m.vals + Assigned(es)
    decreases |es|
  {
    if es != [] {
      var init, last := es[..|es| - 1], es[|es| - 1];
      MergedVals(m, init);
      calc {
        MergeEntries(m, es).vals;
        MergeEntries(m, init).vals[last.0 := last.1.value];
        (m.vals + Assigned(init))[last.0 := last.1.value];
        { MapUpdateUnion(m.vals, Assigned(init), last.0, last.1.value); }
        m.vals + Assigned(init)[last.0 := last.1.value];
      }
    }
  }

  /** Closed form of a table merge's iteration order: the old order, then
      the response's new ids in response order. */
  lemma {:induction false} MergedIds(m: IdMap, es: seq<(string, Entry)>)
    requires m.Valid() && DistinctIds(es)
    ensures MergeEntries(m, es).ids == m.ids + NewIds(m.vals.Keys, es)
    decreases |es|
  {
    if es != [] {
      var init := es[..|es| - 1];
      var last := es[|es| - 1];
      var before := MergeEntries(m, init);
      MergedIds(m, init);
      MergedVals(m, init);
      AssignedKeys(init);
      LastIdIsNew(es);
      assert last.0 in before.vals <==> last.0 in m.vals;
    }
  }

  lemma LastIdIsNew(es: seq<(string, Entry)>)
    requires DistinctIds(es) && es != []
    ensures es[|es| - 1].0 !in Ids(es[..|es| - 1])
  {
    var init := es[..|es| - 1];
    forall i | 0 <= i < |init| ensures init[i].0 != es[|es| - 1].0 {
      assert init[i] == es[i];
    }
  }

  /** Lookup after merge: every record of the response is in the cache
      afterwards with the response's value. */
  lemma LookupAfterMerge(c: Cache, rm: RecordMap, t: Table, i: nat)
    requires t in rm && i < |rm[t]|
    ensures rm[t][i].0 in Merge(c, rm)[t].vals
    ensures Merge(c, rm)[t].vals[rm[t][i].0] == rm[t][i].1.value
  {
    MergedVals(c[t], rm[t]);
    AssignedAt(rm[t], i);
  }

  /** Nothing else changes: a table the response does not mention is left
      as it was, and so is every id a mentioned table does not list. */
  lemma MergeLeavesOthers(c: Cache, rm: RecordMap, t: Table, id: string)
    requires t !in rm || id !in Ids(rm[t])
    ensures t !in rm ==> Merge(c, rm)[t] == c[t]
    ensures id in Merge(c, rm)[t].vals <==> id in c[t].vals
    ensures id in c[t].vals ==> Merge(c, rm)[t].vals[id] == c[t].vals[id]
  {
    if t in rm {
      MergedVals(c[t], rm[t]);
      AssignedKeys(rm[t]);
    }
  }

  /** Records are never dropped and never move: the ids a table held keep
      their places, and the response's new ids follow in response order. */
  lemma MergeKeepsOrder(c: Cache, rm: RecordMap, t: Table)
    ensures Merge(c, rm)[t].ids == c[t].ids + (if t in rm then NewIds(c[t].vals.Keys, rm[t]) else [])
    ensures c[t].vals.Keys <= Merge(c, rm)[t].vals.Keys
  {
    if t in rm {
      MergedIds(c[t], rm[t]);
      MergedVals(c[t], rm[t]);
    }
  }

  /** A table merged twice with the same response equals it merged once. */
  lemma MergeEntriesIdempotent(m: IdMap, es: seq<(string, Entry)>)
    requires m.Valid() && DistinctIds(es)
    ensures MergeEntries(MergeEntries(m, es), es) == MergeEntries(m, es)
  {
    var once := MergeEntries(m, es);
    MergedVals(m, es);
    MergedVals(once, es);
    AssignedKeys(es);
    MergedIds(once, es);
    NewIdsOfKnown(once.vals.Keys, es);
    assert MergeEntries(once, es).vals == once.vals;
  }

  /** Merging the same record map twice leaves the cache as merging it once. */
  lemma MergeIdempotent(c: Cache, rm: RecordMap)
    ensures Merge(Merge(c, rm), rm) == Merge(c, rm)
  {
    var once := Merge(c, rm);
    forall t | t in rm ensures MergeEntries(once[t], rm[t]) == once[t] {
      MergeEntriesIdempotent(c[t], rm[t]);
    }
  }

  /** Overwrite wins: whatever an earlier merge stored, a later merge that
      lists the same record leaves the later value. */
  lemma MergeOverwriteWins(c: Cache, a: RecordMap, b: RecordMap, t: Table, i: nat)
    requires t in b && i < |b[t]|
    ensures b[t][i].0 in Merge(Merge(c, a), b)[t].vals
    ensures Merge(Merge(c, a), b)[t].vals[b[t][i].0] == b[t][i].1.value
  {
    LookupAfterMerge(Merge(c, a), b, t, i);
  }

  /** A record found by `Lookup` is in the cache after the merge. */
  lemma LookupMerged(c: Cache, rm: RecordMap, t: Table, id: string)
    requires t in rm && Lookup(rm[t], id).Some?
    ensures id in Merge(c, rm)[t].vals
    ensures Merge(c, rm)[t].vals[id] == Lookup(rm[t], id).value.value
  {
    var i :| 0 <= i < |rm[t]| && rm[t][i] == (id, Lookup(rm[t], id).value);
    LookupAfterMerge(c, rm, t, i);
  }

  /** The values of a table map in iteration order. */
  function Values(m: IdMap): (vs: seq<Value>)
    requires m.Valid()
    ensures |vs| == |m.ids|
  {
    seq(|m.ids|, i requires 0 <= i < |m.ids| => m.vals[m.ids[i]])
  }

  /** `Object.values(recordMap[table])`. */
  function EntryValues(es: seq<(string, Entry)>): (vs: seq<Value>)
    ensures |vs| == |es|
  {
    seq(|es|, i requires 0 <= i < |es| => es[i].1.value)
  }
}
