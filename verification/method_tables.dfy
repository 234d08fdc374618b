/**
 * The method table: the st_table from which the profiler fetches the
 * node of every method, modelled as a map compared on method keys
 * alone (the key hash is not modelled).
 */
module MethodTables {
  import opened Options
  import opened RubyHost
  import opened MethodKeys
  import opened MethodInfo

  type MethodTable = map<MethodKey, MethodNode>

  /** The table after st_insert, and st_insert's answer: whether the key
      was already present (its value is then replaced). */
  datatype Inserted = Inserted(table: MethodTable, existed: bool)

  /** method_table_insert */
  function Insert(t: MethodTable, key: MethodKey, node: MethodNode): (r: Inserted)
    ensures r.existed <==> key in t
    ensures r.table.Keys == t.Keys + {key}
    ensures r.table[key] == node
    ensures forall k :: k in t && k != key ==> r.table[k] == t[k]
  {
    Inserted(t[key := node], key in t)
  }

  /** method_table_lookup; None is the NULL it returns on a miss. */
  function Lookup(t: MethodTable, key: MethodKey): (r: Option<MethodNode>)
    ensures r.None? <==> key !in t
    ensures r.Some? ==> r.value == t[key]
  {
    if key in t then Some(t[key]) else None
  }

  /** In the model's map, a lookup after an insert under `key` finds the
      inserted node for every probe that method_table_cmp deems equal to
      `key`. The source's st_table also compares the stored hash first,
      and that hash is taken from the raw owner. */
  lemma LookupAfterInsert(t: MethodTable, key: MethodKey, node: MethodNode, probe: MethodKey)
    requires TableCmp(key, probe) == 0
    ensures Lookup(Insert(t, key, node).table, probe) == Some(node)
  {
  }

  /** An insert leaves the lookup of every other key as it was. */
  lemma LookupOtherKeysUnchanged(t: MethodTable, key: MethodKey, node: MethodNode, probe: MethodKey)
    requires TableCmp(key, probe) != 0
    ensures Lookup(Insert(t, key, node).table, probe) == Lookup(t, probe)
  {
  }

  /** A key never inserted is not found. */
  lemma LookupNeverInserted(key: MethodKey)
    ensures Lookup(map[], key) == None
  {
  }

  datatype Fetched = Fetched(table: MethodTable, node: MethodNode)

  /** The create-or-fetch discipline of the table's users: look the
      normalised key up, and on a miss create a node and insert it. */
  function GetOrCreate(h: Host, t: MethodTable, event: nat, klass: Value, mid: nat, line: int, currentFile: Option<string>): (r: Fetched)
    ensures var key := MethodKeyOf(h, klass, mid);
      && Lookup(r.table, key) == Some(r.node)
      && (key in t ==> r.table == t && r.node == t[key])
      && (key !in t ==> r.node.key == key && Pristine(r.node) && r.table.Keys == t.Keys + {key})
    ensures forall k :: k in t ==> k in r.table && r.table[k] == t[k]
    ensures MethodKeyOf(h, klass, mid) !in t ==> r.node == Create(h, event, klass, mid, line, currentFile)
  {
    var key := MethodKeyOf(h, klass, mid);
    match Lookup(t, key)
    case Some(node) => Fetched(t, node)
    case None =>
      var node := Create(h, event, klass, mid, line, currentFile);
      Fetched(Insert(t, key, node).table, node)
  }

  /** A node's key is the key it is filed under. */
  ghost predicate KeyedByOwnKey(t: MethodTable)
  {
    forall k :: k in t ==> t[k].key == k
  }

  /** Repeated sightings of one method give back the same node and leave
      the table alone; the table stays filed by each node's own key, so
      distinct keys never share a node. */
  lemma GetOrCreateTwice(h: Host, t: MethodTable, event: nat, klass: Value, mid: nat, line: int, file: Option<string>,
                         event2: nat, line2: int, file2: Option<string>)
    requires KeyedByOwnKey(t)
    ensures var r1 := GetOrCreate(h, t, event, klass, mid, line, file);
      var r2 := GetOrCreate(h, r1.table, event2, klass, mid, line2, file2);
      && r2.node == r1.node && r2.table == r1.table
      && KeyedByOwnKey(r1.table)
  {
  }

  /** Two owners that normalise to different keys get different nodes. */
  lemma DistinctKeysDistinctNodes(h: Host, t: MethodTable, klass1: Value, mid1: nat, klass2: Value, mid2: nat,
                                  event: nat, line: int, file: Option<string>)
    requires KeyedByOwnKey(t)
    requires MethodKeyOf(h, klass1, mid1) != MethodKeyOf(h, klass2, mid2)
    ensures var r1 := GetOrCreate(h, t, event, klass1, mid1, line, file);
      var r2 := GetOrCreate(h, r1.table, event, klass2, mid2, line, file);
      && r1.node.key == MethodKeyOf(h, klass1, mid1)
      && r2.node.key == MethodKeyOf(h, klass2, mid2)
      && r1.node != r2.node
      && Lookup(r2.table, r1.node.key) == Some(r1.node)
  {
  }
}
