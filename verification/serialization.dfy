/**
 * _dump_data / _load_data of RubyProf::MethodInfo: the record a node is
 * marshalled to, and how a node is rebuilt from it.
 */
module Serialization {
  import opened Options
  import opened RubyHost
  import opened MethodKeys
  import opened MethodInfo

  /** The hash built by prof_method_dump, one field per symbol key. */
  datatype Record = Record(
    klass: Value,
    mid: nat,
    recursive: int,
    sourceFile: Option<string>,   // nil when the node has no source file
    line: int,
    callers: seq<CallInfo>,
    callees: seq<CallInfo>
  )

  /** prof_method_dump: the key, the counters and the source location,
      with nil for a missing file, and the edges of both tables in the
      order the tables enumerate them. */
  function Dump(n: MethodNode): (d: Record)
    ensures d.klass == n.key.klass && d.mid == n.key.mid && d.recursive == n.recursive
    ensures d.sourceFile == n.sourceFile && d.line == n.line
    ensures |d.callers| == |n.callers| && forall i :: 0 <= i < |n.callers| ==> d.callers[i] == n.callers[i].info
    ensures |d.callees| == |n.callees| && forall i :: 0 <= i < |n.callees| ==> d.callees[i] == n.callees[i].info
  {
    Record(n.key.klass, n.key.mid, n.recursive, n.sourceFile, n.line, Values(n.callers), Values(n.callees))
  }

  /** prof_method_load into node n. The edges arrive already rebuilt by
      the call-info code; each is filed under its caller's key (blank_key
      for a root call) or its callee's key. */
  function Load(h: Host, n: MethodNode, d: Record): (r: MethodNode)
    ensures r.key == MethodKeyOf(h, d.klass, d.mid)
    ensures r.recursive == d.recursive
    ensures r.sourceFile == d.sourceFile
    ensures r.line == (if d.sourceFile.Some? then d.line else 0)
    ensures KeysOf(r.callers) == KeysOf(n.callers) + KeysFor(Callers, d.callers)
    ensures KeysOf(r.callees) == KeysOf(n.callees) + KeysFor(Callees, d.callees)
    ensures forall i :: 0 <= i < |d.callers| && LastWithKey(Callers, d.callers, i) ==>
      Get(r.callers, KeyFor(Callers, d.callers[i])) == Some(d.callers[i])
    ensures forall i :: 0 <= i < |d.callees| && LastWithKey(Callees, d.callees, i) ==>
      Get(r.callees, KeyFor(Callees, d.callees[i])) == Some(d.callees[i])
    ensures forall k :: k !in KeysFor(Callers, d.callers) ==> Get(r.callers, k) == Get(n.callers, k)
    ensures forall k :: k !in KeysFor(Callees, d.callees) ==> Get(r.callees, k) == Get(n.callees, k)
    ensures r.root == n.root && r.excluded == n.excluded && r.visits == n.visits && r.wrapper == n.wrapper
    ensures r.resolved == n.resolved && r.sourceKlass == n.sourceKlass && r.relation == n.relation
  {
    var keyed := n.(key := MethodKeyOf(h, d.klass, d.mid));
    var located := SetSourceInfo(keyed, d.sourceFile, d.line);
    located.(recursive := d.recursive,
             callers := InsertAll(n.callers, Callers, d.callers),
             callees := InsertAll(n.callees, Callees, d.callees))
  }

  lemma {:induction false} KeysOfSnoc(t: CallInfoTable, e: Entry)
    ensures KeysOf(t + [e]) == KeysOf(t) + {e.key}
    decreases |t|
  {
    if |t| > 0 {
      assert (t + [e])[1..] == t[1..] + [e];
      KeysOfSnoc(t[1..], e);
    }
  }

  /** st_insert of a key the table lacks appends the entry. */
  lemma {:induction false} PutFreshAppends(t: CallInfoTable, e: Entry)
    requires e.key !in KeysOf(t)
    ensures Put(t, e) == t + [e]
    decreases |t|
  {
    if |t| > 0 {
      PutFreshAppends(t[1..], e);
      assert [t[0]] + (t[1..] + [e]) == t + [e];
    }
  }

  /** The tail of a well-keyed table with distinct keys is one too, and
      its keys are those of the table without the head's. */
  lemma TailOfTable(t: CallInfoTable, side: Side)
    requires |t| > 0 && DistinctKeys(t) && WellKeyed(t, side)
    ensures DistinctKeys(t[1..]) && WellKeyed(t[1..], side)
    ensures KeysOf(t) == {t[0].key} + KeysOf(t[1..]) && t[0].key !in KeysOf(t[1..])
    ensures t[0].key == KeyFor(side, t[0].info)
  {
    forall i | 0 <= i < |t[1..]|
      ensures t[1..][i].key == KeyFor(side, t[1..][i].info)
    {
      assert t[1..][i] == t[i + 1];
    }
  }

  /** One turn of the insertion loop of prof_method_load. */
  lemma InsertAllStep(acc: CallInfoTable, side: Side, vs: seq<CallInfo>)
    requires |vs| > 0
    ensures InsertAll(acc, side, vs) == InsertAll(Put(acc, Entry(KeyFor(side, vs[0]), vs[0])), side, vs[1..])
  {
  }

  /** The edges of a table are its head's edge, then the edges of its tail. */
  lemma ValuesCons(t: CallInfoTable)
    requires |t| > 0
    ensures Values(t)[0] == t[0].info && Values(t)[1..] == Values(t[1..])
  {
  }

  /** Inserting the first edge of a well-keyed table whose keys the
      prefix lacks appends that entry, and what remains is the same
      problem one entry shorter. */
  lemma InsertFirstValue(acc: CallInfoTable, t: CallInfoTable, side: Side)
    requires |t| > 0 && DistinctKeys(t) && WellKeyed(t, side)
    requires KeysOf(acc) !! KeysOf(t)
    ensures InsertAll(acc, side, Values(t)) == InsertAll(acc + [t[0]], side, Values(t[1..]))
    ensures DistinctKeys(t[1..]) && WellKeyed(t[1..], side)
    ensures KeysOf(acc + [t[0]]) !! KeysOf(t[1..])
  {
    var e := t[0];
    var vs := Values(t);
    TailOfTable(t, side);
    ValuesCons(t);
    assert Entry(KeyFor(side, vs[0]), vs[0]) == e;
    InsertAllStep(acc, side, vs);
    PutFreshAppends(acc, e);
    KeysOfSnoc(acc, e);
  }

  lemma MoveHeadToPrefix(acc: CallInfoTable, t: CallInfoTable)
    requires |t| > 0
    ensures (acc + [t[0]]) + t[1..] == acc + t
  {
    assert t == [t[0]] + t[1..];
  }

  /** Re-inserting a well-keyed table's edges, in order, after a prefix
      with none of its keys rebuilds the table exactly. */
  lemma {:induction false} InsertAllValues(acc: CallInfoTable, t: CallInfoTable, side: Side)
    requires DistinctKeys(t) && WellKeyed(t, side)
    requires KeysOf(acc) !! KeysOf(t)
    ensures InsertAll(acc, side, Values(t)) == acc + t
    decreases |t|
  {
    if |t| > 0 {
      InsertFirstValue(acc, t, side);
      InsertAllValues(acc + [t[0]], t[1..], side);
      MoveHeadToPrefix(acc, t);
    }
  }

  /** The state a node must be in for its dump to load back faithfully:
      its owner already normalised, no line without a file, and each
      table filed by the right endpoint's key, one entry per key. */
  predicate Reloadable(h: Host, n: MethodNode)
  {
    && NormalKlass(h, n.key.klass)
    && SourceInfoConsistent(n)
    && DistinctKeys(n.callers) && WellKeyed(n.callers, Callers)
    && DistinctKeys(n.callees) && WellKeyed(n.callees, Callees)
  }

  /** Loading a node's dump into a freshly allocated node (the
      prof_method_allocate state: prof_method_create(0, Qnil, 0, 0))
      gives back its key, recursive flag, source file and line (an
      absent file stays absent, with line 0) and both of its tables,
      entry for entry and in order. */
  lemma LoadDumpRoundTrip(h: Host, n: MethodNode, allocFile: Option<string>)
    requires Reloadable(h, n)
    ensures var m := Load(h, Create(h, 0, Nil, 0, 0, allocFile), Dump(n));
      && m.key == n.key && m.recursive == n.recursive
      && m.sourceFile == n.sourceFile && m.line == n.line
      && m.callers == n.callers && m.callees == n.callees
      && !m.root && !m.excluded && !m.resolved
  {
    NormalKeyIsFixedPoint(h, n.key);
    InsertAllValues([], n.callers, Callers);
    InsertAllValues([], n.callees, Callees);
    assert [] + n.callers == n.callers && [] + n.callees == n.callees;
  }

  /** Even without Reloadable, loading into a fresh node files every
      caller edge under its parent's key (blank_key when it has none) and
      every callee edge under its callee's key, and nothing else. */
  lemma LoadKeySets(h: Host, d: Record, allocFile: Option<string>)
    ensures var m := Load(h, Create(h, 0, Nil, 0, 0, allocFile), d);
      && KeysOf(m.callers) == KeysFor(Callers, d.callers)
      && KeysOf(m.callees) == KeysFor(Callees, d.callees)
      && DistinctKeys(m.callers) && DistinctKeys(m.callees)
  {
  }
}
