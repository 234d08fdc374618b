/**
 * The Ruby objects that wrap method nodes (RubyProf::MethodInfo), their
 * invalidation when the garbage collector or the profile frees them, and
 * the accessors that refuse to read through an invalidated wrapper.
 */
module Wrapping {
  import opened Options
  import opened RubyHost
  import opened MethodKeys
  import opened SourceOwner
  import opened Names
  import opened MethodInfo
  import opened MethodTables

  /** The data pointer of every wrapper object, by object id; None is a
      pointer that was set to NULL. */
  type Store = map<nat, Option<MethodNode>>

  datatype Freed = AlreadyFreed(message: string)

  const FreedMessage := "This RubyProf::MethodInfo instance has already been freed, likely because its profile has been freed."

  /** prof_method_get (and its twin prof_get_method): follow the data
      pointer, raising when it has been cleared. */
  function GetMethod(store: Store, obj: nat): (r: Result<MethodNode, Freed>)
    requires obj in store
    ensures r.Err? <==> store[obj].None?
    ensures r.Err? ==> r.error == AlreadyFreed(FreedMessage)
    ensures r.Ok? ==> store[obj] == Some(r.value)
  {
    match store[obj]
    case None => Err(AlreadyFreed(FreedMessage))
    case Some(n) => Ok(n)
  }

  datatype Wrapped = Wrapped(node: MethodNode, store: Store, obj: nat)

  /** prof_method_wrap: the node's wrapper, made on first request.
      `newId` is the id Data_Wrap_Struct would hand out. */
  function Wrap(n: MethodNode, store: Store, newId: nat): (r: Wrapped)
    requires n.wrapper.None? ==> newId !in store
    ensures r.node.wrapper == Some(r.obj)
    ensures n.wrapper.Some? ==> r == Wrapped(n, store, n.wrapper.value)
    ensures n.wrapper.None? ==>
      && r.obj == newId && r.node == n.(wrapper := Some(newId))
      && r.store == store[newId := Some(r.node)]
  {
    if n.wrapper.None? then
      var n' := n.(wrapper := Some(newId));
      Wrapped(n', store[newId := Some(n')], newId)
    else Wrapped(n, store, n.wrapper.value)
  }

  datatype Released = Released(node: MethodNode, store: Store)

  /** prof_method_ruby_gc_free: clear the data pointer of the node's
      wrapper, if it has one, and forget the wrapper. */
  function GcFree(n: MethodNode, store: Store): (r: Released)
    requires n.wrapper.Some? ==> n.wrapper.value in store
    ensures r.node == n.(wrapper := None)
    ensures r.store.Keys == store.Keys
    ensures forall w :: w in store ==> r.store[w] == (if n.wrapper == Some(w) then None else store[w])
  {
    var store' := if n.wrapper.Some? then store[n.wrapper.value := None] else store;
    Released(n.(wrapper := None), store')
  }

  /** prof_method_allocate: a node from prof_method_create(0, Qnil, 0, 0)
      and its wrapper. */
  function Allocate(h: Host, currentFile: Option<string>, store: Store, newId: nat): (r: Wrapped)
    requires newId !in store
    ensures r.obj == newId && r.store == store[newId := Some(r.node)]
    ensures GetMethod(r.store, r.obj) == Ok(r.node)
    ensures r.node.key == BlankKey && Pristine(r.node.(wrapper := None))
  {
    Wrap(Create(h, 0, Nil, 0, 0, currentFile), store, newId)
  }

  /** A wrapper just made reads back the node it wraps. */
  lemma WrapThenGet(n: MethodNode, store: Store, newId: nat)
    requires n.wrapper.None? && newId !in store
    ensures var r := Wrap(n, store, newId); GetMethod(r.store, r.obj) == Ok(r.node)
  {
  }

  /** Wrapping twice hands back the first wrapper and allocates nothing. */
  lemma WrapIsIdempotent(n: MethodNode, store: Store, newId: nat, newId2: nat)
    requires n.wrapper.None? ==> newId !in store
    ensures var r := Wrap(n, store, newId);
      Wrap(r.node, r.store, newId2) == r
  {
  }

  /** After the free hook has run, every access through the old wrapper
      raises "already freed", and the next wrap makes a new wrapper. */
  lemma FreedWrapperRaises(n: MethodNode, store: Store, newId: nat)
    requires n.wrapper.Some? && n.wrapper.value in store
    requires newId !in store
    ensures var r := GcFree(n, store);
      && GetMethod(r.store, n.wrapper.value) == Err(AlreadyFreed(FreedMessage))
      && Wrap(r.node, r.store, newId).obj == newId
      && newId != n.wrapper.value
  {
  }

  // ---------------------------------------------------------------
  // A wrapper and the method table point at one and the same
  // prof_method_t. The model keeps a node value in each place, so the
  // sharing is an invariant that every operation below keeps.

  /** The table and the wrappers share their nodes: the table files each
      node under its own key; a live wrapper holds a node that records
      that wrapper and, when the table has its key, is the table's node;
      a table node that records a wrapper is what that wrapper holds. */
  predicate Coupled(t: MethodTable, store: Store)
  {
    && (forall k :: k in t ==> t[k].key == k)
    && (forall w :: w in store && store[w].Some? ==> store[w].value.wrapper == Some(w))
    && (forall w :: w in store && store[w].Some? && store[w].value.key in t ==> t[store[w].value.key] == store[w].value)
    && (forall k :: k in t && t[k].wrapper.Some? ==>
          t[k].wrapper.value in store && store[t[k].wrapper.value] == Some(t[k]))
  }

  datatype Shared = Shared(table: MethodTable, store: Store, obj: nat)

  /** prof_method_wrap on a node of the table: the wrapper is recorded on
      the table's node, so a read through the wrapper sees that node. */
  function WrapEntry(t: MethodTable, store: Store, k: MethodKey, newId: nat): (r: Shared)
    requires k in t
    requires t[k].wrapper.None? ==> newId !in store
    requires t[k].wrapper.Some? ==> t[k].wrapper.value in store
    ensures r.table.Keys == t.Keys
    ensures r.table[k] == t[k].(wrapper := Some(r.obj))
    ensures forall k' :: k' in t && k' != k ==> r.table[k'] == t[k']
    ensures t[k].wrapper.Some? ==> r == Shared(t, store, t[k].wrapper.value)
    ensures r.obj in r.store
    ensures t[k].wrapper.None? || Coupled(t, store) ==> GetMethod(r.store, r.obj) == Ok(r.table[k])
    ensures Coupled(t, store) ==> Coupled(r.table, r.store)
  {
    var w := Wrap(t[k], store, newId);
    WrapEntryKeepsCoupling(t, store, k, newId);
    Shared(t[k := w.node], w.store, w.obj)
  }

  lemma WrapEntryKeepsCoupling(t: MethodTable, store: Store, k: MethodKey, newId: nat)
    requires k in t
    requires t[k].wrapper.None? ==> newId !in store
    ensures var w := Wrap(t[k], store, newId);
      Coupled(t, store) ==> Coupled(t[k := w.node], w.store)
  {
  }

  datatype Heap = Heap(table: MethodTable, store: Store)

  /** One turn of method_table_free_iterator: the node's free hook runs
      and the table no longer holds it; its wrapper, if any, now raises. */
  function ReleaseEntry(t: MethodTable, store: Store, k: MethodKey): (r: Heap)
    requires k in t
    requires t[k].wrapper.Some? ==> t[k].wrapper.value in store
    ensures r.table == t - {k}
    ensures r.store == GcFree(t[k], store).store
    ensures t[k].wrapper.Some? ==> GetMethod(r.store, t[k].wrapper.value) == Err(AlreadyFreed(FreedMessage))
    ensures Coupled(t, store) ==> Coupled(r.table, r.store)
  {
    Heap(t - {k}, GcFree(t[k], store).store)
  }

  /** Replacing the node a live wrapper holds by an update that keeps its
      key and wrapper, in the store and in the table alike, keeps them
      coupled. */
  lemma UpdateShared(t: MethodTable, store: Store, obj: nat, n': MethodNode)
    requires Coupled(t, store)
    requires obj in store && store[obj].Some?
    requires n'.key == store[obj].value.key && n'.wrapper == store[obj].value.wrapper
    ensures var n := store[obj].value;
      Coupled(if n.key in t then t[n.key := n'] else t, store[obj := Some(n')])
  {
  }

  /** The wrappers of the nodes a table files under the keys in ks. */
  function WrappersUnder(t: MethodTable, ks: set<MethodKey>): set<nat>
  {
    set k | k in ks && k in t && t[k].wrapper.Some? :: t[k].wrapper.value
  }

  /** The wrappers of all nodes of a table. */
  function WrappersOf(t: MethodTable): set<nat>
  {
    WrappersUnder(t, t.Keys)
  }

  lemma WrappersUnderOneMore(t: MethodTable, ks: set<MethodKey>, k: MethodKey)
    requires k in t
    ensures WrappersUnder(t, ks + {k})
         == WrappersUnder(t, ks) + (if t[k].wrapper.Some? then {t[k].wrapper.value} else {})
  {
  }

  /** method_table_free, as far as wrappers go: prof_method_free runs the
      free hook of every node before releasing it. */
  method FreeTable(t: MethodTable, store: Store) returns (store': Store)
    requires WrappersOf(t) <= store.Keys
    ensures store'.Keys == store.Keys
    ensures forall w :: w in store ==> store'[w] == (if w in WrappersOf(t) then None else store[w])
    ensures Coupled(t, store) ==>
      && (forall w :: w in store && store[w].Some? && store[w].value.key in t ==> store'[w].None?)
      && Coupled(map[], store')
  {
    store' := store;
    var todo := t.Keys;
    var done: set<MethodKey> := {};
    while todo != {}
      invariant todo + done == t.Keys && todo !! done
      invariant store'.Keys == store.Keys
      invariant forall w :: w in store ==>
        store'[w] == (if w in WrappersUnder(t, done) then None else store[w])
      decreases todo
    {
      var k :| k in todo;
      assert t[k].wrapper.Some? ==> t[k].wrapper.value in WrappersOf(t);
      WrappersUnderOneMore(t, done, k);
      store' := GcFree(t[k], store').store;
      todo := todo - {k};
      done := done + {k};
    }
    if Coupled(t, store) {
      forall w | w in store && store[w].Some? && store[w].value.key in t
        ensures store'[w].None?
      {
        var k := store[w].value.key;
        assert t[k].wrapper == Some(w);
        assert w in WrappersOf(t);
      }
    }
  }

  /** Once its table is freed, no node can be reached through its
      wrapper: every access raises instead of reading freed memory. */
  method FreeTableThenGet(t: MethodTable, store: Store, k: MethodKey) returns (r: Result<MethodNode, Freed>)
    requires WrappersOf(t) <= store.Keys
    requires k in t && t[k].wrapper.Some?
    ensures r == Err(AlreadyFreed(FreedMessage))
  {
    var store' := FreeTable(t, store);
    assert t[k].wrapper.value in WrappersOf(t);
    r := GetMethod(store', t[k].wrapper.value);
  }

  /** A wrapper handed out for a node of the table stops reading it once
      the table is freed: the free hook runs on every node the table
      holds, and the wrapper is recorded on that very node. Only the
      wrappers the table's nodes record need to be live objects. */
  method WrapFreeThenGet(t: MethodTable, store: Store, k: MethodKey, newId: nat)
    returns (r: Result<MethodNode, Freed>)
    requires forall k' :: k' in t && t[k'].wrapper.Some? ==> t[k'].wrapper.value in store
    requires k in t
    requires t[k].wrapper.None? ==> newId !in store
    ensures r == Err(AlreadyFreed(FreedMessage))
  {
    assert t[k].wrapper.Some? ==> t[k].wrapper.value in store;
    var sh := WrapEntry(t, store, k, newId);
    assert sh.table[k].wrapper == Some(sh.obj);
    forall w | w in WrappersOf(sh.table)
      ensures w in sh.store
    {
      var k' :| k' in sh.table && sh.table[k'].wrapper == Some(w);
    }
    var store' := FreeTable(sh.table, sh.store);
    assert sh.obj in WrappersOf(sh.table);
    r := GetMethod(store', sh.obj);
  }

  // ---------------------------------------------------------------
  // The accessors of RubyProf::MethodInfo that read a node.

  datatype Query =
    | Klass | KlassNameQ | MethodNameQ | FullNameQ | MethodId | Line | SourceFile
    | IsRoot | IsRecursive | CallersQ | CalleesQ

  datatype Answer = AValue(v: Value) | AString(s: string) | AInt(i: int) | ASymbol(id: nat) | ABool(b: bool) | AEdges(es: seq<CallInfo>)

  /** The source file shown for a node; a node without one reports
      "ruby_runtime". */
  function ShownSourceFile(n: MethodNode): string
  {
    if n.sourceFile.Some? then n.sourceFile.value else "ruby_runtime"
  }

  /** What each accessor reads from a live node; method_id answers with
      the Symbol of the node's method id (ID2SYM), written ASymbol. */
  function Read(h: Host, n: MethodNode, q: Query): Answer
  {
    match q
    case Klass => AValue(n.key.klass)
    case KlassNameQ => AString(KlassName(h, n.key.klass))
    case MethodNameQ => AString(MethodName(h, n.key.mid))
    case FullNameQ => AString(FullName(h, n.key))
    case MethodId => ASymbol(n.key.mid)
    case Line => AInt(n.line)
    case SourceFile => AString(ShownSourceFile(n))
    case IsRoot => ABool(n.root)
    case IsRecursive => ABool(n.recursive != 0)
    case CallersQ => AEdges(Values(n.callers))
    case CalleesQ => AEdges(Values(n.callees))
  }

  /** Every accessor goes through GetMethod: it raises exactly when the
      wrapper has been freed, and otherwise reads the live node. */
  function Ask(h: Host, store: Store, obj: nat, q: Query): (r: Result<Answer, Freed>)
    requires obj in store
    ensures r.Err? <==> store[obj].None?
    ensures r.Err? ==> r.error == AlreadyFreed(FreedMessage)
    ensures r.Ok? ==> r.value == Read(h, store[obj].value, q)
    ensures q == SourceFile && r.Ok? && store[obj].value.sourceFile.None? ==> r.value == AString("ruby_runtime")
    ensures q == CallersQ && r.Ok? ==> var n := store[obj].value;
      r.value.AEdges? && |r.value.es| == |n.callers|
      && forall i :: 0 <= i < |n.callers| ==> r.value.es[i] == n.callers[i].info
    ensures q == CalleesQ && r.Ok? ==> var n := store[obj].value;
      r.value.AEdges? && |r.value.es| == |n.callees|
      && forall i :: 0 <= i < |n.callees| ==> r.value.es[i] == n.callees[i].info
  {
    match GetMethod(store, obj)
    case Err(e) => Err(e)
    case Ok(n) => Ok(Read(h, n, q))
  }

  /** The node a wrapper holds and the table it shares, after the node
      has been updated to n'. */
  function Publish(t: MethodTable, n: MethodNode, n': MethodNode): MethodTable
  {
    if n.key in t && t[n.key] == n then t[n.key := n'] else t
  }

  /** prof_source_klass: resolve through the wrapper. The memoised
      resolution is written to the shared node, so the table sees it too;
      nothing else changes. */
  method AskSourceKlass(h: Host, ghost rank: Value -> nat, t: MethodTable, store: Store, obj: nat)
    returns (r: Result<Value, Freed>, t': MethodTable, store': Store)
    requires Ranked(h, rank)
    requires obj in store
    ensures r.Err? <==> store[obj].None?
    ensures r.Err? ==> t' == t && store' == store && r.error == AlreadyFreed(FreedMessage)
    ensures r.Ok? ==> var n := store[obj].value; var w := Walk(h, rank, n.key.klass, {});
      && (n.resolved ==> r.value == n.sourceKlass && store' == store && t' == t)
      && (!n.resolved ==>
            var n' := n.(resolved := true, sourceKlass := w.klass, relation := w.relation);
            && r.value == w.klass
            && store' == store[obj := Some(n')]
            && t' == Publish(t, n, n'))
    ensures store'.Keys == store.Keys && t'.Keys == t.Keys
    ensures forall w :: w in store && w != obj ==> store'[w] == store[w]
    ensures Coupled(t, store) ==> Coupled(t', store')
  {
    match GetMethod(store, obj)
    case Err(e) =>
      r, t', store' := Err(e), t, store;
    case Ok(n) =>
      var klass, n' := ResolveSourceKlass(h, rank, n);
      r, t', store' := Ok(klass), Publish(t, n, n'), store[obj := Some(n')];
      if Coupled(t, store) {
        UpdateShared(t, store, obj, n');
      }
  }

  /** prof_calltree_name through the wrapper, with the same write-back
      and the same frame as AskSourceKlass. */
  method AskCalltreeName(h: Host, ghost rank: Value -> nat, t: MethodTable, store: Store, obj: nat)
    returns (r: Result<string, Freed>, t': MethodTable, store': Store)
    requires Ranked(h, rank)
    requires obj in store
    ensures r.Err? <==> store[obj].None?
    ensures r.Err? ==> t' == t && store' == store && r.error == AlreadyFreed(FreedMessage)
    ensures r.Ok? ==> var n := store[obj].value; var w := Walk(h, rank, n.key.klass, {});
      && (n.resolved ==>
            r.value == CalltreeName(h, n.sourceKlass, n.relation, n.key.mid) && store' == store && t' == t)
      && (!n.resolved ==>
            var n' := n.(resolved := true, sourceKlass := w.klass, relation := w.relation);
            && r.value == CalltreeName(h, w.klass, w.relation, n.key.mid)
            && store' == store[obj := Some(n')]
            && t' == Publish(t, n, n'))
    ensures store'.Keys == store.Keys && t'.Keys == t.Keys
    ensures forall w :: w in store && w != obj ==> store'[w] == store[w]
    ensures Coupled(t, store) ==> Coupled(t', store')
  {
    match GetMethod(store, obj)
    case Err(e) =>
      r, t', store' := Err(e), t, store;
    case Ok(n) =>
      var name, n' := CalltreeNameOf(h, rank, n);
      r, t', store' := Ok(name), Publish(t, n, n'), store[obj := Some(n')];
      if Coupled(t, store) {
        UpdateShared(t, store, obj, n');
      }
  }
}
