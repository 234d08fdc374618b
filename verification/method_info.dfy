/**
 * prof_method_t: one aggregated node per method key, with its two
 * call-info tables, its source location and the memoised source owner.
 */
module MethodInfo {
  import opened Options
  import opened RubyHost
  import opened MethodKeys
  import opened SourceOwner
  import opened Names

  /** A prof_call_info_t as seen from this node: the key of the caller
      node (absent for a root call), the key of the callee node, and the
      measurements, which only the call-info code interprets. */
  datatype CallInfo = CallInfo(parent: Option<MethodKey>, callee: MethodKey, data: nat)

  /** An st_table from method key to call info. st_table enumerates its
      entries in insertion order, so the table is a sequence of entries. */
  datatype Entry = Entry(key: MethodKey, info: CallInfo)
  type CallInfoTable = seq<Entry>

  function KeysOf(t: CallInfoTable): set<MethodKey>
  {
    if |t| == 0 then {} else {t[0].key} + KeysOf(t[1..])
  }

  predicate DistinctKeys(t: CallInfoTable)
  {
    |t| == 0 || (t[0].key !in KeysOf(t[1..]) && DistinctKeys(t[1..]))
  }

  /** st_lookup */
  function Get(t: CallInfoTable, k: MethodKey): (r: Option<CallInfo>)
    ensures r.Some? <==> k in KeysOf(t)
  {
    if |t| == 0 then None
    else if t[0].key == k then Some(t[0].info)
    else Get(t[1..], k)
  }

  /** st_insert: replaces the entry for e.key in place, or appends e. */
  function Put(t: CallInfoTable, e: Entry): (r: CallInfoTable)
    ensures KeysOf(r) == KeysOf(t) + {e.key}
    ensures Get(r, e.key) == Some(e.info)
    ensures forall k :: k != e.key ==> Get(r, k) == Get(t, k)
    ensures DistinctKeys(t) ==> DistinctKeys(r)
    ensures |r| == |t| + (if e.key in KeysOf(t) then 0 else 1)
  {
    if |t| == 0 then [e]
    else if t[0].key == e.key then [e] + t[1..]
    else [t[0]] + Put(t[1..], e)
  }

  /** Which table of a node an edge goes to, and so which endpoint keys it. */
  datatype Side = Callers | Callees

  /** The key an edge is filed under: its caller's key (blank_key when it
      has none) in the callers table, its callee's key in the callees table. */
  function KeyFor(side: Side, ci: CallInfo): MethodKey
  {
    match side
    case Callers => if ci.parent.Some? then ci.parent.value else BlankKey
    case Callees => ci.callee
  }

  function KeysFor(side: Side, es: seq<CallInfo>): set<MethodKey>
  {
    if |es| == 0 then {} else {KeyFor(side, es[0])} + KeysFor(side, es[1..])
  }

  /** Every entry is filed under the key of the right endpoint of its edge. */
  predicate WellKeyed(t: CallInfoTable, side: Side)
  {
    forall i :: 0 <= i < |t| ==> t[i].key == KeyFor(side, t[i].info)
  }

  /** call_info_table_insert for each edge of es, in order. */
  function InsertAll(t: CallInfoTable, side: Side, es: seq<CallInfo>): (r: CallInfoTable)
    ensures KeysOf(r) == KeysOf(t) + KeysFor(side, es)
    ensures DistinctKeys(t) ==> DistinctKeys(r)
    ensures forall k :: k !in KeysFor(side, es) ==> Get(r, k) == Get(t, k)
    ensures forall i :: 0 <= i < |es| && LastWithKey(side, es, i) ==> Get(r, KeyFor(side, es[i])) == Some(es[i])
    decreases |es|
  {
    if |es| == 0 then t
    else
      var r := InsertAll(Put(t, Entry(KeyFor(side, es[0]), es[0])), side, es[1..]);
      LastWinsStep(t, side, es, r);
      r
  }

  /** If inserting the tail of es after its head leaves the tail's last
      edges in place, the head's own edge survives exactly when no later
      edge shares its key. */
  lemma LastWinsStep(t: CallInfoTable, side: Side, es: seq<CallInfo>, r: CallInfoTable)
    requires |es| > 0
    requires forall k :: k !in KeysFor(side, es[1..]) ==>
      Get(r, k) == Get(Put(t, Entry(KeyFor(side, es[0]), es[0])), k)
    requires forall i :: 0 <= i < |es[1..]| && LastWithKey(side, es[1..], i) ==>
      Get(r, KeyFor(side, es[1..][i])) == Some(es[1..][i])
    ensures forall i :: 0 <= i < |es| && LastWithKey(side, es, i) ==> Get(r, KeyFor(side, es[i])) == Some(es[i])
  {
    LastWithKeyShifts(side, es);
    forall i | 0 <= i < |es| && LastWithKey(side, es, i)
      ensures Get(r, KeyFor(side, es[i])) == Some(es[i])
    {
      if i > 0 {
        assert es[i] == es[1..][i - 1];
      }
    }
  }

  /** No edge after es[i] is filed under the same key: st_insert keeps
      the last edge inserted under a key, so es[i] is the one that stays. */
  predicate LastWithKey(side: Side, es: seq<CallInfo>, i: int)
    requires 0 <= i < |es|
  {
    forall j :: i < j < |es| ==> KeyFor(side, es[j]) != KeyFor(side, es[i])
  }

  lemma {:induction false} KeysForMember(side: Side, es: seq<CallInfo>, k: MethodKey)
    ensures k in KeysFor(side, es) <==> exists j :: 0 <= j < |es| && KeyFor(side, es[j]) == k
    decreases |es|
  {
    if |es| > 0 {
      KeysForMember(side, es[1..], k);
      if k in KeysFor(side, es[1..]) {
        var j :| 0 <= j < |es| - 1 && KeyFor(side, es[1..][j]) == k;
        assert KeyFor(side, es[j + 1]) == k;
      }
      if exists j :: 0 <= j < |es| && KeyFor(side, es[j]) == k {
        var j :| 0 <= j < |es| && KeyFor(side, es[j]) == k;
        if j > 0 {
          assert KeyFor(side, es[1..][j - 1]) == k;
        }
      }
    }
  }

  /** The last-with-key facts of es carry over to its tail, and the head is
      last exactly when its key does not recur in the tail. */
  lemma LastWithKeyShifts(side: Side, es: seq<CallInfo>)
    requires |es| > 0
    ensures forall i :: 1 <= i < |es| ==> (LastWithKey(side, es, i) <==> LastWithKey(side, es[1..], i - 1))
    ensures LastWithKey(side, es, 0) ==> KeyFor(side, es[0]) !in KeysFor(side, es[1..])
  {
    forall i | 1 <= i < |es|
      ensures LastWithKey(side, es, i) <==> LastWithKey(side, es[1..], i - 1)
    {
      assert forall j :: i < j < |es| ==> es[j] == es[1..][j - 1];
    }
    if LastWithKey(side, es, 0) {
      KeysForMember(side, es[1..], KeyFor(side, es[0]));
    }
  }

  /** The edges of a table in enumeration order. */
  function Values(t: CallInfoTable): (vs: seq<CallInfo>)
    ensures |vs| == |t|
    ensures forall i :: 0 <= i < |t| ==> vs[i] == t[i].info
  {
    if |t| == 0 then [] else [t[0].info] + Values(t[1..])
  }

  datatype MethodNode = MethodNode(
    key: MethodKey,
    root: bool,
    excluded: bool,
    recursive: int,
    visits: int,
    callers: CallInfoTable,      // parent_call_infos
    callees: CallInfoTable,      // child_call_infos
    wrapper: Option<nat>,        // the Ruby object wrapping the node; Qnil when None
    sourceFile: Option<string>,
    line: int,
    sourceKlass: Value,
    resolved: bool,
    relation: set<RelFlag>
  )

  /** No source file means line 0. */
  predicate SourceInfoConsistent(n: MethodNode)
  {
    n.sourceFile.None? ==> n.line == 0
  }

  /** The state prof_method_create leaves a node in, apart from its key
      and source location. */
  predicate Pristine(n: MethodNode)
  {
    && !n.root && !n.excluded && n.recursive == 0 && n.visits == 0
    && n.callers == [] && n.callees == [] && n.wrapper == None
    && n.sourceKlass == Nil && !n.resolved && n.relation == {}
    && SourceInfoConsistent(n)
  }

  /** prof_method_set_source_info; `file` None is the NULL pointer. */
  function SetSourceInfo(n: MethodNode, file: Option<string>, line: int): (r: MethodNode)
    ensures r.sourceFile == file
    ensures SourceInfoConsistent(r)
    ensures file.Some? ==> r.line == line
    ensures r == n.(sourceFile := r.sourceFile, line := r.line)
  {
    if file.Some? then n.(sourceFile := file, line := line)
    else n.(sourceFile := None, line := 0)
  }

  /** RUBY_EVENT_C_CALL */
  const RUBY_EVENT_C_CALL: nat := 0x0020

  /** prof_method_create. `currentFile` is what rb_sourcefile() returns
      at that moment; it is only consulted for events other than C calls. */
  function Create(h: Host, event: nat, klass: Value, mid: nat, line: int, currentFile: Option<string>): (r: MethodNode)
    ensures r.key == MethodKeyOf(h, klass, mid)
    ensures Pristine(r)
    ensures event == RUBY_EVENT_C_CALL ==> r.sourceFile == None && r.line == 0
    ensures event != RUBY_EVENT_C_CALL ==> r.sourceFile == currentFile
    ensures r.sourceFile.Some? ==> r.line == line
  {
    var blank := MethodNode(MethodKeyOf(h, klass, mid), false, false, 0, 0, [], [], None, None, 0, Nil, false, {});
    SetSourceInfo(blank, if event != RUBY_EVENT_C_CALL then currentFile else None, line)
  }

  /** Whatever the freshly allocated memory held in the fields that
      prof_method_create_excluded never writes. */
  datatype Uninitialised = Uninitialised(root: bool, callers: CallInfoTable, callees: CallInfoTable)

  /** prof_method_create_excluded: an invisible placeholder node. */
  function CreateExcluded(h: Host, klass: Value, mid: nat, garbage: Uninitialised): (r: MethodNode)
    ensures r.key == MethodKeyOf(h, klass, mid)
    ensures r.excluded && r.recursive == 0 && r.visits == 0 && r.wrapper == None
    ensures r.sourceFile == None && r.line == 0
    ensures r.sourceKlass == Nil && !r.resolved && r.relation == {}
  {
    MethodNode(MethodKeyOf(h, klass, mid), garbage.root, true, 0, 0, garbage.callers, garbage.callees,
               None, None, 0, Nil, false, {})
  }

  /** An excluded node agrees with a node created for a C call on every
      field the source writes, and differs only in the excluded flag and
      in the fields it leaves to the allocator. */
  lemma ExcludedIsCreatedPlusFlag(h: Host, klass: Value, mid: nat, garbage: Uninitialised, line: int, file: Option<string>)
    ensures CreateExcluded(h, klass, mid, garbage)
         == Create(h, RUBY_EVENT_C_CALL, klass, mid, line, file).(
              excluded := true, root := garbage.root, callers := garbage.callers, callees := garbage.callees)
  {
  }

  /** The node with the walk from its key's owner stored on it. */
  ghost function Memoised(h: Host, rank: Value -> nat, n: MethodNode): MethodNode
    requires Ranked(h, rank)
  {
    n.(resolved := true, sourceKlass := Walk(h, rank, n.key.klass, {}).klass,
       relation := Walk(h, rank, n.key.klass, {}).relation)
  }

  /** resolve_source_klass: the iterative walk, memoised on the node. */
  method ResolveSourceKlass(h: Host, ghost rank: Value -> nat, n: MethodNode) returns (klass: Value, n': MethodNode)
    requires Ranked(h, rank)
    ensures n.resolved ==> klass == n.sourceKlass && n' == n
    ensures !n.resolved ==> Walk(h, rank, n.key.klass, {}) == Resolved(klass, n'.relation)
    ensures !n.resolved ==> n' == n.(resolved := true, relation := n'.relation, sourceKlass := klass)
    ensures n'.resolved && n'.sourceKlass == klass
  {
    if n.resolved {
      return n.sourceKlass, n;
    }
    klass := n.key.klass;
    var relation: set<RelFlag> := {};
    while true
      invariant Walk(h, rank, klass, relation) == Walk(h, rank, n.key.klass, {})
      decreases rank(klass)
    {
      if Falsy(klass) {
        break;
      }
      var kind := KindOf(h, klass);
      if kind == SingletonClass {
        var attached := h.attached(klass.addr);
        var ka := KindOf(h, attached);
        if IsTClass(ka) || ka == Module {
          relation := relation + {ModuleSingleton};
          klass := attached;
        } else if ka == Object {
          relation := relation + {ObjectSingleton};
          klass := h.superclass(klass.addr);
        } else {
          relation := relation + {ObjectSingleton};
          klass := h.superclass(klass.addr);
        }
      } else if kind == IClass {
        relation := relation + {ModuleIncludee};
        klass := h.underlying(klass.addr);
      } else {
        break;
      }
    }
    n' := n.(resolved := true, relation := relation, sourceKlass := klass);
  }

  /** prof_calltree_name: resolve (memoised), then name from the resolved
      owner and the relation stored on the node. */
  method CalltreeNameOf(h: Host, ghost rank: Value -> nat, n: MethodNode) returns (name: string, n': MethodNode)
    requires Ranked(h, rank)
    ensures !n.resolved ==>
      name == CalltreeName(h, Walk(h, rank, n.key.klass, {}).klass, Walk(h, rank, n.key.klass, {}).relation, n.key.mid)
    ensures !n.resolved ==> n' == Memoised(h, rank, n)
    ensures n.resolved ==> n' == n && name == CalltreeName(h, n.sourceKlass, n.relation, n.key.mid)
    ensures n'.resolved && n'.key == n.key
  {
    var klass;
    klass, n' := ResolveSourceKlass(h, rank, n);
    name := CalltreeName(h, klass, n'.relation, n'.key.mid);
  }

  /** Two resolutions of one node give the same owner, and the second
      leaves the node as the first left it. */
  method ResolveTwice(h: Host, ghost rank: Value -> nat, n: MethodNode) returns (first: Value, second: Value, n'': MethodNode)
    requires Ranked(h, rank)
    ensures first == second
    ensures n''.resolved && n''.sourceKlass == first
    ensures !n.resolved ==> n''.relation == Walk(h, rank, n.key.klass, {}).relation
  {
    var n';
    first, n' := ResolveSourceKlass(h, rank, n);
    second, n'' := ResolveSourceKlass(h, rank, n');
  }

  /** A method observed on an inclusion proxy of module M is filed under
      M by method_key, so its node's walk starts at M and stops there at
      once: the node resolves to M and ModuleIncludee is never set. */
  method ResolveIncludedMethod(h: Host, ghost rank: Value -> nat, event: nat, proxy: nat, mid: nat,
                               line: int, currentFile: Option<string>)
    returns (klass: Value, n: MethodNode)
    requires Ranked(h, rank)
    requires h.kind(proxy) == IClass
    requires KindOf(h, h.underlying(proxy)) == Module
    ensures klass == h.underlying(proxy)
    ensures n.relation == {} && ModuleIncludee !in n.relation
    ensures n.resolved && n.sourceKlass == h.underlying(proxy)
  {
    var created := Create(h, event, Ref(proxy), mid, line, currentFile);
    assert created.key.klass == h.underlying(proxy);
    assert Terminal(h, h.underlying(proxy));
    klass, n := ResolveSourceKlass(h, rank, created);
  }
}
