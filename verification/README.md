# ruby-prof MethodInfo: method identity and naming, in Dafny

This project models the core of ruby-prof's `MethodInfo` (`ext/ruby_prof/rp_method.c`). The profiler merges every call of one method into one node, keyed by the method's owner and its method id. The core covers:

- how an owner is normalised into a key;
- how the method table fetches or creates nodes;
- the defaults a new node gets;
- the walk from the owner in a node's key to the class or module that defines the method in source (its *source owner*);
- the four display names;
- the record a node is marshalled to;
- the wrapper objects that report "already freed" once their profile is gone.

Ruby's object model is a `Host` value in the model: a record of uninterpreted functions.

- `kind` gives the builtin type of a heap object. T_CLASS is split on FL_SINGLETON into Class and SingletonClass, and T_ICLASS (an inclusion proxy) is IClass.
- The remaining functions are `attached` (the `__attached__` ivar), `superclass` (`rb_class_superclass`), `underlying` (`RBASIC(klass)->klass`), `className` (`rb_class_name`), `anyToS` (`rb_any_to_s`) and `id2str` (`rb_id2str`).
- A value is `Zero` (C's 0, which is also Qfalse), `Nil` (Qnil), or a heap reference.

Modules, in dependency order:

- `RubyHost`: values, kinds and the host.
- `MethodKeys`: `method_key`, `method_table_cmp` and `blank_key`.
- `SourceOwner`: one step of the resolution loop (`StepOf`) and its reference walk (`Walk`). Walk terminates because it takes a ghost rank that every step decreases (`Ranked`) as a precondition.
- `Names`: `klass_name`, `figure_singleton_name`, `method_name`, `full_name`, `source_klass_name` and `calltree_name`. Ruby's `String#split("::")` is modelled faithfully, including the trailing empty fields it drops. A lemma shows that split-then-join is a replace-all whenever the name does not end in `::`.
- `MethodInfo`: the node, its two call-info tables, creation, and the iterative, memoised `resolve_source_klass`. The tables are insertion-ordered association lists because `st_table` enumerates in insertion order and dump emits that order.
- `MethodTables`: the method table as a `map`, insert, lookup, and create-or-fetch.
- `Serialization`: `_dump_data` and `_load_data`.
- `Wrapping`: wrappers, the free hook, `method_table_free`'s effect on wrappers, and the accessors. A wrapper and the method table point at one `prof_method_t`; the model keeps a node value in each, and the predicate `Coupled` identifies them by key: a live wrapper whose node has a key the table holds holds the table's node. The table-level wrap, release and resolving accessors keep it.

Points where the model follows the code rather than an idealised design:

- `BUILTIN_TYPE` does not look at FL_SINGLETON. So a singleton class attached to another singleton class counts as "attached to a T_CLASS", both in naming (`<Class::…>`) and in resolution (ModuleSingleton). `IsTClass` captures this.
- `klass_name` returns `"[unknown]"` for every value that is neither a module nor a class. This includes inclusion proxies and plain objects. It never returns a generic string conversion.
- A singleton attached to anything other than a class, module or T_OBJECT is named with `rb_any_to_s`, yet resolution still moves on to its superclass with ObjectSingleton set (`Names.SingletonNameMatchesResolutionStep`).
- `prof_method_create_excluded` never writes `root` or either call-info table. The model takes their contents as a parameter (`Uninitialised`) standing for whatever the allocation held. Its contract promises nothing about them.
- `prof_method_create` declares `source_file` twice in one scope (lines 237 and 253), which C does not accept. The model reads the second declaration as the assignment it evidently means.
- The key hash at line 197 is computed from the raw owner, before normalisation. So an inclusion-proxy key and its module's key compare equal but can hash differently. The model compares keys by equality only and claims nothing about the hash (see `MethodTables.GetOrCreate` under Left out).
- `resolve_source_klass` starts from the key's owner (line 386), which `method_key` has already turned from an inclusion proxy into its module. So its inclusion branch never fires for a node's own key, and ModuleIncludee is not set for a method seen through an include (see Findings).
- `prof_method_dump` and `prof_method_load` read `DATA_PTR` without the freed check that every other accessor performs. The model's `Dump` and `Load` take the node itself.

## Model

| member | source | states |
|---|---|---|
| MethodKeys.MethodKeyOf | ext/ruby_prof/rp_method.c:176-196 | mid is copied; for a non-proxy owner the key's owner is Qnil exactly when the owner was nil or 0, and a normal owner other than Qnil is kept as it is |
| MethodKeys.MethodKeyIdempotent | ext/ruby_prof/rp_method.c:176-196 | if the module behind a proxy is itself normal, normalising twice gives the same (klass, mid) as normalising once, and the result is normal |
| MethodKeys.NormalKeyIsFixedPoint | ext/ruby_prof/rp_method.c:176-196 | a key whose owner is neither 0 nor a proxy is left unchanged by method_key |
| MethodKeys.ProxiesOfOneModuleShareAKey | ext/ruby_prof/rp_method.c:179-191 | two inclusion proxies of the same module give keys that method_table_cmp equates, owned by that module; the stored hash still differs (see Left out) |
| MethodKeys.TableCmp | ext/ruby_prof/rp_method.c:474-478 | the comparison yields 0 exactly when both klass and mid agree, and 1 otherwise |
| MethodKeys.BlankKeyIsKeyOfNothing | ext/ruby_prof/rp_method.c:756-758 | blank_key is the key of (Qnil, 0), and also of (0, 0) |
| SourceOwner.Walk | ext/ruby_prof/rp_method.c:386-439 | the walk only adds flags; it ends on a value where the loop stops, never on a singleton class or an inclusion proxy |
| SourceOwner.WalkAccumulates | ext/ruby_prof/rp_method.c:386-439 | the flags set so far only ride along: the end point and the flags the walk itself adds do not depend on them |
| SourceOwner.WalkIdempotent | ext/ruby_prof/rp_method.c:434-438 | resolving a resolved owner again returns it unchanged and adds no flag |
| SourceOwner.IncludedModuleResolvesToModule | ext/ruby_prof/rp_method.c:425-433 | the walk started on the observed owner itself: from an inclusion proxy of module M it reaches M with exactly {ModuleIncludee}; no node's walk starts on a proxy (see Findings) |
| SourceOwner.SingletonMethodsResolveToTheirClass | ext/ruby_prof/rp_method.c:395-424 | a singleton attached to a class resolves to that class with {ModuleSingleton}; one attached to an object whose superclass is a class resolves to that superclass with {ObjectSingleton} |
| Names.KlassNameCases | ext/ruby_prof/rp_method.c:69-97 | "[global]" for nil/0, rb_class_name for a module or an ordinary class, "[unknown]" for anything that is neither |
| Names.SingletonNameMatchesResolutionStep | ext/ruby_prof/rp_method.c:16-67 | a singleton attached to a class, module or object is named "<Class::X>", "<Module::X>" or "<Object::X>", where X names the value the first resolution step moves to, and the label is Object exactly when that step sets ObjectSingleton; otherwise the name is rb_any_to_s of the singleton while resolution moves to its superclass |
| Names.FullNameSplitsAtFirstHash | ext/ruby_prof/rp_method.c:112-126 | if the class name has no '#', cutting the full name at its first '#' gives back the class name and the method name |
| Names.BlankKeyFullName | ext/ruby_prof/rp_method.c:99-126 | the key (nil, 0) is named "[global]#[no method]" |
| Names.KlassName | ext/ruby_prof/rp_method.c:69-97 | klass_name; its cases are stated by Names.KlassNameCases |
| Names.FigureSingletonName | ext/ruby_prof/rp_method.c:16-67 | figure_singleton_name; its four cases and their agreement with resolution are stated by Names.SingletonNameMatchesResolutionStep |
| Names.MethodName | ext/ruby_prof/rp_method.c:99-110 | method_name; "[no method]" for mid 0 is stated by Names.BlankKeyFullName, and the name's place in full_name by Names.FullNameSplitsAtFirstHash |
| Names.FullName | ext/ruby_prof/rp_method.c:112-126 | full_name; stated by Names.FullNameSplitsAtFirstHash and Names.BlankKeyFullName |
| Names.SourceKlassName | ext/ruby_prof/rp_method.c:128-145 | source_klass_name; "[global]" for a falsy owner is stated by Names.GlobalCalltreeName |
| Names.CalltreeName | ext/ruby_prof/rp_method.c:147-174 | calltree_name; stated by Names.CalltreeNameShape, Names.GlobalCalltreeName and Names.CalltreeNameExample |
| SourceOwner.StepOf | ext/ruby_prof/rp_method.c:389-439 | one turn of the loop; its steps are stated by SourceOwner.IncludedModuleResolvesToModule, SourceOwner.SingletonMethodsResolveToTheirClass and Names.SingletonNameMatchesResolutionStep |
| MethodInfo.Get | ext/ruby_prof/rp_method.c:742 | the observer of a call-info table through which MethodInfo.Put's contract states the effect of the st_insert at line 742 (rp_method.c itself never looks a call-info table up): finds an edge exactly when its key is present |
| Wrapping.Read | ext/ruby_prof/rp_method.c:545-676 | the value each accessor reads from a live node, with method_id answering the Symbol of the method id (ASymbol); stated by Wrapping.Ask |
| Names.DropTrailingEmpty | ext/ruby_prof/rp_method.c:157 | split keeps a prefix of the fields; it drops only trailing empty fields and leaves a non-empty last field |
| Names.JoinOfSplitIsReplaceSep | ext/ruby_prof/rp_method.c:157-159 | joining every "::" field with "/" is the left-to-right replacement of "::" by "/" |
| Names.SplitJoinIsReplaceSep | ext/ruby_prof/rp_method.c:157-159 | for a name that does not end in "::", Ruby's split followed by join with "/" replaces every "::" with "/" |
| Names.ReplaceSepLeavesNoSep | ext/ruby_prof/rp_method.c:157-159 | the rendered path contains no "::" |
| Names.UnslashInvertsReplaceSep | ext/ruby_prof/rp_method.c:157-159 | for a name with no '/', turning each "/" back into "::" recovers the name |
| Names.Markers | ext/ruby_prof/rp_method.c:163-169 | '*' appears exactly when ObjectSingleton is set and '^' exactly when ModuleSingleton is set; with both set the markers are "*^"; the length is the number of those two flags set, so each mark appears at most once; ModuleIncludee leaves no mark |
| Names.CalltreeNameShape | ext/ruby_prof/rp_method.c:147-174 | the calltree name is the source owner's name with "::" rendered as "/", then "::", the markers and the method name |
| Names.GlobalCalltreeName | ext/ruby_prof/rp_method.c:128-174 | with no source owner the calltree name starts with "[global]::" |
| Names.CalltreeNameExample | ext/ruby_prof/rp_method.c:147-174 | owner A::B with ModuleSingleton and method run gives "A/B::^run" |
| MethodInfo.Put | ext/ruby_prof/rp_method.c:742 | st_insert into a call-info table: afterwards the key is present with the new edge, every other key reads as before, keys stay distinct, and the table grows only for a new key |
| MethodInfo.InsertAll | ext/ruby_prof/rp_method.c:736-752 | inserting a list of edges adds exactly their keys and keeps keys distinct; under each key the last edge of the list filed under it is the one stored (later inserts win); keys outside the list read as before |
| MethodInfo.Values | ext/ruby_prof/rp_method.c:545-565 | the edge list holds each entry's edge, in table order |
| MethodInfo.SetSourceInfo | ext/ruby_prof/rp_method.c:214-231 | the file is stored as given; with no file the line is 0, otherwise the given line; nothing else changes |
| MethodInfo.Create | ext/ruby_prof/rp_method.c:233-261 | the key is method_key of the owner; root false, excluded and recursive 0, visits 0, empty tables, no wrapper, unresolved with no relation; a C call has no file and line 0 |
| MethodInfo.CreateExcluded | ext/ruby_prof/rp_method.c:263-286 | the excluded flag is set, recursive and visits are 0, and there is no file, line 0, no wrapper, unresolved; root and the tables are left indeterminate |
| MethodInfo.ExcludedIsCreatedPlusFlag | ext/ruby_prof/rp_method.c:263-286 | an excluded node equals a C-call node with the excluded flag set, except for the root flag and the tables, which it leaves uninitialised |
| MethodInfo.ResolveSourceKlass | ext/ruby_prof/rp_method.c:370-446 | an unresolved node gets the owner and flags of the reference walk stored, and only those fields change; a resolved node returns its stored owner unchanged |
| MethodInfo.CalltreeNameOf | ext/ruby_prof/rp_method.c:694-700 | an unresolved node is named from the walk's owner and flags and is left resolved with exactly those stored, nothing else changed; a resolved node is named from its stored owner and flags and left as it is |
| MethodInfo.ResolveTwice | ext/ruby_prof/rp_method.c:382-445 | two resolutions return the same owner; after them the stored relation is the walk's |
| MethodInfo.ResolveIncludedMethod | ext/ruby_prof/rp_method.c:386-433 | a node created for a method observed on an inclusion proxy of module M resolves to M with no relation flag: ModuleIncludee is not set |
| MethodTables.Insert | ext/ruby_prof/rp_method.c:511-515 | the key maps to the new node; every other key keeps its node; the answer says whether the key was present |
| MethodTables.Lookup | ext/ruby_prof/rp_method.c:517-529 | a miss gives NULL (None); a hit gives the stored node |
| MethodTables.LookupAfterInsert | ext/ruby_prof/rp_method.c:474-529 | in the model's map, after inserting under k, every key that method_table_cmp equates with k finds the inserted node |
| MethodTables.LookupOtherKeysUnchanged | ext/ruby_prof/rp_method.c:474-529 | inserting under k leaves the lookup of every other key as it was |
| MethodTables.LookupNeverInserted | ext/ruby_prof/rp_method.c:517-529 | a lookup in a table nothing was inserted into finds NULL for every key |
| MethodTables.GetOrCreate | ext/ruby_prof/rp_method.c:511-529 | the normalised key then finds the returned node; an existing node is returned with the table unchanged; otherwise a freshly created node is added and no other entry changes; on a miss the node is exactly the one prof_method_create builds, so a C method gets no file and line 0 |
| MethodTables.GetOrCreateTwice | ext/ruby_prof/rp_method.c:511-529 | a second sighting of the same method returns the same node and leaves the table as it is |
| MethodTables.DistinctKeysDistinctNodes | ext/ruby_prof/rp_method.c:474-478 | owners that normalise to different keys get different nodes, and the first node is still found |
| Serialization.Dump | ext/ruby_prof/rp_method.c:702-719 | the record carries the key's owner and mid, recursive, the source file (nil when the node has none) and line, and the edges of each table, one per entry, in table order |
| Serialization.Load | ext/ruby_prof/rp_method.c:721-754 | the key is method_key of the stored owner; file, line (0 without a file) and recursive are restored; caller edges are keyed by their parent's key (blank_key if none), callee edges by their callee's key; under each key the last edge of the record filed under it is stored, and keys the record does not mention read as before; the other fields are untouched |
| Serialization.InsertAllValues | ext/ruby_prof/rp_method.c:736-752 | re-inserting the edges of a well-keyed table with distinct keys rebuilds that table entry for entry |
| Serialization.LoadDumpRoundTrip | ext/ruby_prof/rp_method.c:702-754 | loading a node's dump into a fresh node restores the key, recursive, source file and line (absent stays absent with line 0), and both tables, in order |
| Serialization.LoadKeySets | ext/ruby_prof/rp_method.c:736-752 | loading into a fresh node gives caller keys equal to the edges' parent keys (blank_key for none) and callee keys equal to the edges' callee keys, with no duplicates |
| Wrapping.GetMethod | ext/ruby_prof/rp_method.c:458-471 | raises "already freed", with the source's message, exactly when the data pointer is NULL, and otherwise returns the wrapped node |
| Wrapping.Wrap | ext/ruby_prof/rp_method.c:448-456 | an existing wrapper is returned with nothing changed; otherwise a new wrapper holding the node is recorded on the node |
| Wrapping.GcFree | ext/ruby_prof/rp_method.c:311-323 | the node's wrapper, if any, gets a NULL data pointer; no other wrapper changes; the node forgets its wrapper |
| Wrapping.Allocate | ext/ruby_prof/rp_method.c:362-368 | allocation gives a pristine node keyed by blank_key, readable through its new wrapper |
| Wrapping.WrapThenGet | ext/ruby_prof/rp_method.c:448-471 | a freshly made wrapper reads back its node |
| Wrapping.WrapIsIdempotent | ext/ruby_prof/rp_method.c:448-456 | wrapping twice returns the first wrapper and allocates nothing |
| Wrapping.FreedWrapperRaises | ext/ruby_prof/rp_method.c:311-323 | after the free hook every access through the old wrapper raises "already freed", and the next wrap makes a new wrapper |
| Wrapping.WrapEntry | ext/ruby_prof/rp_method.c:448-456 | wrapping a node of the table records the wrapper on the table's node and changes no other entry; the wrapper reads that node; coupling is kept |
| Wrapping.ReleaseEntry | ext/ruby_prof/rp_method.c:497-502 | one turn of method_table_free_iterator (prof_method_free on one node of the table): releasing one node of the table drops it from the table, makes its wrapper raise "already freed", and keeps coupling |
| Wrapping.WrapFreeThenGet | ext/ruby_prof/rp_method.c:448-509 | when every wrapper recorded on a table node is a live object, a wrapper handed out for a table node raises "already freed" once the table is freed |
| Wrapping.FreeTable | ext/ruby_prof/rp_method.c:497-509 | freeing a method table clears the data pointer of exactly the wrappers of its nodes; on a coupled heap every live wrapper of a node the table holds is cleared and what is left stays coupled |
| Wrapping.FreeTableThenGet | ext/ruby_prof/rp_method.c:325-338 | once its table is freed, reading a node through its wrapper raises "already freed" |
| Wrapping.Ask | ext/ruby_prof/rp_method.c:545-676 | every reading accessor, callers and callees included, raises exactly when the wrapper is freed and otherwise reads the live node; a node without a source file reports "ruby_runtime"; callers and callees list the table's edges in table order |
| Wrapping.AskSourceKlass | ext/ruby_prof/rp_method.c:682-687 | raises on a freed wrapper and changes nothing; a resolved node gives its stored owner and nothing changes; otherwise it gives the walk's owner, and the wrapper's node (and the table's, when shared) becomes the node with the walk's owner and flags stored; every other wrapper is unchanged and coupling is kept |
| Wrapping.AskCalltreeName | ext/ruby_prof/rp_method.c:694-700 | raises on a freed wrapper and changes nothing; a resolved node is named from its stored owner and flags with nothing changed; otherwise it is named from the walk and updated as by AskSourceKlass; every other wrapper is unchanged and coupling is kept |

## Findings

| source | as written | input that shows it | evidently intended | confidence | as-written member | corrected member |
|---|---|---|---|---|---|---|
| ext/ruby_prof/rp_method.c:386 | the walk starts from the key's owner, which method_key (lines 187-190) has already turned from an inclusion proxy into its module, so the inclusion branch (lines 425-433) never sets ModuleIncludee for a node | a method observed on an inclusion proxy of module M: the node resolves to M with no flag | the walk from the observed proxy, which reaches M with ModuleIncludee set | medium, not executed | MethodInfo.ResolveIncludedMethod | SourceOwner.IncludedModuleResolvesToModule |

The node-level operations keep the code's behaviour, because it decides the names the profiler prints. The corrected walk is `SourceOwner.Walk` started on the observed owner, which a node does not keep.

## Left out

- Host primitives: `rb_class_name`, `rb_any_to_s`, `rb_id2str`, `rb_sourcefile`, the `__attached__` lookup and `rb_class_superclass` are uninterpreted functions of the host or parameters (`currentFile` stands for `rb_sourcefile()`).
- The key hash `(klass << 4) + (mid << 2)` (line 197) and `method_table_hash`: they are pointer-width arithmetic on raw VALUEs. Keys are compared by equality only, and hash/equality consistency is not claimed, because the hash uses the raw owner.
- MethodTables.GetOrCreate: the model's map files a method under its normalised key only. `st_lookup` compares the stored hash before it calls `method_table_cmp`, and that hash comes from the raw owner. So a method seen through two proxies of one module, or through a proxy and through the module itself, can get two nodes in the source but gets one in the model. The same holds for MethodTables.LookupAfterInsert and MethodKeys.ProxiesOfOneModuleShareAKey, which speak of the model's map.
- Garbage-collector integration: `prof_method_mark`, `rb_gc_mark` and the mark/free hooks passed to `Data_Wrap_Struct`. Only the NULL data pointer left by `prof_method_ruby_gc_free` is modelled.
- Memory management: `ALLOC`, `xfree`, the `strlen`/`MEMCPY` copy of the file name, and the release of tables and keys in `prof_method_free`. Strings are values.
- Class registration in `rp_init_method_info` (lines 760-783), apart from the `blank_key` set-up. The Ruby arrays built by `callers`/`callees` are modelled as sequences.
- Call-info internals: `prof_call_info_*` and `call_info_table_insert` are not part of this model. An edge is an opaque record with a parent key, a callee key and a payload. Its insertion is taken to be `st_insert`.
- `st_table` internals are replaced by a map for the method table and an insertion-ordered list for call-info tables. `method_table_create` is the empty map `map[]`, so it has no member of its own.
- Per-thread duplication of MethodInfo objects: nothing in this file is concurrent.
- Wrapping.FreeTable: its clause about live wrappers, and `Coupled` itself, identify a wrapper's node with the table's node by key. So they assume that no wrapped node outside the table shares a key with a table node. A node rebuilt by `Marshal.load` (`prof_method_allocate`, then `_load_data`) while a live profile holds the same method breaks that, and so would another thread's table. `FreeTable`'s main clause and `WrapFreeThenGet` do not rest on `Coupled`: they need only that the wrappers recorded on table nodes are live objects.
- Wrapping.Wrap, Wrapping.GcFree, Wrapping.Allocate and Wrapping.Ask act on a node value and the store alone. The sharing between a wrapper and the method table is stated only by the table-level members (`WrapEntry`, `ReleaseEntry`, `FreeTable`, `AskSourceKlass`, `AskCalltreeName`) under `Coupled`.
- Names.MethodName: `RTEST(mid)` is also false for an id whose bits equal Qnil. The model treats only mid 0 as "no method", because real ids never take that value.
- Serialization.Load: the record is typed. The errors the source raises (or the undefined reads it makes) on a record with a missing or mistyped field are not modelled. Nor is `StringValueCStr` (line 732), which raises ArgumentError on a source file with an embedded NUL, or the `strlen` copy in `prof_method_set_source_info`, which would cut the file name at a NUL: the model stores any string whole. Nor are the integer conversions: `FIX2INT` raises RangeError for a `line` (line 731) or `recursive` (line 734) outside C `int`, and `NUM2LL` (line 727) raises for a `mid` beyond `long long`, while a negative one wraps into a large `ID`; the model stores `line` and `recursive` as unbounded integers and `mid` as a natural number.
- SourceOwner.Walk: the walk is modelled only on hosts whose singleton, superclass and inclusion links are well founded (`Ranked`). On a cyclic host the source loops forever.
- Resolution cost: the source runs the walk at most once per node. The model shows this through the `resolved` flag only; it does not count calls into the host.
