/**
 * Source-owner resolution: the walk from the owner a method was observed
 * on to the class or module that defines it in source, collapsing
 * singleton classes and inclusion proxies and recording which of those
 * were crossed.
 */
module SourceOwner {
  import opened RubyHost

  /** The relation flags kModuleIncludee, kModuleSingleton and
      kObjectSingleton, kept as a set rather than as bits. */
  datatype RelFlag = ModuleIncludee | ModuleSingleton | ObjectSingleton

  /** One turn of the resolution loop: stop here, or set a flag and move. */
  datatype Step = Stop | Move(flag: RelFlag, next: Value)

  function StepOf(h: Host, v: Value): Step
  {
    match v
    case Ref(a) =>
      (match h.kind(a)
       case SingletonClass =>
         var attached := h.attached(a);
         var ka := KindOf(h, attached);
         if IsTClass(ka) || ka == Module then Move(ModuleSingleton, attached)
         // attached to a T_OBJECT, or to an instance of a builtin type:
         // the two branches of the loop do the same thing
         else Move(ObjectSingleton, h.superclass(a))
       case IClass => Move(ModuleIncludee, h.underlying(a))
       case _ => Stop)
    case _ => Stop
  }

  /** The loop stops on this value. */
  predicate Terminal(h: Host, v: Value)
  {
    StepOf(h, v).Stop?
  }

  /** A rank on values that every step of the walk strictly decreases:
      the host's singleton, superclass and inclusion links are well
      founded. The source loops forever on a host where they are not. */
  ghost predicate Ranked(h: Host, rank: Value -> nat)
  {
    forall v :: StepOf(h, v).Move? ==> rank(StepOf(h, v).next) < rank(v)
  }

  datatype Resolved = Resolved(klass: Value, relation: set<RelFlag>)

  /** The loop of resolve_source_klass, from `v` with flags `rel` already set. */
  function Walk(h: Host, ghost rank: Value -> nat, v: Value, rel: set<RelFlag>): (r: Resolved)
    requires Ranked(h, rank)
    ensures rel <= r.relation
    ensures Terminal(h, r.klass)
    ensures KindOf(h, r.klass) != SingletonClass && KindOf(h, r.klass) != IClass
    decreases rank(v)
  {
    match StepOf(h, v)
    case Stop => Resolved(v, rel)
    case Move(flag, next) => Walk(h, rank, next, rel + {flag})
  }

  /** The flags already set only ride along: the walk's own flags and end
      point do not depend on them. */
  lemma {:induction false} WalkAccumulates(h: Host, rank: Value -> nat, v: Value, rel: set<RelFlag>)
    requires Ranked(h, rank)
    ensures Walk(h, rank, v, rel) == Resolved(Walk(h, rank, v, {}).klass, rel + Walk(h, rank, v, {}).relation)
    decreases rank(v)
  {
    match StepOf(h, v)
    case Stop =>
    case Move(flag, next) =>
      WalkAccumulates(h, rank, next, rel + {flag});
      WalkAccumulates(h, rank, next, {flag});
      var tail := Walk(h, rank, next, {});
      var none: set<RelFlag> := {};
      assert none + {flag} == {flag};
      assert Walk(h, rank, v, {}) == Walk(h, rank, next, {flag});
      assert Walk(h, rank, v, rel) == Resolved(tail.klass, rel + {flag} + tail.relation);
      assert rel + {flag} + tail.relation == rel + ({flag} + tail.relation);
  }

  /** Resolving the resolved owner again changes nothing. */
  lemma WalkIdempotent(h: Host, rank: Value -> nat, v: Value, rel: set<RelFlag>, rel': set<RelFlag>)
    requires Ranked(h, rank)
    ensures Walk(h, rank, Walk(h, rank, v, rel).klass, rel') == Resolved(Walk(h, rank, v, rel).klass, rel')
  {
  }

  /** The walk started on the observed owner itself: from an inclusion
      proxy of module M it reaches M with only ModuleIncludee set,
      whichever class included M. A node's walk never starts here, since
      method_key has already replaced the proxy by M (see
      MethodInfo.ResolveIncludedMethod); this is the result the loop's
      inclusion branch is written to produce. */
  lemma IncludedModuleResolvesToModule(h: Host, rank: Value -> nat, proxy: nat)
    requires Ranked(h, rank)
    requires h.kind(proxy) == IClass
    requires KindOf(h, h.underlying(proxy)) == Module
    ensures Walk(h, rank, Ref(proxy), {}) == Resolved(h.underlying(proxy), {ModuleIncludee})
  {
  }

  /** A class method of an ordinary class C resolves to C with
      ModuleSingleton; a singleton method of an object resolves to the
      object's class with ObjectSingleton. */
  lemma SingletonMethodsResolveToTheirClass(h: Host, rank: Value -> nat, s: nat)
    requires Ranked(h, rank)
    requires h.kind(s) == SingletonClass
    ensures KindOf(h, h.attached(s)) == Class ==>
      Walk(h, rank, Ref(s), {}) == Resolved(h.attached(s), {ModuleSingleton})
    ensures KindOf(h, h.attached(s)) == Object && KindOf(h, h.superclass(s)) == Class ==>
      Walk(h, rank, Ref(s), {}) == Resolved(h.superclass(s), {ObjectSingleton})
  {
  }
}
