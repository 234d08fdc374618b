/**
 * The Ruby object model as the profiler sees it. Every reflection primitive
 * the profiler calls into (rb_class_name, rb_any_to_s, rb_id2str, the
 * "__attached__" instance variable, rb_class_superclass and the
 * RBASIC(klass)->klass field of an inclusion proxy) is an uninterpreted
 * function carried by a Host value.
 */
module RubyHost {

  /** A Ruby VALUE as far as the profiler tells them apart: the C zero
      (which is also Qfalse), Qnil, or a reference to a heap object. */
  datatype Value = Zero | Nil | Ref(addr: nat)

  /** BUILTIN_TYPE of a heap object, with T_CLASS split on FL_SINGLETON.
      IClass is T_ICLASS, the proxy a module inclusion inserts into a
      class's ancestry. */
  datatype Kind = Module | Class | SingletonClass | IClass | Object | Other

  datatype Host = Host(
    kind: nat -> Kind,          // BUILTIN_TYPE, FL_SINGLETON
    attached: nat -> Value,     // rb_iv_get(klass, "__attached__")
    superclass: nat -> Value,   // rb_class_superclass(klass)
    underlying: nat -> Value,   // RBASIC(klass)->klass
    className: Value -> string, // rb_class_name
    anyToS: Value -> string,    // rb_any_to_s
    id2str: nat -> string       // rb_id2str
  )

  /** The kind of any value. The special constants 0 and Qnil are neither
      classes, modules, proxies nor objects, so they land on Other. */
  function KindOf(h: Host, v: Value): Kind
  {
    match v
    case Ref(a) => h.kind(a)
    case _ => Other
  }

  /** `v == 0 || v == Qnil`; these are also exactly the values on which
      RTEST is false, since Qfalse is 0. */
  predicate Falsy(v: Value)
  {
    v == Zero || v == Nil
  }

  /** BUILTIN_TYPE(v) == T_CLASS, which holds for singleton classes too. */
  predicate IsTClass(k: Kind)
  {
    k == Class || k == SingletonClass
  }
}
