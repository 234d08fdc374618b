/**
 * Method keys: the (klass, mid) identity under which the profiler
 * aggregates every call of one method.
 */
module MethodKeys {
  import opened RubyHost

  /** prof_method_key_t without its hash field; mid 0 means "no method". */
  datatype MethodKey = MethodKey(klass: Value, mid: nat)

  /** An owner a key can hold after normalisation: neither the C zero nor
      an inclusion proxy. */
  predicate NormalKlass(h: Host, v: Value)
  {
    v != Zero && KindOf(h, v) != IClass
  }

  /** method_key: the nil/0 owner becomes Qnil, an inclusion proxy becomes
      the module it stands for, any other owner is kept; mid is copied. */
  function MethodKeyOf(h: Host, klass: Value, mid: nat): (k: MethodKey)
    ensures k.mid == mid
    ensures KindOf(h, klass) != IClass ==> NormalKlass(h, k.klass)
    ensures KindOf(h, klass) != IClass ==> (k.klass == Nil <==> Falsy(klass))
    ensures NormalKlass(h, klass) && klass != Nil ==> k.klass == klass
  {
    if Falsy(klass) then MethodKey(Nil, mid)
    else if KindOf(h, klass) == IClass then MethodKey(h.underlying(klass.addr), mid)
    else MethodKey(klass, mid)
  }

  /** A key whose owner is already normal is a fixed point of MethodKeyOf. */
  lemma NormalKeyIsFixedPoint(h: Host, key: MethodKey)
    requires NormalKlass(h, key.klass)
    ensures MethodKeyOf(h, key.klass, key.mid) == key
  {
  }

  /** Normalising twice is normalising once, provided the module behind an
      inclusion proxy is not itself a proxy (nor the C zero). */
  lemma MethodKeyIdempotent(h: Host, klass: Value, mid: nat)
    requires KindOf(h, klass) == IClass ==> NormalKlass(h, h.underlying(klass.addr))
    ensures NormalKlass(h, MethodKeyOf(h, klass, mid).klass)
    ensures MethodKeyOf(h, MethodKeyOf(h, klass, mid).klass, mid) == MethodKeyOf(h, klass, mid)
  {
  }

  /** Two proxies standing for the same module give keys that are equal
      under method_table_cmp, owned by that module. The stored hash still
      comes from the raw proxy, so the source's st_table can file them
      apart; the model's map does not. */
  lemma ProxiesOfOneModuleShareAKey(h: Host, p1: nat, p2: nat, mid: nat)
    requires h.kind(p1) == IClass && h.kind(p2) == IClass
    requires h.underlying(p1) == h.underlying(p2)
    ensures MethodKeyOf(h, Ref(p1), mid) == MethodKeyOf(h, Ref(p2), mid)
    ensures MethodKeyOf(h, Ref(p1), mid).klass == h.underlying(p1)
  {
  }

  /** method_table_cmp: 0 when the keys agree on klass and on mid. */
  function TableCmp(k1: MethodKey, k2: MethodKey): (r: int)
    ensures r == 0 || r == 1
    ensures r == 0 <==> k1 == k2
  {
    if k1.klass != k2.klass || k1.mid != k2.mid then 1 else 0
  }

  /** blank_key, set up once as method_key(Qnil, 0): the parent key of an
      edge that has no parent. */
  const BlankKey: MethodKey := MethodKey(Nil, 0)

  lemma BlankKeyIsKeyOfNothing(h: Host)
    ensures MethodKeyOf(h, Nil, 0) == BlankKey
    ensures MethodKeyOf(h, Zero, 0) == BlankKey
  {
  }
}
