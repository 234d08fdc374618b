/**
 * Display names: klass_name, figure_singleton_name, method_name,
 * full_name, source_klass_name and calltree_name.
 */
module Names {
  import opened RubyHost
  import opened MethodKeys
  import opened SourceOwner

  const GlobalName := "[global]"
  const UnknownName := "[unknown]"
  const NoMethodName := "[no method]"

  /** The name of singleton class `s`, built from what it is attached to. */
  function FigureSingletonName(h: Host, s: nat): string
  {
    var attached := h.attached(s);
    var ka := KindOf(h, attached);
    if IsTClass(ka) then "<Class::" + h.className(attached) + ">"
    else if ka == Module then "<Module::" + h.className(attached) + ">"
    // the superclass, not the singleton itself, so that an inclusion
    // proxy is never named
    else if ka == Object then "<Object::" + h.className(h.superclass(s)) + ">"
    else h.anyToS(Ref(s))
  }

  function KlassName(h: Host, klass: Value): string
  {
    if Falsy(klass) then GlobalName
    else
      match KindOf(h, klass)
      case Module => h.className(klass)
      case SingletonClass => FigureSingletonName(h, klass.addr)
      case Class => h.className(klass)
      case _ => UnknownName
  }

  function MethodName(h: Host, mid: nat): string
  {
    if mid != 0 then h.id2str(mid) else NoMethodName
  }

  /** "Klass#method", on the raw (unresolved) owner of the key. */
  function FullName(h: Host, key: MethodKey): string
  {
    KlassName(h, key.klass) + "#" + MethodName(h, key.mid)
  }

  function SourceKlassName(h: Host, sourceKlass: Value): string
  {
    if !Falsy(sourceKlass) then h.className(sourceKlass) else GlobalName
  }

  /** The label of a singleton name, by the BUILTIN_TYPE of what it is
      attached to. */
  function SingletonLabel(k: Kind): string
  {
    if IsTClass(k) then "Class" else if k == Module then "Module" else "Object"
  }

  /** klass_name by kind: "[global]" for nil/0, the class name of a
      module or an ordinary class, "[unknown]" for anything that is
      neither a module nor a class (inclusion proxies included). */
  lemma KlassNameCases(h: Host, klass: Value)
    ensures Falsy(klass) ==> KlassName(h, klass) == "[global]"
    ensures !Falsy(klass) && (KindOf(h, klass) == Module || KindOf(h, klass) == Class) ==>
      KlassName(h, klass) == h.className(klass)
    ensures !Falsy(klass) && !IsTClass(KindOf(h, klass)) && KindOf(h, klass) != Module ==>
      KlassName(h, klass) == "[unknown]"
  {
  }

  /** The display name of a singleton class names the very value the
      first resolution step moves to, and the label tells which flag
      that step sets; for a singleton of a builtin instance the name
      falls back to rb_any_to_s while resolution still moves on to the
      superclass. */
  lemma SingletonNameMatchesResolutionStep(h: Host, s: nat)
    requires h.kind(s) == SingletonClass
    ensures StepOf(h, Ref(s)).Move?
    ensures var ka := KindOf(h, h.attached(s));
      ka != IClass && ka != Other ==>
        && KlassName(h, Ref(s)) == "<" + SingletonLabel(ka) + "::" + h.className(StepOf(h, Ref(s)).next) + ">"
        && (StepOf(h, Ref(s)).flag == ObjectSingleton <==> ka == Object)
    ensures var ka := KindOf(h, h.attached(s));
      ka == IClass || ka == Other ==>
        && KlassName(h, Ref(s)) == h.anyToS(Ref(s))
        && StepOf(h, Ref(s)) == Move(ObjectSingleton, h.superclass(s))
  {
  }

  /** Cutting a full name at its first '#' gives back the class name and
      the method name, whenever the class name holds no '#'. */
  lemma FullNameSplitsAtFirstHash(h: Host, key: MethodKey)
    requires '#' !in KlassName(h, key.klass)
    ensures var f := FullName(h, key);
      var i := |KlassName(h, key.klass)|;
      && i < |f| && f[i] == '#'
      && (forall j :: 0 <= j < i ==> f[j] != '#')
      && f[..i] == KlassName(h, key.klass)
      && f[i + 1..] == MethodName(h, key.mid)
  {
    var k := KlassName(h, key.klass);
    var f := FullName(h, key);
    assert f == k + "#" + MethodName(h, key.mid);
    forall j | 0 <= j < |k|
      ensures f[j] != '#'
    {
      assert f[j] == k[j];
    }
  }

  lemma BlankKeyFullName(h: Host)
    ensures FullName(h, BlankKey) == "[global]#[no method]"
  {
  }

  // ---------------------------------------------------------------
  // The path step of calltree_name: rb_str_split(name, "::") joined
  // with "/".

  /** A "::" separator starts at index i of s. */
  predicate SepAt(s: string, i: int)
  {
    0 <= i && i + 1 < |s| && s[i] == ':' && s[i + 1] == ':'
  }

  predicate EndsWithSep(s: string)
  {
    SepAt(s, |s| - 2)
  }

  /** No "::" anywhere in t. */
  predicate NoSep(t: string)
  {
    forall i :: 0 <= i < |t| - 1 ==> !SepAt(t, i)
  }

  /** The fields of s between "::" separators, matched left to right,
      keeping every field (n separators give n + 1 fields). */
  function SplitFields(s: string): (fs: seq<string>)
    ensures |fs| >= 1
    decreases |s|
  {
    if |s| < 2 then [s]
    else if SepAt(s, 0) then [""] + SplitFields(s[2..])
    else
      var rest := SplitFields(s[1..]);
      [[s[0]] + rest[0]] + rest[1..]
  }

  /** Ruby's String#split without a limit drops every trailing empty field. */
  function DropTrailingEmpty(fs: seq<string>): (r: seq<string>)
    ensures |r| <= |fs| && r == fs[..|r|]
    ensures |r| > 0 ==> r[|r| - 1] != ""
    ensures forall i :: |r| <= i < |fs| ==> fs[i] == ""
  {
    if |fs| == 0 then fs
    else if fs[|fs| - 1] == "" then DropTrailingEmpty(fs[..|fs| - 1])
    else fs
  }

  /** rb_str_split(s, "::") */
  function RubySplit(s: string): seq<string>
  {
    DropTrailingEmpty(SplitFields(s))
  }

  /** rb_ary_join(fs, j) */
  function Join(fs: seq<string>, j: string): string
  {
    if |fs| == 0 then ""
    else if |fs| == 1 then fs[0]
    else fs[0] + j + Join(fs[1..], j)
  }

  /** The reference rendering: every "::", scanned left to right, becomes "/". */
  function ReplaceSep(s: string): string
    decreases |s|
  {
    if |s| < 2 then s
    else if SepAt(s, 0) then "/" + ReplaceSep(s[2..])
    else [s[0]] + ReplaceSep(s[1..])
  }

  /** The inverse rendering: every "/" becomes "::". */
  function Unslash(t: string): string
  {
    if |t| == 0 then ""
    else (if t[0] == '/' then "::" else [t[0]]) + Unslash(t[1..])
  }

  /** Gluing a character onto the first field glues it onto the join. */
  lemma JoinConsFirstField(c: char, fs: seq<string>, j: string)
    requires |fs| >= 1
    ensures Join([[c] + fs[0]] + fs[1..], j) == [c] + Join(fs, j)
  {
    var gs := [[c] + fs[0]] + fs[1..];
    if |fs| > 1 {
      assert gs[1..] == fs[1..];
    }
  }

  lemma {:induction false} JoinOfSplitIsReplaceSep(s: string)
    ensures Join(SplitFields(s), "/") == ReplaceSep(s)
    decreases |s|
  {
    if |s| < 2 {
    } else if SepAt(s, 0) {
      var fs := SplitFields(s[2..]);
      JoinOfSplitIsReplaceSep(s[2..]);
      assert SplitFields(s) == [""] + fs;
      assert ([""] + fs)[1..] == fs;
    } else {
      var rest := SplitFields(s[1..]);
      JoinOfSplitIsReplaceSep(s[1..]);
      JoinConsFirstField(s[0], rest, "/");
    }
  }

  /** The last field is empty only when s is empty or ends with "::". */
  lemma {:induction false} LastFieldNonEmpty(s: string)
    requires |s| > 0 && !EndsWithSep(s)
    ensures SplitFields(s)[|SplitFields(s)| - 1] != ""
    decreases |s|
  {
    if |s| < 2 {
    } else if SepAt(s, 0) {
      var t := s[2..];
      assert |t| > 0;
      LastFieldNonEmpty(t);
    } else {
      var t := s[1..];
      LastFieldNonEmpty(t);
    }
  }

  /** When the name does not end with "::", splitting on "::" and joining
      with "/" is a replace-all. */
  lemma SplitJoinIsReplaceSep(s: string)
    requires !EndsWithSep(s)
    ensures Join(RubySplit(s), "/") == ReplaceSep(s)
  {
    JoinOfSplitIsReplaceSep(s);
    if |s| > 0 {
      LastFieldNonEmpty(s);
      assert RubySplit(s) == SplitFields(s);
    }
  }

  lemma ReplaceSepHead(s: string)
    requires |s| > 0
    ensures |ReplaceSep(s)| > 0
    ensures ReplaceSep(s)[0] == (if SepAt(s, 0) then '/' else s[0])
  {
  }

  /** The rendered path never holds a "::". */
  lemma {:induction false} ReplaceSepLeavesNoSep(s: string)
    ensures NoSep(ReplaceSep(s))
    decreases |s|
  {
    if |s| < 2 {
    } else if SepAt(s, 0) {
      ReplaceSepLeavesNoSep(s[2..]);
      var t := ReplaceSep(s[2..]);
      var r := "/" + t;
      assert ReplaceSep(s) == r;
      forall i | 0 <= i < |r| - 1
        ensures !SepAt(r, i)
      {
        if i > 0 {
          assert r[i] == t[i - 1] && r[i + 1] == t[i];
          assert !SepAt(t, i - 1);
        }
      }
    } else {
      ReplaceSepLeavesNoSep(s[1..]);
      var t := ReplaceSep(s[1..]);
      ReplaceSepHead(s[1..]);
      var r := [s[0]] + t;
      assert ReplaceSep(s) == r;
      forall i | 0 <= i < |r| - 1
        ensures !SepAt(r, i)
      {
        if i > 0 {
          assert r[i] == t[i - 1] && r[i + 1] == t[i];
          assert !SepAt(t, i - 1);
        } else {
          assert r[1] == t[0];
        }
      }
    }
  }

  /** The rendering is reversible for names without '/', which Ruby
      constant paths never contain. */
  lemma {:induction false} UnslashInvertsReplaceSep(s: string)
    requires '/' !in s
    ensures Unslash(ReplaceSep(s)) == s
    decreases |s|
  {
    if |s| == 0 {
    } else if |s| == 1 {
      assert Unslash(s) == [s[0]] + Unslash(s[1..]);
    } else if SepAt(s, 0) {
      UnslashInvertsReplaceSep(s[2..]);
      var t := ReplaceSep(s[2..]);
      assert ("/" + t)[1..] == t;
      assert s == "::" + s[2..];
    } else {
      assert forall c :: c in s[1..] ==> c in s;
      UnslashInvertsReplaceSep(s[1..]);
      var t := ReplaceSep(s[1..]);
      assert ([s[0]] + t)[1..] == t;
      assert s == [s[0]] + s[1..];
    }
  }

  /** A name without any ':' is its own single field. */
  lemma {:induction false} SplitWithoutColon(s: string)
    requires ':' !in s
    ensures SplitFields(s) == [s]
    decreases |s|
  {
    if |s| >= 2 {
      assert forall c :: c in s[1..] ==> c in s;
      SplitWithoutColon(s[1..]);
      assert [s[0]] + s[1..] == s;
    }
  }

  // ---------------------------------------------------------------

  /** The relation markers: '*' for an object singleton, then '^' for a
      module singleton; an inclusion leaves no mark. */
  function Markers(rel: set<RelFlag>): (m: string)
    ensures '*' in m <==> ObjectSingleton in rel
    ensures '^' in m <==> ModuleSingleton in rel
    ensures ObjectSingleton in rel && ModuleSingleton in rel ==> m == "*^"
    ensures |m| <= 2 && (forall c :: c in m ==> c == '*' || c == '^')
    ensures |m| == (if ObjectSingleton in rel then 1 else 0) + (if ModuleSingleton in rel then 1 else 0)
  {
    (if ObjectSingleton in rel then "*" else "") + (if ModuleSingleton in rel then "^" else "")
  }

  function CalltreeName(h: Host, sourceKlass: Value, rel: set<RelFlag>, mid: nat): string
  {
    Join(RubySplit(SourceKlassName(h, sourceKlass)), "/") + "::" + Markers(rel) + MethodName(h, mid)
  }

  /** The calltree name is the owner's path with "::" rendered as "/",
      then "::", the markers and the method name. */
  lemma CalltreeNameShape(h: Host, sourceKlass: Value, rel: set<RelFlag>, mid: nat)
    requires !EndsWithSep(SourceKlassName(h, sourceKlass))
    ensures CalltreeName(h, sourceKlass, rel, mid)
         == ReplaceSep(SourceKlassName(h, sourceKlass)) + "::" + Markers(rel) + MethodName(h, mid)
  {
    SplitJoinIsReplaceSep(SourceKlassName(h, sourceKlass));
  }

  /** A name without ':' is its own path. */
  lemma SingleFieldPath(s: string)
    requires ':' !in s
    ensures Join(RubySplit(s), "/") == s
  {
    SplitWithoutColon(s);
  }

  lemma GlobalNameHasNoColon()
    ensures ':' !in GlobalName
  {
    var g := GlobalName;
    assert g[0] != ':' && g[1] != ':' && g[2] != ':' && g[3] != ':';
    assert g[4] != ':' && g[5] != ':' && g[6] != ':' && g[7] != ':';
  }

  /** A method without a source owner is filed under "[global]". */
  lemma GlobalCalltreeName(h: Host, sourceKlass: Value, rel: set<RelFlag>, mid: nat)
    requires Falsy(sourceKlass)
    ensures CalltreeName(h, sourceKlass, rel, mid) == GlobalName + "::" + Markers(rel) + MethodName(h, mid)
  {
    assert SourceKlassName(h, sourceKlass) == GlobalName;
    GlobalNameHasNoColon();
    SingleFieldPath(GlobalName);
  }

  lemma ReplaceSepOfAB()
    ensures ReplaceSep("A::B") == "A/B"
  {
    var s := "A::B";
    assert !SepAt(s, 0) && SepAt(s[1..], 0);
    assert s[1..][2..] == "B";
    assert ReplaceSep(s) == "A" + ReplaceSep(s[1..]);
    assert ReplaceSep(s[1..]) == "/" + ReplaceSep("B");
  }

  lemma ModuleSingletonMark()
    ensures Markers({ModuleSingleton}) == "^"
  {
    assert ObjectSingleton !in {ModuleSingleton};
  }

  /** Owner A::B, a module singleton, method run: "A/B::^run". */
  lemma CalltreeNameExample(h: Host, owner: Value, mid: nat)
    requires !Falsy(owner) && h.className(owner) == "A::B"
    requires mid != 0 && h.id2str(mid) == "run"
    ensures CalltreeName(h, owner, {ModuleSingleton}, mid) == "A/B::^run"
  {
    assert SourceKlassName(h, owner) == "A::B";
    assert !EndsWithSep("A::B");
    CalltreeNameShape(h, owner, {ModuleSingleton}, mid);
    ReplaceSepOfAB();
    ModuleSingletonMark();
  }
}
