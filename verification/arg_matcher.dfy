/**
 `Arg_Matcher`: the registry from type names to argument-type strategies,
 and the registrations the generator makes when it loads. A later
 registration of a key replaces an earlier one; `get` of a key nobody
 registered gives PHP `null`.
 */
module ArgMatcher {
  import opened Common
  import opened ArgTypes
  import opened VarLists

  /** `Arg_Matcher::$arg_types`. */
  datatype Matcher = Matcher(table: map<string, ArgType>)

  const Empty: Matcher := Matcher(map[])

  /** The array key PHP uses for a nullable type name: `null` becomes `""`. */
  function KeyOf(ty: Option<string>): string {
    TextOf(ty)
  }

  /** `register`: the key now maps to `handler`, every other key is untouched. */
  function Register(m: Matcher, ty: Option<string>, handler: ArgType): (r: Matcher)
    ensures Get(r, ty) == Some(handler)
    ensures forall k :: k != KeyOf(ty) ==> Lookup(r, k) == Lookup(m, k)
  {
    Matcher(m.table[KeyOf(ty) := handler])
  }

  /** `get` of a key: the registered strategy, or `None` for PHP's `null`. */
  function Lookup(m: Matcher, key: string): (r: Option<ArgType>)
    ensures r.Some? <==> key in m.table
    ensures r.Some? ==> r.value == m.table[key]
  {
    if key in m.table then Some(m.table[key]) else None
  }

  /** `get($type)` with a nullable type name. */
  function Get(m: Matcher, ty: Option<string>): Option<ArgType> {
    Lookup(m, KeyOf(ty))
  }

  /** `register_enum`: an `Enum_Arg` for the type under its own name. */
  function RegisterEnum(m: Matcher, ty: string): (r: Matcher)
    ensures Lookup(r, ty) == Some(EnumArg(ty))
    ensures forall k :: k != ty ==> Lookup(r, k) == Lookup(m, k)
  {
    Register(m, Some(ty), EnumArg(ty))
  }

  /** `register_flag`: a `Flags_Arg` for the type under its own name. */
  function RegisterFlag(m: Matcher, ty: string): (r: Matcher)
    ensures Lookup(r, ty) == Some(FlagsArg(ty))
    ensures forall k :: k != ty ==> Lookup(r, k) == Lookup(m, k)
  {
    Register(m, Some(ty), FlagsArg(ty))
  }

  /** `register_object`: one `Object_Arg`, under the name and under the pointer name. */
  function RegisterObject(m: Matcher, ty: string): (r: Matcher)
    ensures Lookup(r, ty) == Lookup(r, ty + "*") == Some(ObjectArg(ty))
    ensures forall k :: k != ty && k != ty + "*" ==> Lookup(r, k) == Lookup(m, k)
  {
    assert ty != ty + "*" by {
      assert |ty + "*"| == |ty| + 1;
    }
    Register(Register(m, Some(ty), ObjectArg(ty)), Some(ty + "*"), ObjectArg(ty))
  }

  /** `register_boxed`: a `Boxed_Arg` under the pointer name only; the bare name is untouched. */
  function RegisterBoxed(m: Matcher, ty: string, phpType: string): (r: Matcher)
    ensures Lookup(r, ty + "*") == Some(BoxedArg(phpType))
    ensures Lookup(r, ty) == Lookup(m, ty)
    ensures forall k :: k != ty + "*" ==> Lookup(r, k) == Lookup(m, k)
  {
    assert ty != ty + "*" by {
      assert |ty + "*"| == |ty| + 1;
    }
    Register(m, Some(ty + "*"), BoxedArg(phpType))
  }

  // ---------------------------------------------------------------------
  // Registrations as a log
  // ---------------------------------------------------------------------

  /** One call on the matcher. */
  datatype Registration =
    | Plain(ty: Option<string>, handler: ArgType)
    | Enum(name: string)
    | Flag(name: string)
    | Object(name: string)
    | Boxed(name: string, phpType: string)

  /** The keys one registration writes. */
  function KeysOf(reg: Registration): seq<string> {
    match reg
    case Plain(ty, _) => [KeyOf(ty)]
    case Enum(t) => [t]
    case Flag(t) => [t]
    case Object(t) => [t, t + "*"]
    case Boxed(t, _) => [t + "*"]
  }

  /** The strategy one registration stores under each of its keys. */
  function HandlerOf(reg: Registration): ArgType {
    match reg
    case Plain(_, h) => h
    case Enum(t) => EnumArg(t)
    case Flag(t) => FlagsArg(t)
    case Object(t) => ObjectArg(t)
    case Boxed(_, p) => BoxedArg(p)
  }

  function Perform(m: Matcher, reg: Registration): (r: Matcher)
    ensures forall k :: k in KeysOf(reg) ==> Lookup(r, k) == Some(HandlerOf(reg))
    ensures forall k :: k !in KeysOf(reg) ==> Lookup(r, k) == Lookup(m, k)
  {
    match reg
    case Plain(ty, h) => Register(m, ty, h)
    case Enum(t) => RegisterEnum(m, t)
    case Flag(t) => RegisterFlag(m, t)
    case Object(t) => RegisterObject(m, t)
    case Boxed(t, p) => RegisterBoxed(m, t, p)
  }

  /** The matcher after the registrations of `regs`, in order. */
  function Replay(m: Matcher, regs: seq<Registration>): Matcher
    decreases |regs|
  {
    if regs == [] then m else Perform(Replay(m, regs[..|regs| - 1]), regs[|regs| - 1])
  }

  /** The reference reading of the log: the handler of the last registration that wrote `key`. */
  function LastFor(regs: seq<Registration>, key: string): Option<ArgType>
    decreases |regs|
  {
    if regs == [] then None
    else if key in KeysOf(regs[|regs| - 1]) then Some(HandlerOf(regs[|regs| - 1]))
    else LastFor(regs[..|regs| - 1], key)
  }

  /** The last registration of a key wins; a key no registration wrote keeps what it had. */
  lemma {:induction false} ReplayLookup(m: Matcher, regs: seq<Registration>, key: string)
    ensures Lookup(Replay(m, regs), key) == if LastFor(regs, key).Some? then LastFor(regs, key) else Lookup(m, key)
    decreases |regs|
  {
    if regs != [] {
      ReplayLookup(m, regs[..|regs| - 1], key);
    }
  }

  // ---------------------------------------------------------------------
  // The registrations made when the generator loads
  // ---------------------------------------------------------------------

  /** `register(key, handler)` for each key, in order. */
  function PlainAll(keys: seq<string>, handler: ArgType): (r: seq<Registration>)
    ensures |r| == |keys|
    ensures forall i :: 0 <= i < |r| ==> r[i] == Plain(Some(keys[i]), handler)
  {
    seq(|keys|, i requires 0 <= i < |keys| => Plain(Some(keys[i]), handler))
  }

  const NoneKeys: seq<string> := ["none"]
  const StringKeys: seq<string> :=
    ["char*", "gchar*", "const-char*", "const-gchar*", "string", "static_string", "unsigned-char*", "guchar*"]
  const StringRefKeys: seq<string> := ["char**", "gchar**"]
  const CharKeys: seq<string> := ["char", "gchar", "guchar"]
  const IntKeys: seq<string> :=
    ["int", "gint", "guint", "short", "gshort", "gushort", "long", "glong", "gulong",
     "guint8", "gint8", "guint16", "gint16", "guint32", "gint32", "GtkType"]
  const IntRefKeys: seq<string> := ["gint*", "guint*", "guint8*"]
  const BoolKeys: seq<string> := ["gboolean"]
  const DoubleKeys: seq<string> := ["double", "gdouble", "float", "gfloat"]
  const RectKeys: seq<string> := ["GdkRectangle*"]
  const BoxedTypes: seq<Registration> :=
    [Boxed("GdkEvent", "gdk_event"), Boxed("GdkWindow", "gdk_window"), Boxed("GdkColor", "gdk_color")]

  /** The load-time registrations, in source order; the first is `register(null, ...)`. */
  function Defaults(): seq<Registration> {
    [Plain(None, NoneArg)] + PlainAll(NoneKeys, NoneArg)
    + PlainAll(StringKeys, StringArg)
    + PlainAll(StringRefKeys, StringRefArg)
    + PlainAll(CharKeys, CharArg)
    + PlainAll(IntKeys, IntArg)
    + PlainAll(IntRefKeys, IntRefArg)
    + PlainAll(BoolKeys, BoolArg)
    + PlainAll(DoubleKeys, DoubleArg)
    + PlainAll(RectKeys, RectArg)
    + BoxedTypes
  }

  function DefaultMatcher(): Matcher {
    Replay(Empty, Defaults())
  }

  lemma {:induction false} LastForAppend(a: seq<Registration>, b: seq<Registration>, key: string)
    ensures LastFor(a + b, key) == if LastFor(b, key).Some? then LastFor(b, key) else LastFor(a, key)
    decreases |b|
  {
    if b != [] {
      assert (a + b)[..|a + b| - 1] == a + b[..|b| - 1];
      assert (a + b)[|a + b| - 1] == b[|b| - 1];
      LastForAppend(a, b[..|b| - 1], key);
    } else {
      assert a + b == a;
    }
  }

  lemma {:induction false} LastForPlainAll(keys: seq<string>, handler: ArgType, key: string)
    ensures LastFor(PlainAll(keys, handler), key) == if key in keys then Some(handler) else None
    decreases |keys|
  {
    if keys != [] {
      var regs := PlainAll(keys, handler);
      assert regs[..|regs| - 1] == PlainAll(keys[..|keys| - 1], handler);
      assert keys == keys[..|keys| - 1] + [keys[|keys| - 1]];
      LastForPlainAll(keys[..|keys| - 1], handler, key);
    }
  }

  /** The pointer-type keys `register_boxed` writes in the default registrations. */
  const BoxedKeys: seq<string> := ["GdkEvent*", "GdkWindow*", "GdkColor*"]

  /**
   The reference reading of the load-time table: which group of names a key
   belongs to, later groups first (the groups happen not to overlap).
   */
  function DefaultHandler(key: string): Option<ArgType> {
    if key == "GdkColor*" then Some(BoxedArg("gdk_color"))
    else if key == "GdkWindow*" then Some(BoxedArg("gdk_window"))
    else if key == "GdkEvent*" then Some(BoxedArg("gdk_event"))
    else if key in RectKeys then Some(RectArg)
    else if key in DoubleKeys then Some(DoubleArg)
    else if key in BoolKeys then Some(BoolArg)
    else if key in IntRefKeys then Some(IntRefArg)
    else if key in IntKeys then Some(IntArg)
    else if key in CharKeys then Some(CharArg)
    else if key in StringRefKeys then Some(StringRefArg)
    else if key in StringKeys then Some(StringArg)
    else if key in NoneKeys || key == "" then Some(NoneArg)
    else None
  }

  lemma LastForBoxed(key: string)
    ensures LastFor(BoxedTypes, key) ==
              if key == "GdkColor*" then Some(BoxedArg("gdk_color"))
              else if key == "GdkWindow*" then Some(BoxedArg("gdk_window"))
              else if key == "GdkEvent*" then Some(BoxedArg("gdk_event"))
              else None
  {
    assert "GdkColor" + "*" == "GdkColor*";
    assert "GdkWindow" + "*" == "GdkWindow*";
    assert "GdkEvent" + "*" == "GdkEvent*";
    var b1 := [Boxed("GdkEvent", "gdk_event")];
    var b2 := b1 + [Boxed("GdkWindow", "gdk_window")];
    assert BoxedTypes == b2 + [Boxed("GdkColor", "gdk_color")];
    assert BoxedTypes[..2] == b2;
    assert b2[..1] == b1;
    assert b1[..0] == [];
  }

  /** The matcher built at load time maps every key exactly as the reference table says. */
  lemma DefaultMatcherLookup(key: string)
    ensures Lookup(DefaultMatcher(), key) == DefaultHandler(key)
  {
    ReplayLookup(Empty, Defaults(), key);
    var g0 := [Plain(None, NoneArg)] + PlainAll(NoneKeys, NoneArg);
    var g1 := g0 + PlainAll(StringKeys, StringArg);
    var g2 := g1 + PlainAll(StringRefKeys, StringRefArg);
    var g3 := g2 + PlainAll(CharKeys, CharArg);
    var g4 := g3 + PlainAll(IntKeys, IntArg);
    var g5 := g4 + PlainAll(IntRefKeys, IntRefArg);
    var g6 := g5 + PlainAll(BoolKeys, BoolArg);
    var g7 := g6 + PlainAll(DoubleKeys, DoubleArg);
    var g8 := g7 + PlainAll(RectKeys, RectArg);
    assert Defaults() == g8 + BoxedTypes;
    LastForAppend(g8, BoxedTypes, key);
    LastForBoxed(key);
    LastForAppend(g7, PlainAll(RectKeys, RectArg), key);
    LastForPlainAll(RectKeys, RectArg, key);
    LastForAppend(g6, PlainAll(DoubleKeys, DoubleArg), key);
    LastForPlainAll(DoubleKeys, DoubleArg, key);
    LastForAppend(g5, PlainAll(BoolKeys, BoolArg), key);
    LastForPlainAll(BoolKeys, BoolArg, key);
    LastForAppend(g4, PlainAll(IntRefKeys, IntRefArg), key);
    LastForPlainAll(IntRefKeys, IntRefArg, key);
    LastForAppend(g3, PlainAll(IntKeys, IntArg), key);
    LastForPlainAll(IntKeys, IntArg, key);
    LastForAppend(g2, PlainAll(CharKeys, CharArg), key);
    LastForPlainAll(CharKeys, CharArg, key);
    LastForAppend(g1, PlainAll(StringRefKeys, StringRefArg), key);
    LastForPlainAll(StringRefKeys, StringRefArg, key);
    LastForAppend(g0, PlainAll(StringKeys, StringArg), key);
    LastForPlainAll(StringKeys, StringArg, key);
    LastForAppend([Plain(None, NoneArg)], PlainAll(NoneKeys, NoneArg), key);
    LastForPlainAll(NoneKeys, NoneArg, key);
    assert [Plain(None, NoneArg)][..0] == [];
  }

  /** `get` of a key that no registration wrote gives `null`. */
  lemma UnregisteredIsNull(regs: seq<Registration>, key: string)
    requires LastFor(regs, key).None?
    ensures Lookup(Replay(Empty, regs), key) == None
  {
    ReplayLookup(Empty, regs, key);
  }

  /** `register(null, ...)` stored the `None_Arg` under the key `""`. */
  lemma DefaultNullType()
    ensures Get(DefaultMatcher(), None) == Some(NoneArg)
  {
    DefaultMatcherLookup("");
    HandlerEmpty();
  }

  lemma HandlerEmpty()
    ensures DefaultHandler("") == Some(NoneArg)
  {
  }

  lemma DefaultConstString()
    ensures Lookup(DefaultMatcher(), "const-gchar*") == Some(StringArg)
  {
    DefaultMatcherLookup("const-gchar*");
    HandlerConstString();
  }

  lemma HandlerConstString()
    ensures DefaultHandler("const-gchar*") == Some(StringArg)
  {
    assert "const-gchar*" == StringKeys[3];
  }

  lemma DefaultGtkTypeIsInt()
    ensures Lookup(DefaultMatcher(), "GtkType") == Some(IntArg)
  {
    DefaultMatcherLookup("GtkType");
    HandlerGtkType();
  }

  lemma HandlerGtkType()
    ensures DefaultHandler("GtkType") == Some(IntArg)
  {
    assert "GtkType" == IntKeys[15];
  }

  lemma DefaultIntPointerIsReference()
    ensures Lookup(DefaultMatcher(), "gint*") == Some(IntRefArg)
  {
    DefaultMatcherLookup("gint*");
    HandlerIntPointer();
  }

  lemma HandlerIntPointer()
    ensures DefaultHandler("gint*") == Some(IntRefArg)
  {
    assert "gint*" == IntRefKeys[0];
  }

  /** `register_boxed('GdkEvent', ...)` answers for `GdkEvent*`. */
  lemma DefaultBoxedEvent()
    ensures Lookup(DefaultMatcher(), "GdkEvent*") == Some(BoxedArg("gdk_event"))
  {
    DefaultMatcherLookup("GdkEvent*");
    assert DefaultHandler("GdkEvent*") == Some(BoxedArg("gdk_event"));
  }

  /** The bare boxed name was never registered, so `get` gives `null`. */
  lemma DefaultBareBoxedIsNull()
    ensures Lookup(DefaultMatcher(), "GdkEvent") == None
  {
    DefaultMatcherLookup("GdkEvent");
    HandlerBareBoxed();
  }

  lemma HandlerBareBoxed()
    ensures DefaultHandler("GdkEvent") == None
  {
    var k := "GdkEvent";
    assert k[0] == 'G' && k[1] == 'd';
    assert forall i :: 0 <= i < |IntKeys| ==> IntKeys[i] != k;
    assert forall i :: 0 <= i < |StringKeys| ==> StringKeys[i] != k;
    assert k !in RectKeys && k !in DoubleKeys && k !in BoolKeys && k !in IntRefKeys;
    assert k !in CharKeys && k !in StringRefKeys && k !in NoneKeys;
  }

  /** The PHP type names of the default boxed registrations hold no `%`. */
  lemma HandlerBoxedNames(key: string)
    ensures DefaultHandler(key).Some? && DefaultHandler(key).value.BoxedArg? ==> '%' !in DefaultHandler(key).value.phpType
  {
    assert '%' !in "gdk_color" && '%' !in "gdk_window" && '%' !in "gdk_event";
  }

  /** Every strategy registered at load time returns a template with exactly one placeholder, or none. */
  lemma DefaultTemplatesHaveOnePlaceholder(key: string, ty: string, vars: VarList)
    requires Valid(vars)
    requires Lookup(DefaultMatcher(), key).Some?
    ensures var r := WriteReturn(Lookup(DefaultMatcher(), key).value, ty, vars);
            r.Template? ==> OnePlaceholder(r.tpl)
  {
    DefaultMatcherLookup(key);
    HandlerBoxedNames(key);
  }
}
