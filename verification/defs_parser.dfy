/**
 The definition dispatcher (`Defs_Parser` in scheme.php): every top-level
 node of a parsed definition file is routed by its head keyword to a
 handler that appends one record to a registry, an `include` feeds another
 file's nodes through the same dispatch, and anything else is ignored. The
 registries are then searched by three linear scans that cross-reference
 objects with their methods, constructor and parent.
 */
module DefsParser {
  import opened Common
  import opened Reader

  // ---------------------------------------------------------------------
  // Records. They carry only the fields the dispatcher and the scans use;
  // how they are extracted from a node's arguments is left to `Builders`.
  // ---------------------------------------------------------------------

  /** An `Enum_Def` or `Flag_Def`. */
  datatype EnumDef = EnumDef(cName: string)

  /** A `Function_Def`; `isConstructorOf` is `null` for a plain module function. */
  datatype FunctionDef = FunctionDef(cName: string, isConstructorOf: Option<string>)

  /** The `of_object` pair of a method: object name and module. */
  datatype Signature = Signature(name: Option<string>, inModule: Option<string>)

  /** A `Method_Def`; `ofObject` is `null` when the definition names no object. */
  datatype MethodDef = MethodDef(cName: string, ofObject: Option<Signature>)

  /** An `Object_Def`. */
  datatype ObjectDef = ObjectDef(cName: string, name: Option<string>, parent: Option<string>, inModule: Option<string>)

  /** The registries of a `Defs_Parser`, each in registration order. */
  datatype Defs = Defs(
    objects: seq<ObjectDef>,
    functions: seq<FunctionDef>,
    constructors: seq<FunctionDef>,
    methods: seq<MethodDef>,
    enums: seq<EnumDef>,
    cNames: seq<string>)

  const NoDefs := Defs([], [], [], [], [], [])

  /** The record constructors of the definition classes, applied to a node's arguments. */
  datatype Builders = Builders(
    enumDef: seq<SExpr> -> EnumDef,
    flagDef: seq<SExpr> -> EnumDef,
    functionDef: seq<SExpr> -> FunctionDef,
    methodDef: seq<SExpr> -> MethodDef,
    objectDef: seq<SExpr> -> ObjectDef)

  /**
   What a pass reads besides the tree: the directory of the top-level file
   (`""` for a parser built from a tree), the parsed contents of each file an
   `include` names, and the record constructors.
   */
  datatype Env = Env(filePath: string, load: string -> seq<SExpr>, build: Builders)

  /** A pass either completes or runs out of include depth. */
  datatype Outcome = Done(defs: Defs) | OutOfFuel

  // ---------------------------------------------------------------------
  // Registry shape
  // ---------------------------------------------------------------------

  function ObjectNames(os: seq<ObjectDef>): seq<string> {
    seq(|os|, i requires 0 <= i < |os| => os[i].cName)
  }

  function FunctionNames(fs: seq<FunctionDef>): seq<string> {
    seq(|fs|, i requires 0 <= i < |fs| => fs[i].cName)
  }

  function MethodNames(ms: seq<MethodDef>): seq<string> {
    seq(|ms|, i requires 0 <= i < |ms| => ms[i].cName)
  }

  function EnumNames(es: seq<EnumDef>): seq<string> {
    seq(|es|, i requires 0 <= i < |es| => es[i].cName)
  }

  /** The C names of every registered record, whatever its kind. */
  function RecordNames(d: Defs): multiset<string> {
    multiset(ObjectNames(d.objects)) + multiset(FunctionNames(d.functions))
    + multiset(FunctionNames(d.constructors)) + multiset(MethodNames(d.methods))
    + multiset(EnumNames(d.enums))
  }

  /** How many records are registered. */
  function Count(d: Defs): nat {
    |d.objects| + |d.functions| + |d.constructors| + |d.methods| + |d.enums|
  }

  /**
   What the handlers keep: `c_name` lists exactly the C names of the
   registered records, constructors all name the type they construct and
   plain functions none.
   */
  predicate WellFormed(d: Defs) {
    && multiset(d.cNames) == RecordNames(d)
    && (forall i :: 0 <= i < |d.constructors| ==> d.constructors[i].isConstructorOf.Some?)
    && (forall i :: 0 <= i < |d.functions| ==> d.functions[i].isConstructorOf.None?)
  }

  /** Registries only grow: each one of `d` is a prefix of the same one of `e`. */
  predicate Extends(d: Defs, e: Defs) {
    && d.objects <= e.objects && d.functions <= e.functions && d.constructors <= e.constructors
    && d.methods <= e.methods && d.enums <= e.enums && d.cNames <= e.cNames
  }

  lemma WellFormedCount(d: Defs)
    requires WellFormed(d)
    ensures |d.cNames| == Count(d)
  {
    assert |multiset(d.cNames)| == |RecordNames(d)|;
  }

  lemma NoDefsWellFormed()
    ensures WellFormed(NoDefs) && Count(NoDefs) == 0
  {
  }

  // ---------------------------------------------------------------------
  // Handlers
  // ---------------------------------------------------------------------

  /** `handle_enum` and `handle_flags`: the record joins `enums`. */
  function AddEnum(d: Defs, e: EnumDef): (r: Defs)
    ensures Extends(d, r) && Count(r) == Count(d) + 1
    ensures r.enums == d.enums + [e] && r.cNames == d.cNames + [e.cName]
    ensures WellFormed(d) ==> WellFormed(r)
  {
    var r := d.(enums := d.enums + [e], cNames := d.cNames + [e.cName]);
    assert EnumNames(r.enums) == EnumNames(d.enums) + [e.cName];
    r
  }

  /** `handle_function`: constructors and plain functions go to separate registries. */
  function AddFunction(d: Defs, f: FunctionDef): (r: Defs)
    ensures Extends(d, r) && Count(r) == Count(d) + 1
    ensures r.cNames == d.cNames + [f.cName]
    ensures f.isConstructorOf.Some? ==> r.constructors == d.constructors + [f] && r.functions == d.functions
    ensures f.isConstructorOf.None? ==> r.functions == d.functions + [f] && r.constructors == d.constructors
    ensures WellFormed(d) ==> WellFormed(r)
  {
    if f.isConstructorOf.Some? then AddConstructor(d, f) else AddPlainFunction(d, f)
  }

  /** The constructor branch of `handle_function`. */
  function AddConstructor(d: Defs, f: FunctionDef): (r: Defs)
    requires f.isConstructorOf.Some?
    ensures Extends(d, r) && Count(r) == Count(d) + 1
    ensures r == d.(constructors := d.constructors + [f], cNames := d.cNames + [f.cName])
    ensures WellFormed(d) ==> WellFormed(r)
  {
    var r := d.(constructors := d.constructors + [f], cNames := d.cNames + [f.cName]);
    assert FunctionNames(r.constructors) == FunctionNames(d.constructors) + [f.cName];
    r
  }

  /** The plain-function branch of `handle_function`. */
  function AddPlainFunction(d: Defs, f: FunctionDef): (r: Defs)
    requires f.isConstructorOf.None?
    ensures Extends(d, r) && Count(r) == Count(d) + 1
    ensures r == d.(functions := d.functions + [f], cNames := d.cNames + [f.cName])
    ensures WellFormed(d) ==> WellFormed(r)
  {
    var r := d.(functions := d.functions + [f], cNames := d.cNames + [f.cName]);
    assert FunctionNames(r.functions) == FunctionNames(d.functions) + [f.cName];
    r
  }

  /** `handle_method`. */
  function AddMethod(d: Defs, m: MethodDef): (r: Defs)
    ensures Extends(d, r) && Count(r) == Count(d) + 1
    ensures r.methods == d.methods + [m] && r.cNames == d.cNames + [m.cName]
    ensures WellFormed(d) ==> WellFormed(r)
  {
    var r := d.(methods := d.methods + [m], cNames := d.cNames + [m.cName]);
    assert MethodNames(r.methods) == MethodNames(d.methods) + [m.cName];
    r
  }

  /** `handle_object`. */
  function AddObject(d: Defs, o: ObjectDef): (r: Defs)
    ensures Extends(d, r) && Count(r) == Count(d) + 1
    ensures r.objects == d.objects + [o] && r.cNames == d.cNames + [o.cName]
    ensures WellFormed(d) ==> WellFormed(r)
  {
    var r := d.(objects := d.objects + [o], cNames := d.cNames + [o.cName]);
    assert ObjectNames(r.objects) == ObjectNames(d.objects) + [o.cName];
    r
  }

  // ---------------------------------------------------------------------
  // Dispatch
  // ---------------------------------------------------------------------

  /** The handlers `method_exists` can find for a `"handle_" + keyword` name. */
  datatype Kind = EnumKind | FlagsKind | FunctionKind | MethodKind | ObjectKind | IncludeKind | UnknownKind

  predicate IsIdentChar(c: char) {
    IsUpper(c) || IsLower(c) || c == '_'
  }

  /** The translation table: every character outside `[a-zA-Z_]`, digits included, becomes `_`. */
  function Translate(s: string): (r: string)
    ensures |r| == |s|
    ensures forall i :: 0 <= i < |s| ==> IsIdentChar(r[i]) && (IsIdentChar(s[i]) ==> r[i] == s[i])
  {
    seq(|s|, i requires 0 <= i < |s| => if IsIdentChar(s[i]) then s[i] else '_')
  }

  /** A handler name's suffix: lower-case letters only. */
  predicate IsHandlerWord(w: string) {
    forall i :: 0 <= i < |w| ==> IsLower(w[i])
  }

  /**
   Translating first changes nothing for a handler word: the keyword selects
   it exactly when it spells the word in any mix of cases.
   */
  lemma TranslateIrrelevant(k: string, w: string)
    requires IsHandlerWord(w)
    ensures Lower(Translate(k)) == w <==> Lower(k) == w
  {
    var t := Translate(k);
    if |k| == |w| {
      forall i | 0 <= i < |k|
        ensures LowerChar(t[i]) == w[i] <==> LowerChar(k[i]) == w[i]
      {
        if !IsIdentChar(k[i]) {
          assert t[i] == '_';
          assert LowerChar(k[i]) == k[i];
          assert IsLower(w[i]);
        }
      }
      if Lower(k) == w {
        assert forall i :: 0 <= i < |k| ==> Lower(t)[i] == w[i];
      }
      if Lower(t) == w {
        assert forall i :: 0 <= i < |k| ==> Lower(k)[i] == w[i];
      }
    }
  }

  /**
   `method_exists($this, "handle_" . strtr(keyword, ...))`: method names
   compare without regard to case, after the translation table.
   */
  function KindOf(keyword: string): (k: Kind)
    ensures k == EnumKind <==> Lower(keyword) == "enum"
    ensures k == FlagsKind <==> Lower(keyword) == "flags"
    ensures k == FunctionKind <==> Lower(keyword) == "function"
    ensures k == MethodKind <==> Lower(keyword) == "method"
    ensures k == ObjectKind <==> Lower(keyword) == "object"
    ensures k == IncludeKind <==> Lower(keyword) == "include"
  {
    var key := Lower(Translate(keyword));
    TranslateIrrelevant(keyword, "enum");
    TranslateIrrelevant(keyword, "flags");
    TranslateIrrelevant(keyword, "function");
    TranslateIrrelevant(keyword, "method");
    TranslateIrrelevant(keyword, "object");
    TranslateIrrelevant(keyword, "include");
    if key == "enum" then EnumKind
    else if key == "flags" then FlagsKind
    else if key == "function" then FunctionKind
    else if key == "method" then MethodKind
    else if key == "object" then ObjectKind
    else if key == "include" then IncludeKind
    // `handle_unknown` itself, or no such method: both do nothing.
    else UnknownKind
  }

  /** PHP's string conversion of a node: an atom's text, `"Array"` for a list, `""` for `null`. */
  function NodeText(e: Option<SExpr>): string {
    match e
    case None => ""
    case Some(Atom(s)) => s
    case Some(List(_)) => "Array"
  }

  /** The first element of a list, or `null`. */
  function First(items: seq<SExpr>): Option<SExpr> {
    if items == [] then None else Some(items[0])
  }

  /** `$node[0]`: the head of a list, or the first character of an atom. */
  function Head(node: SExpr): (h: string)
    ensures node.Atom? ==> |h| <= 1
  {
    match node
    case Atom(s) => if s == [] then "" else s[..1]
    case List(items) => NodeText(First(items))
  }

  /** `array_slice($node, 1)`: a list's arguments; an atom has none. */
  function Args(node: SExpr): seq<SExpr> {
    match node
    case Atom(_) => []
    case List(items) => if items == [] then [] else items[1..]
  }

  /**
   `handle_include`: the file named by the first argument, taken relative to
   the directory of the top-level file, whichever file holds the `include`.
   */
  function IncludePath(env: Env, args: seq<SExpr>): string {
    env.filePath + "/" + NodeText(First(args))
  }

  /** `handle`: one top-level node. */
  function Handle(env: Env, d: Defs, node: SExpr, fuel: nat): (r: Outcome)
    ensures r.Done? ==> Extends(d, r.defs)
    ensures r.Done? && WellFormed(d) ==> WellFormed(r.defs)
    decreases fuel, 0
  {
    var args := Args(node);
    match KindOf(Head(node))
    case EnumKind => Done(AddEnum(d, env.build.enumDef(args)))
    case FlagsKind => Done(AddEnum(d, env.build.flagDef(args)))
    case FunctionKind => Done(AddFunction(d, env.build.functionDef(args)))
    case MethodKind => Done(AddMethod(d, env.build.methodDef(args)))
    case ObjectKind => Done(AddObject(d, env.build.objectDef(args)))
    case IncludeKind =>
      if fuel == 0 then OutOfFuel
      else StartParsing(env, d, env.load(IncludePath(env, args)), fuel - 1)
    case UnknownKind => Done(d)
  }

  /** `start_parsing`: the nodes in document order, each include expanded where it stands. */
  function StartParsing(env: Env, d: Defs, tree: seq<SExpr>, fuel: nat): (r: Outcome)
    ensures r.Done? ==> Extends(d, r.defs)
    ensures r.Done? && WellFormed(d) ==> WellFormed(r.defs)
    decreases fuel, |tree| + 1
  {
    if tree == [] then Done(d)
    else
      match Handle(env, d, tree[0], fuel)
      case OutOfFuel => OutOfFuel
      case Done(d1) => StartParsing(env, d1, tree[1..], fuel)
  }

  // ---------------------------------------------------------------------
  // Facts about dispatch
  // ---------------------------------------------------------------------

  /** The keywords that have a handler appending a record. */
  predicate IsRecordKind(k: Kind) {
    k == EnumKind || k == FlagsKind || k == FunctionKind || k == MethodKind || k == ObjectKind
  }

  /** A node whose head is no handler keyword, in any case, leaves every registry unchanged. */
  lemma UnknownKeywordIgnored(env: Env, d: Defs, node: SExpr, fuel: nat)
    requires Lower(Head(node)) !in ["enum", "flags", "function", "method", "object", "include"]
    ensures Handle(env, d, node, fuel) == Done(d)
  {
    assert KindOf(Head(node)) == UnknownKind;
  }

  /** A bare atom at the top level is never dispatched: its "keyword" is one character long. */
  lemma AtomNodeIgnored(env: Env, d: Defs, s: string, fuel: nat)
    ensures Handle(env, d, Atom(s), fuel) == Done(d)
  {
    var h := Head(Atom(s));
    assert |Lower(h)| <= 1;
    UnknownKeywordIgnored(env, d, Atom(s), fuel);
  }

  /**
   A record node appends exactly one record and its C name, built by its
   keyword's builder from the node's arguments, to the registry its keyword
   selects; every other registry stays as it was. A function lands in
   `constructors` exactly when it names the type it constructs.
   */
  lemma RecordNodeAppendsOne(env: Env, d: Defs, node: SExpr, fuel: nat)
    requires IsRecordKind(KindOf(Head(node)))
    ensures Handle(env, d, node, fuel).Done?
    ensures var e := Handle(env, d, node, fuel).defs;
            Count(e) == Count(d) + 1 && |e.cNames| == |d.cNames| + 1 && Extends(d, e)
    ensures KindOf(Head(node)) == EnumKind ==>
              var e := Handle(env, d, node, fuel).defs;
              var r := env.build.enumDef(Args(node));
              e.enums == d.enums + [r] && e.cNames == d.cNames + [r.cName]
    ensures KindOf(Head(node)) == FlagsKind ==>
              var e := Handle(env, d, node, fuel).defs;
              var r := env.build.flagDef(Args(node));
              e.enums == d.enums + [r] && e.cNames == d.cNames + [r.cName]
    ensures KindOf(Head(node)) == MethodKind ==>
              var e := Handle(env, d, node, fuel).defs;
              var r := env.build.methodDef(Args(node));
              e.methods == d.methods + [r] && e.cNames == d.cNames + [r.cName]
    ensures KindOf(Head(node)) == ObjectKind ==>
              var e := Handle(env, d, node, fuel).defs;
              var r := env.build.objectDef(Args(node));
              e.objects == d.objects + [r] && e.cNames == d.cNames + [r.cName]
    ensures KindOf(Head(node)) == FunctionKind ==>
              var e := Handle(env, d, node, fuel).defs;
              var f := env.build.functionDef(Args(node));
              && e.cNames == d.cNames + [f.cName]
              && (f.isConstructorOf.Some? ==> e.constructors == d.constructors + [f] && e.functions == d.functions)
              && (f.isConstructorOf.None? ==> e.functions == d.functions + [f] && e.constructors == d.constructors)
              && (|e.constructors| == |d.constructors| + 1 <==> f.isConstructorOf.Some?)
              && (|e.functions| == |d.functions| + 1 <==> f.isConstructorOf.None?)
  {
  }

  /** How many nodes of a tree a handler turns into a record. */
  function RecordNodes(tree: seq<SExpr>): nat
    decreases |tree|
  {
    if tree == [] then 0
    else (if IsRecordKind(KindOf(Head(tree[0]))) then 1 else 0) + RecordNodes(tree[1..])
  }

  /** No node of the tree is an `include`. */
  predicate IncludeFree(tree: seq<SExpr>) {
    forall i :: 0 <= i < |tree| ==> KindOf(Head(tree[i])) != IncludeKind
  }

  /** Without includes a pass always completes, and registers one record per record node. */
  lemma {:induction false} IncludeFreeCount(env: Env, d: Defs, tree: seq<SExpr>, fuel: nat)
    requires IncludeFree(tree)
    ensures StartParsing(env, d, tree, fuel).Done?
    ensures Count(StartParsing(env, d, tree, fuel).defs) == Count(d) + RecordNodes(tree)
    ensures |StartParsing(env, d, tree, fuel).defs.cNames| == |d.cNames| + RecordNodes(tree)
    decreases |tree|
  {
    if tree != [] {
      var k := KindOf(Head(tree[0]));
      if IsRecordKind(k) {
        RecordNodeAppendsOne(env, d, tree[0], fuel);
      } else {
        assert k == UnknownKind;
        assert Handle(env, d, tree[0], fuel) == Done(d);
      }
      var d1 := Handle(env, d, tree[0], fuel).defs;
      assert IncludeFree(tree[1..]) by {
        forall i | 0 <= i < |tree[1..]| ensures KindOf(Head(tree[1..][i])) != IncludeKind {
          assert tree[1..][i] == tree[i + 1];
        }
      }
      IncludeFreeCount(env, d1, tree[1..], fuel);
    }
  }

  /**
   A pass over two trees in a row is the pass over the first followed by
   the pass over the second: there is no boundary between a file and the
   files it includes.
   */
  lemma {:induction false} StartParsingAppend(env: Env, d: Defs, t1: seq<SExpr>, t2: seq<SExpr>, fuel: nat)
    ensures StartParsing(env, d, t1 + t2, fuel)
         == match StartParsing(env, d, t1, fuel)
            case OutOfFuel => OutOfFuel
            case Done(d1) => StartParsing(env, d1, t2, fuel)
    decreases |t1|
  {
    if t1 == [] {
      assert t1 + t2 == t2;
    } else {
      assert (t1 + t2)[0] == t1[0];
      assert (t1 + t2)[1..] == t1[1..] + t2;
      match Handle(env, d, t1[0], fuel)
      case OutOfFuel =>
      case Done(d1) =>
        StartParsingAppend(env, d1, t1[1..], t2, fuel);
    }
  }

  /** Building the registries from scratch keeps them well formed. */
  lemma PassWellFormed(env: Env, tree: seq<SExpr>, fuel: nat)
    ensures StartParsing(env, NoDefs, tree, fuel).Done? ==> WellFormed(StartParsing(env, NoDefs, tree, fuel).defs)
  {
    NoDefsWellFormed();
  }

  lemma KeywordCaseIgnored(env: Env, d: Defs, args: seq<SExpr>, fuel: nat)
    ensures Handle(env, d, List([Atom("OBJECT")] + args), fuel) == Done(AddObject(d, env.build.objectDef(args)))
  {
    var node := List([Atom("OBJECT")] + args);
    assert Head(node) == "OBJECT";
    assert Lower("OBJECT") == "object";
    assert Args(node) == args;
  }

  /** `define-object` translates to `define_object`, which no handler is named after. */
  lemma PrefixedKeywordIgnored(env: Env, d: Defs, args: seq<SExpr>, fuel: nat)
    ensures Handle(env, d, List([Atom("define-object")] + args), fuel) == Done(d)
  {
    var node := List([Atom("define-object")] + args);
    assert Head(node) == "define-object";
    assert |Lower("define-object")| == 13;
    UnknownKeywordIgnored(env, d, node, fuel);
  }

  // ---------------------------------------------------------------------
  // Cross-reference scans
  // ---------------------------------------------------------------------

  /** `$method->of_object == array($obj->name, $obj->in_module)`. */
  predicate MethodOf(m: MethodDef, obj: ObjectDef) {
    m.ofObject.Some? && LooseEq(m.ofObject.value.name, obj.name) && LooseEq(m.ofObject.value.inModule, obj.inModule)
  }

  /** The reference filter: the methods of `obj` in registration order. */
  function MethodsFor(ms: seq<MethodDef>, obj: ObjectDef): seq<MethodDef>
    decreases |ms|
  {
    if ms == [] then []
    else (if MethodOf(ms[0], obj) then [ms[0]] else []) + MethodsFor(ms[1..], obj)
  }

  lemma {:induction false} MethodsForAppend(ms: seq<MethodDef>, m: MethodDef, obj: ObjectDef)
    ensures MethodsFor(ms + [m], obj) == MethodsFor(ms, obj) + (if MethodOf(m, obj) then [m] else [])
    decreases |ms|
  {
    if ms == [] {
      assert MethodsFor([m], obj) == (if MethodOf(m, obj) then [m] else []) + MethodsFor([], obj);
    } else {
      assert (ms + [m])[1..] == ms[1..] + [m];
      MethodsForAppend(ms[1..], m, obj);
    }
  }

  /** A method is found exactly when it is registered and belongs to `obj`. */
  lemma {:induction false} MethodsForMembers(ms: seq<MethodDef>, obj: ObjectDef, m: MethodDef)
    ensures m in MethodsFor(ms, obj) <==> m in ms && MethodOf(m, obj)
    decreases |ms|
  {
    if ms != [] {
      MethodsForMembers(ms[1..], obj, m);
      assert ms == [ms[0]] + ms[1..];
    }
  }

  /** `find_methods`. */
  method FindMethods(d: Defs, obj: ObjectDef) returns (r: seq<MethodDef>)
    ensures r == MethodsFor(d.methods, obj)
    ensures forall m :: m in r <==> m in d.methods && MethodOf(m, obj)
    ensures |r| <= |d.methods|
  {
    r := [];
    var k := 0;
    while k < |d.methods|
      invariant 0 <= k <= |d.methods|
      invariant r == MethodsFor(d.methods[..k], obj)
      invariant |r| <= k
    {
      MethodsForAppend(d.methods[..k], d.methods[k], obj);
      assert d.methods[..k + 1] == d.methods[..k] + [d.methods[k]];
      if MethodOf(d.methods[k], obj) {
        r := r + [d.methods[k]];
      }
      k := k + 1;
    }
    assert d.methods[..k] == d.methods;
    forall m ensures m in r <==> m in d.methods && MethodOf(m, obj) {
      MethodsForMembers(d.methods, obj, m);
    }
  }

  /** The test in `find_constructor`: the constructed type is the object's name, or it with `Gtk` before it. */
  predicate Constructs(c: FunctionDef, obj: ObjectDef) {
    LooseEq(c.isConstructorOf, obj.name) || LooseEq(c.isConstructorOf, Some("Gtk" + TextOf(obj.name)))
  }

  /** The test in `find_parent`. */
  predicate ParentOf(o: ObjectDef, obj: ObjectDef) {
    LooseEq(o.name, obj.parent)
  }

  /** The reference answer of `find_constructor`: the last constructor of `obj`, or `null`. */
  function LastConstructor(cs: seq<FunctionDef>, obj: ObjectDef): Option<FunctionDef>
    decreases |cs|
  {
    if cs == [] then None
    else if Constructs(cs[|cs| - 1], obj) then Some(cs[|cs| - 1])
    else LastConstructor(cs[..|cs| - 1], obj)
  }

  /** The reference answer of `find_parent`: the last object named as `obj`'s parent, or `null`. */
  function LastParent(os: seq<ObjectDef>, obj: ObjectDef): Option<ObjectDef>
    decreases |os|
  {
    if os == [] then None
    else if ParentOf(os[|os| - 1], obj) then Some(os[|os| - 1])
    else LastParent(os[..|os| - 1], obj)
  }

  /** `null` exactly when no constructor matches. */
  lemma {:induction false} LastConstructorNone(cs: seq<FunctionDef>, obj: ObjectDef)
    ensures LastConstructor(cs, obj).None? <==> forall i :: 0 <= i < |cs| ==> !Constructs(cs[i], obj)
    decreases |cs|
  {
    if cs != [] {
      var p := cs[..|cs| - 1];
      LastConstructorNone(p, obj);
      assert forall i :: 0 <= i < |p| ==> cs[i] == p[i];
    }
  }

  /** A found constructor is a match with no match after it; `i` is its position. */
  lemma {:induction false} LastConstructorIsLast(cs: seq<FunctionDef>, obj: ObjectDef) returns (i: nat)
    requires LastConstructor(cs, obj).Some?
    ensures i < |cs| && cs[i] == LastConstructor(cs, obj).value && Constructs(cs[i], obj)
    ensures forall j :: i < j < |cs| ==> !Constructs(cs[j], obj)
    decreases |cs|
  {
    var p := cs[..|cs| - 1];
    if Constructs(cs[|cs| - 1], obj) {
      i := |cs| - 1;
    } else {
      i := LastConstructorIsLast(p, obj);
      assert cs[i] == p[i];
      forall j | i < j < |cs| ensures !Constructs(cs[j], obj) {
        if j < |p| {
          assert cs[j] == p[j];
        }
      }
    }
  }

  /** `null` exactly when no object is the parent. */
  lemma {:induction false} LastParentNone(os: seq<ObjectDef>, obj: ObjectDef)
    ensures LastParent(os, obj).None? <==> forall i :: 0 <= i < |os| ==> !ParentOf(os[i], obj)
    decreases |os|
  {
    if os != [] {
      var p := os[..|os| - 1];
      LastParentNone(p, obj);
      assert forall i :: 0 <= i < |p| ==> os[i] == p[i];
    }
  }

  /** A found parent is a match with no match after it; `i` is its position. */
  lemma {:induction false} LastParentIsLast(os: seq<ObjectDef>, obj: ObjectDef) returns (i: nat)
    requires LastParent(os, obj).Some?
    ensures i < |os| && os[i] == LastParent(os, obj).value && ParentOf(os[i], obj)
    ensures forall j :: i < j < |os| ==> !ParentOf(os[j], obj)
    decreases |os|
  {
    var p := os[..|os| - 1];
    if ParentOf(os[|os| - 1], obj) {
      i := |os| - 1;
    } else {
      i := LastParentIsLast(p, obj);
      assert os[i] == p[i];
      forall j | i < j < |os| ensures !ParentOf(os[j], obj) {
        if j < |p| {
          assert os[j] == p[j];
        }
      }
    }
  }

  /** `find_constructor`: every match overwrites the previous one, so the last one is returned. */
  method FindConstructor(d: Defs, obj: ObjectDef) returns (r: Option<FunctionDef>)
    ensures r == LastConstructor(d.constructors, obj)
    ensures r.None? <==> forall i :: 0 <= i < |d.constructors| ==> !Constructs(d.constructors[i], obj)
    ensures r.Some? ==> exists i :: 0 <= i < |d.constructors| && d.constructors[i] == r.value && Constructs(r.value, obj)
                                    && forall j :: i < j < |d.constructors| ==> !Constructs(d.constructors[j], obj)
  {
    r := None;
    var k := 0;
    while k < |d.constructors|
      invariant 0 <= k <= |d.constructors|
      invariant r == LastConstructor(d.constructors[..k], obj)
    {
      var c := d.constructors[k];
      assert d.constructors[..k + 1][..k] == d.constructors[..k];
      if Constructs(c, obj) {
        r := Some(c);
      }
      k := k + 1;
    }
    assert d.constructors[..k] == d.constructors;
    LastConstructorNone(d.constructors, obj);
    if r.Some? {
      var i := LastConstructorIsLast(d.constructors, obj);
    }
  }

  /** `find_parent`: the last object whose name equals `obj`'s parent. */
  method FindParent(d: Defs, obj: ObjectDef) returns (r: Option<ObjectDef>)
    ensures r == LastParent(d.objects, obj)
    ensures r.None? <==> forall i :: 0 <= i < |d.objects| ==> !ParentOf(d.objects[i], obj)
    ensures r.Some? ==> exists i :: 0 <= i < |d.objects| && d.objects[i] == r.value && LooseEq(r.value.name, obj.parent)
                                    && forall j :: i < j < |d.objects| ==> !ParentOf(d.objects[j], obj)
  {
    r := None;
    var k := 0;
    while k < |d.objects|
      invariant 0 <= k <= |d.objects|
      invariant r == LastParent(d.objects[..k], obj)
    {
      var o := d.objects[k];
      assert d.objects[..k + 1][..k] == d.objects[..k];
      if ParentOf(o, obj) {
        r := Some(o);
      }
      k := k + 1;
    }
    assert d.objects[..k] == d.objects;
    LastParentNone(d.objects, obj);
    if r.Some? {
      var i := LastParentIsLast(d.objects, obj);
    }
  }

  /** Two constructors of the same object: the later one wins. */
  lemma LaterConstructorWins(c1: FunctionDef, c2: FunctionDef, obj: ObjectDef)
    requires Constructs(c1, obj) && Constructs(c2, obj)
    ensures LastConstructor([c1, c2], obj) == Some(c2)
  {
  }

  /** A constructor of `GtkButton` is found for an object named `Button`. */
  lemma GtkPrefixedConstructor(cName: string, mod: Option<string>, parent: Option<string>)
    ensures LastConstructor([FunctionDef(cName, Some("GtkButton"))], ObjectDef("GtkButton", Some("Button"), parent, mod))
         == Some(FunctionDef(cName, Some("GtkButton")))
  {
    assert "Gtk" + "Button" == "GtkButton";
  }

  /** An object without a parent is the parent of every object without a name: `null == null`. */
  lemma NullParentMatchesNullName(o: ObjectDef, obj: ObjectDef)
    requires o.name.None? && obj.parent.None?
    ensures LastParent([o], obj) == Some(o)
  {
  }
}
