/**
 The argument-type strategies (`Arg_Type` and its subclasses). For one
 parameter, `write_param` adds C declarations to the declaration list,
 appends to the four side lists (parse targets, call arguments, extra
 statements, parse types) and returns the parse-specifier letters;
 `write_return` gives a return-conversion template with one `%s` for the
 call expression and may declare the `ret` holder.

 The PHP passes the lists by reference. Here each strategy computes an
 `Emission` -- what it adds, list by list -- and `Apply` extends a `Ctx`
 value with it. Every list is appended to independently, so this is the
 same as the interleaved appends of the PHP.
 */
module ArgTypes {
  import opened Common
  import opened TypeNames
  import opened VarLists

  /** The lists `write_param` receives by reference. */
  datatype Ctx = Ctx(
    vars: VarList,
    parseList: seq<string>,
    argList: seq<string>,
    extraCode: seq<string>,
    parseType: seq<string>)

  /** The strategies; the parametrised ones carry what their PHP constructor stored. */
  datatype ArgType =
    | NoneArg
    | StringArg
    | StringRefArg
    | CharArg
    | IntArg
    | IntRefArg
    | BoolArg
    | DoubleArg
    | EnumArg(enumName: string)
    | FlagsArg(flagName: string)
    | ObjectArg(objName: string)
    | RectArg
    | BoxedArg(phpType: string)
    | AtomArg

  /** One `$var_list->add(cType, name)` call. */
  datatype Decl = Decl(cType: string, name: string)

  /** What one `write_param` call adds: declarations in call order and the entries of each list. */
  datatype Emission = Emission(
    spec: string,
    decls: seq<Decl>,
    parse: seq<string>,
    types: seq<string>,
    args: seq<string>,
    extra: seq<string>)

  /** A `write_param` call either aborts (`trigger_error(..., E_USER_ERROR)`) or emits. */
  datatype ParamOutcome = ParamAborted | Emitted(spec: string, ctx: Ctx)

  /**
   A `write_return` call aborts, returns PHP `null` (no template), or returns
   a template together with the declaration list it extended.
   */
  datatype ReturnOutcome = ReturnAborted | NoTemplate | Template(tpl: string, vars: VarList)

  // ---------------------------------------------------------------------
  // Growing the context
  // ---------------------------------------------------------------------

  /** The names `decls` declares under `t`, in order. */
  function NamesOf(decls: seq<Decl>, t: string): seq<string>
    decreases |decls|
  {
    if decls == [] then []
    else (if decls[0].cType == t then [decls[0].name] else []) + NamesOf(decls[1..], t)
  }

  /** The `add` calls of `decls`, one after another. */
  function AddAll(v: VarList, decls: seq<Decl>): (r: VarList)
    requires Valid(v)
    ensures Valid(r)
    ensures Size(r.groups) == Size(v.groups) + |decls|
    decreases |decls|
  {
    if decls == [] then v
    else AddAll(Add(v, decls[0].cType, decls[0].name), decls[1..])
  }

  /** One `add`, seen from one type. */
  lemma AddNamesOne(v: VarList, cType: string, name: string, t: string)
    requires Valid(v)
    ensures NamesIn(Add(v, cType, name).groups, t) == NamesIn(v.groups, t) + (if cType == t then [name] else [])
  {
  }

  /** After the `add` calls of `decls`, a type holds its old names and then those `decls` gave it. */
  lemma {:induction false} AddAllNames(v: VarList, decls: seq<Decl>, t: string)
    requires Valid(v)
    ensures NamesIn(AddAll(v, decls).groups, t) == NamesIn(v.groups, t) + NamesOf(decls, t)
    decreases |decls|
  {
    if decls != [] {
      var v1 := Add(v, decls[0].cType, decls[0].name);
      var head: seq<string> := if decls[0].cType == t then [decls[0].name] else [];
      AddNamesOne(v, decls[0].cType, decls[0].name, t);
      AddAllNames(v1, decls[1..], t);
      AddAllCons(v, decls);
      NamesOfCons(decls, t);
      SeqAssoc(NamesIn(v.groups, t), head, NamesOf(decls[1..], t));
    }
  }

  lemma AddAllCons(v: VarList, decls: seq<Decl>)
    requires Valid(v) && decls != []
    ensures AddAll(v, decls) == AddAll(Add(v, decls[0].cType, decls[0].name), decls[1..])
  {
  }

  lemma NamesOfCons(decls: seq<Decl>, t: string)
    requires decls != []
    ensures NamesOf(decls, t) == (if decls[0].cType == t then [decls[0].name] else []) + NamesOf(decls[1..], t)
  {
  }

  lemma SeqAssoc(a: seq<string>, b: seq<string>, c: seq<string>)
    ensures (a + b) + c == a + (b + c)
  {
  }

  function Apply(c: Ctx, e: Emission): (r: Ctx)
    requires Valid(c.vars)
    ensures Valid(r.vars)
  {
    Ctx(AddAll(c.vars, e.decls), c.parseList + e.parse, c.argList + e.args,
        c.extraCode + e.extra, c.parseType + e.types)
  }

  /** `substr($type, 0, -1)`: the type without its last character (the `*`). */
  function Chop(s: string): string {
    if s == [] then [] else s[..|s| - 1]
  }

  /** The initialiser a truthy default gives a declaration: `" = <default>"`. */
  function Init(default: Option<string>): (r: string)
    ensures r == "" <==> !Truthy(default)
  {
    if Truthy(default) then " = " + default.value else ""
  }

  function WithDefault(decl: string, default: Option<string>): string {
    decl + Init(default)
  }

  // ---------------------------------------------------------------------
  // write_param, strategy by strategy
  // ---------------------------------------------------------------------

  /** The initialiser of a string parameter: a truthy default is quoted, unless it is `NULL`. */
  function StringInit(default: Option<string>): (r: string)
    ensures !Truthy(default) ==> r == ""
    ensures Truthy(default) && default.value == "NULL" ==> r == " = NULL"
    ensures Truthy(default) && default.value != "NULL" ==> r == " = \"" + default.value + "\""
  {
    if !Truthy(default) then ""
    else if default.value != "NULL" then " = \"" + default.value + "\""
    else " = NULL"
  }

  /** `String_Arg::write_param`: a `char *` parsed with `s` and passed as is. */
  function StringParam(name: string, default: Option<string>): (e: Emission)
    ensures e.spec == "s" && e.parse == ["&" + name] && e.types == [" "] && e.args == [name] && e.extra == []
    ensures e.decls == [Decl("char", "*" + name + StringInit(default))]
    ensures Contains(e.args[0], name) && Contains(e.decls[0].name, name)
  {
    ContainsSelf(name);
    ContainsMiddle("*", name, StringInit(default));
    Emission("s", [Decl("char", "*" + name + StringInit(default))], ["&" + name], [" "], [name], [])
  }

  /**
   The shared body of `StringRef_Arg` and `IntRef_Arg`: a PHP reference
   `php_<name>` is parsed with type `F`, converted in place by `convertFn`,
   and the C call gets the address of its `accessor` slot cast to `ty`.
   */
  function RefParam(accessor: string, convertFn: string, ty: string, name: string): (e: Emission)
    ensures e.spec == "V" && e.decls == [Decl("zval", "*php_" + name + " = NULL")]
    ensures e.parse == ["&php_" + name] && e.types == ["F"]
    ensures e.args == ["(" + ty + ")&" + accessor + "(php_" + name + ")"]
    ensures e.extra == ["\t" + convertFn + "(php_" + name + ");\n"]
    ensures |e.extra| == 1 && Contains(e.extra[0], convertFn) && Contains(e.extra[0], "(php_" + name + ")")
    ensures Contains(e.args[0], name) && Contains(e.decls[0].name, name)
  {
    var code := "\t" + convertFn + "(php_" + name + ");\n";
    ContainsMiddle("\t", convertFn, "(php_" + name + ");\n");
    ContainsMiddle("\t" + convertFn, "(php_" + name + ")", ";\n");
    assert code == "\t" + convertFn + "(php_" + name + ");\n";
    assert "\t" + convertFn + "(php_" + name + ");\n" == "\t" + convertFn + ("(php_" + name + ");\n");
    assert "\t" + convertFn + ("(php_" + name + ")") + ";\n" == code;
    ContainsMiddle("(" + ty + ")&" + accessor + "(php_", name, ")");
    ContainsMiddle("*php_", name, " = NULL");
    Emission("V", [Decl("zval", "*php_" + name + " = NULL")], ["&php_" + name], ["F"],
             ["(" + ty + ")&" + accessor + "(php_" + name + ")"], [code])
  }

  /** The initialiser of a character parameter: a truthy default is quoted as a C character. */
  function CharInit(default: Option<string>): (r: string)
    ensures r == "" <==> !Truthy(default)
    ensures Truthy(default) ==>
              && |r| == |default.value| + 5
              && r[..4] == " = '" && r[4..|r| - 1] == default.value && r[|r| - 1] == '\''
  {
    if Truthy(default) then " = '" + default.value + "'" else ""
  }

  /** `Char_Arg::write_param`. */
  function CharParam(name: string, default: Option<string>): (e: Emission)
    ensures e.spec == "c" && e.parse == ["&" + name] && e.types == [" "] && e.args == [name] && e.extra == []
    ensures e.decls == [Decl("char", name + CharInit(default))]
    ensures Contains(e.args[0], name) && Contains(e.decls[0].name, name)
  {
    ContainsSelf(name);
    ContainsPrefix(name, CharInit(default));
    Emission("c", [Decl("char", name + CharInit(default))], ["&" + name], [" "], [name], [])
  }

  /**
   The shared body of `Int_Arg`, `Bool_Arg` and `Double_Arg`: a C variable
   of type `cType` initialised with a truthy default, parsed with `spec`,
   and passed cast to `ty` exactly when `cast`.
   */
  function ScalarParam(spec: string, cType: string, cast: bool, ty: string, name: string, default: Option<string>): (e: Emission)
    ensures e.spec == spec && e.decls == [Decl(cType, WithDefault(name, default))]
    ensures e.parse == ["&" + name] && e.types == [" "] && e.extra == []
    ensures |e.args| == 1 && EndsWith(e.args[0], name)
    ensures cast <==> e.args[0] != name
    ensures e.args == (if cast then ["(" + ty + ")" + name] else [name])
    ensures Contains(e.args[0], name) && Contains(e.decls[0].name, name)
  {
    ContainsPrefix(name, Init(default));
    if cast then
      EndsWithConcat("(" + ty + ")", name);
      ContainsSuffix("(" + ty + ")", name);
      Emission(spec, [Decl(cType, WithDefault(name, default))], ["&" + name], [" "], ["(" + ty + ")" + name], [])
    else
      ContainsSelf(name);
      EndsWithConcat("", name);
      assert "" + name == name;
      Emission(spec, [Decl(cType, WithDefault(name, default))], ["&" + name], [" "], [name], [])
  }

  /** The statement that resolves a PHP value against an enum or flags type tag. */
  function LookupCode(getter: string, typeCode: string, name: string): string {
    "\t" + getter + "(" + typeCode + (", php_" + name + ", (gint *)&" + name + ");\n\n")
  }

  /**
   The lookup statement calls `getter` on the type tag, reads the holder
   `php_<name>` and writes through the address of `name`.
   */
  lemma LookupCodeParts(getter: string, typeCode: string, name: string)
    ensures var code := LookupCode(getter, typeCode, name);
            && Contains(code, getter) && Contains(code, typeCode)
            && Contains(code, "php_" + name) && Contains(code, "(gint *)&" + name)
  {
    LookupHasGetter(getter, typeCode, name);
    LookupHasTag(getter, typeCode, name);
    LookupHasHolder(getter, typeCode, name);
    LookupHasTarget(getter, typeCode, name);
  }

  lemma LookupHasGetter(getter: string, typeCode: string, name: string)
    ensures Contains(LookupCode(getter, typeCode, name), getter)
  {
    var rest := "(" + typeCode + (", php_" + name + ", (gint *)&" + name + ");\n\n");
    assert LookupCode(getter, typeCode, name) == "\t" + getter + rest;
    ContainsMiddle("\t", getter, rest);
  }

  lemma LookupHasTag(getter: string, typeCode: string, name: string)
    ensures Contains(LookupCode(getter, typeCode, name), typeCode)
  {
    ContainsMiddle("\t" + getter + "(", typeCode, ", php_" + name + ", (gint *)&" + name + ");\n\n");
  }

  lemma LookupHasHolder(getter: string, typeCode: string, name: string)
    ensures Contains(LookupCode(getter, typeCode, name), "php_" + name)
  {
    var head := "\t" + getter + "(" + typeCode;
    var tail := ", (gint *)&" + name + ");\n\n";
    assert ", php_" + name + ", (gint *)&" + name + ");\n\n" == ", " + ("php_" + name) + tail;
    ContainsInner(head, ", ", "php_" + name, tail);
  }

  lemma LookupHasTarget(getter: string, typeCode: string, name: string)
    ensures Contains(LookupCode(getter, typeCode, name), "(gint *)&" + name)
  {
    var head := "\t" + getter + "(" + typeCode;
    var front := ", php_" + name + ", ";
    assert ", php_" + name + ", (gint *)&" + name + ");\n\n" == front + ("(gint *)&" + name) + ");\n\n";
    ContainsInner(head, front, "(gint *)&" + name, ");\n\n");
  }

  /**
   The shared body of `Enum_Arg` and `Flags_Arg`: the C variable of the
   registered type, a `zval` holder, and a lookup statement tagged with
   `enum_name` of that type.
   */
  function LookupParam(getter: string, typeName: string, name: string, default: Option<string>): (e: Emission)
    ensures e.spec == "V"
    ensures e.decls == [Decl(typeName, WithDefault(name, default)), Decl("zval", "*php_" + name + " = NULL")]
    ensures e.parse == ["&php_" + name] && e.types == [" "] && e.args == [name]
    ensures e.extra == [LookupCode(getter, EnumName(typeName), name)]
    ensures |e.extra| == 1 && Contains(e.extra[0], EnumName(typeName))
    ensures Contains(e.extra[0], getter) && Contains(e.extra[0], "php_" + name)
              && Contains(e.extra[0], "(gint *)&" + name)
    ensures Contains(e.args[0], name) && Contains(e.decls[0].name, name)
  {
    LookupCodeParts(getter, EnumName(typeName), name);
    ContainsSelf(name);
    ContainsPrefix(name, Init(default));
    Emission("V", [Decl(typeName, WithDefault(name, default)), Decl("zval", "*php_" + name + " = NULL")],
             ["&php_" + name], [" "], [name], [LookupCode(getter, EnumName(typeName), name)])
  }

  /** `Object_Arg::$cast`: the converted type name without its leading `_`. */
  function CastOf(objName: string): string {
    ConvertTypename(objName)[1..]
  }

  /** The class-entry part of an object parse entry, lower-cased: `", <cast>_ce"`. */
  function ClassEntry(cast: string): string {
    ", " + Lower(cast) + "_ce"
  }

  /** The parse entry for an object: the zval address and the class entry. */
  function ObjectTarget(zv: string, cast: string): string {
    "&" + zv + ClassEntry(cast)
  }

  /** The statement that extracts the wrapped object from `php_<name>`. */
  function ObjectFetch(name: string, cast: string): string {
    name + " = " + cast + "(PHP_GTK_GET(php_" + name + "));\n"
  }

  /** The extra statement of an object parameter with a default, when `NULL` is allowed. */
  function ObjectNullableDefaultCode(name: string, cast: string): string {
    "\tif (php_" + name + ") {\n"
    + "\t\tif (Z_TYPE_P(php_" + name + ") == IS_NULL)\n"
    + "\t\t\t" + name + " = NULL;\n"
    + "\t\telse\n"
    + "\t\t\t" + ObjectFetch(name, cast)
    + "\t}\n"
  }

  /** The first line of the null-allowed, no-default object statement: extraction only when not `NULL`. */
  function ObjectNullGuard(name: string): string {
    "\tif (Z_TYPE_P(php_" + name + ") != IS_NULL)\n"
  }

  /** The initialiser of the object pointer: the default, or `NULL` when `NULL` is allowed. */
  function ObjectInit(default: Option<string>, nullOk: bool): string {
    if Truthy(default) then Init(default) else if nullOk then " = NULL" else ""
  }

  /**
   `Object_Arg::write_param`. With `null_ok` the parameter is parsed with `N`
   through a `zval` holder; without it, a truthy default also goes through a
   holder, and otherwise the `zval` itself is declared and the cast
   extraction is the call argument.
   */
  function ObjectParam(objName: string, name: string, default: Option<string>, nullOk: bool): (e: Emission)
    ensures e.spec == if nullOk then "N" else "O"
    ensures e.types == [" "] && |e.parse| == 1 && |e.args| == 1 && |e.extra| <= 1
    ensures EndsWith(e.parse[0], ClassEntry(CastOf(objName)))
    ensures nullOk || Truthy(default) ==>
              && e.args == [name]
              && e.parse == [ObjectTarget("php_" + name, CastOf(objName))]
              && |e.extra| == 1
              && e.decls == [Decl(objName, "*" + name + ObjectInit(default, nullOk)),
                             Decl("zval", "*php_" + name + (if Truthy(default) then " = NULL" else ""))]
    ensures nullOk && !Truthy(default) ==> StartsWith(e.extra[0], ObjectNullGuard(name))
    ensures !nullOk && !Truthy(default) ==>
              && e.decls == [Decl("zval", "*" + name)]
              && e.parse == [ObjectTarget(name, CastOf(objName))]
              && e.args == [CastOf(objName) + "(PHP_GTK_GET(" + name + "))"]
              && e.extra == []
    ensures Contains(e.args[0], name) && Contains(e.decls[0].name, name)
  {
    var cast := CastOf(objName);
    ContainsMiddle("*", name, ObjectInit(default, nullOk));
    if nullOk || Truthy(default) then
      ContainsSelf(name);
      EndsWithConcat("&" + "php_" + name, ClassEntry(cast));
      StartsWithConcat(ObjectNullGuard(name), "\t\t" + ObjectFetch(name, cast));
      var code :=
        if !nullOk then "\tif (php_" + name + ")\n" + "\t\t" + ObjectFetch(name, cast)
        else if Truthy(default) then ObjectNullableDefaultCode(name, cast)
        else ObjectNullGuard(name) + ("\t\t" + ObjectFetch(name, cast));
      Emission(if nullOk then "N" else "O",
               [Decl(objName, "*" + name + ObjectInit(default, nullOk)),
                Decl("zval", "*php_" + name + (if Truthy(default) then " = NULL" else ""))],
               [ObjectTarget("php_" + name, cast)], [" "], [name], [code])
    else
      ContainsMiddle(cast + "(PHP_GTK_GET(", name, "))");
      EndsWithConcat("&" + name, ClassEntry(cast));
      assert "*" + name + ObjectInit(default, nullOk) == "*" + name;
      Emission("O", [Decl("zval", "*" + name)], [ObjectTarget(name, cast)], [" "],
               [cast + "(PHP_GTK_GET(" + name + "))"], [])
  }

  /** The opening `&(<name>.` of each `Rect_Arg` field target. */
  function FieldOf(name: string): string {
    "&(" + name + "."
  }

  /** `Rect_Arg::write_param`: one struct, four `int` fields parsed in place, its address passed. */
  function RectParam(ty: string, name: string): (e: Emission)
    ensures e.spec == "iiii" && e.decls == [Decl(Chop(ty), name)] && e.args == ["&" + name] && e.extra == []
    ensures |e.parse| == 4 && e.types == [" ", " ", " ", " "]
    ensures forall k :: 0 <= k < 4 ==> StartsWith(e.parse[k], FieldOf(name))
    ensures e.parse[0] == FieldOf(name) + "x)" && e.parse[1] == FieldOf(name) + "y)"
    ensures e.parse[2] == FieldOf(name) + "width)" && e.parse[3] == FieldOf(name) + "height)"
    ensures Contains(e.args[0], name) && Contains(e.decls[0].name, name)
  {
    StartsWithConcat(FieldOf(name), "x)");
    StartsWithConcat(FieldOf(name), "y)");
    StartsWithConcat(FieldOf(name), "width)");
    StartsWithConcat(FieldOf(name), "height)");
    ContainsSuffix("&", name);
    ContainsSelf(name);
    Emission("iiii", [Decl(Chop(ty), name)],
             [FieldOf(name) + "x)", FieldOf(name) + "y)", FieldOf(name) + "width)", FieldOf(name) + "height)"],
             [" ", " ", " ", " "], ["&" + name], [])
  }

  /**
   `Boxed_Arg::write_param`. Its last parameter is named `$array_code`
   instead of `$parse_type` and is never written: the zval address and the
   class entry go in as two parse entries and no parse type is added.
   */
  function BoxedParam(phpType: string, name: string): (e: Emission)
    ensures e.spec == "O" && e.decls == [Decl("zval", "*" + name)]
    ensures e.parse == ["&" + name, phpType + "_ce"] && e.types == [] && e.extra == []
    ensures e.args == ["PHP_" + Upper(phpType) + "_GET(" + name + ")"]
    ensures Contains(e.args[0], name) && Contains(e.decls[0].name, name)
  {
    ContainsMiddle("PHP_" + Upper(phpType) + "_GET(", name, ")");
    ContainsSuffix("*", name);
    Emission("O", [Decl("zval", "*" + name)], ["&" + name, phpType + "_ce"], [],
             ["PHP_" + Upper(phpType) + "_GET(" + name + ")"], [])
  }

  /**
   What `write_param` of strategy `a` emits, or `None` when it aborts
   (`trigger_error(..., E_USER_ERROR)` of the abstract method).
   */
  function ParamEmission(a: ArgType, ty: string, name: string, default: Option<string>, nullOk: bool): Option<Emission>
  {
    match a
    case NoneArg => None
    case AtomArg => None
    case StringArg => Some(StringParam(name, default))
    case StringRefArg => Some(RefParam("Z_STRVAL_P", "convert_to_string", ty, name))
    case CharArg => Some(CharParam(name, default))
    case IntArg => Some(ScalarParam("i", "long", true, ty, name, default))
    case IntRefArg => Some(RefParam("Z_LVAL_P", "convert_to_long", ty, name))
    case BoolArg => Some(ScalarParam("b", "int", true, ty, name, default))
    case DoubleArg => Some(ScalarParam("d", "double", false, ty, name, default))
    case EnumArg(e) => Some(LookupParam("php_gtk_get_enum_value", e, name, default))
    case FlagsArg(f) => Some(LookupParam("php_gtk_get_flag_value", f, name, default))
    case ObjectArg(o) => Some(ObjectParam(o, name, default, nullOk))
    case RectArg => Some(RectParam(ty, name))
    case BoxedArg(p) => Some(BoxedParam(p, name))
  }

  /**
   `Int_Arg` and `Bool_Arg` pass `($type)$name`, cast to the parameter's own
   type; `Double_Arg` passes the bare name.
   */
  lemma ScalarArguments(a: ArgType, ty: string, name: string, default: Option<string>, nullOk: bool)
    requires a.IntArg? || a.BoolArg? || a.DoubleArg?
    ensures var e := ParamEmission(a, ty, name, default, nullOk);
            e.Some? && e.value.args == (if a.DoubleArg? then [name] else ["(" + ty + ")" + name])
  {
  }

  /**
   `Enum_Arg` resolves its holder with `php_gtk_get_enum_value` and
   `Flags_Arg` with `php_gtk_get_flag_value`, both against `enum_name` of the
   registered type, reading `php_<name>` and writing through `&name`.
   */
  lemma LookupGetters(a: ArgType, ty: string, name: string, default: Option<string>, nullOk: bool)
    requires a.EnumArg? || a.FlagsArg?
    ensures var e := ParamEmission(a, ty, name, default, nullOk);
            var t := if a.EnumArg? then a.enumName else a.flagName;
            && e.Some? && |e.value.extra| == 1
            && Contains(e.value.extra[0], if a.EnumArg? then "php_gtk_get_enum_value" else "php_gtk_get_flag_value")
            && Contains(e.value.extra[0], EnumName(t))
            && Contains(e.value.extra[0], "php_" + name) && Contains(e.value.extra[0], "(gint *)&" + name)
  {
  }

  /**
   `None_Arg` and `Atom_Arg` do not override the abstract method, so exactly
   they abort. Whatever is emitted passes one argument that mentions the
   parameter's name, declares that name first, and keeps parse types in step
   with parse entries -- except `Boxed_Arg`, which adds two entries and no type.
   */
  lemma ParamEmissionShape(a: ArgType, ty: string, name: string, default: Option<string>, nullOk: bool)
    ensures var r := ParamEmission(a, ty, name, default, nullOk);
            && (r.None? <==> a.NoneArg? || a.AtomArg?)
            && (r.Some? ==> |r.value.args| == 1 && 1 <= |r.value.decls| <= 2 && |r.value.extra| <= 1)
            && (r.Some? && !a.BoxedArg? ==> |r.value.types| == |r.value.parse| == (if a.RectArg? then 4 else 1))
            && (r.Some? && a.BoxedArg? ==> |r.value.parse| == 2 && r.value.types == [])
            && (r.Some? ==> Contains(r.value.args[0], name) && Contains(r.value.decls[0].name, name))
  {
    match a
    case NoneArg =>
    case AtomArg =>
    case StringArg =>
    case StringRefArg =>
    case CharArg =>
    case IntArg =>
    case IntRefArg =>
    case BoolArg =>
    case DoubleArg =>
    case EnumArg(_) =>
    case FlagsArg(_) =>
    case ObjectArg(_) =>
    case RectArg =>
    case BoxedArg(_) =>
  }

  /**
   `write_param` of a strategy on the by-reference lists. Every strategy that
   does not abort only appends: one or two declarations, exactly one call
   argument, and parse types in step with parse entries -- except
   `Boxed_Arg`, which adds two parse entries and no parse type.
   */
  function WriteParam(a: ArgType, ty: string, name: string, default: Option<string>, nullOk: bool, c: Ctx): (r: ParamOutcome)
    requires Valid(c.vars)
    ensures r.ParamAborted? <==> a.NoneArg? || a.AtomArg?
    ensures r.Emitted? ==>
              && Valid(r.ctx.vars)
              && Size(c.vars.groups) < Size(r.ctx.vars.groups) <= Size(c.vars.groups) + 2
              && c.parseList <= r.ctx.parseList && c.parseType <= r.ctx.parseType
              && c.extraCode <= r.ctx.extraCode && |r.ctx.extraCode| <= |c.extraCode| + 1
              && c.argList <= r.ctx.argList && |r.ctx.argList| == |c.argList| + 1
    ensures r.Emitted? && !a.BoxedArg? ==>
              |r.ctx.parseType| - |c.parseType| == |r.ctx.parseList| - |c.parseList| == (if a.RectArg? then 4 else 1)
    ensures r.Emitted? && a.BoxedArg? ==>
              |r.ctx.parseList| == |c.parseList| + 2 && r.ctx.parseType == c.parseType
  {
    ParamEmissionShape(a, ty, name, default, nullOk);
    match ParamEmission(a, ty, name, default, nullOk)
    case None => ParamAborted
    case Some(e) =>
      var r := Apply(c, e);
      assert c.parseList <= r.parseList && c.parseType <= r.parseType;
      assert c.extraCode <= r.extraCode && c.argList <= r.argList;
      Emitted(e.spec, r)
  }

  /** "Has a default" is PHP truthiness: `""` and `"0"` emit exactly what no default emits. */
  lemma FalsyDefaultIsAbsent(a: ArgType, ty: string, name: string, default: Option<string>, nullOk: bool, c: Ctx)
    requires Valid(c.vars)
    requires default == Some("") || default == Some("0")
    ensures WriteParam(a, ty, name, default, nullOk, c) == WriteParam(a, ty, name, None, nullOk, c)
  {
    ParamEmissionFalsy(a, ty, name, default, nullOk);
  }

  lemma ParamEmissionFalsy(a: ArgType, ty: string, name: string, default: Option<string>, nullOk: bool)
    requires default == Some("") || default == Some("0")
    ensures ParamEmission(a, ty, name, default, nullOk) == ParamEmission(a, ty, name, None, nullOk)
  {
    assert !Truthy(default);
    assert Init(default) == Init(None) && StringInit(default) == StringInit(None) && CharInit(default) == CharInit(None);
    assert ObjectInit(default, nullOk) == ObjectInit(None, nullOk);
    match a
    case StringArg =>
    case CharArg =>
    case IntArg =>
    case BoolArg =>
    case DoubleArg =>
    case EnumArg(_) =>
    case FlagsArg(_) =>
    case ObjectArg(_) =>
    case _ =>
  }

  // ---------------------------------------------------------------------
  // write_return
  // ---------------------------------------------------------------------

  /** The return types whose string `String_Arg` must not free. */
  predicate Borrowed(ty: string) {
    ty == "const-gchar*" || ty == "const-char*" || ty == "static_string"
  }

  /** A return template before assembly: text before and after the `%s`, and the `add` calls it makes. */
  datatype ReturnParts = AbortParts | NullParts | Parts(pre: string, post: string, decls: seq<Decl>)

  function NoneReturnPost(): (s: string)
    ensures '%' !in s
  {
    ";\n" + "\tRETURN_NULL();"
  }

  /** The tail of the borrowed-string template, in the four pieces below; it never frees. */
  function BorrowedStringPost(): (s: string)
    ensures '%' !in s && 'g' !in s
  {
    BorrowedOpen() + BorrowedCopy() + BorrowedElse() + BorrowedNull()
  }

  function BorrowedOpen(): (s: string)
    ensures '%' !in s && 'g' !in s
  {
    ";\n" + "\tif (ret) {\n"
  }

  function BorrowedCopy(): (s: string)
    ensures '%' !in s && 'g' !in s
  {
    "\t\tRETURN_STRING((char *)ret, 1);\n"
  }

  function BorrowedElse(): (s: string)
    ensures '%' !in s && 'g' !in s
  {
    "\t}\n" + "\telse {\n"
  }

  function BorrowedNull(): (s: string)
    ensures '%' !in s && 'g' !in s
  {
    "\t\tRETURN_NULL();\n" + "\t}"
  }

  function OwnedStringHead(): string {
    ";\n" + "\tif (ret) {\n" + "\t\tRETURN_STRING(ret, 1);\n" + "\t\t"
  }

  function OwnedStringTail(): string {
    ";\n" + "\t} else\n" + "\t\tRETURN_NULL();"
  }

  function OwnedStringPost(): (s: string)
    ensures '%' !in s
  {
    OwnedStringHead() + "g_free(ret)" + OwnedStringTail()
  }

  function CharReturnPost(): (s: string)
    ensures '%' !in s
  {
    ";\n" + "\tret[1] = '\\0';\n" + "\tRETURN_STRINGL(ret, 1, 1);"
  }

  function ObjectReturnPre(): (s: string)
    ensures '%' !in s
  {
    "\tret = php_gtk_new(" + "(GtkObject *)"
  }

  function ObjectReturnPost(): (s: string)
    ensures '%' !in s
  {
    ");\n" + "\t*return_value = *ret;"
  }

  function BoxedReturnPost(phpType: string): (s: string)
    ensures '%' in s <==> '%' in phpType
  {
    ";\n" + "\t*return_value = *php_" + phpType + "_new(ret);"
  }

  /**
   The pieces of `write_return` of strategy `a`. `Rect_Arg` and `Atom_Arg`
   inherit the aborting abstract method; `StringRef_Arg` and `IntRef_Arg`
   override it with an empty body, so they return `null`. Only a boxed PHP
   type name can bring a `%` of its own into a template.
   */
  function ReturnPieces(a: ArgType, ty: string): (r: ReturnParts)
  {
    match a
    case NoneArg => Parts("\t", NoneReturnPost(), [])
    case StringArg =>
      if Borrowed(ty) then Parts("\tret = ", BorrowedStringPost(), [Decl("const gchar", "*ret")])
      else Parts("\tret = ", OwnedStringPost(), [Decl("gchar", "*ret")])
    case StringRefArg => NullParts
    case CharArg => Parts("\tret[0] = ", CharReturnPost(), [Decl("gchar", "ret[2]")])
    case IntArg => Parts("\tRETURN_LONG(", ");", [])
    case IntRefArg => NullParts
    case BoolArg => Parts("\tRETURN_BOOL(", ");", [])
    case DoubleArg => Parts("\tRETURN_DOUBLE(", ");", [])
    case EnumArg(_) => Parts("\tRETURN_LONG(", ");", [])
    case FlagsArg(_) => Parts("\tRETURN_LONG(", ");", [])
    case ObjectArg(_) => Parts(ObjectReturnPre(), ObjectReturnPost(), [Decl("zval", "*ret")])
    case RectArg => AbortParts
    case BoxedArg(p) => Parts("\tret = ", BoxedReturnPost(p), [Decl(Chop(ty), "*ret")])
    case AtomArg => AbortParts
  }

  lemma ReturnPiecesKind(a: ArgType, ty: string)
    ensures ReturnPieces(a, ty).AbortParts? <==> a.RectArg? || a.AtomArg?
    ensures ReturnPieces(a, ty).NullParts? <==> a.StringRefArg? || a.IntRefArg?
  {
    match a
    case RectArg =>
    case AtomArg =>
    case StringRefArg =>
    case IntRefArg =>
    case _ =>
  }

  /**
   The string, character, object and boxed returns declare one `ret` holder
   -- the pointer `*ret`, or the two-character buffer `ret[2]` for a
   character -- and the others none.
   */
  lemma ReturnPiecesDecls(a: ArgType, ty: string)
    ensures var r := ReturnPieces(a, ty);
            r.Parts? ==> |r.decls| == (if a.StringArg? || a.CharArg? || a.ObjectArg? || a.BoxedArg? then 1 else 0)
    ensures var r := ReturnPieces(a, ty);
            r.Parts? && |r.decls| == 1 ==>
              r.decls[0].name == (if a.CharArg? then "ret[2]" else "*ret") && Contains(r.decls[0].name, "ret")
  {
    ContainsSuffix("*", "ret");
    assert "*" + "ret" == "*ret";
    ContainsPrefix("ret", "[2]");
    assert "ret" + "[2]" == "ret[2]";
    match a
    case StringArg =>
    case CharArg =>
    case ObjectArg(_) =>
    case BoxedArg(_) =>
    case _ =>
  }

  /** Only a boxed PHP type name can bring a `%` of its own into a template. */
  lemma ReturnPiecesPercent(a: ArgType, ty: string)
    ensures var r := ReturnPieces(a, ty);
            r.Parts? ==> '%' !in r.pre && ('%' in r.post <==> a.BoxedArg? && '%' in a.phpType)
  {
    PlainTexts();
    match a
    case NoneArg =>
    case StringArg =>
    case CharArg =>
    case IntArg =>
    case BoolArg =>
    case DoubleArg =>
    case EnumArg(_) =>
    case FlagsArg(_) =>
    case ObjectArg(_) =>
    case BoxedArg(p) =>
    case _ =>
  }

  /** The fixed pieces of the return templates hold no `%`. */
  lemma PlainTexts()
    ensures '%' !in "\t" && '%' !in "\tret = " && '%' !in "\tret[0] = " && '%' !in ");"
    ensures '%' !in "\tRETURN_LONG(" && '%' !in "\tRETURN_BOOL(" && '%' !in "\tRETURN_DOUBLE("
  {
  }

  /** `write_return` of a strategy, declaring the `ret` holder on the given list. */
  function WriteReturn(a: ArgType, ty: string, vars: VarList): (r: ReturnOutcome)
    requires Valid(vars)
    ensures r.ReturnAborted? <==> a.RectArg? || a.AtomArg?
    ensures r.NoTemplate? <==> a.StringRefArg? || a.IntRefArg?
    ensures r.Template? ==> (OnePlaceholder(r.tpl) <==> !(a.BoxedArg? && '%' in a.phpType))
    ensures r.Template? ==> Valid(r.vars)
    ensures r.Template? ==>
              Size(r.vars.groups) == Size(vars.groups) + (if a.StringArg? || a.CharArg? || a.ObjectArg? || a.BoxedArg? then 1 else 0)
  {
    ReturnPiecesKind(a, ty);
    match ReturnPieces(a, ty)
    case AbortParts => ReturnAborted
    case NullParts => NoTemplate
    case Parts(pre, post, decls) =>
      ReturnPiecesPercent(a, ty);
      ReturnPiecesDecls(a, ty);
      assert OnePlaceholder(pre + "%s" + post) <==> '%' !in post by {
        if '%' !in post {
          OnePlaceholderOf(pre, post);
        } else {
          TwoPercents(pre, post);
        }
      }
      Template(pre + "%s" + post, AddAll(vars, decls))
  }

  /** A `%` after the placeholder makes a second one, so the template does not have exactly one. */
  lemma TwoPercents(pre: string, post: string)
    requires '%' !in pre && '%' in post
    ensures !OnePlaceholder(pre + "%s" + post)
  {
    var t := pre + "%s" + post;
    forall i | 0 <= i && i + 2 <= |t|
      ensures !(t[i..i + 2] == "%s" && '%' !in t[..i] && '%' !in t[i + 2..])
    {
      if i < |pre| {
        assert t[i..i + 2][0] == pre[i];
        assert pre[i] in pre;
      } else if i == |pre| {
        assert t[i + 2..] == post;
      } else {
        assert t[..i][|pre|] == '%';
      }
    }
  }

  lemma NoGFree(s: string)
    requires 'g' !in s
    ensures !Contains(s, "g_free(ret)")
  {
    forall i | 0 <= i <= |s| - |"g_free(ret)"|
      ensures !OccursAt(s, "g_free(ret)", i)
    {
      assert s[i..i + |"g_free(ret)"|][0] == s[i];
      assert s[i] in s;
    }
  }

  /** The string return frees the C string exactly when the type is not a borrowed one. */
  lemma StringReturnFreesOwned(ty: string, vars: VarList)
    requires Valid(vars)
    ensures WriteReturn(StringArg, ty, vars).Template?
    ensures Contains(WriteReturn(StringArg, ty, vars).tpl, "g_free(ret)") <==> !Borrowed(ty)
  {
    var r := WriteReturn(StringArg, ty, vars);
    if Borrowed(ty) {
      assert r.tpl == "\tret = " + "%s" + BorrowedStringPost();
      assert 'g' !in r.tpl;
      NoGFree(r.tpl);
    } else {
      assert r.tpl == "\tret = " + "%s" + (OwnedStringHead() + "g_free(ret)" + OwnedStringTail());
      ContainsInner("\tret = " + "%s", OwnedStringHead(), "g_free(ret)", OwnedStringTail());
    }
  }

  /** The object return, filled with any call expression `e`, wraps `e` and overwrites the result slot. */
  lemma ObjectReturnFilled(obj: string, vars: VarList, ty: string, e: string)
    requires Valid(vars)
    ensures WriteReturn(ObjectArg(obj), ty, vars).Template?
    ensures Fill(WriteReturn(ObjectArg(obj), ty, vars).tpl, e) == ObjectReturnPre() + e + ObjectReturnPost()
    ensures NamesIn(WriteReturn(ObjectArg(obj), ty, vars).vars.groups, "zval") == NamesIn(vars.groups, "zval") + ["*ret"]
  {
    var r := WriteReturn(ObjectArg(obj), ty, vars);
    assert ReturnPieces(ObjectArg(obj), ty) == Parts(ObjectReturnPre(), ObjectReturnPost(), [Decl("zval", "*ret")]);
    assert r.tpl == ObjectReturnPre() + "%s" + ObjectReturnPost();
    FillPlaceholder(ObjectReturnPre(), ObjectReturnPost(), e);
    AddAllNames(vars, [Decl("zval", "*ret")], "zval");
  }
}
