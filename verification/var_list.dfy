/**
 The declaration collector (`Var_List`): C declarations grouped by their C
 type. Types keep the order in which each was first added, names keep the
 order of their `add` calls, duplicates included. Rendering gives one
 `"\t<type> a, b;\n"` line per type and a closing blank line, or nothing.
 */
module VarLists {
  import opened Common

  /** All declarations of one C type, in the order they were added. */
  datatype Group = Group(cType: string, names: seq<string>)

  /** `Var_List::$vars`: the PHP array keyed by C type, in key-insertion order. */
  datatype VarList = VarList(groups: seq<Group>)

  const Empty: VarList := VarList([])

  /** The keys of the array, in order. */
  function TypesOf(gs: seq<Group>): (r: seq<string>)
    ensures |r| == |gs|
    ensures forall i :: 0 <= i < |gs| ==> r[i] == gs[i].cType
    decreases |gs|
  {
    if gs == [] then [] else [gs[0].cType] + TypesOf(gs[1..])
  }

  /** `$vars[$t]`: the names declared with C type `t`, or none. */
  function NamesIn(gs: seq<Group>, t: string): seq<string>
    decreases |gs|
  {
    if gs == [] then []
    else if gs[0].cType == t then gs[0].names
    else NamesIn(gs[1..], t)
  }

  /** How many declarations the list holds. */
  function Size(gs: seq<Group>): nat
    decreases |gs|
  {
    if gs == [] then 0 else |gs[0].names| + Size(gs[1..])
  }

  /** The shape `add` keeps: one group per type, none of them empty. */
  predicate Valid(v: VarList) {
    Distinct(v.groups) && forall i :: 0 <= i < |v.groups| ==> v.groups[i].names != []
  }

  predicate Distinct(gs: seq<Group>) {
    forall i, j :: 0 <= i < j < |gs| ==> gs[i].cType != gs[j].cType
  }

  function AddTo(gs: seq<Group>, t: string, n: string): (r: seq<Group>)
    ensures NamesIn(r, t) == NamesIn(gs, t) + [n]
    ensures Size(r) == Size(gs) + 1
    decreases |gs|
  {
    if gs == [] then [Group(t, [n])]
    else if gs[0].cType == t then [Group(t, gs[0].names + [n])] + gs[1..]
    else [gs[0]] + AddTo(gs[1..], t, n)
  }

  /** `add` appends a type only when it is new. */
  lemma {:induction false} AddToTypes(gs: seq<Group>, t: string, n: string)
    ensures TypesOf(AddTo(gs, t, n)) == if t in TypesOf(gs) then TypesOf(gs) else TypesOf(gs) + [t]
    decreases |gs|
  {
    if gs != [] {
      var r := AddTo(gs, t, n);
      assert TypesOf(gs) == [gs[0].cType] + TypesOf(gs[1..]);
      if gs[0].cType == t {
        assert r[1..] == gs[1..];
        assert TypesOf(r) == [t] + TypesOf(r[1..]);
      } else {
        var rest := AddTo(gs[1..], t, n);
        AddToTypes(gs[1..], t, n);
        assert r[1..] == rest;
        assert TypesOf(r) == [gs[0].cType] + TypesOf(rest);
        assert t in TypesOf(gs) <==> t in TypesOf(gs[1..]);
      }
    }
  }

  /** `add` leaves every other type's names alone and opens no empty group. */
  lemma {:induction false} AddToOthers(gs: seq<Group>, t: string, n: string, u: string)
    requires u != t
    ensures NamesIn(AddTo(gs, t, n), u) == NamesIn(gs, u)
    decreases |gs|
  {
    if gs != [] && gs[0].cType != t {
      AddToOthers(gs[1..], t, n, u);
    }
  }

  /** `add` never makes a second group for a type. */
  lemma AddToDistinct(gs: seq<Group>, t: string, n: string)
    requires Distinct(gs)
    ensures Distinct(AddTo(gs, t, n))
  {
    var r := AddTo(gs, t, n);
    AddToTypes(gs, t, n);
    var ts := TypesOf(gs);
    assert |TypesOf(r)| == |r|;
    forall i, j | 0 <= i < j < |r| ensures r[i].cType != r[j].cType {
      assert r[i].cType == TypesOf(r)[i] && r[j].cType == TypesOf(r)[j];
      if j < |gs| {
        assert TypesOf(r)[i] == ts[i] && TypesOf(r)[j] == ts[j];
      } else {
        assert TypesOf(r)[j] == t && TypesOf(r)[i] == ts[i];
      }
    }
  }

  lemma {:induction false} AddToNonEmpty(gs: seq<Group>, t: string, n: string)
    requires forall i :: 0 <= i < |gs| ==> gs[i].names != []
    ensures forall i :: 0 <= i < |AddTo(gs, t, n)| ==> AddTo(gs, t, n)[i].names != []
    decreases |gs|
  {
    if gs != [] && gs[0].cType != t {
      AddToNonEmpty(gs[1..], t, n);
    }
  }

  /**
   `Var_List::add`: appends `name` under `cType`, opening a new group at the
   end when `cType` has not been seen.
   */
  function Add(v: VarList, cType: string, name: string): (r: VarList)
    requires Valid(v)
    ensures Valid(r)
    ensures TypesOf(r.groups) == if cType in TypesOf(v.groups) then TypesOf(v.groups) else TypesOf(v.groups) + [cType]
    ensures NamesIn(r.groups, cType) == NamesIn(v.groups, cType) + [name]
    ensures forall u :: u != cType ==> NamesIn(r.groups, u) == NamesIn(v.groups, u)
    ensures Size(r.groups) == Size(v.groups) + 1
  {
    var r := VarList(AddTo(v.groups, cType, name));
    AddToTypes(v.groups, cType, name);
    AddToNonEmpty(v.groups, cType, name);
    AddToDistinct(v.groups, cType, name);
    forall u | u != cType ensures NamesIn(r.groups, u) == NamesIn(v.groups, u) {
      AddToOthers(v.groups, cType, name, u);
    }
    r
  }

  /** One rendered line: `"\t<type> a, b;\n"`. */
  function Line(g: Group): string {
    "\t" + g.cType + " " + Join(", ", g.names) + ";\n"
  }

  /** The lines of the groups, in order. */
  function Lines(gs: seq<Group>): (r: seq<string>)
    ensures |r| == |gs|
  {
    seq(|gs|, i requires 0 <= i < |gs| => Line(gs[i]))
  }

  /** `Var_List::to_string`. */
  function ToString(v: VarList): string {
    if v.groups == [] then ""
    else Concat(Lines(v.groups)) + "\n"
  }

  // ---------------------------------------------------------------------
  // The reference reading: a list is the log of its `add` calls.
  // ---------------------------------------------------------------------

  /** The list after the calls `add(log[0].0, log[0].1)`, `add(log[1].0, log[1].1)`, ... */
  function FromLog(log: seq<(string, string)>): (v: VarList)
    ensures Valid(v)
    decreases |log|
  {
    if log == [] then Empty
    else Add(FromLog(log[..|log| - 1]), log[|log| - 1].0, log[|log| - 1].1)
  }

  /** The distinct types of the log, each where it first appears. */
  function FirstSeen(log: seq<(string, string)>): seq<string>
    decreases |log|
  {
    if log == [] then []
    else
      var d := FirstSeen(log[..|log| - 1]);
      if log[|log| - 1].0 in d then d else d + [log[|log| - 1].0]
  }

  /** The names logged with type `t`, in log order. */
  function NamesFor(log: seq<(string, string)>, t: string): seq<string>
    decreases |log|
  {
    if log == [] then []
    else NamesFor(log[..|log| - 1], t) + (if log[|log| - 1].0 == t then [log[|log| - 1].1] else [])
  }

  /** The text `to_string` promises for a log: one line per distinct type, then a blank line. */
  function Rendered(log: seq<(string, string)>): string {
    var ts := FirstSeen(log);
    if log == [] then ""
    else Concat(LogLines(log, ts)) + "\n"
  }

  function LogLines(log: seq<(string, string)>, ts: seq<string>): (r: seq<string>)
    ensures |r| == |ts|
  {
    seq(|ts|, i requires 0 <= i < |ts| => LogLine(log, ts[i]))
  }

  /** The reference line of type `t`: every name logged with it. */
  function LogLine(log: seq<(string, string)>, t: string): string {
    "\t" + t + " " + Join(", ", NamesFor(log, t)) + ";\n"
  }

  /** Types come in first-added order and each type's names in add order. */
  lemma {:induction false} FromLogGroups(log: seq<(string, string)>)
    ensures TypesOf(FromLog(log).groups) == FirstSeen(log)
    ensures forall t :: NamesIn(FromLog(log).groups, t) == NamesFor(log, t)
    ensures |FromLog(log).groups| == |FirstSeen(log)|
    ensures Size(FromLog(log).groups) == |log|
    decreases |log|
  {
    if log != [] {
      FromLogGroups(log[..|log| - 1]);
    }
  }

  /** With one group per type, a group's names are what a lookup of its type yields. */
  lemma {:induction false} GroupNamesByLookup(v: VarList, i: nat)
    requires Valid(v) && i < |v.groups|
    ensures NamesIn(v.groups, v.groups[i].cType) == v.groups[i].names
    decreases i
  {
    if i > 0 {
      var w := VarList(v.groups[1..]);
      assert v.groups[i] == w.groups[i - 1];
      assert v.groups[0].cType != v.groups[i].cType;
      GroupNamesByLookup(w, i - 1);
    }
  }

  /** `to_string` renders exactly the reference text of the log of `add` calls. */
  lemma ToStringFromLog(log: seq<(string, string)>)
    ensures ToString(FromLog(log)) == Rendered(log)
  {
    if log != [] {
      var v := FromLog(log);
      FromLogGroups(log);
      assert v.groups != [] by {
        assert Size(v.groups) == |log| > 0;
      }
      LinesFromLog(log);
    }
  }

  /** Group by group, the list built from a log renders the reference lines. */
  lemma LinesFromLog(log: seq<(string, string)>)
    ensures Lines(FromLog(log).groups) == LogLines(log, FirstSeen(log))
  {
    var a := Lines(FromLog(log).groups);
    var b := LogLines(log, FirstSeen(log));
    FromLogGroups(log);
    forall i | 0 <= i < |a| ensures a[i] == b[i] {
      LineFromLog(log, i);
    }
  }

  /** The `i`-th group of the list built from a log renders as the reference line of its type. */
  lemma LineFromLog(log: seq<(string, string)>, i: nat)
    requires i < |FromLog(log).groups|
    ensures i < |FirstSeen(log)| && Line(FromLog(log).groups[i]) == LogLine(log, FirstSeen(log)[i])
  {
    var v := FromLog(log);
    FromLogGroups(log);
    GroupNamesByLookup(v, i);
    assert v.groups[i].cType == TypesOf(v.groups)[i];
  }

  /** `to_string` returns `""` exactly when nothing was added. */
  lemma ToStringEmptyIff(log: seq<(string, string)>)
    ensures ToString(FromLog(log)) == "" <==> log == []
  {
    FromLogGroups(log);
    if log != [] {
      var last := log[|log| - 1].0;
      var d := FirstSeen(log[..|log| - 1]);
      assert last in d ==> d != [];
      assert FirstSeen(log) != [];
      var s := ToString(FromLog(log));
      assert s[|s| - 1] == '\n';
    }
  }

  /** Two groups render as their two lines and the closing blank line. */
  lemma RenderTwo(g1: Group, g2: Group)
    ensures ToString(VarList([g1, g2])) == Line(g1) + Line(g2) + "\n"
  {
    var v := VarList([g1, g2]);
    var lines := Lines(v.groups);
    assert lines == [Line(g1)] + [Line(g2)];
    ConcatCons(Line(g1), [Line(g2)]);
    ConcatCons(Line(g2), []);
    assert [Line(g2)] + [] == [Line(g2)];
    assert Concat(lines) == Line(g1) + Line(g2);
  }

  lemma RenderTwoGroups()
    ensures ToString(VarList([Group("int", ["x", "y=2"]), Group("char", ["z"])])) == "\tint x, y=2;\n\tchar z;\n\n"
  {
    RenderTwo(Group("int", ["x", "y=2"]), Group("char", ["z"]));
    IntLine();
    CharLine();
  }

  lemma IntLine()
    ensures Line(Group("int", ["x", "y=2"])) == "\tint x, y=2;\n"
  {
    assert Join(", ", ["x", "y=2"]) == "x, y=2";
  }

  lemma CharLine()
    ensures Line(Group("char", ["z"])) == "\tchar z;\n"
  {
  }

  /** Interleaved types are still grouped: `int x`, `char z`, `int y=2` render as two lines. */
  lemma ToStringGroupsInterleaved()
    ensures ToString(Add(Add(Add(Empty, "int", "x"), "char", "z"), "int", "y=2"))
         == "\tint x, y=2;\n\tchar z;\n\n"
  {
    InterleavedGroups();
    RenderTwoGroups();
  }

  lemma InterleavedGroups()
    ensures Add(Add(Add(Empty, "int", "x"), "char", "z"), "int", "y=2")
         == VarList([Group("int", ["x", "y=2"]), Group("char", ["z"])])
  {
    var v1 := Add(Empty, "int", "x");
    assert v1.groups == [Group("int", ["x"])];
    var v2 := Add(v1, "char", "z");
    assert v2.groups == [Group("int", ["x"])] + AddTo([], "char", "z");
    assert v2.groups == [Group("int", ["x"]), Group("char", ["z"])];
    var v := Add(v2, "int", "y=2");
    assert v.groups == [Group("int", ["x"] + ["y=2"])] + v2.groups[1..];
    assert ["x"] + ["y=2"] == ["x", "y=2"];
  }
}
