/**
 The identifier transcoder of the generator: `convert_typename` splits a
 CamelCase type name with the pattern `[A-Z]{1,2}[^A-Z]*` and joins the
 pieces upper-cased with `_`; `enum_name` turns that into a `GTK_TYPE_*` tag.
 */
module TypeNames {
  import opened Common

  /** What `preg_match_all` skips before the first match: the leading characters that are not capitals. */
  function SkipToUpper(s: string): (r: string)
    ensures |r| <= |s| && r == s[|s| - |r|..]
    ensures forall i :: 0 <= i < |s| - |r| ==> !IsUpper(s[i])
    ensures r == [] || IsUpper(r[0])
    decreases |s|
  {
    if s == [] || IsUpper(s[0]) then s else SkipToUpper(s[1..])
  }

  /** How far `[^A-Z]*` reaches from the start of `s`. */
  function LowerRun(s: string): (n: nat)
    ensures n <= |s|
    ensures forall i :: 0 <= i < n ==> !IsUpper(s[i])
    ensures n == |s| || IsUpper(s[n])
    decreases |s|
  {
    if s == [] || IsUpper(s[0]) then 0 else 1 + LowerRun(s[1..])
  }

  /** How many capitals the greedy `[A-Z]{1,2}` takes at the start of `s`. */
  function HeadLength(s: string): (h: nat)
    requires s != [] && IsUpper(s[0])
    ensures 1 <= h <= 2 && h <= |s|
  {
    if |s| >= 2 && IsUpper(s[1]) then 2 else 1
  }

  /** Length of the match of `[A-Z]{1,2}[^A-Z]*` that starts at the first character of `t`. */
  function MatchLength(t: string): (n: nat)
    requires t != [] && IsUpper(t[0])
    ensures 1 <= n <= |t|
    ensures n == |t| || IsUpper(t[n])
    ensures forall i :: 2 <= i < n ==> !IsUpper(t[i])
    ensures n == 1 ==> |t| == 1
  {
    var h := HeadLength(t);
    var k := LowerRun(t[h..]);
    assert forall i :: h <= i < h + k ==> t[i] == t[h..][i - h];
    h + k
  }

  /** The successive matches in a text that is empty or starts with a capital. */
  function Matches(t: string): seq<string>
    requires t == [] || IsUpper(t[0])
    decreases |t|
  {
    if t == [] then []
    else
      var n := MatchLength(t);
      [t[..n]] + Matches(t[n..])
  }

  /** The matches `preg_match_all('![A-Z]{1,2}[^A-Z]*!', s)` collects, left to right. */
  function Segments(s: string): seq<string> {
    Matches(SkipToUpper(s))
  }

  /** `convert_typename`: `"_"` followed by the upper-cased segments joined with `"_"`. */
  function ConvertTypename(typename: string): string {
    "_" + Upper(Join("_", Segments(typename)))
  }

  /** `enum_name`: the `GTK_TYPE_*` tag; a leading `_GTK` of a longer name is folded into the tag. */
  function EnumName(typename: string): (r: string)
    ensures |r| >= 8 && r[..8] == "GTK_TYPE"
    ensures var p := ConvertTypename(typename);
            if |p| > 4 && p[..4] == "_GTK" then "_GTK" + r[8..] == p else r[8..] == p
  {
    var proper := ConvertTypename(typename);
    if |proper| > 4 && proper[..4] == "_GTK" then "GTK_TYPE" + proper[4..]
    else "GTK_TYPE" + proper
  }

  // ---------------------------------------------------------------------
  // An independent description of the split, and the proof that the
  // scanner above computes exactly it.
  // ---------------------------------------------------------------------

  /** One match of `[A-Z]{1,2}[^A-Z]*`: a capital, an optional second capital, then no capitals. */
  predicate IsSegment(w: string) {
    |w| >= 1 && IsUpper(w[0]) && forall i :: 2 <= i < |w| ==> !IsUpper(w[i])
  }

  /**
   A greedy left-to-right split: every piece is a match, and a piece made of a
   single capital is the last one (otherwise `{1,2}` would have taken the
   capital that starts the next piece).
   */
  predicate IsGreedySplit(segs: seq<string>) {
    forall k :: 0 <= k < |segs| ==> IsSegment(segs[k]) && (|segs[k]| == 1 ==> k == |segs| - 1)
  }

  lemma LowerRunExact(u: string, k: nat)
    requires k <= |u|
    requires forall i :: 0 <= i < k ==> !IsUpper(u[i])
    requires k == |u| || IsUpper(u[k])
    ensures LowerRun(u) == k
  {
  }

  lemma GreedyCons(w: string, tail: seq<string>)
    requires IsSegment(w) && IsGreedySplit(tail)
    requires |w| == 1 ==> tail == []
    ensures IsGreedySplit([w] + tail)
  {
    var segs := [w] + tail;
    forall k | 0 <= k < |segs|
      ensures IsSegment(segs[k]) && (|segs[k]| == 1 ==> k == |segs| - 1)
    {
      if k > 0 {
        assert segs[k] == tail[k - 1];
      }
    }
  }

  lemma GreedyTail(segs: seq<string>)
    requires segs != [] && IsGreedySplit(segs)
    ensures IsSegment(segs[0]) && IsGreedySplit(segs[1..])
    ensures |segs[0]| == 1 ==> |segs| == 1
  {
    var tail := segs[1..];
    forall k | 0 <= k < |tail|
      ensures IsSegment(tail[k]) && (|tail[k]| == 1 ==> k == |tail| - 1)
    {
      assert tail[k] == segs[k + 1];
    }
  }

  /** The scanner's pieces are a greedy split whose concatenation is the text scanned. */
  lemma {:induction false} MatchesAreGreedySplit(t: string)
    requires t == [] || IsUpper(t[0])
    ensures Concat(Matches(t)) == t
    ensures IsGreedySplit(Matches(t))
    decreases |t|
  {
    if t != [] {
      var n := MatchLength(t);
      var w := t[..n];
      var rest := t[n..];
      MatchesAreGreedySplit(rest);
      assert Matches(t) == [w] + Matches(rest);
      ConcatCons(w, Matches(rest));
      assert w + rest == t;
      assert IsSegment(w) by {
        assert forall i :: 2 <= i < n ==> w[i] == t[i];
      }
      GreedyCons(w, Matches(rest));
    }
  }

  /** No other greedy split of the same text exists: the scanner's answer is the only one. */
  lemma {:induction false} GreedySplitIsUnique(t: string, segs: seq<string>)
    requires IsGreedySplit(segs)
    requires Concat(segs) == t
    ensures t == [] || IsUpper(t[0])
    ensures segs == Matches(t)
    decreases |segs|
  {
    if segs != [] {
      var w := segs[0];
      var tail := segs[1..];
      assert Concat(segs) == w + Concat(tail);
      var rest := Concat(tail);
      GreedyTail(segs);
      GreedySplitIsUnique(rest, tail);
      assert t == w + rest;
      assert |w| == 1 ==> rest == [] by {
        if |w| == 1 {
          assert tail == [];
        }
      }
      assert t[0] == w[0];
      SegmentLength(w, rest);
      var n := MatchLength(t);
      assert t[..n] == w;
      assert t[n..] == rest;
      assert Matches(t) == [w] + Matches(rest);
    }
  }

  /** The match the scanner finds at the start of `w + rest` is exactly `w`. */
  lemma SegmentLength(w: string, rest: string)
    requires IsSegment(w)
    requires rest == [] || IsUpper(rest[0])
    requires |w| == 1 ==> rest == []
    ensures MatchLength(w + rest) == |w|
  {
    var t := w + rest;
    if |w| >= 2 {
      var h := if IsUpper(w[1]) then 2 else 1;
      assert HeadLength(t) == h;
      assert t[h..] == w[h..] + rest;
      LowerRunExact(t[h..], |w| - h);
    }
  }

  /**
   `convert_typename(s)` is `"_"` plus the upper-cased join, with `"_"`, of
   the unique greedy split of `s` after its leading non-capitals.
   */
  lemma ConvertTypenameBySplit(s: string, segs: seq<string>)
    requires IsGreedySplit(segs)
    requires Concat(segs) == SkipToUpper(s)
    ensures ConvertTypename(s) == "_" + Upper(Join("_", segs))
  {
    GreedySplitIsUnique(SkipToUpper(s), segs);
  }

  /** The converted name starts with `_` and holds no lower-case letter. */
  lemma ConvertTypenameShape(s: string)
    ensures ConvertTypename(s)[0] == '_'
    ensures forall i :: 0 <= i < |ConvertTypename(s)| ==> !IsLower(ConvertTypename(s)[i])
  {
    var j := Join("_", Segments(s));
    UpperHasNoLower(j);
    var c := ConvertTypename(s);
    assert c == "_" + Upper(j);
    forall i | 0 <= i < |c| ensures !IsLower(c[i]) {
      if i > 0 {
        assert c[i] == Upper(j)[i - 1];
      }
    }
  }

  // Worked names. The character-level facts about each literal sit in a
  // helper of their own, away from the unfolding of the scanner.

  lemma GtkWidgetSplit()
    ensures IsGreedySplit(["Gtk", "Widget"]) && Concat(["Gtk", "Widget"]) == "GtkWidget"
    ensures SkipToUpper("GtkWidget") == "GtkWidget"
  {
    assert IsSegment("Gtk") && IsSegment("Widget");
  }

  lemma GtkWidgetText()
    ensures "_" + Upper(Join("_", ["Gtk", "Widget"])) == "_GTK_WIDGET"
  {
    assert Join("_", ["Gtk", "Widget"]) == "Gtk_Widget";
  }

  lemma GtkWidgetTag()
    ensures "_GTK_WIDGET"[..4] == "_GTK" && "GTK_TYPE" + "_GTK_WIDGET"[4..] == "GTK_TYPE_WIDGET"
  {
  }

  lemma FooBarSplit()
    ensures IsGreedySplit(["Foo", "Bar"]) && Concat(["Foo", "Bar"]) == "FooBar"
    ensures SkipToUpper("FooBar") == "FooBar"
  {
    assert IsSegment("Foo") && IsSegment("Bar");
  }

  lemma FooBarText()
    ensures "_" + Upper(Join("_", ["Foo", "Bar"])) == "_FOO_BAR"
  {
    assert Join("_", ["Foo", "Bar"]) == "Foo_Bar";
  }

  lemma FooBarTag()
    ensures "_FOO_BAR"[..4] != "_GTK" && "GTK_TYPE" + "_FOO_BAR" == "GTK_TYPE_FOO_BAR"
  {
    assert "_FOO_BAR"[..4][1] != "_GTK"[1];
  }

  lemma GtkFacts()
    ensures IsGreedySplit(["Gtk"]) && Concat(["Gtk"]) == "Gtk" && SkipToUpper("Gtk") == "Gtk"
    ensures "_" + Upper(Join("_", ["Gtk"])) == "_GTK"
    ensures "GTK_TYPE" + "_GTK" == "GTK_TYPE_GTK"
  {
    assert IsSegment("Gtk");
  }

  lemma GtkfooFacts()
    ensures IsGreedySplit(["Gtkfoo"]) && Concat(["Gtkfoo"]) == "Gtkfoo" && SkipToUpper("Gtkfoo") == "Gtkfoo"
    ensures "_" + Upper(Join("_", ["Gtkfoo"])) == "_GTKFOO"
    ensures "_GTKFOO"[..4] == "_GTK" && "GTK_TYPE" + "_GTKFOO"[4..] == "GTK_TYPEFOO"
  {
    assert IsSegment("Gtkfoo");
  }

  lemma ConvertGtkWidget()
    ensures ConvertTypename("GtkWidget") == "_GTK_WIDGET"
  {
    GtkWidgetSplit();
    GtkWidgetText();
    ConvertTypenameBySplit("GtkWidget", ["Gtk", "Widget"]);
  }

  lemma ConvertFooBar()
    ensures ConvertTypename("FooBar") == "_FOO_BAR"
  {
    FooBarSplit();
    FooBarText();
    ConvertTypenameBySplit("FooBar", ["Foo", "Bar"]);
  }

  /** `enum_name("GtkWidget")` folds the `_GTK` marker into the tag. */
  lemma EnumNameGtkWidget()
    ensures EnumName("GtkWidget") == "GTK_TYPE_WIDGET"
  {
    ConvertGtkWidget();
    GtkWidgetTag();
  }

  /** `enum_name("FooBar")` has no `_GTK` marker, so the whole converted name follows the tag. */
  lemma EnumNameFooBar()
    ensures EnumName("FooBar") == "GTK_TYPE_FOO_BAR"
  {
    ConvertFooBar();
    FooBarTag();
  }

  /** `"Gtk"` converts to exactly `"_GTK"`, which is not longer than 4, so it is kept. */
  lemma EnumNameBareGtk()
    ensures EnumName("Gtk") == "GTK_TYPE_GTK"
  {
    GtkFacts();
    ConvertTypenameBySplit("Gtk", ["Gtk"]);
  }

  /**
   The marker is compared on characters, not on segment boundaries: `"Gtkfoo"`
   converts to `"_GTKFOO"` and the tag loses its separator.
   */
  lemma EnumNameGluedMarker()
    ensures EnumName("Gtkfoo") == "GTK_TYPEFOO"
  {
    GtkfooFacts();
    ConvertTypenameBySplit("Gtkfoo", ["Gtkfoo"]);
  }
}
