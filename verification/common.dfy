/**
 Shared vocabulary for the generator model: PHP's nullable values, the
 ASCII character classes and the handful of PHP string functions
 (`strtoupper`, `strtolower`, `implode`, `strpos`) the generator relies on.
 */
module Common {

  /** A PHP value that may be `null`. */
  datatype Option<+T> = None | Some(value: T)

  predicate IsUpper(c: char) { 'A' <= c <= 'Z' }

  predicate IsLower(c: char) { 'a' <= c <= 'z' }

  /** `strtoupper` on one character, in the C locale: only ASCII letters change. */
  function UpperChar(c: char): char {
    if IsLower(c) then (c as int - 32) as char else c
  }

  /** `strtolower` on one character, in the C locale. */
  function LowerChar(c: char): char {
    if IsUpper(c) then (c as int + 32) as char else c
  }

  function Upper(s: string): string {
    seq(|s|, i requires 0 <= i < |s| => UpperChar(s[i]))
  }

  function Lower(s: string): string {
    seq(|s|, i requires 0 <= i < |s| => LowerChar(s[i]))
  }

  lemma UpperHasNoLower(s: string)
    ensures forall i :: 0 <= i < |Upper(s)| ==> !IsLower(Upper(s)[i])
  {
  }

  /** `implode(sep, parts)`. */
  function Join(sep: string, parts: seq<string>): string
    decreases |parts|
  {
    if |parts| == 0 then ""
    else if |parts| == 1 then parts[0]
    else parts[0] + sep + Join(sep, parts[1..])
  }

  /** `implode('', parts)`. */
  function Concat(parts: seq<string>): string
    decreases |parts|
  {
    if parts == [] then "" else parts[0] + Concat(parts[1..])
  }

  lemma ConcatCons(w: string, ws: seq<string>)
    ensures Concat([w] + ws) == w + Concat(ws)
  {
    assert ([w] + ws)[1..] == ws;
  }

  /** PHP truthiness of a nullable string: `null`, `""` and `"0"` are false. */
  predicate Truthy(s: Option<string>) {
    s.Some? && s.value != "" && s.value != "0"
  }

  /** The string PHP uses when a nullable string meets a string in `==`: `null` reads as `""`. */
  function TextOf(s: Option<string>): string {
    if s.Some? then s.value else ""
  }

  /** PHP's loose `==` between two nullable, non-numeric strings. */
  predicate LooseEq(a: Option<string>, b: Option<string>) {
    TextOf(a) == TextOf(b)
  }

  /** `sub` occurs in `s` starting at position `i`. */
  predicate OccursAt(s: string, sub: string, i: int) {
    0 <= i <= |s| - |sub| && s[i..i + |sub|] == sub
  }

  /** `sub` occurs somewhere in `s`. */
  predicate Contains(s: string, sub: string) {
    exists i | 0 <= i <= |s| - |sub| :: OccursAt(s, sub, i)
  }

  lemma ContainsMiddle(a: string, sub: string, b: string)
    ensures Contains(a + sub + b, sub)
  {
    var s := a + sub + b;
    assert s[|a|..|a| + |sub|] == sub;
    assert OccursAt(s, sub, |a|);
  }

  lemma ContainsSuffix(a: string, sub: string)
    ensures Contains(a + sub, sub)
  {
    ContainsMiddle(a, sub, "");
    assert a + sub + "" == a + sub;
  }

  lemma ContainsSelf(s: string)
    ensures Contains(s, s)
  {
    assert OccursAt(s, s, 0);
  }

  /** `sub` inside the middle part of `x + (a + sub + b)`. */
  lemma ContainsInner(x: string, a: string, sub: string, b: string)
    ensures Contains(x + (a + sub + b), sub)
  {
    var s := x + (a + sub + b);
    assert s[|x| + |a|..|x| + |a| + |sub|] == sub;
    assert OccursAt(s, sub, |x| + |a|);
  }

  lemma ContainsPrefix(sub: string, b: string)
    ensures Contains(sub + b, sub)
  {
    assert (sub + b)[0..|sub|] == sub;
    assert OccursAt(sub + b, sub, 0);
  }

  predicate StartsWith(s: string, prefix: string) {
    |prefix| <= |s| && s[..|prefix|] == prefix
  }

  predicate EndsWith(s: string, suffix: string) {
    |suffix| <= |s| && s[|s| - |suffix|..] == suffix
  }

  lemma StartsWithConcat(a: string, b: string)
    ensures StartsWith(a + b, a)
  {
    assert (a + b)[..|a|] == a;
  }

  lemma EndsWithConcat(a: string, b: string)
    ensures EndsWith(a + b, b)
  {
    assert (a + b)[|a|..] == b;
  }

  /** The first position of `c` in `s`, or `None` (PHP's `strpos` with a one-character needle). */
  function IndexOf(s: string, c: char): (r: Option<nat>)
    ensures r.Some? ==> r.value < |s| && s[r.value] == c && c !in s[..r.value]
    ensures r.None? <==> c !in s
    decreases |s|
  {
    if s == [] then None
    else if s[0] == c then Some(0)
    else
      match IndexOf(s[1..], c)
      case None => None
      case Some(i) =>
        assert s[1..][..i] == s[1..i + 1];
        Some(i + 1)
  }

  /** `strpos(haystack, needle) !== false`: `needle` occurs in `haystack`. */
  predicate Strpos(haystack: string, needle: string) {
    Contains(haystack, needle)
  }

  /** A needle longer than the haystack is never found. */
  lemma StrposLongerNeedle(haystack: string, needle: string)
    requires |needle| > |haystack|
    ensures !Strpos(haystack, needle)
  {
  }

  /** A return template: exactly one `%`, and it opens a `%s`. */
  predicate OnePlaceholder(t: string) {
    exists i :: 0 <= i && i + 2 <= |t| && t[i..i + 2] == "%s" && '%' !in t[..i] && '%' !in t[i + 2..]
  }

  lemma OnePlaceholderOf(pre: string, post: string)
    requires '%' !in pre && '%' !in post
    ensures OnePlaceholder(pre + "%s" + post)
  {
    var t := pre + "%s" + post;
    assert t[|pre|..|pre| + 2] == "%s";
    assert t[..|pre|] == pre;
    assert t[|pre| + 2..] == post;
  }

  /**
   What `sprintf(t, e)` yields for a template with one `%s`: the first `%`
   and the character after it are replaced by `e`.
   */
  function Fill(t: string, e: string): string {
    match IndexOf(t, '%')
    case None => t
    case Some(i) => if i + 1 < |t| then t[..i] + e + t[i + 2..] else t
  }

  lemma {:induction false} FillPlaceholder(pre: string, post: string, e: string)
    requires '%' !in pre
    ensures Fill(pre + "%s" + post, e) == pre + e + post
  {
    var t := pre + "%s" + post;
    assert t[|pre|] == '%';
    var r := IndexOf(t, '%');
    assert '%' in t;
    var i := r.value;
    assert t[..|pre|] == pre;
    assert i == |pre|;
    assert t[..i] == pre;
    assert t[i + 2..] == post;
  }
}
