/** The parts of the PHP runtime that the phrase classes lean on: `empty()` on a
    string, the completeness count built from it, `implode()` and `explode()`
    with a one-character separator. Strings are sequences of characters. */
module Php {

  /** PHP's `empty()` applied to a string: true for "" and also for "0". */
  predicate Empty(s: string) {
    s == "" || s == "0"
  }

  /** The number of values for which `empty()` is false, counted front to back
      as the completeness loops of both phrase classes do. */
  function CountFilled(vs: seq<string>): (n: nat)
    ensures n <= |vs|
    ensures n == 0 <==> forall i :: 0 <= i < |vs| ==> Empty(vs[i])
    ensures n == |vs| <==> forall i :: 0 <= i < |vs| ==> !Empty(vs[i])
  {
    if vs == [] then 0
    else
      var init := vs[..|vs| - 1];
      assert forall i :: 0 <= i < |init| ==> init[i] == vs[i];
      CountFilled(init) + (if Empty(vs[|vs| - 1]) then 0 else 1)
  }

  /** `implode(sep, parts)`: the parts with `sep` between neighbours. */
  function Join(sep: string, parts: seq<string>): string {
    if parts == [] then ""
    else if |parts| == 1 then parts[0]
    else parts[0] + sep + Join(sep, parts[1..])
  }

  /** `explode(c, s)` for a one-character separator: the maximal pieces of `s`
      between occurrences of `c`; there is always at least one piece. */
  function Split(s: string, c: char): (pieces: seq<string>)
    ensures |pieces| >= 1
  {
    if s == [] then [""]
    else
      var rest := Split(s[1..], c);
      if s[0] == c then [""] + rest else [[s[0]] + rest[0]] + rest[1..]
  }

  /** Each part followed by a line break, in order: what a loop doing
      `$out .= $part . "\n"` builds. */
  function Lines(parts: seq<string>): string {
    if parts == [] then ""
    else Lines(parts[..|parts| - 1]) + parts[|parts| - 1] + "\n"
  }

  /** Every part gets `t` appended, except the last one. */
  function Terminated(parts: seq<string>, t: string): (r: seq<string>)
    ensures |r| == |parts|
  {
    seq(|parts|, i requires 0 <= i < |parts| => if i < |parts| - 1 then parts[i] + t else parts[i])
  }

  /** A string without the separator is a single piece. */
  lemma {:induction false} SplitFree(s: string, c: char)
    requires c !in s
    ensures Split(s, c) == [s]
  {
    if s != [] {
      assert c !in s[1..] by {
        forall x | x in s[1..] ensures x != c {
          var k :| 0 <= k < |s[1..]| && s[1..][k] == x;
          assert s[k + 1] == x;
        }
      }
      SplitFree(s[1..], c);
      assert [s[0]] + s[1..] == s;
    }
  }

  /** Splitting distributes over a separator occurrence. */
  lemma {:induction false} SplitConcat(x: string, c: char, y: string)
    ensures Split(x + [c] + y, c) == Split(x, c) + Split(y, c)
  {
    var s := x + [c] + y;
    if x == [] {
      assert s[0] == c && s[1..] == y;
    } else {
      assert s[0] == x[0];
      assert s[1..] == x[1..] + [c] + y;
      SplitConcat(x[1..], c, y);
    }
  }

  /** A separator-free line followed by the separator is the first piece. */
  lemma {:induction false} SplitFirst(x: string, c: char, y: string)
    requires c !in x
    ensures Split(x + [c] + y, c) == [x] + Split(y, c)
  {
    SplitConcat(x, c, y);
    SplitFree(x, c);
  }

  /** `explode("\n", ...)` recovers the parts of `Lines`, and an empty last
      piece for the final line break. */
  lemma {:induction false} SplitLines(parts: seq<string>, rest: string)
    requires forall i :: 0 <= i < |parts| ==> '\n' !in parts[i]
    ensures Split(Lines(parts) + rest, '\n') == parts + Split(rest, '\n')
  {
    if parts == [] {
      assert Lines(parts) + rest == rest;
    } else {
      var init := parts[..|parts| - 1];
      var last := parts[|parts| - 1];
      var tail := last + ['\n'] + rest;
      calc {
        Split(Lines(parts) + rest, '\n');
      == { assert Lines(parts) + rest == Lines(init) + tail; }
        Split(Lines(init) + tail, '\n');
      == { SplitLines(init, tail); }
        init + Split(tail, '\n');
      == { SplitFirst(last, '\n', rest); }
        init + ([last] + Split(rest, '\n'));
      == { assert parts == init + [last]; }
        parts + Split(rest, '\n');
      }
    }
  }

  /** Appending one more part appends that part and a line break. */
  lemma {:induction false} LinesSnoc(parts: seq<string>, p: string)
    ensures Lines(parts + [p]) == Lines(parts) + p + "\n"
  {
    assert (parts + [p])[..|parts|] == parts;
  }

  /** `explode("\n", ...)` on the output of `Lines` gives back the parts and
      one empty piece after the final line break. */
  lemma {:induction false} SplitAllLines(parts: seq<string>)
    requires forall i :: 0 <= i < |parts| ==> '\n' !in parts[i]
    ensures Split(Lines(parts), '\n') == parts + [""]
  {
    SplitLines(parts, "");
    assert Lines(parts) + "" == Lines(parts);
  }

  /** `explode` undoes `implode` when no part contains the separator. */
  lemma {:induction false} SplitJoin(parts: seq<string>, c: char)
    requires |parts| >= 1
    requires forall i :: 0 <= i < |parts| ==> c !in parts[i]
    ensures Split(Join([c], parts), c) == parts
  {
    if |parts| == 1 {
      SplitFree(parts[0], c);
    } else {
      SplitJoin(parts[1..], c);
      SplitFree(parts[0], c);
      SplitConcat(parts[0], c, Join([c], parts[1..]));
      assert [parts[0]] + parts[1..] == parts;
    }
  }

  /** Joining with `a + b` is joining with `b` after appending `a` to every
      part but the last: `implode(",\n", xs)` is a sequence of lines ending
      in a comma, except the last. */
  lemma {:induction false} JoinTerminated(a: string, b: string, parts: seq<string>)
    ensures Join(a + b, parts) == Join(b, Terminated(parts, a))
  {
    if |parts| > 1 {
      var t := Terminated(parts, a);
      JoinTerminated(a, b, parts[1..]);
      assert t[1..] == Terminated(parts[1..], a);
      assert t[0] == parts[0] + a;
      assert Join(b, t) == t[0] + b + Join(b, t[1..]);
    }
  }
}
