/**
 * `Array.prototype.join` and `String.prototype.split` over strings, and the
 * facts that relate them.
 */
module Strings {

  /** `xs.join(sep)`. */
  function Join(xs: seq<string>, sep: string): (s: string) {
    if |xs| == 0 then ""
    else if |xs| == 1 then xs[0]
    else xs[0] + sep + Join(xs[1..], sep)
  }

  /** `s.split(c)` for a one-character separator: the pieces between the occurrences of `c`. */
  function Split(s: string, c: char): (pieces: seq<string>)
    ensures |pieces| >= 1
  {
    if |s| == 0 then [""]
    else if s[0] == c then [""] + Split(s[1..], c)
    else var rest := Split(s[1..], c); [[s[0]] + rest[0]] + rest[1..]
  }

  /** The pieces of a longer join: the first element, the separator, then the join of the rest. */
  lemma JoinCons(x: string, xs: seq<string>, sep: string)
    requires |xs| >= 1
    ensures Join([x] + xs, sep) == x + sep + Join(xs, sep)
  {
    assert ([x] + xs)[1..] == xs;
  }

  /** A prefix without the separator extends the first piece of a split. */
  lemma {:induction false} SplitPrefix(x: string, rest: string, c: char)
    requires c !in x
    ensures Split(x + rest, c) == [x + Split(rest, c)[0]] + Split(rest, c)[1..]
  {
    if x != [] {
      var s := Split(rest, c);
      assert (x + rest)[0] == x[0] != c;
      assert (x + rest)[1..] == x[1..] + rest;
      SplitPrefix(x[1..], rest, c);
      var r := Split(x[1..] + rest, c);
      assert r[0] == x[1..] + s[0] && r[1..] == s[1..];
      assert Split(x + rest, c) == [[x[0]] + r[0]] + r[1..];
      assert [x[0]] + (x[1..] + s[0]) == x + s[0];
    } else {
      var s := Split(rest, c);
      assert x + rest == rest && x + s[0] == s[0];
      assert s == [s[0]] + s[1..];
    }
  }

  /** Splitting a join recovers the elements when none of them holds the separator. */
  lemma {:induction false} SplitJoin(xs: seq<string>, c: char)
    requires |xs| >= 1
    requires forall i :: 0 <= i < |xs| ==> c !in xs[i]
    ensures Split(Join(xs, [c]), c) == xs
  {
    if |xs| == 1 {
      SplitPrefix(xs[0], "", c);
      assert xs[0] + "" == xs[0];
    } else {
      SplitJoin(xs[1..], c);
      var tail := Join(xs[1..], [c]);
      assert Join(xs, [c]) == xs[0] + ([c] + tail);
      SplitPrefix(xs[0], [c] + tail, c);
      assert ([c] + tail)[1..] == tail;
      assert Split([c] + tail, c) == [""] + xs[1..];
      assert xs[0] + "" == xs[0];
    }
  }
}
