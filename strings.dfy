/**
 * Reference definitions of JavaScript's `String.prototype.split` with a
 * one-character separator and `Array.prototype.join`. blog.js calls only
 * `join` (in `posts.map(...).join('')`); `Split` and `Join` together are
 * the reference the global LF replacement of `formatContent` is proved
 * equal to. Also a template literal as literal pieces and interpolations.
 */
module Strings {

  /** `s.split(sep)` for a one-character separator: the pieces of `s` between
      occurrences of `sep`, in order, including empty pieces; `"".split(sep)`
      is `[""]`. */
  function Split(s: string, sep: char): (parts: seq<string>)
    ensures |parts| >= 1
    ensures forall i :: 0 <= i < |parts| ==> sep !in parts[i]
  {
    if s == [] then [[]]
    else
      var rest := Split(s[1..], sep);
      if s[0] == sep then [[]] + rest
      else [[s[0]] + rest[0]] + rest[1..]
  }

  /** `parts.join(sep)`: the parts in order with `sep` between neighbours;
      `[].join(sep)` is `""`. */
  function Join(parts: seq<string>, sep: string): string
  {
    if |parts| == 0 then []
    else if |parts| == 1 then parts[0]
    else parts[0] + sep + Join(parts[1..], sep)
  }

  /** `part` occurs somewhere in `s` as a contiguous substring. */
  predicate Contains(s: string, part: string)
  {
    exists i, j :: 0 <= i <= j <= |s| && s[i..j] == part
  }

  lemma ContainsMiddle(a: string, m: string, b: string)
    ensures Contains(a + m + b, m)
  {
    var s := a + m + b;
    assert s[|a|..|a| + |m|] == m;
  }

  /** `s.endsWith(suffix)`. */
  predicate EndsWith(s: string, suffix: string)
  {
    |suffix| <= |s| && s[|s| - |suffix|..] == suffix
  }

  /** A substring of `s` is a substring of `s` with text around it. */
  lemma ContainsWithin(a: string, s: string, b: string, m: string)
    requires Contains(s, m)
    ensures Contains(a + s + b, m)
  {
    var i, j :| 0 <= i <= j <= |s| && s[i..j] == m;
    assert (a + s + b)[|a| + i..|a| + j] == m;
  }

  /** A template literal: `pieces[0]`, then `holes[0]`, then `pieces[1]`, and
      so on, ending with the last piece; the literal text and the values
      interpolated into it alternate. */
  function Fill(pieces: seq<string>, holes: seq<string>): string
    requires |pieces| == |holes| + 1
  {
    if |holes| == 0 then pieces[0]
    else pieces[0] + holes[0] + Fill(pieces[1..], holes[1..])
  }

  /** Every interpolated value appears in the filled template. */
  lemma {:induction false} FillContains(pieces: seq<string>, holes: seq<string>, k: nat)
    requires |pieces| == |holes| + 1 && k < |holes|
    ensures Contains(Fill(pieces, holes), holes[k])
  {
    var rest := Fill(pieces[1..], holes[1..]);
    if k == 0 {
      ContainsMiddle(pieces[0], holes[0], rest);
    } else {
      FillContains(pieces[1..], holes[1..], k - 1);
      ContainsWithin(pieces[0] + holes[0], rest, [], holes[k]);
      assert pieces[0] + holes[0] + rest + [] == Fill(pieces, holes);
    }
  }

  /** The filled template begins with the first piece and ends with the
      last one. */
  lemma {:induction false} FillEnds(pieces: seq<string>, holes: seq<string>)
    requires |pieces| == |holes| + 1
    ensures pieces[0] <= Fill(pieces, holes)
    ensures EndsWith(Fill(pieces, holes), pieces[|holes|])
  {
    if |holes| > 0 {
      FillEnds(pieces[1..], holes[1..]);
    }
  }

  /** Prefixing the first part prefixes the joined string. */
  lemma {:induction false} JoinPrepend(a: string, parts: seq<string>, sep: string)
    requires |parts| >= 1
    ensures Join([a + parts[0]] + parts[1..], sep) == a + Join(parts, sep)
  {
    var q := [a + parts[0]] + parts[1..];
    if |parts| > 1 {
      assert q[1..] == parts[1..];
      assert Join(q, sep) == (a + parts[0]) + sep + Join(parts[1..], sep);
    }
  }

  /** Joining with the empty separator distributes over concatenation. */
  lemma {:induction false} JoinConcat(a: seq<string>, b: seq<string>)
    ensures Join(a + b, "") == Join(a, "") + Join(b, "")
  {
    if a == [] {
      assert a + b == b;
    } else if b == [] {
      assert a + b == a;
    } else {
      JoinConcat(a[1..], b);
      assert (a + b)[1..] == a[1..] + b;
      if |a| == 1 {
        assert a[1..] + b == b;
      }
    }
  }

  /** Splitting then joining with the same separator gives back the string. */
  lemma {:induction false} SplitJoin(s: string, sep: char)
    ensures Join(Split(s, sep), [sep]) == s
  {
    if s != [] {
      var rest := Split(s[1..], sep);
      SplitJoin(s[1..], sep);
      if s[0] == sep {
        assert ([[]] + rest)[1..] == rest;
      } else {
        JoinPrepend([s[0]], rest, [sep]);
      }
    }
  }

  /** Splitting a string whose first piece is `a` (free of `sep`) puts `a`
      in front of the first piece. */
  lemma {:induction false} SplitPrefix(a: string, b: string, sep: char)
    requires sep !in a
    ensures var rest := Split(b, sep);
            Split(a + b, sep) == [a + rest[0]] + rest[1..]
  {
    if a != [] {
      SplitPrefix(a[1..], b, sep);
      assert (a + b)[1..] == a[1..] + b;
      assert (a + b)[0] == a[0];
      assert [a[0]] + (a[1..] + Split(b, sep)[0]) == a + Split(b, sep)[0];
    } else {
      var rest := Split(b, sep);
      assert a + b == b;
      assert a + rest[0] == rest[0];
      assert [rest[0]] + rest[1..] == rest;
    }
  }

  /** Joining pieces free of `sep` and splitting again gives back the pieces. */
  lemma {:induction false} JoinSplit(parts: seq<string>, sep: char)
    requires |parts| >= 1
    requires forall i :: 0 <= i < |parts| ==> sep !in parts[i]
    ensures Split(Join(parts, [sep]), sep) == parts
  {
    if |parts| == 1 {
      SplitPrefix(parts[0], [], sep);
      assert parts[0] + [] == parts[0];
    } else {
      var tail := Join(parts[1..], [sep]);
      JoinSplit(parts[1..], sep);
      SplitPrefix(parts[0], [sep] + tail, sep);
      assert ([sep] + tail)[1..] == tail;
      var r := Split([sep] + tail, sep);
      assert r == [[]] + parts[1..];
      assert r[0] == [] && r[1..] == parts[1..];
      assert parts[0] + ([sep] + tail) == parts[0] + [sep] + tail;
      assert parts[0] + r[0] == parts[0];
      assert [parts[0]] + parts[1..] == parts;
    }
  }

  /** There is one more piece than there are separators. */
  lemma {:induction false} SplitCount(s: string, sep: char)
    ensures |Split(s, sep)| == multiset(s)[sep] + 1
  {
    if s != [] {
      SplitCount(s[1..], sep);
      assert s == [s[0]] + s[1..];
      assert multiset(s) == multiset([s[0]]) + multiset(s[1..]);
    }
  }
}
