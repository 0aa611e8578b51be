/** Go's `strings.Split` and `strings.Join` for a one-character separator. */
module Strings {

  /** The pieces of `s` between occurrences of `sep`, in order. Like Go's
      `strings.Split(s, string(sep))` it always yields at least one piece:
      `Split("", sep) == [""]`, and a trailing separator yields a trailing `""`. */
  function Split(s: string, sep: char): (parts: seq<string>)
    ensures |parts| >= 1
    ensures forall i :: 0 <= i < |parts| ==> sep !in parts[i]
    decreases |s|
  {
    if |s| == 0 then [""]
    else
      var rest := Split(s[1..], sep);
      if s[0] == sep then [""] + rest
      else [[s[0]] + rest[0]] + rest[1..]
  }

  /** The pieces joined with `sep` between consecutive ones, as Go's `strings.Join`. */
  function Join(parts: seq<string>, sep: char): string
  {
    if |parts| == 0 then ""
    else if |parts| == 1 then parts[0]
    else parts[0] + [sep] + Join(parts[1..], sep)
  }

  /** Joining the pieces of a split gives back the original string. */
  lemma {:induction false} JoinSplit(s: string, sep: char)
    ensures Join(Split(s, sep), sep) == s
    decreases |s|
  {
    if |s| > 0 {
      var rest := Split(s[1..], sep);
      JoinSplit(s[1..], sep);
      var parts := Split(s, sep);
      if s[0] == sep {
        assert parts == [""] + rest;
        assert parts[1..] == rest;
      } else {
        assert parts == [[s[0]] + rest[0]] + rest[1..];
        if |rest| == 1 {
          assert Join(parts, sep) == [s[0]] + rest[0];
        } else {
          assert parts[1..] == rest[1..];
          assert Join(rest, sep) == rest[0] + [sep] + Join(rest[1..], sep);
          assert Join(parts, sep) == [s[0]] + rest[0] + [sep] + Join(rest[1..], sep);
        }
      }
      assert s == [s[0]] + s[1..];
    }
  }

  /** A string without the separator splits into itself alone. */
  lemma {:induction false} SplitWithoutSeparator(s: string, sep: char)
    requires sep !in s
    ensures Split(s, sep) == [s]
    decreases |s|
  {
    if |s| > 0 {
      SplitWithoutSeparator(s[1..], sep);
      assert [s[0]] + s[1..] == s;
    }
  }

  /** Splitting at a first separator: the piece before it, then the pieces of the rest. */
  lemma {:induction false} SplitAtSeparator(p: string, t: string, sep: char)
    requires sep !in p
    ensures Split(p + [sep] + t, sep) == [p] + Split(t, sep)
    decreases |p|
  {
    var s := p + [sep] + t;
    if |p| == 0 {
      assert s[1..] == t;
    } else {
      assert s[1..] == p[1..] + [sep] + t;
      SplitAtSeparator(p[1..], t, sep);
      assert [p[0]] + p[1..] == p;
    }
  }

  /** Splitting a join of separator-free pieces gives back the pieces: with `JoinSplit`,
      `Split` and `Join` are inverse bijections between strings and non-empty sequences
      of separator-free pieces. */
  lemma {:induction false} SplitJoin(parts: seq<string>, sep: char)
    requires |parts| >= 1
    requires forall i :: 0 <= i < |parts| ==> sep !in parts[i]
    ensures Split(Join(parts, sep), sep) == parts
    decreases |parts|
  {
    if |parts| == 1 {
      SplitWithoutSeparator(parts[0], sep);
    } else {
      SplitJoin(parts[1..], sep);
      SplitAtSeparator(parts[0], Join(parts[1..], sep), sep);
      assert [parts[0]] + parts[1..] == parts;
    }
  }

  /** A join of two or more pieces ends with a separator followed by the last piece. */
  lemma {:induction false} JoinLast(parts: seq<string>, sep: char)
    requires |parts| >= 2
    ensures Join(parts, sep) == Join(parts[..|parts| - 1], sep) + [sep] + parts[|parts| - 1]
    decreases |parts|
  {
    var n := |parts|;
    if n == 2 {
      assert parts[..1] == [parts[0]];
    } else {
      JoinLast(parts[1..], sep);
      assert parts[1..][..n - 2] == parts[..n - 1][1..];
      assert parts[..n - 1][0] == parts[0];
    }
  }

  /** The first piece of a split is the text before the first separator (all of `s` when it has none). */
  lemma FirstPiece(s: string, sep: char)
    ensures |Split(s, sep)[0]| <= |s|
    ensures s[..|Split(s, sep)[0]|] == Split(s, sep)[0]
    ensures |Split(s, sep)[0]| == |s| || s[|Split(s, sep)[0]|] == sep
  {
    var parts := Split(s, sep);
    JoinSplit(s, sep);
    if |parts| > 1 {
      assert s == parts[0] + ([sep] + Join(parts[1..], sep));
    }
  }

  /** The last piece of a split is the text after the last separator (all of `s` when it has none). */
  lemma LastPiece(s: string, sep: char)
    ensures |Split(s, sep)[|Split(s, sep)| - 1]| <= |s|
    ensures s[|s| - |Split(s, sep)[|Split(s, sep)| - 1]|..] == Split(s, sep)[|Split(s, sep)| - 1]
    ensures var k := |s| - |Split(s, sep)[|Split(s, sep)| - 1]|; k == 0 || s[k - 1] == sep
  {
    var parts := Split(s, sep);
    var last := parts[|parts| - 1];
    JoinSplit(s, sep);
    if |parts| > 1 {
      JoinLast(parts, sep);
      var front := Join(parts[..|parts| - 1], sep) + [sep];
      assert s == front + last;
      assert s[|front|..] == last;
      assert s[|front| - 1] == sep;
    }
  }
}
