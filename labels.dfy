/**
 * Foundation's `components(separatedBy:)` and `joined(separator:)` for a
 * one-character separator, and how they undo each other.
 */
module Labels {

  /**
   * The pieces of `s` between occurrences of `sep`. There is always at least
   * one piece: the empty string splits into one empty piece, and two adjacent
   * separators leave an empty piece between them.
   */
  function Split(s: string, sep: char): (parts: seq<string>)
    ensures |parts| >= 1
    ensures forall i :: 0 <= i < |parts| ==> sep !in parts[i]
    decreases |s|
  {
    if |s| == 0 then [""]
    else
      var rest := Split(s[1..], sep);
      if s[0] == sep then [""] + rest
      else [[s[0]] + rest[0]] + rest[1..]
  }

  /** The pieces with one `sep` between each two neighbours. */
  function Join(parts: seq<string>, sep: char): string
  {
    if |parts| == 0 then ""
    else if |parts| == 1 then parts[0]
    else parts[0] + [sep] + Join(parts[1..], sep)
  }

  /** No piece contains the separator. */
  predicate Separated(parts: seq<string>, sep: char) {
    forall i :: 0 <= i < |parts| ==> sep !in parts[i]
  }

  /** Splitting and joining again gives the string back. */
  lemma {:induction false} JoinSplit(s: string, sep: char)
    ensures Join(Split(s, sep), sep) == s
    decreases |s|
  {
    if |s| > 0 {
      JoinSplit(s[1..], sep);
      var rest := Split(s[1..], sep);
      if s[0] == sep {
        assert Join([""] + rest, sep) == "" + [sep] + Join(rest, sep) by {
          assert ([""] + rest)[1..] == rest;
        }
        assert s == [s[0]] + s[1..];
      } else {
        var parts := [[s[0]] + rest[0]] + rest[1..];
        if |rest| == 1 {
          assert parts == [[s[0]] + rest[0]];
        } else {
          assert parts[1..] == rest[1..];
          assert Join(rest, sep) == rest[0] + [sep] + Join(rest[1..], sep);
        }
        assert s == [s[0]] + s[1..];
      }
    }
  }

  /** A string without the separator is a single piece. */
  lemma {:induction false} SplitWithoutSeparator(s: string, sep: char)
    requires sep !in s
    ensures Split(s, sep) == [s]
    decreases |s|
  {
    if |s| > 0 {
      assert sep !in s[1..] by {
        forall i | 0 <= i < |s| - 1 ensures s[1..][i] != sep { assert s[1..][i] == s[i + 1]; }
      }
      SplitWithoutSeparator(s[1..], sep);
      assert [s[0]] + s[1..] == s;
    }
  }

  /** A separator-free head followed by the separator splits off as one piece. */
  lemma {:induction false} SplitAfterHead(head: string, sep: char, tail: string)
    requires sep !in head
    ensures Split(head + [sep] + tail, sep) == [head] + Split(tail, sep)
    decreases |head|
  {
    var s := head + [sep] + tail;
    if |head| == 0 {
      assert s == [sep] + tail;
      assert s[1..] == tail;
    } else {
      assert s[1..] == head[1..] + [sep] + tail;
      assert sep !in head[1..] by {
        forall i | 0 <= i < |head| - 1 ensures head[1..][i] != sep { assert head[1..][i] == head[i + 1]; }
      }
      SplitAfterHead(head[1..], sep, tail);
      assert s[0] == head[0];
      assert [head[0]] + head[1..] == head;
    }
  }

  /** Joining separator-free pieces and splitting again gives the pieces back. */
  lemma {:induction false} SplitJoin(parts: seq<string>, sep: char)
    requires |parts| >= 1 && Separated(parts, sep)
    ensures Split(Join(parts, sep), sep) == parts
    decreases |parts|
  {
    if |parts| == 1 {
      SplitWithoutSeparator(parts[0], sep);
    } else {
      assert Separated(parts[1..], sep) by {
        forall i | 0 <= i < |parts| - 1 ensures sep !in parts[1..][i] { assert parts[1..][i] == parts[i + 1]; }
      }
      SplitJoin(parts[1..], sep);
      assert sep !in parts[0];
      SplitAfterHead(parts[0], sep, Join(parts[1..], sep));
      assert [parts[0]] + parts[1..] == parts;
    }
  }

  /** Joining a list is joining its front, the separator, and its back. */
  lemma {:induction false} JoinAt(parts: seq<string>, sep: char, k: nat)
    requires 0 < k < |parts|
    ensures Join(parts, sep) == Join(parts[..k], sep) + [sep] + Join(parts[k..], sep)
    decreases k
  {
    if k == 1 {
      assert parts[..1] == [parts[0]];
      assert parts[1..] == parts[k..];
    } else {
      JoinAt(parts[1..], sep, k - 1);
      assert parts[1..][..k - 1] == parts[..k][1..];
      assert parts[1..][k - 1..] == parts[k..];
      assert Join(parts[..k], sep) == parts[0] + [sep] + Join(parts[..k][1..], sep);
    }
  }
}
