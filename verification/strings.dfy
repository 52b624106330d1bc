/**
 * Splitting and joining strings on a single separator character, with the
 * semantics of Go's `strings.Split` and `strings.Join` for a one-character
 * separator: `Split` cuts at every occurrence of the separator, left to
 * right, so a string holding n separators yields n + 1 parts and the empty
 * string yields [""].
 */
module Strings {

  /** Number of occurrences of `c` in `s`. */
  function Count(s: string, c: char): nat
  {
    if s == [] then 0 else (if s[0] == c then 1 else 0) + Count(s[1..], c)
  }

  /** Position of the first occurrence of `c` in `s`. */
  function IndexOf(s: string, c: char): (i: nat)
    requires c in s
    ensures i < |s| && s[i] == c
  {
    if s[0] == c then 0 else assert s == [s[0]] + s[1..]; 1 + IndexOf(s[1..], c)
  }

  function Split(s: string, sep: char): (parts: seq<string>)
    ensures |parts| >= 1
    decreases |s|
  {
    if sep !in s then [s]
    else
      var i := IndexOf(s, sep);
      [s[..i]] + Split(s[i + 1..], sep)
  }

  function Join(parts: seq<string>, sep: char): string
    requires |parts| >= 1
  {
    if |parts| == 1 then parts[0] else parts[0] + [sep] + Join(parts[1..], sep)
  }

  /** True when no part contains the separator. */
  predicate SeparatorFree(parts: seq<string>, sep: char)
  {
    forall i :: 0 <= i < |parts| ==> sep !in parts[i]
  }

  /** Nothing before the position `IndexOf` reports is the character. */
  lemma {:induction false} IndexOfFirst(s: string, c: char)
    requires c in s
    ensures c !in s[..IndexOf(s, c)]
  {
    if s[0] != c {
      assert s == [s[0]] + s[1..];
      IndexOfFirst(s[1..], c);
      assert s[..IndexOf(s, c)] == [s[0]] + s[1..][..IndexOf(s[1..], c)];
    }
  }

  /** `IndexOf` is the one position that holds `c` with no `c` before it. */
  lemma IndexOfUnique(s: string, c: char, k: nat)
    requires k < |s| && s[k] == c && c !in s[..k]
    ensures IndexOf(s, c) == k
  {
    var i := IndexOf(s, c);
    IndexOfFirst(s, c);
  }

  lemma {:induction false} CountConcat(a: string, b: string, c: char)
    ensures Count(a + b, c) == Count(a, c) + Count(b, c)
  {
    if a == [] {
      assert a + b == b;
    } else {
      assert (a + b)[0] == a[0];
      assert (a + b)[1..] == a[1..] + b;
      CountConcat(a[1..], b, c);
    }
  }

  lemma {:induction false} CountAbsent(s: string, c: char)
    requires c !in s
    ensures Count(s, c) == 0
  {
    if s != [] {
      assert c !in s[1..];
      CountAbsent(s[1..], c);
    }
  }

  /** A string holding n separators splits into n + 1 parts. */
  lemma {:induction false} SplitCount(s: string, sep: char)
    ensures |Split(s, sep)| == Count(s, sep) + 1
    decreases |s|
  {
    if sep !in s {
      CountAbsent(s, sep);
    } else {
      var i := IndexOf(s, sep);
      IndexOfFirst(s, sep);
      assert s == s[..i] + [sep] + s[i + 1..];
      CountConcat(s[..i] + [sep], s[i + 1..], sep);
      CountConcat(s[..i], [sep], sep);
      CountAbsent(s[..i], sep);
      SplitCount(s[i + 1..], sep);
    }
  }

  /** No part that `Split` returns contains the separator. */
  lemma {:induction false} SplitSeparatorFree(s: string, sep: char)
    ensures SeparatorFree(Split(s, sep), sep)
    decreases |s|
  {
    if sep in s {
      var i := IndexOf(s, sep);
      IndexOfFirst(s, sep);
      SplitSeparatorFree(s[i + 1..], sep);
    }
  }

  /** A separator-free head is cut off as the first part. */
  lemma SplitHead(head: string, rest: string, sep: char)
    requires sep !in head
    ensures Split(head + [sep] + rest, sep) == [head] + Split(rest, sep)
  {
    var whole := head + [sep] + rest;
    assert whole[|head|] == sep;
    assert whole[..|head|] == head;
    IndexOfUnique(whole, sep, |head|);
    assert whole[|head| + 1..] == rest;
  }

  /** Joining a non-empty list puts its head, then a separator, in front. */
  lemma JoinCons(head: string, rest: seq<string>, sep: char)
    requires |rest| >= 1
    ensures Join([head] + rest, sep) == head + [sep] + Join(rest, sep)
  {
    assert ([head] + rest)[1..] == rest;
  }

  /**
   * Joining separator-free parts in front of any tail and splitting again
   * gives those parts back, followed by the parts of the tail.
   */
  lemma {:induction false} SplitJoinPrefix(parts: seq<string>, tail: string, sep: char)
    requires SeparatorFree(parts, sep)
    ensures Split(Join(parts + [tail], sep), sep) == parts + Split(tail, sep)
  {
    if parts == [] {
      assert parts + [tail] == [tail];
    } else {
      var head, more := parts[0], parts[1..];
      assert SeparatorFree(more, sep) by {
        forall i | 0 <= i < |more| ensures sep !in more[i] {
          assert more[i] == parts[i + 1];
        }
      }
      SplitJoinPrefix(more, tail, sep);
      SplitHeadJoined(head, more + [tail], sep);
      ConsConcat(parts, [tail]);
      ConsConcat(parts, Split(tail, sep));
    }
  }

  lemma ConsConcat<T>(s: seq<T>, t: seq<T>)
    requires |s| >= 1
    ensures s + t == [s[0]] + (s[1..] + t)
  {
  }

  /** The joined form of `[head] + rest` splits into `head` and the parts of `rest`. */
  lemma SplitHeadJoined(head: string, rest: seq<string>, sep: char)
    requires sep !in head && |rest| >= 1
    ensures Split(Join([head] + rest, sep), sep) == [head] + Split(Join(rest, sep), sep)
  {
    JoinCons(head, rest, sep);
    SplitHead(head, Join(rest, sep), sep);
  }

  /** Splitting undoes joining when no part holds the separator. */
  lemma SplitJoin(parts: seq<string>, sep: char)
    requires |parts| >= 1
    requires SeparatorFree(parts, sep)
    ensures Split(Join(parts, sep), sep) == parts
  {
    var n := |parts| - 1;
    assert parts[..n] + [parts[n]] == parts;
    SplitJoinPrefix(parts[..n], parts[n], sep);
    assert Split(parts[n], sep) == [parts[n]];
  }

  /** Joining undoes splitting: no character is lost or added. */
  lemma {:induction false} JoinSplit(s: string, sep: char)
    ensures Join(Split(s, sep), sep) == s
    decreases |s|
  {
    if sep in s {
      var i := IndexOf(s, sep);
      JoinSplit(s[i + 1..], sep);
      assert s == s[..i] + [sep] + s[i + 1..];
    }
  }
}
