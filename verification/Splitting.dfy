/** strings.Split, strings.Cut and strings.Join for a single separator. */
module Splitting {
  import opened Bytes

  function Split<T(==)>(s: seq<T>, sep: T): (parts: seq<seq<T>>)
    ensures parts != []
    decreases |s|
  {
    var i := IndexOf(s, sep);
    if i == |s| then [s] else [s[..i]] + Split(s[i + 1..], sep)
  }

  function Join<T>(parts: seq<seq<T>>, sep: T): seq<T> {
    if parts == [] then []
    else if |parts| == 1 then parts[0]
    else parts[0] + [sep] + Join(parts[1..], sep)
  }

  /** The text before the first separator and the text after it, empty when there is none. */
  function Cut<T(==)>(s: seq<T>, sep: T): (seq<T>, seq<T>) {
    var i := IndexOf(s, sep);
    if i == |s| then (s, []) else (s[..i], s[i + 1..])
  }

  ghost predicate NoneContains<T>(parts: seq<seq<T>>, sep: T) {
    forall i :: 0 <= i < |parts| ==> sep !in parts[i]
  }

  lemma {:induction false} SplitFirst<T>(first: seq<T>, sep: T, rest: seq<T>)
    requires sep !in first
    ensures Split(first + [sep] + rest, sep) == [first] + Split(rest, sep)
  {
    IndexOfSplit(first, sep, rest);
    AroundSeparator(first, sep, rest);
  }

  lemma {:induction false} SplitJoin<T>(parts: seq<seq<T>>, sep: T)
    requires parts != [] && NoneContains(parts, sep)
    ensures Split(Join(parts, sep), sep) == parts
  {
    if |parts| > 1 {
      SplitFirst(parts[0], sep, Join(parts[1..], sep));
      SplitJoin(parts[1..], sep);
      assert parts == [parts[0]] + parts[1..];
    }
  }

  lemma {:induction false} JoinSplit<T>(s: seq<T>, sep: T)
    ensures Join(Split(s, sep), sep) == s
    ensures NoneContains(Split(s, sep), sep)
    decreases |s|
  {
    var i := IndexOf(s, sep);
    if i < |s| {
      var first, more := s[..i], s[i + 1..];
      JoinSplit(more, sep);
      JoinFirst(first, Split(more, sep), sep);
      AroundIndex(s, i);
    }
  }

  lemma {:induction false} JoinFirst<T>(first: seq<T>, rest: seq<seq<T>>, sep: T)
    requires rest != []
    ensures Join([first] + rest, sep) == first + [sep] + Join(rest, sep)
    ensures sep !in first && NoneContains(rest, sep) ==> NoneContains([first] + rest, sep)
  {
    assert ([first] + rest)[1..] == rest;
  }

  lemma {:induction false} CutAt<T>(a: seq<T>, sep: T, b: seq<T>)
    requires sep !in a
    ensures Cut(a + [sep] + b, sep) == (a, b)
  {
    IndexOfSplit(a, sep, b);
    AroundSeparator(a, sep, b);
  }
}
