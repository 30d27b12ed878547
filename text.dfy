/**
 * String joining as done by .NET's string.Join, and its inverse: splitting a
 * line at every occurrence of a separator character, as a consumer of the
 * generated build script reads it back.
 */
module Text {

  /** string.Join(sep, parts): the parts with `sep` between adjacent ones. */
  function Join(sep: string, parts: seq<string>): string
    decreases |parts|
  {
    if |parts| == 0 then ""
    else if |parts| == 1 then parts[0]
    else parts[0] + sep + Join(sep, parts[1..])
  }

  /** The pieces of `s` between occurrences of `c` (always at least one piece). */
  function Split(s: string, c: char): (r: seq<string>)
    ensures |r| >= 1
    ensures forall k :: 0 <= k < |r| ==> c !in r[k]
    decreases |s|
  {
    if s == [] then [""]
    else
      var rest := Split(s[1..], c);
      if s[0] == c then [""] + rest else [[s[0]] + rest[0]] + rest[1..]
  }

  /** Joining with a separator that follows a first part. */
  lemma JoinCons(sep: string, first: string, rest: seq<string>)
    requires rest != []
    ensures Join(sep, [first] + rest) == first + sep + Join(sep, rest)
  {
    assert ([first] + rest)[1..] == rest;
  }

  /** Appending a part to a non-empty list appends the separator and the part. */
  lemma {:induction false} JoinSnoc(sep: string, parts: seq<string>, last: string)
    requires parts != []
    ensures Join(sep, parts + [last]) == Join(sep, parts) + sep + last
    decreases |parts|
  {
    if |parts| == 1 {
      JoinCons(sep, parts[0], [last]);
      assert parts + [last] == [parts[0]] + [last];
    } else {
      calc {
        Join(sep, parts + [last]);
        { assert parts + [last] == [parts[0]] + (parts[1..] + [last]);
          JoinCons(sep, parts[0], parts[1..] + [last]); }
        parts[0] + sep + Join(sep, parts[1..] + [last]);
        { JoinSnoc(sep, parts[1..], last); }
        parts[0] + sep + (Join(sep, parts[1..]) + sep + last);
        { assert parts == [parts[0]] + parts[1..]; JoinCons(sep, parts[0], parts[1..]); }
        Join(sep, parts) + sep + last;
      }
    }
  }

  /** Nine parts joined with single spaces, written out. */
  lemma JoinNine(t0: string, t1: string, t2: string, t3: string, t4: string, t5: string, t6: string, t7: string, t8: string)
    ensures Join(" ", [t0, t1, t2, t3, t4, t5, t6, t7, t8]) ==
      t0 + " " + t1 + " " + t2 + " " + t3 + " " + t4 + " " + t5 + " " + t6 + " " + t7 + " " + t8
  {
    assert Join(" ", [t0]) == t0;
    JoinSnoc(" ", [t0], t1);
    assert [t0] + [t1] == [t0, t1];
    JoinSnoc(" ", [t0, t1], t2);
    assert [t0, t1] + [t2] == [t0, t1, t2];
    JoinSnoc(" ", [t0, t1, t2], t3);
    assert [t0, t1, t2] + [t3] == [t0, t1, t2, t3];
    JoinSnoc(" ", [t0, t1, t2, t3], t4);
    assert [t0, t1, t2, t3] + [t4] == [t0, t1, t2, t3, t4];
    JoinSnoc(" ", [t0, t1, t2, t3, t4], t5);
    assert [t0, t1, t2, t3, t4] + [t5] == [t0, t1, t2, t3, t4, t5];
    JoinSnoc(" ", [t0, t1, t2, t3, t4, t5], t6);
    assert [t0, t1, t2, t3, t4, t5] + [t6] == [t0, t1, t2, t3, t4, t5, t6];
    JoinSnoc(" ", [t0, t1, t2, t3, t4, t5, t6], t7);
    assert [t0, t1, t2, t3, t4, t5, t6] + [t7] == [t0, t1, t2, t3, t4, t5, t6, t7];
    JoinSnoc(" ", [t0, t1, t2, t3, t4, t5, t6, t7], t8);
    assert [t0, t1, t2, t3, t4, t5, t6, t7] + [t8] == [t0, t1, t2, t3, t4, t5, t6, t7, t8];
  }

  /** A character absent from the separator and from every part is absent from the join. */
  lemma {:induction false} NotInJoin(sep: string, parts: seq<string>, c: char)
    requires c !in sep
    requires forall k :: 0 <= k < |parts| ==> c !in parts[k]
    ensures c !in Join(sep, parts)
    decreases |parts|
  {
    if |parts| > 1 {
      NotInJoin(sep, parts[1..], c);
    }
  }

  /** A piece without the separator splits to itself. */
  lemma {:induction false} SplitWithout(s: string, c: char)
    requires c !in s
    ensures Split(s, c) == [s]
    decreases |s|
  {
    if s != [] {
      SplitWithout(s[1..], c);
      assert [s[0]] + s[1..] == s;
    }
  }

  /** Splitting `head c tail` yields `head` followed by the pieces of `tail`. */
  lemma {:induction false} SplitAfterHead(head: string, c: char, tail: string)
    requires c !in head
    ensures Split(head + [c] + tail, c) == [head] + Split(tail, c)
    decreases |head|
  {
    var s := head + [c] + tail;
    if head == [] {
      assert s[0] == c && s[1..] == tail;
    } else {
      assert s[0] == head[0] && s[1..] == head[1..] + [c] + tail;
      SplitAfterHead(head[1..], c, tail);
      assert [head[0]] + head[1..] == head;
    }
  }

  /** Round trip one way: parts free of `c` are recovered by splitting their join. */
  lemma {:induction false} SplitJoin(parts: seq<string>, c: char)
    requires parts != []
    requires forall k :: 0 <= k < |parts| ==> c !in parts[k]
    ensures Split(Join([c], parts), c) == parts
    decreases |parts|
  {
    if |parts| == 1 {
      SplitWithout(parts[0], c);
    } else {
      SplitJoin(parts[1..], c);
      SplitAfterHead(parts[0], c, Join([c], parts[1..]));
      assert [parts[0]] + parts[1..] == parts;
    }
  }

  /** Round trip the other way: joining the pieces of any string gives the string back. */
  lemma {:induction false} JoinSplit(s: string, c: char)
    ensures Join([c], Split(s, c)) == s
    decreases |s|
  {
    if s != [] {
      var tail := s[1..];
      var rest := Split(tail, c);
      JoinSplit(tail, c);
      assert s == [s[0]] + tail;
      if s[0] == c {
        assert Split(s, c) == [""] + rest;
        JoinCons([c], "", rest);
      } else if |rest| == 1 {
        assert Split(s, c) == [[s[0]] + rest[0]];
        assert Join([c], rest) == rest[0];
      } else {
        var head := [s[0]] + rest[0];
        assert Split(s, c) == [head] + rest[1..];
        JoinCons([c], head, rest[1..]);
        assert rest == [rest[0]] + rest[1..];
        JoinCons([c], rest[0], rest[1..]);
        assert head + [c] + Join([c], rest[1..]) == [s[0]] + (rest[0] + [c] + Join([c], rest[1..]));
      }
    }
  }
}
