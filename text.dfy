/** The two string operations the change digest builds its text with:
    `String.prototype.split` on a separator, and `Array.prototype.reduce`
    joining strings without an initial value. */
module Text {
  import opened Common

  /** `s.split(sep)` for a non-empty separator: the pieces between the
      occurrences of `sep`, found left to right without overlap. */
  function Split(s: string, sep: string): (r: seq<string>)
    requires sep != []
    ensures r != []
  {
    SplitFrom(s, sep, "")
  }

  /** Splitting the rest `s` of a string whose current piece so far is `cur`. */
  function SplitFrom(s: string, sep: string, cur: string): (r: seq<string>)
    requires sep != []
    ensures r != []
    decreases |s|
  {
    if s == [] then [cur]
    else if sep <= s then [cur] + SplitFrom(s[|sep|..], sep, "")
    else SplitFrom(s[1..], sep, cur + [s[0]])
  }

  /** The left fold `(m, n) => m + sep + n` started from `acc`. */
  function JoinFrom(acc: string, rest: seq<string>, sep: string): string
    decreases |rest|
  {
    if rest == [] then acc else JoinFrom(acc + sep + rest[0], rest[1..], sep)
  }

  /** `xs.reduce((m, n) => `${m}${sep}${n}`)` with no initial value: a
      TypeError (here None) on an empty array, the first element alone on a
      one-element array, otherwise the elements with `sep` between them. */
  function Reduce(xs: seq<string>, sep: string): (r: Option<string>)
    ensures r.None? <==> xs == []
    ensures |xs| == 1 ==> r == Some(xs[0])
  {
    if xs == [] then None else Some(JoinFrom(xs[0], xs[1..], sep))
  }

  /** A prefix of the accumulator stays a prefix of the fold. */
  lemma {:induction false} JoinFromPrefix(a: string, b: string, rest: seq<string>, sep: string)
    ensures JoinFrom(a + b, rest, sep) == a + JoinFrom(b, rest, sep)
    decreases |rest|
  {
    if rest != [] {
      assert a + b + sep + rest[0] == a + (b + sep + rest[0]);
      JoinFromPrefix(a, b + sep + rest[0], rest[1..], sep);
    }
  }

  /** Joining the pieces of a split with the same separator gives back the
      rest of the string after the piece so far. */
  lemma {:induction false} JoinSplitFrom(s: string, sep: string, cur: string)
    requires sep != []
    ensures var parts := SplitFrom(s, sep, cur);
      JoinFrom(parts[0], parts[1..], sep) == cur + s
    decreases |s|
  {
    if s == [] {
    } else if sep <= s {
      var rest := s[|sep|..];
      var tail := SplitFrom(rest, sep, "");
      JoinSplitFrom(rest, sep, "");
      assert [cur] + tail == SplitFrom(s, sep, cur);
      assert ([cur] + tail)[1..] == tail;
      assert tail == [tail[0]] + tail[1..];
      calc {
        JoinFrom(cur, tail, sep);
        JoinFrom(cur + sep + tail[0], tail[1..], sep);
        { JoinFromPrefix(cur + sep, tail[0], tail[1..], sep); }
        cur + sep + JoinFrom(tail[0], tail[1..], sep);
        cur + sep + ("" + rest);
        { assert s == sep + rest; }
        cur + s;
      }
    } else {
      JoinSplitFrom(s[1..], sep, cur + [s[0]]);
      assert cur + [s[0]] + s[1..] == cur + s;
    }
  }

  /** Round trip: reducing the pieces of `s.split(sep)` with `sep` is `s`. */
  lemma JoinSplit(s: string, sep: string)
    requires sep != []
    ensures Reduce(Split(s, sep), sep) == Some(s)
  {
    JoinSplitFrom(s, sep, "");
    assert "" + s == s;
  }

  /** `sep` occurs in `x + sep` only where the appended separator starts, so a
      split of `x + sep + ...` ends its first piece exactly after `x`. */
  ghost predicate EndsCleanly(x: string, sep: string) {
    forall k :: 0 <= k < |x| ==> !(sep <= (x + sep)[k..])
  }

  /** Splitting walks over a stretch `x` in which no separator starts. */
  lemma {:induction false} SplitFromSkips(x: string, t: string, sep: string, cur: string)
    requires sep != []
    requires forall k :: 0 <= k < |x| ==> !(sep <= (x + t)[k..])
    ensures SplitFrom(x + t, sep, cur) == SplitFrom(t, sep, cur + x)
    decreases |x|
  {
    if x == [] {
      assert x + t == t && cur + x == cur;
    } else {
      assert (x + t)[0..] == x + t;
      assert (x + t)[1..] == x[1..] + t;
      forall k | 0 <= k < |x[1..]|
        ensures !(sep <= (x[1..] + t)[k..])
      {
        assert (x[1..] + t)[k..] == (x + t)[k + 1..];
      }
      SplitFromSkips(x[1..], t, sep, cur + [x[0]]);
      assert cur + [x[0]] + x[1..] == cur + x;
    }
  }

  /** A string in which the separator does not occur splits into itself. */
  lemma SplitWithoutSeparator(s: string, sep: string)
    requires sep != []
    requires forall k :: 0 <= k < |s| ==> !(sep <= s[k..])
    ensures Split(s, sep) == [s]
  {
    assert s + [] == s;
    SplitFromSkips(s, [], sep, "");
    assert "" + s == s;
  }

  /** The separator starting inside `x + sep` also starts inside `x + sep + rest`. */
  lemma CleanBeforeRest(x: string, sep: string, rest: string)
    requires sep != [] && EndsCleanly(x, sep)
    ensures forall k :: 0 <= k < |x| ==> !(sep <= (x + (sep + rest))[k..])
  {
    forall k | 0 <= k < |x|
      ensures !(sep <= (x + (sep + rest))[k..])
    {
      assert (x + (sep + rest))[k..] == (x + sep)[k..] + rest;
    }
  }

  /** Splitting the fold of clean pieces gives the pieces back. */
  lemma {:induction false} SplitJoinFrom(xs: seq<string>, sep: string)
    requires sep != [] && xs != []
    requires forall k :: 0 <= k < |xs| ==> EndsCleanly(xs[k], sep)
    ensures SplitFrom(JoinFrom(xs[0], xs[1..], sep), sep, "") == xs
    decreases |xs|
  {
    var x := xs[0];
    if |xs| == 1 {
      assert EndsCleanly(x, sep);
      forall k | 0 <= k < |x|
        ensures !(sep <= (x + [])[k..])
      {
        assert (x + sep)[k..] == (x + [])[k..] + sep;
      }
      SplitFromSkips(x, [], sep, "");
      assert x + [] == x && "" + x == x;
    } else {
      var tail := xs[1..];
      var rest := JoinFrom(tail[0], tail[1..], sep);
      assert xs[1..] == [tail[0]] + tail[1..];
      calc {
        JoinFrom(x, xs[1..], sep);
        JoinFrom(x + sep + tail[0], tail[1..], sep);
        { JoinFromPrefix(x + sep, tail[0], tail[1..], sep); }
        x + sep + rest;
      }
      CleanBeforeRest(x, sep, rest);
      assert x + sep + rest == x + (sep + rest);
      SplitFromSkips(x, sep + rest, sep, "");
      assert "" + x == x;
      assert sep <= sep + rest;
      assert (sep + rest)[|sep|..] == rest;
      assert SplitFrom(sep + rest, sep, x) == [x] + SplitFrom(rest, sep, "");
      SplitJoinFrom(tail, sep);
    }
  }

  /** Round trip: splitting the reduction of clean pieces gives the pieces. */
  lemma SplitReduce(xs: seq<string>, sep: string)
    requires sep != [] && xs != []
    requires forall k :: 0 <= k < |xs| ==> EndsCleanly(xs[k], sep)
    ensures Split(Reduce(xs, sep).value, sep) == xs
  {
    SplitJoinFrom(xs, sep);
  }
}
