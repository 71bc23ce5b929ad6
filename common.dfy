/** Shared vocabulary of the model: optional values, dates, the calendar library
    the mail jobs call, and the three query shapes the store answers
    (filter, sort by a key, find the match with the smallest key). */
module Common {

  datatype Option<+T> = None | Some(value: T)

  datatype Result<+T, +E> = Ok(value: T) | Err(error: E)

  /** A calendar date, as a day number. */
  type Date = int

  /** The `_id` of a stored document. */
  type DocId = nat

  /** A reference to a document of the `classes` collection. */
  type ClassId = nat

  /** The date library (date-fns with the Croatian locale), which is not part of
      this model: `getWeek` is its locale week number (1..53), `dayName` the
      lower-case Croatian name that `format(date, 'eeee')` produces, and
      `addBusinessDays` steps over Saturdays and Sundays. */
  datatype Calendar = Calendar(
    getWeek: Date -> nat,
    dayName: Date -> string,
    addBusinessDays: (Date, int) -> Date)

  /** JavaScript truthiness of an optional string field of a request body. */
  predicate TruthyText(s: Option<string>) {
    s.Some? && s.value != ""
  }

  /** JavaScript truthiness of an optional number field of a request body. */
  predicate TruthyNumber(n: Option<int>) {
    n.Some? && n.value != 0
  }
}

/** The query shapes used by the handlers and mail jobs: `find(filter)`,
    `.sort({key: 1})` and `findOne(filter).sort({key: 1})`. */
module Query {
  import opened Common

  /** The elements of `s` that satisfy `p`, in store order. */
  function Filter<T(!new)>(s: seq<T>, p: T -> bool): (r: seq<T>)
    ensures forall x :: x in r <==> x in s && p(x)
    ensures forall x :: multiset(r)[x] == if p(x) then multiset(s)[x] else 0
    ensures |r| <= |s|
    ensures forall k :: 0 <= k < |r| ==> p(r[k])
  {
    SelectKeepsMatches(s, p);
    assert forall k :: 0 <= k < |Select(s, p)| ==> Select(s, p)[k] in Select(s, p);
    Select(s, p)
  }

  /** The recursion behind `Filter`, free of its contract. */
  function Select<T>(s: seq<T>, p: T -> bool): seq<T>
  {
    if s == [] then [] else (if p(s[0]) then [s[0]] else []) + Select(s[1..], p)
  }

  lemma {:induction false} SelectKeepsMatches<T(!new)>(s: seq<T>, p: T -> bool)
    ensures forall x :: x in Select(s, p) <==> x in s && p(x)
    ensures forall x :: multiset(Select(s, p))[x] == if p(x) then multiset(s)[x] else 0
    ensures |Select(s, p)| <= |s|
  {
    if s != [] {
      SelectKeepsMatches(s[1..], p);
      assert s == [s[0]] + s[1..];
    }
  }

  /** Appending an element appends it to the filtered sequence when it matches. */
  lemma {:induction false} FilterAppend<T(!new)>(s: seq<T>, x: T, p: T -> bool)
    ensures Filter(s + [x], p) == Filter(s, p) + (if p(x) then [x] else [])
  {
    SelectAppend(s, x, p);
  }

  lemma {:induction false} SelectAppend<T>(s: seq<T>, x: T, p: T -> bool)
    ensures Select(s + [x], p) == Select(s, p) + (if p(x) then [x] else [])
  {
    var last := if p(x) then [x] else [];
    if s == [] {
      assert s + [x] == [x];
      assert Select([x], p) == last + Select([], p);
    } else {
      var head := if p(s[0]) then [s[0]] else [];
      assert (s + [x])[0] == s[0];
      assert (s + [x])[1..] == s[1..] + [x];
      SelectAppend(s[1..], x, p);
      calc {
        Select(s + [x], p);
        head + Select(s[1..] + [x], p);
        head + (Select(s[1..], p) + last);
        (head + Select(s[1..], p)) + last;
        Select(s, p) + last;
      }
    }
  }

  /** Replacing an element that does not match by another that does not
      match leaves the filtered sequence alone. */
  lemma {:induction false} FilterUpdateUnmatched<T(!new)>(s: seq<T>, i: nat, x: T, p: T -> bool)
    requires i < |s| && !p(s[i]) && !p(x)
    ensures Filter(s[i := x], p) == Filter(s, p)
  {
    SelectUpdateUnmatched(s, i, x, p);
  }

  lemma {:induction false} SelectUpdateUnmatched<T>(s: seq<T>, i: nat, x: T, p: T -> bool)
    requires i < |s| && !p(s[i]) && !p(x)
    ensures Select(s[i := x], p) == Select(s, p)
  {
    if i > 0 {
      assert s[i := x][1..] == s[1..][i - 1 := x];
      SelectUpdateUnmatched(s[1..], i - 1, x, p);
    }
  }

  /** Removing an element that does not match leaves the filtered sequence alone. */
  lemma {:induction false} FilterRemoveUnmatched<T(!new)>(s: seq<T>, i: nat, p: T -> bool)
    requires i < |s| && !p(s[i])
    ensures Filter(RemoveAt(s, i), p) == Filter(s, p)
  {
    SelectRemoveUnmatched(s, i, p);
  }

  lemma {:induction false} SelectRemoveUnmatched<T>(s: seq<T>, i: nat, p: T -> bool)
    requires i < |s| && !p(s[i])
    ensures Select(RemoveAt(s, i), p) == Select(s, p)
  {
    if i > 0 {
      assert RemoveAt(s, i)[1..] == RemoveAt(s[1..], i - 1);
      SelectRemoveUnmatched(s[1..], i - 1, p);
    } else {
      assert RemoveAt(s, 0) == s[1..];
    }
  }

  ghost predicate SortedBy<T>(s: seq<T>, key: T -> int) {
    forall i, j :: 0 <= i < j < |s| ==> key(s[i]) <= key(s[j])
  }

  /** Inserts `x` into the sorted `s` after every element with a key not above its own. */
  function InsertBy<T(!new)>(x: T, s: seq<T>, key: T -> int): (r: seq<T>)
    requires SortedBy(s, key)
    ensures SortedBy(r, key)
    ensures multiset(r) == multiset(s) + multiset{x}
    ensures forall y :: y in r ==> y == x || y in s
  {
    if s == [] || key(x) < key(s[0]) then
      SortedHeadIsLeast(s, key);
      SortedCons(x, s, key);
      [x] + s
    else
      var rest := InsertBy(x, s[1..], key);
      assert s == [s[0]] + s[1..];
      SortedHeadIsLeast(s, key);
      forall y | y in rest
        ensures (y == x || y in s) && key(s[0]) <= key(y)
      {
        if y != x {
          assert y in s[1..];
        }
      }
      SortedCons(s[0], rest, key);
      assert multiset([s[0]] + rest) == multiset{s[0]} + multiset(s[1..]) + multiset{x};
      [s[0]] + rest
  }

  /** A head with a key not above any key of a sorted tail keeps it sorted. */
  lemma SortedCons<T(!new)>(x: T, s: seq<T>, key: T -> int)
    requires SortedBy(s, key)
    requires forall y :: y in s ==> key(x) <= key(y)
    ensures SortedBy([x] + s, key)
  {
    forall i, j | 0 <= i < j < |[x] + s|
      ensures key(([x] + s)[i]) <= key(([x] + s)[j])
    {
      assert ([x] + s)[j] == s[j - 1];
      if i > 0 {
        assert ([x] + s)[i] == s[i - 1];
      } else {
        assert s[j - 1] in s;
      }
    }
  }

  /** The first element of a sorted sequence has the least key. */
  lemma SortedHeadIsLeast<T(!new)>(s: seq<T>, key: T -> int)
    requires SortedBy(s, key)
    ensures forall y :: y in s ==> key(s[0]) <= key(y)
  {
    forall y | y in s
      ensures key(s[0]) <= key(y)
    {
      var k :| 0 <= k < |s| && s[k] == y;
    }
  }

  /** A stable ascending sort on `key`: the model of `.sort({key: 1})`. */
  function SortBy<T(!new)>(s: seq<T>, key: T -> int): (r: seq<T>)
    ensures SortedBy(r, key)
    ensures multiset(r) == multiset(s)
  {
    if s == [] then []
    else
      assert s == [s[0]] + s[1..];
      InsertBy(s[0], SortBy(s[1..], key), key)
  }

  /** `find(p).sort({key: 1})`: the matches of `p`, all of them, by ascending key. */
  function FindSorted<T(!new)>(s: seq<T>, p: T -> bool, key: T -> int): (r: seq<T>)
    ensures forall x :: x in r <==> x in s && p(x)
    ensures forall x :: multiset(r)[x] == if p(x) then multiset(s)[x] else 0
    ensures SortedBy(r, key)
  {
    var found := Filter(s, p);
    var r := SortBy(found, key);
    assert multiset(r) == multiset(found);
    forall x
      ensures x in r <==> x in found
    {
      assert x in r <==> multiset(r)[x] > 0;
      assert x in found <==> multiset(found)[x] > 0;
    }
    r
  }

  /** `findOne(p).sort({key: 1})`: a match whose key no other match undercuts
      (the first such in store order), or nothing when no element matches. */
  function Earliest<T(!new)>(s: seq<T>, p: T -> bool, key: T -> int): (r: Option<T>)
    ensures r.None? <==> forall x :: x in s ==> !p(x)
    ensures r.Some? ==> r.value in s && p(r.value)
    ensures r.Some? ==> forall x :: x in s && p(x) ==> key(r.value) <= key(x)
  {
    if s == [] then None
    else
      var rest := Earliest(s[1..], p, key);
      assert s == [s[0]] + s[1..];
      if !p(s[0]) then rest
      else if rest.Some? && key(rest.value) < key(s[0]) then rest
      else Some(s[0])
  }

  /** Adding an element that does not match leaves the choice of `Earliest` alone. */
  lemma {:induction false} EarliestIgnoresNonMatching<T(!new)>(s: seq<T>, x: T, p: T -> bool, key: T -> int)
    requires !p(x)
    ensures Earliest(s + [x], p, key) == Earliest(s, p, key)
  {
    if s != [] {
      assert (s + [x])[1..] == s[1..] + [x];
      EarliestIgnoresNonMatching(s[1..], x, p, key);
    }
  }

  /** The index of the first element of `s` that satisfies `p`. */
  function IndexWhere<T>(s: seq<T>, p: T -> bool): (r: Option<nat>)
    ensures r.None? <==> forall i :: 0 <= i < |s| ==> !p(s[i])
    ensures r.Some? ==> r.value < |s| && p(s[r.value])
    ensures r.Some? ==> forall i :: 0 <= i < r.value ==> !p(s[i])
  {
    if s == [] then None
    else if p(s[0]) then Some(0)
    else
      match IndexWhere(s[1..], p)
      case None => None
      case Some(i) => Some(i + 1)
  }

  /** `findOne(p)` without a sort: the first match in store order. */
  function First<T(!new)>(s: seq<T>, p: T -> bool): (r: Option<T>)
    ensures r.None? <==> forall x :: x in s ==> !p(x)
    ensures r.Some? ==> r.value in s && p(r.value)
    ensures r.Some? ==> exists i :: 0 <= i < |s| && s[i] == r.value && forall j :: 0 <= j < i ==> !p(s[j])
  {
    match IndexWhere(s, p)
    case None => None
    case Some(i) => Some(s[i])
  }

  /** Appending an element changes the first match only when there was none. */
  lemma {:induction false} FirstAppend<T(!new)>(s: seq<T>, x: T, p: T -> bool)
    ensures First(s + [x], p) == if First(s, p).Some? then First(s, p) else if p(x) then Some(x) else None
  {
    IndexWhereAppend(s, x, p);
  }

  lemma {:induction false} IndexWhereAppend<T>(s: seq<T>, x: T, p: T -> bool)
    ensures IndexWhere(s + [x], p) ==
      if IndexWhere(s, p).Some? then IndexWhere(s, p) else if p(x) then Some(|s|) else None
  {
    if s != [] {
      assert (s + [x])[1..] == s[1..] + [x];
      IndexWhereAppend(s[1..], x, p);
    }
  }

  /** `s.map(f)`: one image per element, in order. */
  function Map<T(!new), U(!new)>(s: seq<T>, f: T -> U): (r: seq<U>)
    ensures |r| == |s|
    ensures forall k :: 0 <= k < |s| ==> r[k] == f(s[k])
    ensures forall y :: y in r <==> exists x :: x in s && f(x) == y
  {
    var r := seq(|s|, k requires 0 <= k < |s| => f(s[k]));
    forall y | y in r
      ensures exists x :: x in s && f(x) == y
    {
      var k :| 0 <= k < |r| && r[k] == y;
      assert s[k] in s;
    }
    forall x | x in s
      ensures f(x) in r
    {
      var k :| 0 <= k < |s| && s[k] == x;
      assert r[k] == f(x);
    }
    r
  }

  /** The element added last. */
  function Last<T>(s: seq<T>): T
    requires s != []
  {
    s[|s| - 1]
  }

  /** `s` without its element at index `i`. */
  function RemoveAt<T>(s: seq<T>, i: nat): (r: seq<T>)
    requires i < |s|
    ensures |r| == |s| - 1
    ensures forall k :: 0 <= k < i ==> r[k] == s[k]
    ensures forall k :: i <= k < |r| ==> r[k] == s[k + 1]
    ensures multiset(r) + multiset{s[i]} == multiset(s)
  {
    assert s == s[..i] + [s[i]] + s[i + 1..];
    s[..i] + s[i + 1..]
  }
}
