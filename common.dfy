/** Shared vocabulary of the model: identifiers, the failures a request can end in,
    and the collection operations a MongoDB query performs (filter, find-one, sort,
    skip, limit), each specified once and used by every service module. */
module Common {

  /** A MongoDB ObjectId, modelled as an opaque natural number. */
  type Id = nat

  datatype Option<T> = None | Some(value: T)

  /** How a request fails. `Http` is an ErrorHandler, HttpException or
      UnauthorizedException carrying its message and status; `Plain` is a bare
      `new Error(message)`, which the framework answers with 500; `StoreRejected`
      is a write or query the document store refuses (schema validation,
      duplicate key, negative skip); `NullDereference` is the TypeError of reading
      a property of a `null` document; `TokenRejected` is `jwt.verify` throwing. */
  datatype Failure =
    | Http(message: string, status: int)
    | Plain(message: string)
    | StoreRejected
    | NullDereference
    | TokenRejected
  {
    /** The HTTP status the client sees. */
    function Status(): int {
      if Http? then status else 500
    }
  }

  datatype Result<T> = Ok(value: T) | Err(failure: Failure)

  /** The outcome of an operation that returns nothing (`Promise<void>`). */
  datatype Outcome = Pass | Fail(failure: Failure)

  /** JavaScript truthiness of an optional string: `null`, `undefined` and `""` are falsy. */
  predicate Truthy(s: Option<string>) {
    s.Some? && s.value != ""
  }

  /** A `find(filter)`: the records satisfying `p`, in collection order. */
  function Filter<T(!new)>(s: seq<T>, p: T -> bool): (r: seq<T>)
    ensures |r| <= |s|
    ensures forall x :: x in r <==> x in s && p(x)
  {
    if s == [] then []
    else (if p(s[0]) then [s[0]] else []) + Filter(s[1..], p)
  }

  /** A filter and its complement split the collection: together they hold every
      record exactly as often as the collection does. */
  lemma {:induction false} FilterPartition<T(!new)>(s: seq<T>, p: T -> bool)
    ensures multiset(Filter(s, p)) + multiset(Filter(s, x => !p(x))) == multiset(s)
    ensures |Filter(s, p)| + |Filter(s, x => !p(x))| == |s|
  {
    if s != [] {
      FilterPartition(s[1..], p);
      assert s == [s[0]] + s[1..];
    }
  }

  /** The same split, for a second test written as the negation of the first. */
  lemma {:induction false} FilterSplit<T(!new)>(s: seq<T>, p: T -> bool, q: T -> bool)
    requires forall x :: q(x) == !p(x)
    ensures multiset(Filter(s, p)) + multiset(Filter(s, q)) == multiset(s)
    ensures |Filter(s, p)| + |Filter(s, q)| == |s|
  {
    if s != [] {
      FilterSplit(s[1..], p, q);
      assert s == [s[0]] + s[1..];
    }
  }

  /** Filtering never reorders: a filter keeps a subsequence, so keys that were
      ascending stay ascending. */
  lemma {:induction false} FilterKeepsAscending<T(!new)>(s: seq<T>, p: T -> bool, key: T -> int)
    requires Ascending(s, key)
    ensures Ascending(Filter(s, p), key)
  {
    if s != [] {
      FilterKeepsAscending(s[1..], p, key);
      var rest := Filter(s[1..], p);
      forall y | y in rest ensures key(s[0]) <= key(y) {
        var k :| 0 <= k < |s[1..]| && s[1..][k] == y;
        assert s[k + 1] == y;
      }
    }
  }

  /** Filtering keeps distinct keys distinct. */
  lemma {:induction false} FilterKeepsUniqueKeys<T(!new), K>(s: seq<T>, p: T -> bool, key: T -> K)
    requires UniqueKeys(s, key)
    ensures UniqueKeys(Filter(s, p), key)
  {
    if s != [] {
      FilterKeepsUniqueKeys(s[1..], p, key);
      var rest := Filter(s[1..], p);
      forall y | y in rest ensures key(s[0]) != key(y) {
        var k :| 0 <= k < |s[1..]| && s[1..][k] == y;
        assert s[k + 1] == y;
      }
    }
  }

  /** Filtering keeps every key below a bound. */
  lemma FilterKeepsKeysBelow<T(!new)>(s: seq<T>, p: T -> bool, key: T -> Id, bound: Id)
    requires KeysBelow(s, key, bound)
    ensures KeysBelow(Filter(s, p), key, bound)
  {
    assert forall x :: x in s ==> key(x) < bound;
    var r := Filter(s, p);
    assert forall i :: 0 <= i < |r| ==> r[i] in r;
  }

  /** A `findOne(filter)`: the position of the first record satisfying `p`. */
  function FindFirst<T>(s: seq<T>, p: T -> bool): (r: Option<nat>)
    ensures r.Some? ==> r.value < |s| && p(s[r.value])
    ensures r.Some? ==> forall j :: 0 <= j < r.value ==> !p(s[j])
    ensures r.None? <==> forall j :: 0 <= j < |s| ==> !p(s[j])
  {
    if s == [] then None
    else if p(s[0]) then Some(0)
    else match FindFirst(s[1..], p)
      case None => None
      case Some(k) => Some(k + 1)
  }

  /** Two sequences on which a test gives the same answers position by position
      have their first match at the same place. */
  lemma {:induction false} FindFirstAgrees<T>(a: seq<T>, b: seq<T>, p: T -> bool)
    requires |a| == |b|
    requires forall j :: 0 <= j < |a| ==> p(a[j]) == p(b[j])
    ensures FindFirst(a, p) == FindFirst(b, p)
  {
    if a != [] {
      FindFirstAgrees(a[1..], b[1..], p);
    }
  }

  /** Removes the record at position `i` (what a `deleteOne` or `findByIdAndDelete` does to the record it matched). */
  function RemoveAt<T>(s: seq<T>, i: nat): (r: seq<T>)
    requires i < |s|
    ensures |r| == |s| - 1
    ensures forall j :: 0 <= j < i ==> r[j] == s[j]
    ensures forall j :: i <= j < |r| ==> r[j] == s[j + 1]
  {
    s[..i] + s[i + 1..]
  }

  /** Records whose keys are pairwise distinct (a unique index). */
  ghost predicate UniqueKeys<T, K>(s: seq<T>, key: T -> K) {
    forall i, j :: 0 <= i < j < |s| ==> key(s[i]) != key(s[j])
  }

  /** Every key is below `bound`: the next generated id is fresh. */
  ghost predicate KeysBelow<T>(s: seq<T>, key: T -> Id, bound: Id) {
    forall i :: 0 <= i < |s| ==> key(s[i]) < bound
  }

  /** Keys are ascending along the sequence. */
  ghost predicate Ascending<T>(s: seq<T>, key: T -> int) {
    forall i, j :: 0 <= i < j < |s| ==> key(s[i]) <= key(s[j])
  }

  /** Inserts `x` before the first record whose key is not below `x`'s. */
  function Insert<T>(x: T, s: seq<T>, key: T -> int): (r: seq<T>)
    ensures |r| == |s| + 1
    ensures multiset(r) == multiset(s) + multiset{x}
  {
    if s == [] then [x]
    else if key(x) <= key(s[0]) then [x] + s
    else
      assert s == [s[0]] + s[1..];
      [s[0]] + Insert(x, s[1..], key)
  }

  /** Inserting into an ascending sequence keeps it ascending; the result starts
      with `x` or with the old head. */
  lemma {:induction false} InsertAscending<T>(x: T, s: seq<T>, key: T -> int)
    requires Ascending(s, key)
    ensures Ascending(Insert(x, s, key), key)
    ensures Insert(x, s, key)[0] == x || (s != [] && Insert(x, s, key)[0] == s[0])
  {
    if s == [] {
    } else if key(x) <= key(s[0]) {
      ConsAscending(x, s, key);
    } else {
      var rest := Insert(x, s[1..], key);
      InsertAscending(x, s[1..], key);
      assert key(s[0]) <= key(rest[0]);
      ConsAscending(s[0], rest, key);
    }
  }

  /** A record whose key is at most that of the head of an ascending sequence
      may be put in front of it. */
  lemma ConsAscending<T>(x: T, rest: seq<T>, key: T -> int)
    requires Ascending(rest, key)
    requires rest != [] ==> key(x) <= key(rest[0])
    ensures Ascending([x] + rest, key)
  {
    var r := [x] + rest;
    forall i, j | 0 <= i < j < |r| ensures key(r[i]) <= key(r[j]) {
      if i == 0 {
        assert r[j] == rest[j - 1];
      } else {
        assert r[i] == rest[i - 1] && r[j] == rest[j - 1];
      }
    }
  }

  /** A `sort({ key: 1 })`: the records in ascending key order, records with equal
      keys keeping their collection order. A descending sort is the ascending sort
      on the negated key. */
  function SortByKey<T>(s: seq<T>, key: T -> int): (r: seq<T>)
    ensures Ascending(r, key)
    ensures multiset(r) == multiset(s)
    ensures |r| == |s|
  {
    if s == [] then []
    else
      var rest := SortByKey(s[1..], key);
      InsertAscending(s[0], rest, key);
      assert s == [s[0]] + s[1..];
      Insert(s[0], rest, key)
  }

  /** Sorting on a key every record shares leaves the collection as it is. */
  lemma {:induction false} SortByConstantKey<T>(s: seq<T>, key: T -> int, c: int)
    requires forall i :: 0 <= i < |s| ==> key(s[i]) == c
    ensures SortByKey(s, key) == s
  {
    if s != [] {
      var tail := s[1..];
      SortByConstantKey(tail, key, c);
      assert SortByKey(s, key) == Insert(s[0], tail, key);
      if tail != [] {
        assert key(s[0]) <= key(tail[0]);
      }
      assert s == [s[0]] + tail;
    }
  }

  /** A `skip(n)`. */
  function Skip<T>(s: seq<T>, n: nat): (r: seq<T>)
    ensures |r| == if n >= |s| then 0 else |s| - n
    ensures forall i :: 0 <= i < |r| ==> r[i] == s[n + i]
  {
    if n >= |s| then [] else s[n..]
  }

  /** A `limit(n)`: MongoDB reads 0 as "no limit" and a negative n as |n|. */
  function Limit<T>(s: seq<T>, n: int): (r: seq<T>)
    ensures n == 0 ==> r == s
    ensures n != 0 ==> |r| <= (if n < 0 then -n else n)
    ensures |r| <= |s| && r == s[..|r|]
    ensures |r| == |s| || |r| == (if n < 0 then -n else n)
  {
    var k := if n < 0 then -n else n;
    if k == 0 || k >= |s| then s else s[..k]
  }

  function Min(a: int, b: int): int { if a <= b then a else b }

  /** A window holds only records of the collection. */
  lemma WindowMembers<T>(s: seq<T>, skip: nat, limit: int)
    ensures forall x :: x in Limit(Skip(s, skip), limit) ==> x in s
  {
    var w := Limit(Skip(s, skip), limit);
    forall x | x in w ensures x in s {
      var i :| 0 <= i < |w| && w[i] == x;
      assert w[i] == Skip(s, skip)[i];
    }
  }

  /** `skip(skip).limit(limit)` with a positive limit is the slice of positions
      [skip, skip + limit), cut at the end of the collection. */
  lemma WindowIsSlice<T>(s: seq<T>, skip: nat, limit: nat)
    requires limit >= 1
    ensures Min(skip, |s|) <= Min(skip + limit, |s|)
    ensures Limit(Skip(s, skip), limit) == s[Min(skip, |s|)..Min(skip + limit, |s|)]
  {
    var t := Skip(s, skip);
    if skip >= |s| {
      assert t == [];
    } else {
      assert t == s[skip..];
    }
  }
}
