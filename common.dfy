/** Small value types and helpers shared by the driver app, the student app
    and the cleanup script. */
module Common {

  datatype Option<+T> = None | Some(value: T)

  /** A store timestamp: whole seconds since the epoch plus nanoseconds. */
  datatype Timestamp = Timestamp(seconds: nat, nanos: nat)

  /** A geographic point, latitude first. */
  datatype LatLng = LatLng(lat: real, lng: real)

  /** What a call to the routing service yields: a thrown error (network,
      HTTP status, malformed body) or the list of routes it returned. */
  datatype Reply<+R> = Failed | Replied(routes: seq<R>)

  /** The signed-in user as the pages see it. */
  datatype User = User(uid: string, displayName: Option<string>)

  /** Milliseconds of a timestamp, as the store's `toMillis()` computes them. */
  function ToMillis(t: Timestamp): (r: real)
    ensures r >= (t.seconds * 1000) as real
  {
    (t.seconds * 1000) as real + (t.nanos as real) / 1000000.0
  }

  /** JavaScript's `Math.round`: the nearest integer, halves rounded up. */
  function JsRound(x: real): (r: int)
    ensures (r as real) - 0.5 <= x < (r as real) + 0.5
  {
    (x + 0.5).Floor
  }

  /** A JavaScript string is truthy when it is present and not empty. */
  predicate Truthy(s: Option<string>) {
    s.Some? && s.value != ""
  }

  /** `s || fallback` on an optional string. */
  function OrElse(s: Option<string>, fallback: string): (r: string)
    ensures Truthy(s) ==> r == s.value
    ensures !Truthy(s) ==> r == fallback
  {
    if Truthy(s) then s.value else fallback
  }

  /** The name both apps fall back to when a student has no display name. */
  const DefaultName: string := "Student"

  /** The elements of `s` that satisfy `p`, in their original order. */
  function Filter<T(!new)>(s: seq<T>, p: T -> bool): (r: seq<T>)
    ensures |r| <= |s|
    ensures forall x :: x in r <==> x in s && p(x)
  {
    if s == [] then []
    else if p(s[0]) then [s[0]] + Filter(s[1..], p)
    else Filter(s[1..], p)
  }

  /** How many elements of `s` satisfy `p`. */
  function Count<T(!new)>(s: seq<T>, p: T -> bool): (n: nat)
    ensures n <= |s|
    ensures n == 0 <==> forall x :: x in s ==> !p(x)
  {
    if s == [] then 0
    else (if p(s[0]) then 1 else 0) + Count(s[1..], p)
  }

  lemma {:induction false} FilterLength<T(!new)>(s: seq<T>, p: T -> bool)
    ensures |Filter(s, p)| == Count(s, p)
  {
    if s != [] {
      FilterLength(s[1..], p);
    }
  }

  lemma {:induction false} CountAppend<T(!new)>(s: seq<T>, t: seq<T>, p: T -> bool)
    ensures Count(s + t, p) == Count(s, p) + Count(t, p)
  {
    if s == [] {
      assert s + t == t;
    } else {
      assert (s + t)[1..] == s[1..] + t;
      CountAppend(s[1..], t, p);
    }
  }

  lemma {:induction false} FilterAppend<T(!new)>(s: seq<T>, t: seq<T>, p: T -> bool)
    ensures Filter(s + t, p) == Filter(s, p) + Filter(t, p)
  {
    if s == [] {
      assert s + t == t;
    } else {
      assert (s + t)[1..] == s[1..] + t;
      FilterAppend(s[1..], t, p);
    }
  }

  /** No two elements of `s` share a key. */
  predicate DistinctBy<T>(s: seq<T>, key: T -> nat) {
    forall i, j :: 0 <= i < j < |s| ==> key(s[i]) != key(s[j])
  }

  /** Filtering keeps keys distinct: the result is a subsequence. */
  lemma {:induction false} FilterDistinct<T(!new)>(s: seq<T>, p: T -> bool, key: T -> nat)
    requires DistinctBy(s, key)
    ensures DistinctBy(Filter(s, p), key)
  {
    if s != [] {
      assert DistinctBy(s[1..], key) by {
        forall i, j | 0 <= i < j < |s[1..]| ensures key(s[1..][i]) != key(s[1..][j]) {
          assert s[1..][i] == s[i + 1] && s[1..][j] == s[j + 1];
        }
      }
      FilterDistinct(s[1..], p, key);
      var rest := Filter(s[1..], p);
      if p(s[0]) {
        forall x | x in rest ensures key(x) != key(s[0]) {
          var k :| 0 <= k < |s[1..]| && s[1..][k] == x;
          assert s[k + 1] == x;
        }
        var r := [s[0]] + rest;
        forall i, j | 0 <= i < j < |r| ensures key(r[i]) != key(r[j]) {
          assert r[j] == rest[j - 1] && r[j] in rest;
          if i > 0 {
            assert r[i] == rest[i - 1];
          }
        }
      }
    }
  }

  /** Counting does not depend on order: a permutation has the same count. */
  lemma {:induction false} CountPermutation<T(!new)>(s: seq<T>, t: seq<T>, p: T -> bool)
    requires multiset(s) == multiset(t)
    ensures Count(s, p) == Count(t, p)
    decreases |s|
  {
    if s == [] {
      assert |t| == |multiset(t)| == 0;
    } else {
      assert s[0] in multiset(t);
      var k :| 0 <= k < |t| && t[k] == s[0];
      var rest := t[..k] + t[k + 1..];
      assert t == t[..k] + [t[k]] + t[k + 1..];
      assert s == [s[0]] + s[1..];
      assert multiset(t) == multiset(t[..k]) + multiset{s[0]} + multiset(t[k + 1..]);
      assert multiset(s) == multiset{s[0]} + multiset(s[1..]);
      assert multiset(rest) == multiset(t[..k]) + multiset(t[k + 1..]);
      assert multiset(rest) == multiset(t) - multiset{s[0]};
      assert multiset(s[1..]) == multiset(s) - multiset{s[0]};
      CountPermutation(s[1..], rest, p);
      CountAppend(t[..k] + [t[k]], t[k + 1..], p);
      CountAppend(t[..k], [t[k]], p);
      CountAppend(t[..k], t[k + 1..], p);
      assert [t[k]][1..] == [];
    }
  }
}
