/**
 * Small helpers shared by the rest of the model: an Option type, duplicate-free
 * sequences, the first-occurrence deduplication that a JavaScript
 * `[...new Set(xs)]` performs, and flattening of a sequence of sequences.
 */
module Common {

  /** JavaScript `null`/`undefined` (None) or a present value (Some). */
  datatype Option<+T> = None | Some(value: T)

  /**
   * A scalar JSON value as the pages send it and the server receives it: a
   * string, or an integer-valued number.
   */
  datatype Json = JString(s: string) | JNumber(n: int)

  /**
   * How a request to the backend settled: a response body (its numeric
   * fields), or a failure carrying the `error` field of the server's reply
   * when there was a reply with one.
   */
  datatype Reply = Ok(body: map<string, int>) | Failed(errorField: Option<string>)

  /** No element occurs twice. */
  ghost predicate Distinct<T>(s: seq<T>) {
    forall i, j :: 0 <= i < j < |s| ==> s[i] != s[j]
  }

  /** The set of elements of a sequence. */
  function Elems<T>(s: seq<T>): set<T> {
    set x | x in s
  }

  /** Position of the first occurrence of x in s. */
  function IndexOf<T(==)>(s: seq<T>, x: T): (k: nat)
    requires x in s
    ensures k < |s| && s[k] == x
    ensures forall j :: 0 <= j < k ==> s[j] != x
  {
    if s[0] == x then 0 else 1 + IndexOf(s[1..], x)
  }

  /**
   * The elements of s with later repetitions removed, in the order of their
   * first occurrence: the array that `[...new Set(s)]` builds, since a Set
   * iterates in insertion order. Defined from the right end, as the Set is
   * filled by walking s from left to right.
   */
  function Dedup<T(==, !new)>(s: seq<T>): (r: seq<T>)
    ensures Distinct(r)
    ensures forall x :: x in r <==> x in s
    ensures |r| <= |s|
  {
    if |s| == 0 then []
    else
      var d := Dedup(s[..|s| - 1]);
      if s[|s| - 1] in d then d else d + [s[|s| - 1]]
  }

  /** Dedup of a sequence grown by one element. */
  lemma DedupSnoc<T(!new)>(s: seq<T>, x: T)
    ensures Dedup(s + [x]) == if x in Dedup(s) then Dedup(s) else Dedup(s) + [x]
  {
    assert (s + [x])[..|s|] == s;
  }

  /** Appending an element does not move the first occurrence of an earlier one. */
  lemma {:induction false} IndexOfSnoc<T>(s: seq<T>, x: T, y: T)
    requires y in s
    ensures IndexOf(s + [x], y) == IndexOf(s, y)
  {
    if s[0] != y {
      assert (s + [x])[1..] == s[1..] + [x];
      IndexOfSnoc(s[1..], x, y);
    }
  }

  /** Dedup lists its elements in the order in which each is first seen in s. */
  lemma {:induction false} DedupFirstSeenOrder<T(!new)>(s: seq<T>, i: nat, j: nat)
    requires i < j < |Dedup(s)|
    ensures IndexOf(s, Dedup(s)[i]) < IndexOf(s, Dedup(s)[j])
  {
    var n := |s|;
    var p := s[..n - 1];
    var x := s[n - 1];
    var d := Dedup(p);
    assert s == p + [x];
    if j < |d| {
      assert Dedup(s)[i] == d[i] && Dedup(s)[j] == d[j];
      DedupFirstSeenOrder(p, i, j);
      IndexOfSnoc(p, x, d[i]);
      IndexOfSnoc(p, x, d[j]);
    } else {
      assert x !in d && Dedup(s) == d + [x] && Dedup(s)[j] == x;
      assert x !in p;
      IndexOfSnoc(p, x, d[i]);
      assert IndexOf(s, x) == n - 1;
    }
  }

  /** A duplicate-free sequence has as many elements as its set. */
  lemma {:induction false} DistinctCard<T>(s: seq<T>)
    requires Distinct(s)
    ensures |Elems(s)| == |s|
  {
    if |s| > 0 {
      var p := s[..|s| - 1];
      var x := s[|s| - 1];
      assert Distinct(p);
      DistinctCard(p);
      assert x !in Elems(p);
      assert Elems(s) == Elems(p) + {x};
    }
  }

  /** The concatenation of a sequence of sequences, in order. */
  function Flatten<T>(ss: seq<seq<T>>): seq<T> {
    if |ss| == 0 then [] else Flatten(ss[..|ss| - 1]) + ss[|ss| - 1]
  }
}
