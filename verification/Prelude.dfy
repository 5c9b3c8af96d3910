/** Small shared vocabulary: optional values, results, and the two list
    operations (selection and reversal) in which route order is specified. */
module Prelude {

  datatype Option<+T> = None | Some(value: T)

  /** The source's (value, error) pairs. Error texts are not modelled. */
  datatype Result<+T> = Ok(value: T) | Err
  {
    predicate IsFailure() { Err? }

    function PropagateFailure<U>(): Result<U>
      requires Err?
    {
      Err
    }

    function Extract(): T
      requires Ok?
    {
      value
    }
  }

  function Lookup<K, V>(m: map<K, V>, k: K): Option<V> {
    if k in m then Some(m[k]) else None
  }

  lemma SameLookups<K, V>(a: map<K, V>, b: map<K, V>)
    requires forall k :: Lookup(a, k) == Lookup(b, k)
    ensures a == b
  {
    forall k ensures k in a <==> k in b {
      assert Lookup(a, k) == Lookup(b, k);
    }
    forall k | k in a ensures a[k] == b[k] {
      assert Lookup(a, k) == Lookup(b, k);
    }
  }

  /** The elements of s that satisfy p, in order. */
  function Select<T>(p: T -> bool, s: seq<T>): seq<T> {
    if s == [] then []
    else (if p(s[0]) then [s[0]] else []) + Select(p, s[1..])
  }

  function Backwards<T>(s: seq<T>): seq<T> {
    if s == [] then [] else Backwards(s[1..]) + [s[0]]
  }

  lemma Associative<T>(a: seq<T>, b: seq<T>, c: seq<T>)
    ensures (a + b) + c == a + (b + c)
  {
  }

  lemma Halves<T>(s: seq<T>, n: nat)
    requires n <= |s|
    ensures s == s[..n] + s[n..]
  {
  }

  lemma ConcatTail<T>(a: seq<T>, b: seq<T>)
    requires a != []
    ensures (a + b)[0] == a[0] && (a + b)[1..] == a[1..] + b
  {
  }

  /** A suffix in two parts splits the whole in three. */
  lemma GlueLeft<T>(s: seq<T>, n: nat, x: seq<T>, y: seq<T>)
    requires n <= |s| && s[n..] == x + y
    ensures s == (s[..n] + x) + y
  {
    Halves(s, n);
    Associative(s[..n], x, y);
  }

  /** A prefix in two parts splits the whole in three. */
  lemma GlueRight<T>(s: seq<T>, n: nat, x: seq<T>, y: seq<T>)
    requires n <= |s| && s[..n] == x + y
    ensures s == x + (y + s[n..])
  {
    Halves(s, n);
    Associative(x, y, s[n..]);
  }

  lemma {:induction false} SelectConcat<T>(p: T -> bool, a: seq<T>, b: seq<T>)
    ensures Select(p, a + b) == Select(p, a) + Select(p, b)
  {
    if a == [] {
      assert a + b == b;
    } else {
      SelectConcat(p, a[1..], b);
      ConcatTail(a, b);
      Associative(if p(a[0]) then [a[0]] else [], Select(p, a[1..]), Select(p, b));
    }
  }

  lemma {:induction false} SelectNone<T>(p: T -> bool, s: seq<T>)
    requires forall i :: 0 <= i < |s| ==> !p(s[i])
    ensures Select(p, s) == []
  {
    if s != [] {
      SelectNone(p, s[1..]);
    }
  }

  lemma {:induction false} SelectMembers<T>(p: T -> bool, s: seq<T>)
    ensures forall x :: x in Select(p, s) <==> x in s && p(x)
  {
    if s != [] {
      SelectMembers(p, s[1..]);
    }
  }

  lemma {:induction false} BackwardsConcat<T>(a: seq<T>, b: seq<T>)
    ensures Backwards(a + b) == Backwards(b) + Backwards(a)
  {
    if a == [] {
      assert a + b == b;
    } else {
      BackwardsConcat(a[1..], b);
      ConcatTail(a, b);
      Associative(Backwards(b), Backwards(a[1..]), [a[0]]);
    }
  }

  lemma {:induction false} BackwardsTwice<T>(s: seq<T>)
    ensures Backwards(Backwards(s)) == s
  {
    if s != [] {
      BackwardsConcat(Backwards(s[1..]), [s[0]]);
      BackwardsTwice(s[1..]);
      assert Backwards([s[0]]) == [s[0]];
    }
  }

  lemma {:induction false} BackwardsAt<T>(s: seq<T>)
    ensures |Backwards(s)| == |s|
    ensures forall i :: 0 <= i < |s| ==> Backwards(s)[i] == s[|s| - 1 - i]
  {
    if s != [] {
      BackwardsAt(s[1..]);
    }
  }

  lemma {:induction false} SelectBackwards<T>(p: T -> bool, s: seq<T>)
    ensures Select(p, Backwards(s)) == Backwards(Select(p, s))
  {
    if s != [] {
      SelectBackwards(p, s[1..]);
      SelectConcat(p, Backwards(s[1..]), [s[0]]);
      BackwardsConcat(if p(s[0]) then [s[0]] else [], Select(p, s[1..]));
      assert Select(p, [s[0]]) == (if p(s[0]) then [s[0]] else []);
      assert Backwards([s[0]]) == [s[0]];
    }
  }

  /** Selecting twice is selecting the conjunction. */
  lemma {:induction false} SelectSelect<T>(p: T -> bool, q: T -> bool, pq: T -> bool, s: seq<T>)
    requires forall x :: pq(x) <==> p(x) && q(x)
    ensures Select(q, Select(p, s)) == Select(pq, s)
  {
    if s != [] {
      SelectSelect(p, q, pq, s[1..]);
      SelectConcat(q, if p(s[0]) then [s[0]] else [], Select(p, s[1..]));
    }
  }

  /** The first selected element is the first element that satisfies p. */
  lemma {:induction false} SelectFirst<T>(p: T -> bool, s: seq<T>) returns (i: nat)
    requires Select(p, s) != []
    ensures i < |s| && p(s[i]) && s[i] == Select(p, s)[0]
    ensures forall j :: 0 <= j < i ==> !p(s[j])
  {
    if p(s[0]) {
      i := 0;
    } else {
      var k := SelectFirst(p, s[1..]);
      i := k + 1;
    }
  }
}
