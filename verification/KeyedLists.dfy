/**
 Lists used as maps: each element has a key, the first element with a key
 counts, and writing an element replaces that one whole or appends.
 */
module KeyedLists {
  import opened Options

  /** The position of the first element with the key, or the length of the list. */
  function IndexOf<T>(list: seq<T>, key: T -> string, k: string): (i: nat)
    ensures i <= |list|
    ensures i < |list| ==> key(list[i]) == k
    ensures forall j :: 0 <= j < i ==> key(list[j]) != k
  {
    if list == [] || key(list[0]) == k then 0 else 1 + IndexOf(list[1..], key, k)
  }

  function Find<T>(list: seq<T>, key: T -> string, k: string): Option<T> {
    var i := IndexOf(list, key, k);
    if i < |list| then Some(list[i]) else None
  }

  function Without<T>(list: seq<T>, key: T -> string, k: string): seq<T>
    decreases |list|
  {
    if list == [] then []
    else
      var last := list[|list| - 1];
      Without(list[..|list| - 1], key, k) + if key(last) != k then [last] else []
  }

  function Put<T>(list: seq<T>, key: T -> string, e: T): seq<T> {
    var i := IndexOf(list, key, key(e));
    if i < |list| then list[i := e] else list + [e]
  }

  function PutAll<T>(list: seq<T>, key: T -> string, es: seq<T>): seq<T>
    decreases |es|
  {
    if es == [] then list
    else Put(PutAll(list, key, es[..|es| - 1]), key, es[|es| - 1])
  }

  /** The last element with the key. */
  function Last<T>(list: seq<T>, key: T -> string, k: string): (e: Option<T>)
    ensures e.Some? ==> key(e.value) == k && e.value in list
    ensures e.None? <==> forall j :: 0 <= j < |list| ==> key(list[j]) != k
    decreases |list|
  {
    if list == [] then None
    else if key(list[|list| - 1]) == k then Some(list[|list| - 1])
    else Last(list[..|list| - 1], key, k)
  }

  function Count<T>(list: seq<T>, key: T -> string, k: string): nat
    decreases |list|
  {
    if list == [] then 0
    else Count(list[..|list| - 1], key, k) + if key(list[|list| - 1]) == k then 1 else 0
  }

  predicate UniqueKeys<T>(list: seq<T>, key: T -> string) {
    forall i, j :: 0 <= i < j < |list| ==> key(list[i]) != key(list[j])
  }

  lemma FindAppend<T>(list: seq<T>, key: T -> string, e: T, k: string)
    ensures Find(list + [e], key, k)
            == if Find(list, key, k).Some? then Find(list, key, k) else if key(e) == k then Some(e) else None
  {
    var longer := list + [e];
    var i, j := IndexOf(list, key, k), IndexOf(longer, key, k);
    assert forall m :: 0 <= m < |list| ==> longer[m] == list[m];
    if i < |list| {
      assert j == i;
    } else {
      assert longer[|list|] == e;
    }
  }

  lemma {:induction false} FindWithout<T>(list: seq<T>, key: T -> string, removed: string, k: string)
    ensures Find(Without(list, key, removed), key, k) == if k == removed then None else Find(list, key, k)
    decreases |list|
  {
    if list != [] {
      var n := |list| - 1;
      FindWithout(list[..n], key, removed, k);
      FindAppend(list[..n], key, list[n], k);
      FindAppend(Without(list[..n], key, removed), key, list[n], k);
      assert list == list[..n] + [list[n]];
      assert Without(list[..n], key, removed) + [] == Without(list[..n], key, removed);
    }
  }

  lemma {:induction false} WithoutMembers<T>(list: seq<T>, key: T -> string, k: string)
    ensures forall e :: e in Without(list, key, k) ==> e in list && key(e) != k
    ensures UniqueKeys(list, key) ==> UniqueKeys(Without(list, key, k), key)
    decreases |list|
  {
    if list != [] {
      var n := |list| - 1;
      WithoutMembers(list[..n], key, k);
      assert list == list[..n] + [list[n]];
      var rest := Without(list[..n], key, k);
      if UniqueKeys(list, key) {
        forall i | 0 <= i < |rest|
          ensures key(rest[i]) != key(list[n])
        {
          assert rest[i] in list[..n];
          var m :| 0 <= m < n && list[..n][m] == rest[i];
          assert list[m] == rest[i];
        }
      }
    }
  }

  lemma {:induction false} LastWithout<T>(list: seq<T>, key: T -> string, removed: string, k: string)
    ensures Last(Without(list, key, removed), key, k) == if k == removed then None else Last(list, key, k)
    decreases |list|
  {
    if list != [] {
      var n := |list| - 1;
      LastWithout(list[..n], key, removed, k);
      var rest := Without(list[..n], key, removed);
      assert rest + [] == rest;
      assert (rest + [list[n]])[..|rest|] == rest;
    }
  }

  /** The last element of a concatenation is that of the second part, if it has one. */
  lemma {:induction false} LastConcat<T>(a: seq<T>, b: seq<T>, key: T -> string, k: string)
    ensures Last(a + b, key, k) == if Last(b, key, k).Some? then Last(b, key, k) else Last(a, key, k)
    decreases |b|
  {
    if b == [] {
      assert a + b == a;
    } else {
      var n := |b| - 1;
      LastConcat(a, b[..n], key, k);
      assert (a + b)[..|a| + n] == a + b[..n];
    }
  }

  /** A write decides what is found under its key and nothing else. */
  lemma FindPut<T>(list: seq<T>, key: T -> string, e: T, k: string)
    ensures Find(Put(list, key, e), key, k) == if k == key(e) then Some(e) else Find(list, key, k)
  {
    var i := IndexOf(list, key, key(e));
    if i < |list| {
      var list' := list[i := e];
      assert forall m :: 0 <= m < |list| ==> key(list'[m]) == key(list[m]);
      assert IndexOf(list, key, k) == IndexOf(list', key, k);
    } else {
      FindAppend(list, key, e, k);
    }
  }

  /** After any writes the last one of a key is found, else what was there before. */
  lemma {:induction false} FindPutAll<T>(list: seq<T>, key: T -> string, es: seq<T>, k: string)
    ensures Find(PutAll(list, key, es), key, k)
            == if Last(es, key, k).Some? then Last(es, key, k) else Find(list, key, k)
    decreases |es|
  {
    if es != [] {
      var n := |es| - 1;
      FindPutAll(list, key, es[..n], k);
      FindPut(PutAll(list, key, es[..n]), key, es[n], k);
    }
  }

  /**
   Positions: no key moves, and a position changes only when it is the first
   of a key that was written.
   */
  lemma {:induction false} PutAllPositions<T>(list: seq<T>, key: T -> string, es: seq<T>)
    ensures var r := PutAll(list, key, es);
            && |list| <= |r|
            && (forall i :: 0 <= i < |list| ==> key(r[i]) == key(list[i]))
            && (forall i ::
                  0 <= i < |list| && (Last(es, key, key(list[i])).None? || i != IndexOf(list, key, key(list[i]))) ==>
                    r[i] == list[i])
    decreases |es|
  {
    if es != [] {
      var n := |es| - 1;
      PutAllPositions(list, key, es[..n]);
      var r := PutAll(list, key, es[..n]);
      var p := IndexOf(r, key, key(es[n]));
      if p < |list| {
        assert key(list[p]) == key(es[n]) && IndexOf(list, key, key(es[n])) == p;
      }
    }
  }

  lemma CountUpdate<T>(list: seq<T>, key: T -> string, i: nat, e: T, k: string)
    requires i < |list| && key(list[i]) == key(e)
    ensures Count(list[i := e], key, k) == Count(list, key, k)
    decreases |list|
  {
    var n := |list| - 1;
    if i == n {
      assert list[i := e][..n] == list[..n];
    } else {
      assert list[i := e][..n] == list[..n][i := e];
      CountUpdate(list[..n], key, i, e, k);
    }
  }

  lemma {:induction false} CountZero<T>(list: seq<T>, key: T -> string, k: string)
    ensures Count(list, key, k) == 0 <==> Find(list, key, k).None?
    decreases |list|
  {
    if list != [] {
      var n := |list| - 1;
      CountZero(list[..n], key, k);
      FindAppend(list[..n], key, list[n], k);
      assert list == list[..n] + [list[n]];
    }
  }

  lemma CountPut<T>(list: seq<T>, key: T -> string, e: T, k: string)
    ensures Count(Put(list, key, e), key, k)
            == if k == key(e) && Count(list, key, k) == 0 then 1 else Count(list, key, k)
  {
    var i := IndexOf(list, key, key(e));
    CountZero(list, key, k);
    if i < |list| {
      CountUpdate(list, key, i, e, k);
    } else {
      assert (list + [e])[..|list|] == list;
    }
  }

  /** After any writes each key occurs as often as before, but at least once if it was written. */
  lemma {:induction false} CountPutAll<T>(list: seq<T>, key: T -> string, es: seq<T>, k: string)
    ensures Count(PutAll(list, key, es), key, k)
            == if Last(es, key, k).Some? && Count(list, key, k) == 0 then 1 else Count(list, key, k)
    decreases |es|
  {
    if es != [] {
      var n := |es| - 1;
      CountPutAll(list, key, es[..n], k);
      CountPut(PutAll(list, key, es[..n]), key, es[n], k);
    }
  }

  lemma {:induction false} PutAllKeepsUnique<T>(list: seq<T>, key: T -> string, es: seq<T>)
    requires UniqueKeys(list, key)
    ensures UniqueKeys(PutAll(list, key, es), key)
    decreases |es|
  {
    if es != [] {
      PutAllKeepsUnique(list, key, es[..|es| - 1]);
    }
  }

  /** Writing the same elements again changes nothing, element by element. */
  lemma PutAllIdempotent<T>(list: seq<T>, key: T -> string, es: seq<T>)
    ensures PutAll(PutAll(list, key, es), key, es) == PutAll(list, key, es)
  {
    var r := PutAll(list, key, es);
    forall e | e in es
      ensures Find(r, key, key(e)).Some?
    {
      FindPutAll(list, key, es, key(e));
    }
    PutAllLength(r, key, es);
    PutAllPositions(r, key, es);
    var r' := PutAll(r, key, es);
    forall i | 0 <= i < |r|
      ensures r'[i] == r[i]
    {
      var k := key(r[i]);
      FindPutAll(list, key, es, k);
      FindPutAll(r, key, es, k);
      if Last(es, key, k).Some? && i == IndexOf(r, key, k) {
        assert IndexOf(r', key, k) == i;
      }
    }
  }

  /** Nothing is appended when every written key is there already. */
  lemma {:induction false} PutAllLength<T>(list: seq<T>, key: T -> string, es: seq<T>)
    requires forall e :: e in es ==> Find(list, key, key(e)).Some?
    ensures |PutAll(list, key, es)| == |list|
    decreases |es|
  {
    if es != [] {
      var n := |es| - 1;
      assert es[n] in es && forall e :: e in es[..n] ==> e in es;
      PutAllLength(list, key, es[..n]);
      PutAllPositions(list, key, es[..n]);
    }
  }
}
