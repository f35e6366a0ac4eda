/**
 The canonical text of a map that is hashed into a name suffix: sorted
 "key=value" lines. The digest itself is not modelled.
 */
module ContentHash {
  import opened Text

  /** Lexicographic order of texts. */
  predicate AtMost(a: string, b: string) {
    a == "" || (b != "" && (a[0] < b[0] || (a[0] == b[0] && AtMost(a[1..], b[1..]))))
  }

  /** A text comes first exactly when it is a prefix or has the smaller character at the first difference. */
  lemma {:induction false} AtMostSays(a: string, b: string)
    ensures AtMost(a, b) <==> a <= b || exists i :: 0 <= i < |a| && i < |b| && a[..i] == b[..i] && a[i] < b[i]
  {
    if a != "" && b != "" {
      AtMostSays(a[1..], b[1..]);
      FirstDifference(a, b);
    }
  }

  lemma FirstDifference(a: string, b: string)
    requires a != "" && b != ""
    ensures a <= b <==> a[0] == b[0] && a[1..] <= b[1..]
    ensures (exists i :: 0 <= i < |a| && i < |b| && a[..i] == b[..i] && a[i] < b[i])
            <==> a[0] < b[0]
                 || (a[0] == b[0]
                     && exists i :: 0 <= i < |a[1..]| && i < |b[1..]|
                                    && a[1..][..i] == b[1..][..i] && a[1..][i] < b[1..][i])
  {
    assert a == [a[0]] + a[1..] && b == [b[0]] + b[1..];
    if a[0] < b[0] {
      assert a[..0] == b[..0];
    }
    forall i | 0 < i < |a| && i < |b| && a[..i] == b[..i] && a[i] < b[i]
      ensures a[0] == b[0] && a[1..][..i - 1] == b[1..][..i - 1] && a[1..][i - 1] < b[1..][i - 1]
    {
      assert a[..i][0] == b[..i][0];
      assert a[1..][..i - 1] == a[..i][1..] && b[1..][..i - 1] == b[..i][1..];
    }
    forall i | a[0] == b[0] && 0 <= i < |a[1..]| && i < |b[1..]| && a[1..][..i] == b[1..][..i] && a[1..][i] < b[1..][i]
      ensures a[..i + 1] == b[..i + 1] && a[i + 1] < b[i + 1]
    {
      assert a[..i + 1] == [a[0]] + a[1..][..i] && b[..i + 1] == [b[0]] + b[1..][..i];
    }
  }

  lemma {:induction false} AtMostTotal(a: string, b: string)
    ensures AtMost(a, b) || AtMost(b, a)
    ensures AtMost(a, b) && AtMost(b, a) ==> a == b
  {
    if a != "" && b != "" && a[0] == b[0] {
      AtMostTotal(a[1..], b[1..]);
      assert a == [a[0]] + a[1..] && b == [b[0]] + b[1..];
    }
  }

  lemma {:induction false} AtMostTransitive(a: string, b: string, c: string)
    requires AtMost(a, b) && AtMost(b, c)
    ensures AtMost(a, c)
  {
    if a != "" && a[0] == b[0] == c[0] {
      AtMostTransitive(a[1..], b[1..], c[1..]);
    }
  }

  predicate Sorted(keys: seq<string>) {
    forall i, j :: 0 <= i < j < |keys| ==> AtMost(keys[i], keys[j])
  }

  predicate Distinct(keys: seq<string>) {
    forall i, j :: 0 <= i < j < |keys| ==> keys[i] != keys[j]
  }

  predicate AllAtLeast(k: string, keys: seq<string>) {
    forall i :: 0 <= i < |keys| ==> AtMost(k, keys[i])
  }

  lemma AtLeastHead(k: string, keys: seq<string>)
    requires Sorted(keys) && keys != [] && AtMost(k, keys[0])
    ensures AllAtLeast(k, keys)
  {
    forall i | 0 <= i < |keys|
      ensures AtMost(k, keys[i])
    {
      if i > 0 {
        AtMostTransitive(k, keys[0], keys[i]);
      }
    }
  }

  lemma AtLeastInserted(k: string, head: string, tail: seq<string>, rest: seq<string>)
    requires AllAtLeast(head, tail) && AtMost(head, k) && multiset(rest) == multiset(tail) + multiset{k}
    ensures AllAtLeast(head, rest)
  {
    forall i | 0 <= i < |rest|
      ensures AtMost(head, rest[i])
    {
      assert rest[i] in multiset(rest);
      assert rest[i] in tail || rest[i] == k;
    }
  }

  function Insert(k: string, keys: seq<string>): (r: seq<string>)
    requires Sorted(keys)
    ensures Sorted(r) && multiset(r) == multiset(keys) + multiset{k}
  {
    if keys == [] then [k]
    else
      AtMostTotal(k, keys[0]);
      if AtMost(k, keys[0]) then
        AtLeastHead(k, keys);
        [k] + keys
      else
        var rest := Insert(k, keys[1..]);
        assert keys == [keys[0]] + keys[1..];
        AtLeastInserted(k, keys[0], keys[1..], rest);
        [keys[0]] + rest
  }

  function Sort(keys: seq<string>): (r: seq<string>)
    ensures Sorted(r) && multiset(r) == multiset(keys)
  {
    if keys == [] then []
    else
      assert keys == [keys[0]] + keys[1..];
      Insert(keys[0], Sort(keys[1..]))
  }

  /** A list is determined by its elements once it is sorted. */
  lemma {:induction false} SortedUnique(a: seq<string>, b: seq<string>)
    requires Sorted(a) && Sorted(b) && multiset(a) == multiset(b)
    ensures a == b
  {
    assert |multiset(a)| == |multiset(b)|;
    if a != [] {
      HeadsAgree(a, b);
      TailMultiset(a);
      TailMultiset(b);
      SortedUnique(a[1..], b[1..]);
      assert a == [a[0]] + a[1..] && b == [b[0]] + b[1..];
    }
  }

  lemma TailMultiset(keys: seq<string>)
    requires keys != []
    ensures multiset(keys[1..]) == multiset(keys) - multiset{keys[0]}
  {
    assert keys == [keys[0]] + keys[1..];
  }

  lemma HeadsAgree(a: seq<string>, b: seq<string>)
    requires a != [] && b != [] && Sorted(a) && Sorted(b) && multiset(a) == multiset(b)
    ensures a[0] == b[0]
  {
    assert a[0] in multiset(b) && b[0] in multiset(a);
    HeadIsLeast(a, b[0]);
    HeadIsLeast(b, a[0]);
    AtMostTotal(a[0], b[0]);
  }

  lemma HeadIsLeast(keys: seq<string>, k: string)
    requires Sorted(keys) && k in keys
    ensures AtMost(keys[0], k)
  {
    AtMostTotal(k, k);
  }

  /** The lines of the given keys. */
  function Lines(keys: seq<string>, data: map<string, string>): seq<string>
    requires forall k :: k in keys ==> k in data
  {
    seq(|keys|, i requires 0 <= i < |keys| => keys[i] + "=" + data[keys[i]])
  }

  /** An order in which the keys of the map may be iterated over. */
  predicate Enumerates(order: seq<string>, data: map<string, string>) {
    Distinct(order) && (forall k :: k in order ==> k in data) && (forall k :: k in data ==> k in order)
  }

  lemma SortEnumerates(order: seq<string>, data: map<string, string>)
    requires Enumerates(order, data)
    ensures Enumerates(Sort(order), data)
  {
    var r := Sort(order);
    forall k
      ensures k in r <==> k in order
    {
      assert k in multiset(r) <==> k in multiset(order);
    }
    DistinctMultiset(order);
    forall i, j | 0 <= i < j < |r|
      ensures r[i] != r[j]
    {
      RepeatCounts(r, i, j);
    }
  }

  lemma RepeatCounts(keys: seq<string>, i: nat, j: nat)
    requires i < j < |keys|
    ensures keys[i] == keys[j] ==> multiset(keys)[keys[i]] >= 2
  {
    assert keys == keys[..i] + [keys[i]] + keys[i + 1..j] + [keys[j]] + keys[j + 1..];
  }

  lemma {:induction false} DistinctMultiset(keys: seq<string>)
    requires Distinct(keys)
    ensures forall k :: multiset(keys)[k] <= 1
  {
    if keys != [] {
      DistinctMultiset(keys[1..]);
      assert keys == [keys[0]] + keys[1..];
      assert keys[0] !in keys[1..];
    }
  }

  function Canonical(order: seq<string>, data: map<string, string>): string
    requires Enumerates(order, data)
  {
    SortEnumerates(order, data);
    Join(Lines(Sort(order), data), "\n")
  }

  method BuildLines(keys: seq<string>, data: map<string, string>) returns (pairs: seq<string>)
    requires forall k :: k in keys ==> k in data
    ensures pairs == Lines(keys, data)
  {
    pairs := [];
    for i := 0 to |keys|
      invariant pairs == Lines(keys, data)[..i]
    {
      pairs := pairs + [keys[i] + "=" + data[keys[i]]];
      assert pairs[i] == Lines(keys, data)[i];
    }
  }

  /** The text that is hashed, built by a loop over the sorted keys. */
  method CanonicalText(data: map<string, string>, order: seq<string>) returns (text: string)
    requires Enumerates(order, data)
    ensures text == Canonical(order, data)
  {
    SortEnumerates(order, data);
    var pairs := BuildLines(Sort(order), data);
    text := Join(pairs, "\n");
  }

  /** The iteration order of the map does not matter. */
  lemma OrderFree(data: map<string, string>, order: seq<string>, other: seq<string>)
    requires Enumerates(order, data) && Enumerates(other, data)
    ensures Canonical(order, data) == Canonical(other, data)
  {
    DistinctMultiset(order);
    DistinctMultiset(other);
    forall k
      ensures multiset(order)[k] == multiset(other)[k]
    {
      assert k in multiset(order) <==> k in order;
      assert k in multiset(other) <==> k in other;
    }
    SortedUnique(Sort(order), Sort(other));
  }

  // ---------- Injectivity ----------

  /** No key contains '=' and no value a line break; keys may contain line breaks. */
  predicate Unambiguous(data: map<string, string>) {
    forall k :: k in data ==> '=' !in k && '\n' !in data[k]
  }

  /** Texts that agree are split at the first occurrence of the mark in the same place. */
  lemma SplitAtMark(a: string, b: string, mark: char, restA: string, restB: string)
    requires mark !in a && mark !in b
    requires a + [mark] + restA == b + [mark] + restB
    ensures a == b && restA == restB
  {
    var text := a + [mark] + restA;
    assert text[|a|] == mark && text[|b|] == mark;
    assert forall i :: 0 <= i < |a| ==> text[i] == a[i] && a[i] in a;
    assert forall i :: 0 <= i < |b| ==> text[i] == b[i] && b[i] in b;
    assert |a| == |b|;
    assert a == text[..|a|] == b;
    assert restA == text[|a| + 1..] == restB;
  }

  lemma {:induction false} LinesInjective(
    a: seq<string>, x: map<string, string>, b: seq<string>, y: map<string, string>)
    requires Unambiguous(x) && Unambiguous(y)
    requires (forall k :: k in a ==> k in x) && (forall k :: k in b ==> k in y)
    requires Join(Lines(a, x), "\n") == Join(Lines(b, y), "\n")
    ensures a == b
    ensures forall k :: k in a ==> x[k] == y[k]
    decreases |a|
  {
    JoinNonEmpty(a, x);
    JoinNonEmpty(b, y);
    if a != [] && b != [] {
      FirstLine(a, x, b, y);
      if |a| > 1 {
        LinesInjective(a[1..], x, b[1..], y);
      }
      assert a == [a[0]] + a[1..] && b == [b[0]] + b[1..];
    }
  }

  /** The first keys and values agree, and so does what follows. */
  lemma FirstLine(a: seq<string>, x: map<string, string>, b: seq<string>, y: map<string, string>)
    requires Unambiguous(x) && Unambiguous(y) && a != [] && b != []
    requires (forall k :: k in a ==> k in x) && (forall k :: k in b ==> k in y)
    requires Join(Lines(a, x), "\n") == Join(Lines(b, y), "\n")
    ensures a[0] == b[0] && x[a[0]] == y[b[0]] && Rest(a, x) == Rest(b, y)
  {
    SplitAtMark(a[0], b[0], '=', x[a[0]] + Rest(a, x), y[b[0]] + Rest(b, y));
    ValueSplit(x[a[0]], Rest(a, x), y[b[0]], Rest(b, y));
  }

  /** What follows the first value in the text: nothing, or a line break and the other lines. */
  function Rest(keys: seq<string>, data: map<string, string>): (r: string)
    requires keys != [] && forall k :: k in keys ==> k in data
    ensures r == "" <==> |keys| == 1
    ensures r != "" ==> r[0] == '\n' && r[1..] == Join(Lines(keys[1..], data), "\n")
    ensures Join(Lines(keys, data), "\n") == keys[0] + ['='] + (data[keys[0]] + r)
  {
    if |keys| == 1 then ""
    else
      assert Lines(keys, data)[0] == keys[0] + "=" + data[keys[0]];
      assert Lines(keys, data)[1..] == Lines(keys[1..], data);
      "\n" + Join(Lines(keys[1..], data), "\n")
  }

  lemma JoinNonEmpty(keys: seq<string>, data: map<string, string>)
    requires forall k :: k in keys ==> k in data
    ensures Join(Lines(keys, data), "\n") == "" <==> keys == []
  {
    if keys != [] {
      var r := Rest(keys, data);
    }
  }

  /** A value without line breaks ends at the first one or at the end. */
  lemma ValueSplit(v: string, restV: string, w: string, restW: string)
    requires '\n' !in v && '\n' !in w && v + restV == w + restW
    requires (restV != "" ==> restV[0] == '\n') && (restW != "" ==> restW[0] == '\n')
    ensures v == w && restV == restW
  {
    var text := v + restV;
    assert forall i :: 0 <= i < |v| ==> text[i] == v[i] && v[i] in v;
    assert forall i :: 0 <= i < |w| ==> text[i] == w[i] && w[i] in w;
    assert |v| < |text| ==> text[|v|] == restV[0];
    assert |w| < |text| ==> text[|w|] == restW[0];
    assert |v| == |w|;
    assert v == text[..|v|] == w;
    assert restV == text[|v|..] == restW;
  }

  /** Different unambiguous maps have different texts. */
  lemma CanonicalInjective(x: map<string, string>, orderX: seq<string>, y: map<string, string>, orderY: seq<string>)
    requires Enumerates(orderX, x) && Enumerates(orderY, y) && Unambiguous(x) && Unambiguous(y)
    ensures Canonical(orderX, x) == Canonical(orderY, y) <==> x == y
  {
    SortEnumerates(orderX, x);
    SortEnumerates(orderY, y);
    if Canonical(orderX, x) == Canonical(orderY, y) {
      LinesInjective(Sort(orderX), x, Sort(orderY), y);
      assert x.Keys == y.Keys;
    } else if x == y {
      OrderFree(x, orderX, orderY);
    }
  }

  lemma SingleLine(k: string, v: string)
    ensures Canonical([k], map[k := v]) == k + "=" + v
  {
    assert Sort([k]) == [k];
    assert Lines([k], map[k := v]) == [k + "=" + v];
  }

  /** Every key with an '=' shares its text with another map. */
  lemma AmbiguousKey(p: string, q: string, v: string)
    ensures Canonical([p + "=" + q], map[p + "=" + q := v]) == Canonical([p], map[p := q + "=" + v])
    ensures map[p + "=" + q := v] != map[p := q + "=" + v]
  {
    SingleLine(p + "=" + q, v);
    SingleLine(p, q + "=" + v);
    assert (p + "=" + q) + "=" + v == p + "=" + (q + "=" + v);
    assert |p + "=" + q| > |p|;
    assert p in map[p := q + "=" + v] && p !in map[p + "=" + q := v];
  }

  lemma TwoKeysSorted(k: string, l: string)
    requires AtMost(k, l)
    ensures Sort([k, l]) == [k, l]
  {
    assert [k, l][1..] == [l];
    assert Sort([l]) == [l];
    assert Insert(k, [l]) == [k] + [l];
  }

  lemma JoinTwo(a: string, b: string)
    ensures Join([a, b], "\n") == a + "\n" + b
  {
    assert [a, b][1..] == [b];
  }

  /** Every value with a line break before a "key=value" of a later key shares its text with another map. */
  lemma AmbiguousValue(k: string, v: string, l: string, w: string)
    requires AtMost(k, l) && k != l
    ensures Canonical([k], map[k := v + "\n" + l + "=" + w]) == Canonical([k, l], map[k := v, l := w])
  {
    SingleLine(k, v + "\n" + l + "=" + w);
    TwoKeysSorted(k, l);
    JoinTwo(k + "=" + v, l + "=" + w);
    assert Lines([k, l], map[k := v, l := w]) == [k + "=" + v, l + "=" + w];
    TextsAgree(k, v, l, w);
  }

  lemma TextsAgree(k: string, v: string, l: string, w: string)
    ensures k + "=" + (v + "\n" + l + "=" + w) == (k + "=" + v) + "\n" + (l + "=" + w)
  {
  }

  // ---------- Which texts belong to one map ----------

  /** The text holds at most one '='. */
  predicate OneMark(text: string) {
    forall i, j :: 0 <= i < j < |text| ==> !(text[i] == '=' && text[j] == '=')
  }

  lemma TwoLinesTwoMarks(keys: seq<string>, data: map<string, string>)
    requires |keys| > 1 && forall k :: k in keys ==> k in data
    ensures !OneMark(Join(Lines(keys, data), "\n"))
  {
    var text, k, v, r := Join(Lines(keys, data), "\n"), keys[0], data[keys[0]], Rest(keys, data);
    var l := keys[1..][0];
    assert text == k + ['='] + (v + r);
    assert r[1..] == l + ['='] + (data[l] + Rest(keys[1..], data));
    assert r[1 + |l|] == '=' && (v + r)[|v| + 1 + |l|] == '=';
    assert text[|k|] == '=' && text[|k| + 1 + (|v| + 1 + |l|)] == '=';
  }

  lemma OneLineMarks(k: string, v: string)
    ensures OneMark(k + ['='] + v) <==> '=' !in k && '=' !in v
  {
    var text := k + ['='] + v;
    assert text[|k|] == '=';
    assert forall i :: 0 <= i < |k| ==> text[i] == k[i];
    assert forall i :: 0 <= i < |v| ==> text[|k| + 1 + i] == v[i];
    assert forall i :: |k| < i < |text| ==> text[i] == v[i - |k| - 1];
  }

  /** The map is empty, or has one entry whose key and value are without '='. */
  predicate OneCleanEntry(data: map<string, string>) {
    forall k, l :: k in data && l in data ==> k == l && '=' !in k && '=' !in data[k]
  }

  lemma OneMarkLines(keys: seq<string>, data: map<string, string>)
    requires Enumerates(keys, data)
    ensures OneMark(Join(Lines(keys, data), "\n")) <==> OneCleanEntry(data)
    ensures OneCleanEntry(data) ==> |keys| <= 1
    ensures |keys| == 1 ==> Join(Lines(keys, data), "\n") == keys[0] + ['='] + data[keys[0]]
  {
    if |keys| > 1 {
      TwoLinesTwoMarks(keys, data);
      assert keys[0] in data && keys[1] in data && keys[0] != keys[1];
    } else if |keys| == 1 {
      var r := Rest(keys, data);
      assert data[keys[0]] + r == data[keys[0]];
      OneLineMarks(keys[0], data[keys[0]]);
      assert forall k :: k in data ==> k == keys[0];
    }
  }

  lemma OneMarkUnique(x: map<string, string>, orderX: seq<string>, y: map<string, string>, orderY: seq<string>)
    requires Enumerates(orderX, x) && Enumerates(orderY, y)
    requires Canonical(orderX, x) == Canonical(orderY, y) && OneCleanEntry(x)
    ensures x == y
  {
    SortEnumerates(orderX, x);
    SortEnumerates(orderY, y);
    var a, b := Sort(orderX), Sort(orderY);
    OneMarkLines(a, x);
    OneMarkLines(b, y);
    JoinNonEmpty(a, x);
    JoinNonEmpty(b, y);
    if a != [] {
      SplitAtMark(a[0], b[0], '=', x[a[0]], y[b[0]]);
      assert x == map[a[0] := x[a[0]]] && y == map[b[0] := y[b[0]]];
    } else {
      assert x == map[] && y == map[];
    }
  }

  /** Every text with two or more '=' is that of two different maps, split at either of them. */
  lemma TwoMarksAmbiguous(text: string, i: nat, j: nat)
    requires i < j < |text| && text[i] == '=' && text[j] == '='
    ensures Canonical([text[..i]], map[text[..i] := text[i + 1..]]) == text
    ensures Canonical([text[..j]], map[text[..j] := text[j + 1..]]) == text
    ensures map[text[..i] := text[i + 1..]] != map[text[..j] := text[j + 1..]]
  {
    SingleLine(text[..i], text[i + 1..]);
    SingleLine(text[..j], text[j + 1..]);
    assert text == text[..i] + "=" + text[i + 1..] == text[..j] + "=" + text[j + 1..];
    assert |text[..i]| != |text[..j]|;
    assert text[..i] in map[text[..i] := text[i + 1..]] && text[..i] !in map[text[..j] := text[j + 1..]];
  }

  /** The text of a map is that of no other map exactly when the map has at most one entry and that is without '='. */
  lemma OnlyText(x: map<string, string>, order: seq<string>)
    requires Enumerates(order, x)
    ensures OneCleanEntry(x)
            <==> forall y, other :: Enumerates(other, y) && Canonical(other, y) == Canonical(order, x) ==> y == x
  {
    if OneCleanEntry(x) {
      forall y, other | Enumerates(other, y) && Canonical(other, y) == Canonical(order, x)
        ensures y == x
      {
        OneMarkUnique(x, order, y, other);
      }
    } else {
      var y, other := Another(x, order);
    }
  }

  /** Any other map has the text of one that differs from it. */
  lemma Another(x: map<string, string>, order: seq<string>) returns (y: map<string, string>, other: seq<string>)
    requires Enumerates(order, x) && !OneCleanEntry(x)
    ensures Enumerates(other, y) && Canonical(other, y) == Canonical(order, x) && y != x
  {
    SortEnumerates(order, x);
    OneMarkLines(Sort(order), x);
    var text := Canonical(order, x);
    var i, j :| 0 <= i < j < |text| && text[i] == '=' && text[j] == '=';
    TwoMarksAmbiguous(text, i, j);
    y, other := map[text[..i] := text[i + 1..]], [text[..i]];
    if y == x {
      y, other := map[text[..j] := text[j + 1..]], [text[..j]];
    }
  }
}
