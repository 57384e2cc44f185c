/** Tuple keys as the repository's `sort(key=...)` calls use them: a key is a
    sequence of numbers and strings, compared left to right, with strings
    compared by code point. */
module Ordering {

  datatype Part = Num(n: int) | Text(s: string)
  type Key = seq<Part>

  predicate TextLess(a: string, b: string) {
    if a == [] || b == [] then a == [] && b != []
    else a[0] < b[0] || (a[0] == b[0] && TextLess(a[1..], b[1..]))
  }

  predicate PartLess(p: Part, q: Part) {
    match (p, q)
    case (Num(x), Num(y)) => x < y
    case (Text(x), Text(y)) => TextLess(x, y)
    case (Num(_), Text(_)) => true
    case (Text(_), Num(_)) => false
  }

  predicate KeyLess(a: Key, b: Key) {
    if a == [] || b == [] then a == [] && b != []
    else PartLess(a[0], b[0]) || (a[0] == b[0] && KeyLess(a[1..], b[1..]))
  }

  function NumberKey(n: nat): Key { [Num(n)] }

  function TextKey(s: string): Key { [Text(s)] }

  lemma {:induction false} TextTrichotomy(a: string, b: string)
    ensures TextLess(a, b) || a == b || TextLess(b, a)
    ensures !(TextLess(a, b) && TextLess(b, a))
    ensures !TextLess(a, a)
  {
    if a != [] {
      TextTrichotomy(a[1..], a[1..]);
      if b != [] {
        TextTrichotomy(a[1..], b[1..]);
        assert a == [a[0]] + a[1..] && b == [b[0]] + b[1..];
      }
    }
  }

  lemma {:induction false} TextTransitive(a: string, b: string, c: string)
    requires TextLess(a, b) && TextLess(b, c)
    ensures TextLess(a, c)
  {
    if a != [] && a[0] == b[0] == c[0] {
      TextTransitive(a[1..], b[1..], c[1..]);
    }
  }

  /** Code point order: at the first difference the smaller character, or a proper
      beginning, comes first. */
  ghost predicate FirstDifference(a: string, b: string, k: nat) {
    && k <= |a| && k < |b| && a[..k] == b[..k]
    && (k == |a| || a[k] < b[k])
  }

  ghost predicate TextBefore(a: string, b: string) {
    exists k: nat :: FirstDifference(a, b, k)
  }

  lemma {:induction false} TextLessIs(a: string, b: string)
    ensures TextLess(a, b) <==> TextBefore(a, b)
  {
    if a == [] || b == [] {
      if a == [] && b != [] {
        assert FirstDifference(a, b, 0);
      }
    } else {
      TextLessIs(a[1..], b[1..]);
      if a[0] == b[0] {
        forall k: nat | 0 < k <= |a| && k < |b| ensures FirstDifference(a, b, k) <==> FirstDifference(a[1..], b[1..], k - 1) {
          assert a[..k] == [a[0]] + a[1..][..k - 1] && b[..k] == [b[0]] + b[1..][..k - 1];
        }
        if k: nat :| FirstDifference(a[1..], b[1..], k) {
          assert FirstDifference(a, b, k + 1);
        }
      } else {
        assert a[0] < b[0] ==> FirstDifference(a, b, 0);
        forall k: nat | 0 < k <= |a| && k < |b| ensures !FirstDifference(a, b, k) {
          assert a[..k][0] == a[0] && b[..k][0] == b[0];
        }
      }
    }
  }

  lemma KeyStep(p: Part, q: Part, a: Key, b: Key)
    ensures KeyLess([p] + a, [q] + b) <==> PartLess(p, q) || (p == q && KeyLess(a, b))
  {
    assert ([p] + a)[1..] == a && ([q] + b)[1..] == b;
  }

  lemma PartTrichotomy(p: Part, q: Part)
    ensures PartLess(p, q) || p == q || PartLess(q, p)
    ensures !(PartLess(p, q) && PartLess(q, p))
    ensures !PartLess(p, p)
  {
    if p.Text? {
      TextTrichotomy(p.s, p.s);
      if q.Text? {
        TextTrichotomy(p.s, q.s);
      }
    }
  }

  lemma PartTransitive(p: Part, q: Part, r: Part)
    requires PartLess(p, q) && PartLess(q, r)
    ensures PartLess(p, r)
  {
    if p.Text? && q.Text? && r.Text? {
      TextTransitive(p.s, q.s, r.s);
    }
  }

  /** Keys are totally ordered: exactly one of less, equal, greater holds. */
  lemma {:induction false} KeyTrichotomy(a: Key, b: Key)
    ensures KeyLess(a, b) || a == b || KeyLess(b, a)
    ensures !(KeyLess(a, b) && KeyLess(b, a))
    ensures !KeyLess(a, a)
  {
    if a != [] {
      PartTrichotomy(a[0], a[0]);
      KeyTrichotomy(a[1..], a[1..]);
      if b != [] {
        PartTrichotomy(a[0], b[0]);
        KeyTrichotomy(a[1..], b[1..]);
        assert a == [a[0]] + a[1..] && b == [b[0]] + b[1..];
      }
    }
  }

  lemma {:induction false} KeyTransitive(a: Key, b: Key, c: Key)
    requires KeyLess(a, b) && KeyLess(b, c)
    ensures KeyLess(a, c)
  {
    if a != [] {
      PartTrichotomy(a[0], a[0]);
      if PartLess(a[0], b[0]) && PartLess(b[0], c[0]) {
        PartTransitive(a[0], b[0], c[0]);
      } else if a[0] == b[0] == c[0] {
        KeyTransitive(a[1..], b[1..], c[1..]);
      }
    }
  }

  /** "Not after" is transitive as well, which is what sortedness needs. */
  lemma KeyNotAfterTransitive(a: Key, b: Key, c: Key)
    requires !KeyLess(b, a) && !KeyLess(c, b)
    ensures !KeyLess(c, a)
  {
    KeyTrichotomy(a, b);
    KeyTrichotomy(b, c);
    if KeyLess(c, a) {
      if a != b {
        KeyTransitive(c, a, b);
      }
    }
  }
}

/** Bags, stable sorting by key, and the facts that make sorting canonical. */
module Sorting {
  import opened Ordering

  datatype Option<+T> = None | Some(value: T)

  predicate Sorted<T(!new)>(xs: seq<T>, key: T -> Key) {
    forall i, j | 0 <= i < j < |xs| :: !KeyLess(key(xs[j]), key(xs[i]))
  }

  ghost predicate KeyInjective<T(!new)>(xs: seq<T>, key: T -> Key) {
    forall x, y | x in xs && y in xs && key(x) == key(y) :: x == y
  }

  /** Puts `x` before the first element that is not smaller. */
  function Insert<T>(x: T, xs: seq<T>, key: T -> Key): seq<T> {
    if xs == [] then [x]
    else if KeyLess(key(xs[0]), key(x)) then [xs[0]] + Insert(x, xs[1..], key)
    else [x] + xs
  }

  /** The stable sort behind `list.sort(key=...)` and `sorted(..., key=...)`. */
  function SortBy<T>(xs: seq<T>, key: T -> Key): seq<T> {
    if xs == [] then [] else Insert(xs[0], SortBy(xs[1..], key), key)
  }

  lemma {:induction false} InsertSorted<T(!new)>(x: T, xs: seq<T>, key: T -> Key)
    requires Sorted(xs, key)
    ensures Sorted(Insert(x, xs, key), key)
    ensures multiset(Insert(x, xs, key)) == multiset{x} + multiset(xs)
  {
    if xs == [] {
    } else if KeyLess(key(xs[0]), key(x)) {
      InsertSorted(x, xs[1..], key);
      var tail := Insert(x, xs[1..], key);
      assert xs == [xs[0]] + xs[1..];
      KeyTrichotomy(key(xs[0]), key(x));
      forall j | 0 <= j < |tail| ensures !KeyLess(key(tail[j]), key(xs[0])) {
        assert tail[j] in multiset(tail);
        assert tail[j] == x || tail[j] in xs[1..];
      }
    } else {
      forall j | 0 <= j < |xs| ensures !KeyLess(key(xs[j]), key(x)) {
        KeyTrichotomy(key(xs[0]), key(xs[0]));
        KeyNotAfterTransitive(key(x), key(xs[0]), key(xs[j]));
      }
    }
  }

  /** Sorting orders the elements and loses and invents none. */
  lemma {:induction false} SortBySorts<T(!new)>(xs: seq<T>, key: T -> Key)
    ensures Sorted(SortBy(xs, key), key)
    ensures multiset(SortBy(xs, key)) == multiset(xs)
    ensures |SortBy(xs, key)| == |xs|
    ensures forall x :: x in SortBy(xs, key) <==> x in xs
  {
    if xs != [] {
      SortBySorts(xs[1..], key);
      InsertSorted(xs[0], SortBy(xs[1..], key), key);
      assert xs == [xs[0]] + xs[1..];
    }
    assert |multiset(SortBy(xs, key))| == |multiset(xs)|;
    assert forall x :: x in SortBy(xs, key) <==> x in multiset(SortBy(xs, key));
    assert forall x :: x in xs <==> x in multiset(xs);
  }

  lemma TailBag<T>(xs: seq<T>, ys: seq<T>)
    requires xs != [] && ys != [] && xs[0] == ys[0]
    requires multiset(xs) == multiset(ys)
    ensures multiset(xs[1..]) == multiset(ys[1..])
  {
    assert xs == [xs[0]] + xs[1..] && ys == [ys[0]] + ys[1..];
    assert multiset(xs[1..]) == multiset(xs) - multiset{xs[0]};
    assert multiset(ys[1..]) == multiset(ys) - multiset{ys[0]};
  }

  lemma SortedHeadsAgree<T(!new)>(xs: seq<T>, ys: seq<T>, key: T -> Key)
    requires xs != [] && ys != [] && Sorted(xs, key) && Sorted(ys, key)
    requires multiset(xs) == multiset(ys)
    requires KeyInjective(xs, key)
    ensures xs[0] == ys[0]
  {
    assert xs[0] in multiset(ys) && ys[0] in multiset(xs);
    var i :| 0 <= i < |ys| && ys[i] == xs[0];
    var j :| 0 <= j < |xs| && xs[j] == ys[0];
    KeyTrichotomy(key(xs[0]), key(ys[0]));
    assert !KeyLess(key(xs[j]), key(xs[0])) || j == 0;
    assert !KeyLess(key(ys[i]), key(ys[0])) || i == 0;
  }

  lemma {:induction false} SortedUnique<T(!new)>(xs: seq<T>, ys: seq<T>, key: T -> Key)
    requires Sorted(xs, key) && Sorted(ys, key)
    requires multiset(xs) == multiset(ys)
    requires KeyInjective(xs, key)
    ensures xs == ys
  {
    assert |multiset(xs)| == |multiset(ys)|;
    if xs != [] {
      SortedHeadsAgree(xs, ys, key);
      TailBag(xs, ys);
      SortedUnique(xs[1..], ys[1..], key);
      assert xs == [xs[0]] + xs[1..] && ys == [ys[0]] + ys[1..];
    }
  }

  /** Sorting forgets the input order when the key tells elements apart. */
  lemma SortByCanonical<T(!new)>(xs: seq<T>, ys: seq<T>, key: T -> Key)
    requires multiset(xs) == multiset(ys)
    requires KeyInjective(xs, key)
    ensures SortBy(xs, key) == SortBy(ys, key)
  {
    SortBySorts(xs, key);
    SortBySorts(ys, key);
    SortedUnique(SortBy(xs, key), SortBy(ys, key), key);
  }

  /** A list is its own sorting exactly when it is in order. */
  lemma {:induction false} SortedFixpoint<T(!new)>(xs: seq<T>, key: T -> Key)
    ensures SortBy(xs, key) == xs <==> Sorted(xs, key)
  {
    SortBySorts(xs, key);
    if Sorted(xs, key) && xs != [] {
      SortedFixpoint(xs[1..], key);
      assert SortBy(xs, key) == Insert(xs[0], xs[1..], key);
      assert xs == [xs[0]] + xs[1..];
    }
  }

  // ---------------------------------------------------------------- bags

  predicate NoRepeats<T(==)>(xs: seq<T>) {
    forall x | x in xs :: multiset(xs)[x] == 1
  }

  lemma NoRepeatsIndices<T>(xs: seq<T>, i: nat, j: nat)
    requires NoRepeats(xs) && i < j < |xs|
    ensures xs[i] != xs[j]
  {
    assert xs == xs[..j] + xs[j..];
    var left, right := xs[..j], xs[j..];
    assert left[i] == xs[i] && right[0] == xs[j];
    assert xs[i] in multiset(left) && xs[j] in multiset(right);
    assert multiset(xs) == multiset(left) + multiset(right);
    assert xs[i] in xs;
    assert multiset(xs)[xs[i]] == multiset(left)[xs[i]] + multiset(right)[xs[i]];
  }

  lemma {:induction false} DistinctIndicesNoRepeats<T>(xs: seq<T>)
    requires forall i, j | 0 <= i < j < |xs| :: xs[i] != xs[j]
    ensures NoRepeats(xs)
  {
    if xs != [] {
      DistinctIndicesNoRepeats(xs[1..]);
      assert xs == [xs[0]] + xs[1..];
      assert xs[0] !in xs[1..];
      forall x | x in xs ensures multiset(xs)[x] == 1 {
        assert multiset(xs) == multiset{xs[0]} + multiset(xs[1..]);
        if x == xs[0] {
          assert x !in multiset(xs[1..]);
        } else {
          assert x in xs[1..];
        }
      }
    }
  }

  function Map<T, U>(f: T -> U, xs: seq<T>): (ys: seq<U>)
    ensures |ys| == |xs|
    ensures forall i | 0 <= i < |xs| :: ys[i] == f(xs[i])
  {
    seq(|xs|, i requires 0 <= i < |xs| => f(xs[i]))
  }

  function Flat<T, U>(f: T -> seq<U>, xs: seq<T>): seq<U> {
    if xs == [] then [] else f(xs[0]) + Flat(f, xs[1..])
  }

  lemma {:induction false} FlatConcat<T, U>(f: T -> seq<U>, xs: seq<T>, ys: seq<T>)
    ensures Flat(f, xs + ys) == Flat(f, xs) + Flat(f, ys)
  {
    if xs == [] {
      assert xs + ys == ys;
    } else {
      FlatConcat(f, xs[1..], ys);
      assert (xs + ys)[0] == xs[0] && (xs + ys)[1..] == xs[1..] + ys;
    }
  }

  lemma {:induction false} FlatMember<T(!new), U(!new)>(f: T -> seq<U>, xs: seq<T>, u: U)
    ensures u in Flat(f, xs) <==> exists x :: x in xs && u in f(x)
  {
    if xs != [] {
      FlatMember(f, xs[1..], u);
      assert forall x :: x in xs <==> x == xs[0] || x in xs[1..];
    }
  }

  lemma TakeOneMore<T>(xs: seq<T>, n: nat)
    requires n < |xs|
    ensures xs[..n + 1] == xs[..n] + [xs[n]]
  {
  }

  lemma TakeAndDrop<T>(xs: seq<T>, n: nat)
    requires n <= |xs|
    ensures xs[..n] + xs[n..] == xs
  {
  }

  lemma FlatTake<T, U>(f: T -> seq<U>, xs: seq<T>, n: nat)
    requires n < |xs|
    ensures Flat(f, xs[..n + 1]) == Flat(f, xs[..n]) + f(xs[n])
  {
    TakeOneMore(xs, n);
    FlatSnoc(f, xs[..n], xs[n]);
  }

  lemma FlatDrop<T, U>(f: T -> seq<U>, xs: seq<T>, n: nat)
    requires n <= |xs|
    ensures Flat(f, xs) == Flat(f, xs[..n]) + Flat(f, xs[n..])
  {
    TakeAndDrop(xs, n);
    FlatConcat(f, xs[..n], xs[n..]);
  }

  lemma FlatAt<T, U>(f: T -> seq<U>, xs: seq<T>, n: nat)
    requires n < |xs|
    ensures Flat(f, xs[..n + 1]) == Flat(f, xs[..n]) + f(xs[n])
    ensures Flat(f, xs) == Flat(f, xs[..n + 1]) + Flat(f, xs[n + 1..])
  {
    FlatTake(f, xs, n);
    FlatDrop(f, xs, n + 1);
  }

  /** Two lists hold the same elements: one can be rebuilt around any head of the other. */
  lemma Extract<T>(xs: seq<T>, ys: seq<T>) returns (before: seq<T>, after: seq<T>)
    requires xs != [] && multiset(xs) == multiset(ys)
    ensures ys == before + [xs[0]] + after
    ensures multiset(xs[1..]) == multiset(before + after)
  {
    assert xs == [xs[0]] + xs[1..];
    assert xs[0] in multiset(ys);
    var k :| 0 <= k < |ys| && ys[k] == xs[0];
    before, after := ys[..k], ys[k + 1..];
    assert ys == before + [xs[0]] + after;
    assert multiset(ys) == multiset(before + after) + multiset{xs[0]};
    assert multiset(xs) == multiset(xs[1..]) + multiset{xs[0]};
    assert multiset(xs[1..]) == multiset(xs) - multiset{xs[0]};
    assert multiset(before + after) == multiset(ys) - multiset{xs[0]};
  }

  lemma {:induction false} FlatBag<T, U>(f: T -> seq<U>, xs: seq<T>, ys: seq<T>)
    requires multiset(xs) == multiset(ys)
    ensures multiset(Flat(f, xs)) == multiset(Flat(f, ys))
  {
    assert |multiset(xs)| == |multiset(ys)|;
    if xs != [] {
      var before, after := Extract(xs, ys);
      FlatBag(f, xs[1..], before + after);
      FlatConcat(f, before, after);
      FlatConcat(f, before, [xs[0]] + after);
      assert ys == before + ([xs[0]] + after);
      assert ([xs[0]] + after)[1..] == after;
    }
  }

  lemma {:induction false} MapBag<T, U>(f: T -> U, xs: seq<T>, ys: seq<T>)
    requires multiset(xs) == multiset(ys)
    ensures multiset(Map(f, xs)) == multiset(Map(f, ys))
  {
    assert |multiset(xs)| == |multiset(ys)|;
    if xs != [] {
      var before, after := Extract(xs, ys);
      MapBag(f, xs[1..], before + after);
      assert Map(f, xs) == [f(xs[0])] + Map(f, xs[1..]);
      assert Map(f, ys) == Map(f, before) + [f(xs[0])] + Map(f, after);
      assert Map(f, before + after) == Map(f, before) + Map(f, after);
    }
  }

  function Without<T>(xs: seq<T>, k: nat): seq<T>
    requires k < |xs|
  {
    xs[..k] + xs[k + 1..]
  }

  /** Taking one element out of a list takes its image out of the mapped bag. */
  lemma MapWithout<T, U>(f: T -> U, xs: seq<T>, k: nat)
    requires k < |xs|
    ensures multiset(Map(f, xs)) == multiset(Map(f, Without(xs, k))) + multiset{f(xs[k])}
  {
    assert Map(f, xs) == Map(f, xs[..k]) + [f(xs[k])] + Map(f, xs[k + 1..]);
    assert Map(f, xs[..k] + xs[k + 1..]) == Map(f, xs[..k]) + Map(f, xs[k + 1..]);
  }

  /** Same tags give same images. */
  ghost predicate Respects<T(!new), B(!new), U>(tag: T -> B, f: T -> U, xs: seq<T>, ys: seq<T>) {
    forall x, y | x in xs && y in ys && tag(x) == tag(y) :: f(x) == f(y)
  }

  lemma SameTagSomewhere<T, B>(tag: T -> B, xs: seq<T>, ys: seq<T>) returns (k: nat)
    requires xs != [] && multiset(Map(tag, xs)) == multiset(Map(tag, ys))
    ensures k < |ys| && tag(ys[k]) == tag(xs[0])
  {
    assert Map(tag, xs)[0] in multiset(Map(tag, ys));
    k :| 0 <= k < |ys| && Map(tag, ys)[k] == tag(xs[0]);
  }

  lemma RemoveBoth<T, B>(tag: T -> B, xs: seq<T>, ys: seq<T>, k: nat)
    requires xs != [] && k < |ys| && tag(ys[k]) == tag(xs[0])
    ensures multiset(Map(tag, xs)) == multiset(Map(tag, ys))
       <==> multiset(Map(tag, Without(xs, 0))) == multiset(Map(tag, Without(ys, k)))
  {
    MapWithout(tag, xs, 0);
    MapWithout(tag, ys, k);
    if multiset(Map(tag, xs)) == multiset(Map(tag, ys)) {
      BagCancel(Map(tag, xs), Map(tag, Without(xs, 0)), Map(tag, ys), Map(tag, Without(ys, k)), tag(xs[0]));
    }
  }

  /** Mapping through an invariant `tag`: equal bags of tags give equal bags of `f`. */
  lemma {:induction false} MapBagVia<T(!new), B(!new), U>(tag: T -> B, f: T -> U, xs: seq<T>, ys: seq<T>)
    requires Respects(tag, f, xs, ys)
    requires multiset(Map(tag, xs)) == multiset(Map(tag, ys))
    ensures multiset(Map(f, xs)) == multiset(Map(f, ys))
    decreases |xs|
  {
    if xs == [] {
      assert |multiset(Map(tag, xs))| == |multiset(Map(tag, ys))|;
    } else {
      var k := SameTagSomewhere(tag, xs, ys);
      RemoveBoth(tag, xs, ys, k);
      MapBagVia(tag, f, Without(xs, 0), Without(ys, k));
      assert xs[0] in xs && ys[k] in ys;
      RemoveBoth(f, xs, ys, k);
    }
  }

  lemma BagCancel<B>(xs: seq<B>, xs': seq<B>, ys: seq<B>, ys': seq<B>, b: B)
    requires multiset(xs) == multiset(xs') + multiset{b}
    requires multiset(ys) == multiset(ys') + multiset{b}
    requires multiset(xs) == multiset(ys)
    ensures multiset(xs') == multiset(ys')
  {
    assert multiset(xs') == multiset(xs) - multiset{b};
    assert multiset(ys') == multiset(ys) - multiset{b};
  }

  /** A `{id(x): x for x in xs}` dictionary: the last element of an id wins. */
  function TableBy<K(==), T>(id: T -> K, xs: seq<T>): map<K, T> {
    if xs == [] then map[]
    else TableBy(id, xs[..|xs| - 1])[id(xs[|xs| - 1]) := xs[|xs| - 1]]
  }

  lemma {:induction false} TableByContents<K(!new), T(!new)>(id: T -> K, xs: seq<T>)
    ensures forall k :: k in TableBy(id, xs) <==> exists x :: x in xs && id(x) == k
    ensures forall k :: k in TableBy(id, xs) ==> TableBy(id, xs)[k] in xs && id(TableBy(id, xs)[k]) == k
  {
    if xs != [] {
      var init, last := xs[..|xs| - 1], xs[|xs| - 1];
      TableByContents(id, init);
      assert forall x :: x in xs <==> x in init || x == last;
    }
  }

  /** When ids identify elements, every element is found under its id. */
  lemma TableByFinds<K(!new), T(!new)>(id: T -> K, xs: seq<T>)
    requires forall x, y | x in xs && y in xs && id(x) == id(y) :: x == y
    ensures forall x | x in xs :: id(x) in TableBy(id, xs) && TableBy(id, xs)[id(x)] == x
  {
    TableByContents(id, xs);
  }

  /** Such a dictionary depends only on which elements it was built from. */
  lemma TableBySameElements<K(!new), T(!new)>(id: T -> K, xs: seq<T>, ys: seq<T>)
    requires forall x, y | x in xs && y in xs && id(x) == id(y) :: x == y
    requires forall x :: x in xs <==> x in ys
    ensures TableBy(id, xs) == TableBy(id, ys)
  {
    var t, u := TableBy(id, xs), TableBy(id, ys);
    TableByContents(id, xs);
    TableByContents(id, ys);
    assert forall k :: k in t <==> k in u;
    assert forall k | k in t :: t[k] == u[k];
  }

  lemma {:induction false} FlatNoRepeats<T, U(!new)>(f: T -> seq<U>, xs: seq<T>)
    requires forall x | x in xs :: NoRepeats(f(x))
    requires forall i, j, u | 0 <= i < j < |xs| && u in f(xs[i]) :: u !in f(xs[j])
    ensures NoRepeats(Flat(f, xs))
  {
    if xs != [] {
      var head, tail := f(xs[0]), Flat(f, xs[1..]);
      assert forall x | x in xs[1..] :: x in xs;
      forall i, j, u | 0 <= i < j < |xs[1..]| && u in f(xs[1..][i]) ensures u !in f(xs[1..][j]) {
        assert xs[1..][i] == xs[i + 1] && xs[1..][j] == xs[j + 1];
      }
      FlatNoRepeats(f, xs[1..]);
      assert multiset(head + tail) == multiset(head) + multiset(tail);
      forall u | u in head + tail ensures multiset(head + tail)[u] == 1 {
        FlatIndex(f, xs[1..], u);
        assert forall j | 0 <= j < |xs[1..]| :: xs[1..][j] == xs[j + 1];
        if u in head {
          assert xs[0] in xs && multiset(head)[u] == 1;
          assert u !in multiset(tail);
        } else {
          assert u !in multiset(head) && u in tail;
        }
      }
    }
  }

  lemma {:induction false} FlatIndex<T, U(!new)>(f: T -> seq<U>, xs: seq<T>, u: U)
    ensures u in Flat(f, xs) <==> exists j :: 0 <= j < |xs| && u in f(xs[j])
  {
    if xs != [] {
      FlatIndex(f, xs[1..], u);
      if exists j :: 0 <= j < |xs| && u in f(xs[j]) {
        var j :| 0 <= j < |xs| && u in f(xs[j]);
        if j > 0 {
          assert xs[1..][j - 1] == xs[j];
        }
      }
      if u in Flat(f, xs[1..]) {
        var j :| 0 <= j < |xs[1..]| && u in f(xs[1..][j]);
        assert xs[1..][j] == xs[j + 1];
      }
    }
  }

  /** Without repeats in the flattened list, a value comes from one position only. */
  lemma {:induction false} FlatOneOrigin<T, U(!new)>(f: T -> seq<U>, xs: seq<T>, i: nat, j: nat, u: U)
    requires NoRepeats(Flat(f, xs))
    requires i < j < |xs| && u in f(xs[i])
    ensures u !in f(xs[j])
  {
    assert xs == xs[..j] + xs[j..];
    FlatConcat(f, xs[..j], xs[j..]);
    var left, right := Flat(f, xs[..j]), Flat(f, xs[j..]);
    FlatIndex(f, xs[..j], u);
    FlatIndex(f, xs[j..], u);
    assert xs[..j][i] == xs[i] && xs[j..][0] == xs[j];
    assert u in left && u in left + right;
    assert multiset(left + right)[u] == multiset(left)[u] + multiset(right)[u];
    assert u in multiset(left);
  }

  lemma NoRepeatsBag<T>(xs: seq<T>, ys: seq<T>)
    requires multiset(xs) == multiset(ys) && NoRepeats(xs)
    ensures NoRepeats(ys)
  {
    forall y | y in ys ensures multiset(ys)[y] == 1 {
      assert y in multiset(ys) && y in multiset(xs) && y in xs;
    }
  }

  lemma Reassociate<T>(xs: seq<T>, ys: seq<T>, zs: seq<T>)
    ensures xs + (ys + zs) == xs + ys + zs
  {
  }

  lemma MapConcat<T, U>(f: T -> U, xs: seq<T>, ys: seq<T>)
    ensures Map(f, xs + ys) == Map(f, xs) + Map(f, ys)
  {
  }

  /** Applies a check-and-convert step to every element; one refusal refuses all. */
  function Traverse<T, U>(f: T -> Option<U>, xs: seq<T>): Option<seq<U>> {
    if xs == [] then Some([])
    else match f(xs[0])
      case None => None
      case Some(u) =>
        match Traverse(f, xs[1..])
        case None => None
        case Some(us) => Some([u] + us)
  }

  lemma {:induction false} TraverseSpec<T, U>(f: T -> Option<U>, xs: seq<T>)
    ensures Traverse(f, xs).Some? <==> forall x | x in xs :: f(x).Some?
    ensures Traverse(f, xs).Some? ==> |Traverse(f, xs).value| == |xs|
    ensures Traverse(f, xs).Some? ==> forall i | 0 <= i < |xs| :: f(xs[i]) == Some(Traverse(f, xs).value[i])
  {
    if xs != [] {
      TraverseSpec(f, xs[1..]);
      assert xs == [xs[0]] + xs[1..];
      assert forall x :: x in xs <==> x == xs[0] || x in xs[1..];
    }
  }

  lemma {:induction false} TraverseSnoc<T, U>(f: T -> Option<U>, xs: seq<T>, x: T)
    ensures Traverse(f, xs + [x]) ==
      if Traverse(f, xs).Some? && f(x).Some? then Some(Traverse(f, xs).value + [f(x).value]) else None
  {
    if xs == [] {
      assert xs + [x] == [x];
      assert Traverse(f, [x][1..]) == Some([]);
      if f(x).Some? {
        assert [f(x).value] + [] == [] + [f(x).value];
      }
    } else {
      TraverseSnoc(f, xs[1..], x);
      assert (xs + [x])[0] == xs[0] && (xs + [x])[1..] == xs[1..] + [x];
      if f(xs[0]).Some? && Traverse(f, xs[1..]).Some? && f(x).Some? {
        var u, us, v := f(xs[0]).value, Traverse(f, xs[1..]).value, f(x).value;
        assert [u] + (us + [v]) == [u] + us + [v];
      }
    }
  }

  /** Whether and what `Traverse` yields depends only on the bag of step results. */
  lemma TraverseBag<T, U>(f: T -> Option<U>, xs: seq<T>, ys: seq<T>)
    requires multiset(Map(f, xs)) == multiset(Map(f, ys))
    ensures Traverse(f, xs).Some? == Traverse(f, ys).Some?
    ensures Traverse(f, xs).Some? ==>
      multiset(Traverse(f, xs).value) == multiset(Traverse(f, ys).value)
  {
    TraverseSuccess(f, xs);
    TraverseSuccess(f, ys);
    TraverseSpec(f, xs);
    TraverseSpec(f, ys);
    if Traverse(f, xs).Some? {
      var us, vs := Traverse(f, xs).value, Traverse(f, ys).value;
      var unwrap := (o: Option<U>) => if o.Some? then [o.value] else [];
      FlatBag(unwrap, Map(f, xs), Map(f, ys));
      FlatUnwrap(Map(f, xs), us, unwrap);
      FlatUnwrap(Map(f, ys), vs, unwrap);
    }
  }

  lemma TraverseSuccess<T, U>(f: T -> Option<U>, xs: seq<T>)
    ensures Traverse(f, xs).Some? <==> None !in multiset(Map(f, xs))
  {
    TraverseSpec(f, xs);
    if None in multiset(Map(f, xs)) {
      var i :| 0 <= i < |xs| && Map(f, xs)[i] == None;
      assert xs[i] in xs;
    } else {
      forall x | x in xs ensures f(x).Some? {
        var i :| 0 <= i < |xs| && xs[i] == x;
        assert Map(f, xs)[i] in multiset(Map(f, xs));
      }
    }
  }

  lemma {:induction false} FlatUnwrap<U>(os: seq<Option<U>>, us: seq<U>, unwrap: Option<U> -> seq<U>)
    requires |os| == |us| && forall i | 0 <= i < |os| :: os[i] == Some(us[i])
    requires forall u :: unwrap(Some(u)) == [u]
    ensures Flat(unwrap, os) == us
  {
    if os != [] {
      FlatUnwrap(os[1..], us[1..], unwrap);
    }
  }

  lemma TraversePrefix<T, U>(f: T -> Option<U>, xs: seq<T>, n: nat)
    requires n < |xs| && Traverse(f, xs[..n]).Some?
    ensures Traverse(f, xs[..n + 1]) ==
      if f(xs[n]).Some? then Some(Traverse(f, xs[..n]).value + [f(xs[n]).value]) else None
    ensures f(xs[n]).None? ==> Traverse(f, xs).None?
  {
    assert xs[..n + 1] == xs[..n] + [xs[n]];
    TraverseSnoc(f, xs[..n], xs[n]);
    if f(xs[n]).None? {
      TraverseSpec(f, xs);
      assert xs[n] in xs;
    }
  }

  lemma {:induction false} TraverseConcat<T, U>(f: T -> Option<U>, xs: seq<T>, ys: seq<T>)
    ensures Traverse(f, xs).None? || Traverse(f, ys).None? ==> Traverse(f, xs + ys).None?
    ensures Traverse(f, xs).Some? && Traverse(f, ys).Some? ==>
      Traverse(f, xs + ys) == Some(Traverse(f, xs).value + Traverse(f, ys).value)
  {
    if ys == [] {
      assert xs + ys == xs;
      if Traverse(f, xs).Some? {
        assert Traverse(f, xs).value + [] == Traverse(f, xs).value;
      }
    } else {
      var init, last := ys[..|ys| - 1], ys[|ys| - 1];
      TraverseConcat(f, xs, init);
      TraverseSnoc(f, init, last);
      TraverseSnoc(f, xs + init, last);
      assert ys == init + [last] && xs + ys == xs + init + [last];
      if Traverse(f, xs).Some? && Traverse(f, ys).Some? {
        var us, vs, v := Traverse(f, xs).value, Traverse(f, init).value, f(last).value;
        assert us + (vs + [v]) == us + vs + [v];
      }
    }
  }

  lemma TableBySnoc<K, T>(id: T -> K, xs: seq<T>, x: T)
    ensures TableBy(id, xs + [x]) == TableBy(id, xs)[id(x) := x]
  {
    assert (xs + [x])[..|xs|] == xs;
  }

  lemma FlatSnoc<T, U>(f: T -> seq<U>, xs: seq<T>, x: T)
    ensures Flat(f, xs + [x]) == Flat(f, xs) + f(x)
  {
    FlatConcat(f, xs, [x]);
    assert Flat(f, [x]) == f(x) + Flat(f, [x][1..]);
  }

  // ------------------------------------------------- sorted(set(...))

  predicate StrictlySorted<T(!new)>(xs: seq<T>, key: T -> Key) {
    forall i, j | 0 <= i < j < |xs| :: KeyLess(key(xs[i]), key(xs[j]))
  }

  ghost predicate SetKeyInjective<T(!new)>(s: set<T>, key: T -> Key) {
    forall x, y | x in s && y in s && key(x) == key(y) :: x == y
  }

  predicate IsLeast<T(!new)>(m: T, s: set<T>, key: T -> Key) {
    m in s && forall x | x in s :: !KeyLess(key(x), key(m))
  }

  lemma {:induction false} LeastExists<T(!new)>(s: set<T>, key: T -> Key)
    requires s != {} && SetKeyInjective(s, key)
    ensures exists m :: IsLeast(m, s, key)
    ensures forall m, n | IsLeast(m, s, key) && IsLeast(n, s, key) :: m == n
  {
    forall m, n | IsLeast(m, s, key) && IsLeast(n, s, key) ensures m == n {
      KeyTrichotomy(key(m), key(n));
    }
    var a :| a in s;
    KeyTrichotomy(key(a), key(a));
    if s == {a} {
      assert IsLeast(a, s, key);
    } else {
      LeastExists(s - {a}, key);
      var b :| IsLeast(b, s - {a}, key);
      if KeyLess(key(a), key(b)) {
        forall x | x in s ensures !KeyLess(key(x), key(a)) {
          if x != a {
            KeyTrichotomy(key(a), key(b));
            KeyNotAfterTransitive(key(a), key(b), key(x));
          }
        }
        assert IsLeast(a, s, key);
      } else {
        assert IsLeast(b, s, key);
      }
    }
  }

  /** `sorted(s)` for a set. */
  function SortedSet<T(!new,==)>(s: set<T>, key: T -> Key): (r: seq<T>)
    requires SetKeyInjective(s, key)
    ensures forall x :: x in r <==> x in s
    ensures StrictlySorted(r, key)
  {
    if s == {} then []
    else
      LeastExists(s, key);
      var m :| IsLeast(m, s, key);
      var rest := SortedSet(s - {m}, key);
      assert forall x | x in rest :: KeyLess(key(m), key(x)) by {
        forall x | x in rest ensures KeyLess(key(m), key(x)) {
          KeyTrichotomy(key(m), key(x));
        }
      }
      [m] + rest
  }

  lemma StrictIsSorted<T(!new)>(xs: seq<T>, key: T -> Key)
    requires StrictlySorted(xs, key)
    ensures Sorted(xs, key) && KeyInjective(xs, key) && NoRepeats(xs)
  {
    forall i, j | 0 <= i < j < |xs| ensures !KeyLess(key(xs[j]), key(xs[i])) && key(xs[i]) != key(xs[j]) {
      KeyTrichotomy(key(xs[i]), key(xs[j]));
    }
    DistinctIndicesNoRepeats(xs);
  }

  lemma SameElementsSameBag<T(!new)>(xs: seq<T>, ys: seq<T>)
    requires NoRepeats(xs) && NoRepeats(ys)
    requires forall x :: x in xs <==> x in ys
    ensures multiset(xs) == multiset(ys)
  {
    forall x ensures multiset(xs)[x] == multiset(ys)[x] {
      if x in xs {
        assert multiset(xs)[x] == 1 && multiset(ys)[x] == 1;
      } else {
        assert x !in multiset(xs) && x !in multiset(ys);
      }
    }
  }

  /** A set has one strictly sorted listing. */
  lemma StrictlySortedUnique<T(!new)>(xs: seq<T>, ys: seq<T>, key: T -> Key)
    requires StrictlySorted(xs, key) && StrictlySorted(ys, key)
    requires forall x :: x in xs <==> x in ys
    ensures xs == ys
  {
    StrictIsSorted(xs, key);
    StrictIsSorted(ys, key);
    SameElementsSameBag(xs, ys);
    SortedUnique(xs, ys, key);
  }
}
