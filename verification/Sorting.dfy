/** Sorting by a string key in UTF-16 code-unit order, the order of `Array.prototype.sort`. */
module Sorting {

  /** A UTF-16 code unit, and a JavaScript string of them (RFC 8259 calls lone surrogates unpredictable;
      JavaScript does not forbid them). */
  type Unit = n: int | 0 <= n < 0x10000
  type Units = seq<Unit>

  predicate Leq(a: Units, b: Units) {
    if a == [] then true
    else if b == [] then false
    else if a[0] != b[0] then a[0] < b[0]
    else Leq(a[1..], b[1..])
  }

  lemma {:induction false} LeqTotal(a: Units, b: Units)
    ensures Leq(a, b) || Leq(b, a)
    ensures Leq(a, b) && Leq(b, a) ==> a == b
  {
    if a != [] && b != [] && a[0] == b[0] { LeqTotal(a[1..], b[1..]); }
  }

  lemma {:induction false} LeqTransitive(a: Units, b: Units, c: Units)
    requires Leq(a, b) && Leq(b, c)
    ensures Leq(a, c)
  {
    if a != [] && a[0] == b[0] && b[0] == c[0] { LeqTransitive(a[1..], b[1..], c[1..]); }
  }

  /** One text is not after another: it is a beginning of it, or smaller in the first unit they differ in. */
  predicate NotAfter(a: Units, b: Units) {
    a <= b || exists i :: 0 <= i < |a| && i < |b| && a[..i] == b[..i] && a[i] < b[i]
  }

  lemma {:induction false} LeqIff(a: Units, b: Units)
    ensures Leq(a, b) <==> NotAfter(a, b)
  {
    if a != [] && b != [] && a[0] == b[0] {
      LeqIff(a[1..], b[1..]);
      assert a == [a[0]] + a[1..] && b == [b[0]] + b[1..];
      if i :| 0 <= i < |a| && i < |b| && a[..i] == b[..i] && a[i] < b[i] {
        assert a[..i] == [a[0]] + a[1..][..i - 1] && b[..i] == [b[0]] + b[1..][..i - 1];
        assert a[1..][..i - 1] == a[..i][1..] && b[1..][..i - 1] == b[..i][1..];
        assert a[1..][i - 1] < b[1..][i - 1];
      }
      if i :| 0 <= i < |a[1..]| && i < |b[1..]| && a[1..][..i] == b[1..][..i] && a[1..][i] < b[1..][i] {
        assert a[..i + 1] == [a[0]] + a[1..][..i] && b[..i + 1] == [b[0]] + b[1..][..i];
        assert a[i + 1] < b[i + 1];
      }
    }
  }

  // ---- sorting ---------------------------------------------------------------------------------

  function Insert<T>(x: T, s: seq<T>, key: T -> Units): seq<T> {
    if s == [] || Leq(key(x), key(s[0])) then [x] + s else [s[0]] + Insert(x, s[1..], key)
  }

  function Sort<T>(s: seq<T>, key: T -> Units): seq<T> {
    if s == [] then [] else Insert(s[0], Sort(s[1..], key), key)
  }

  ghost predicate Sorted<T>(s: seq<T>, key: T -> Units) {
    forall i, j :: 0 <= i < j < |s| ==> Leq(key(s[i]), key(s[j]))
  }

  lemma {:induction false} InsertSorts<T>(x: T, s: seq<T>, key: T -> Units)
    requires Sorted(s, key)
    ensures Sorted(Insert(x, s, key), key)
    ensures multiset(Insert(x, s, key)) == multiset{x} + multiset(s)
  {
    var r := Insert(x, s, key);
    if s == [] {
    } else if Leq(key(x), key(s[0])) {
      forall i, j | 0 <= i < j < |r| ensures Leq(key(r[i]), key(r[j])) {
        if i == 0 && j > 1 { LeqTransitive(key(x), key(s[0]), key(r[j])); }
      }
    } else {
      var rest := Insert(x, s[1..], key);
      InsertSorts(x, s[1..], key);
      LeqTotal(key(x), key(s[0]));
      assert s == [s[0]] + s[1..];
      forall i, j | 0 <= i < j < |r| ensures Leq(key(r[i]), key(r[j])) {
        if i == 0 {
          assert rest[j - 1] in multiset(rest);
          if rest[j - 1] != x { assert rest[j - 1] in multiset(s[1..]); }
        }
      }
    }
  }

  /** The result is in order and holds what was given, each as often. */
  lemma {:induction false} SortSorts<T>(s: seq<T>, key: T -> Units)
    ensures Sorted(Sort(s, key), key)
    ensures multiset(Sort(s, key)) == multiset(s)
  {
    if s != [] {
      SortSorts(s[1..], key);
      InsertSorts(s[0], Sort(s[1..], key), key);
      assert s == [s[0]] + s[1..];
    }
  }

  /** Keys come out in the order of their code units, smallest first, and nothing is lost or added. */
  lemma SortAscends<T>(s: seq<T>, key: T -> Units)
    ensures forall i, j :: 0 <= i < j < |Sort(s, key)| ==> NotAfter(key(Sort(s, key)[i]), key(Sort(s, key)[j]))
    ensures multiset(Sort(s, key)) == multiset(s)
  {
    SortSorts(s, key);
    forall i, j | 0 <= i < j < |Sort(s, key)| ensures NotAfter(key(Sort(s, key)[i]), key(Sort(s, key)[j])) {
      LeqIff(key(Sort(s, key)[i]), key(Sort(s, key)[j]));
    }
  }

  ghost predicate Tells<T>(s: seq<T>, key: T -> Units) {
    forall i, j :: 0 <= i < |s| && 0 <= j < |s| && key(s[i]) == key(s[j]) ==> s[i] == s[j]
  }

  lemma SameTail<T>(x: T, a: seq<T>, b: seq<T>)
    requires multiset([x] + a) == multiset([x] + b)
    ensures multiset(a) == multiset(b)
  {
    assert multiset(a) == multiset([x] + a) - multiset{x};
    assert multiset(b) == multiset([x] + b) - multiset{x};
  }

  /** The least key comes first. */
  lemma SameHead<T>(a: seq<T>, b: seq<T>, key: T -> Units)
    requires Sorted(a, key) && Sorted(b, key) && multiset(a) == multiset(b) && Tells(a, key)
    requires a != [] && b != []
    ensures a[0] == b[0]
  {
    assert a[0] in multiset(b) && b[0] in multiset(a);
    HeadLeast(a, key, b[0]);
    HeadLeast(b, key, a[0]);
    LeqTotal(key(a[0]), key(b[0]));
  }

  /** Two ordered lists of the same things are equal when the key tells those things apart. */
  lemma {:induction false} SortedUnique<T>(a: seq<T>, b: seq<T>, key: T -> Units)
    requires Sorted(a, key) && Sorted(b, key) && multiset(a) == multiset(b) && Tells(a, key)
    ensures a == b
  {
    assert |a| == |multiset(a)| == |multiset(b)| == |b|;
    if a != [] {
      SameHead(a, b, key);
      var a', b' := a[1..], b[1..];
      assert a == [a[0]] + a' && b == [a[0]] + b';
      SameTail(a[0], a', b');
      SortedUnique(a', b', key);
    }
  }

  lemma HeadLeast<T>(s: seq<T>, key: T -> Units, x: T)
    requires Sorted(s, key) && x in s
    ensures Leq(key(s[0]), key(x))
  {
    LeqTotal(key(x), key(x));
  }

  /** The sorted list depends on nothing but how often each thing occurs. */
  lemma SortIsCanonical<T>(a: seq<T>, b: seq<T>, key: T -> Units)
    requires Tells(a, key)
    ensures Sort(a, key) == Sort(b, key) <==> multiset(a) == multiset(b)
  {
    SortSorts(a, key);
    SortSorts(b, key);
    if multiset(a) == multiset(b) {
      var s := Sort(a, key);
      forall i, j | 0 <= i < |s| && 0 <= j < |s| && key(s[i]) == key(s[j]) ensures s[i] == s[j] {
        assert s[i] in multiset(s) && s[j] in multiset(s);
        assert s[i] in a && s[j] in a;
      }
      SortedUnique(s, Sort(b, key), key);
    }
  }

  function Itself(s: Units): Units { s }

  /** Sorting lists of strings. */
  lemma SortTextsIff(a: seq<Units>, b: seq<Units>)
    ensures Sort(a, Itself) == Sort(b, Itself) <==> multiset(a) == multiset(b)
    ensures multiset(Sort(a, Itself)) == multiset(a)
  {
    SortSorts(a, Itself);
    SortIsCanonical(a, b, Itself);
  }
}
