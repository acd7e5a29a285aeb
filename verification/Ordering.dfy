/** The order of texts, and what a stable sort by a text key determines. */
module Ordering {

  /** Lexicographic order by code point, which is also the byte order of the UTF-8 encodings. */
  predicate TextAtMost(a: string, b: string) {
    a == [] || (b != [] && (a[0] < b[0] || (a[0] == b[0] && TextAtMost(a[1..], b[1..]))))
  }

  lemma {:induction false} TextOrderIsTotal(a: string, b: string)
    ensures TextAtMost(a, b) || TextAtMost(b, a)
  {
    if a != [] && b != [] && a[0] == b[0] {
      TextOrderIsTotal(a[1..], b[1..]);
    }
  }

  lemma {:induction false} TextOrderIsAntisymmetric(a: string, b: string)
    requires TextAtMost(a, b) && TextAtMost(b, a)
    ensures a == b
  {
    if a != [] {
      TextOrderIsAntisymmetric(a[1..], b[1..]);
      assert a == [a[0]] + a[1..] && b == [b[0]] + b[1..];
    }
  }

  lemma {:induction false} TextOrderIsTransitive(a: string, b: string, c: string)
    requires TextAtMost(a, b) && TextAtMost(b, c)
    ensures TextAtMost(a, c)
  {
    if a != [] && a[0] == b[0] == c[0] {
      TextOrderIsTransitive(a[1..], b[1..], c[1..]);
    }
  }

  predicate IsLeast(text: string, texts: set<string>) {
    text in texts && forall other :: other in texts ==> TextAtMost(text, other)
  }

  lemma {:induction false} LeastExists(texts: set<string>) returns (least: string)
    requires texts != {}
    ensures least in texts && IsLeast(least, texts)
    decreases |texts|
  {
    hide TextAtMost;
    var some :| some in texts;
    TextOrderIsTotal(some, some);
    least := some;
    var rest := texts - {some};
    assert texts == rest + {some};
    if rest != {} {
      var candidate := LeastExists(rest);
      TextOrderIsTotal(some, candidate);
      if !TextAtMost(some, candidate) {
        least := candidate;
      } else {
        forall other | other in rest ensures TextAtMost(some, other) {
          TextOrderIsTransitive(some, candidate, other);
        }
      }
    }
  }

  method LeastOf(texts: set<string>) returns (least: string)
    requires texts != {}
    ensures least in texts && IsLeast(least, texts)
  {
    ghost var it := LeastExists(texts);
    hide IsLeast;
    least :| least in texts && IsLeast(least, texts);
  }

  /** A set visited in order: what has been visited, and what is left to visit. */
  ghost predicate Visiting(all: set<string>, visited: set<string>, left: set<string>) {
    && visited + left == all
    && visited !! left
    && forall a, b :: a in visited && b in left ==> TextAtMost(a, b)
  }

  lemma NoneVisited(all: set<string>)
    ensures Visiting(all, {}, all)
  {
  }

  lemma VisitLeast(all: set<string>, visited: set<string>, left: set<string>, least: string)
    requires Visiting(all, visited, left) && IsLeast(least, left)
    ensures Visiting(all, visited + {least}, left - {least})
    ensures least !in visited && forall a :: a in visited ==> TextAtMost(a, least)
  {
    hide TextAtMost;
  }

  lemma AllVisited(all: set<string>, visited: set<string>)
    requires Visiting(all, visited, {})
    ensures visited == all
  {
  }

  ghost predicate SortedBy<T>(s: seq<T>, key: T -> string) {
    forall i, j :: 0 <= i < j < |s| ==> TextAtMost(key(s[i]), key(s[j]))
  }

  /** The elements with the given key, in order. */
  function WithKey<T>(s: seq<T>, key: T -> string, k: string): seq<T> {
    if s == [] then [] else (if key(s[0]) == k then [s[0]] else []) + WithKey(s[1..], key, k)
  }

  ghost predicate SameGroups<T>(a: seq<T>, b: seq<T>, key: T -> string) {
    forall k :: WithKey(a, key, k) == WithKey(b, key, k)
  }

  /** Puts an element in front of the first one that does not sort strictly below it. */
  function Insert<T>(x: T, s: seq<T>, key: T -> string): seq<T> {
    if s == [] || TextAtMost(key(x), key(s[0])) then [x] + s else [s[0]] + Insert(x, s[1..], key)
  }

  function StableSort<T>(s: seq<T>, key: T -> string): seq<T> {
    if s == [] then [] else Insert(s[0], StableSort(s[1..], key), key)
  }

  lemma {:induction false} InsertKeepsElements<T>(x: T, s: seq<T>, key: T -> string)
    ensures multiset(Insert(x, s, key)) == multiset{x} + multiset(s)
  {
    if s != [] {
      assert s == [s[0]] + s[1..];
      InsertKeepsElements(x, s[1..], key);
    }
  }

  lemma {:induction false} InsertKeepsSorted<T>(x: T, s: seq<T>, key: T -> string)
    requires SortedBy(s, key)
    ensures SortedBy(Insert(x, s, key), key)
  {
    hide TextAtMost;
    if s == [] {
    } else if TextAtMost(key(x), key(s[0])) {
      forall i | 0 <= i < |s| ensures TextAtMost(key(x), key(s[i])) {
        if i > 0 { TextOrderIsTransitive(key(x), key(s[0]), key(s[i])); }
      }
    } else {
      TextOrderIsTotal(key(x), key(s[0]));
      InsertKeepsSorted(x, s[1..], key);
      InsertKeepsElements(x, s[1..], key);
      var rest := Insert(x, s[1..], key);
      forall i | 0 <= i < |rest| ensures TextAtMost(key(s[0]), key(rest[i])) {
        assert rest[i] in multiset(rest);
        assert rest[i] == x || rest[i] in s[1..];
      }
    }
  }

  lemma FirstOfGroup<T>(x: T, s: seq<T>, key: T -> string, k: string)
    ensures WithKey([x] + s, key, k) == (if key(x) == k then [x] else []) + WithKey(s, key, k)
  {
    assert ([x] + s)[1..] == s;
  }

  lemma {:induction false} InsertGroups<T>(x: T, s: seq<T>, key: T -> string, k: string)
    ensures WithKey(Insert(x, s, key), key, k) == (if key(x) == k then [x] else []) + WithKey(s, key, k)
  {
    hide TextAtMost;
    if s == [] || TextAtMost(key(x), key(s[0])) {
      FirstOfGroup(x, s, key, k);
    } else {
      TextOrderIsTotal(key(x), key(s[0]));
      InsertGroups(x, s[1..], key, k);
      FirstOfGroup(s[0], Insert(x, s[1..], key), key, k);
      FirstOfGroup(s[0], s[1..], key, k);
      assert s == [s[0]] + s[1..];
      hide WithKey;
      hide Insert;
    }
  }

  /** Sorting orders by key, loses nothing, and keeps elements of equal key in their order. */
  lemma {:induction false} StableSortIsStable<T>(s: seq<T>, key: T -> string)
    ensures SortedBy(StableSort(s, key), key)
    ensures multiset(StableSort(s, key)) == multiset(s)
    ensures forall k :: WithKey(StableSort(s, key), key, k) == WithKey(s, key, k)
  {
    if s != [] {
      StableSortIsStable(s[1..], key);
      var rest := StableSort(s[1..], key);
      InsertKeepsSorted(s[0], rest, key);
      InsertKeepsElements(s[0], rest, key);
      assert s == [s[0]] + s[1..];
      forall k { InsertGroups(s[0], rest, key, k); }
    }
  }

  lemma {:induction false} GroupsHoldElements<T>(s: seq<T>, key: T -> string, i: nat)
    requires i < |s|
    ensures s[i] in WithKey(s, key, key(s[i]))
  {
    if i > 0 { GroupsHoldElements(s[1..], key, i - 1); }
  }

  lemma {:induction false} GroupsComeFrom<T>(s: seq<T>, key: T -> string, k: string)
    ensures forall x :: x in WithKey(s, key, k) ==> x in s && key(x) == k
  {
    if s != [] { GroupsComeFrom(s[1..], key, k); }
  }

  /** The least key of a sorted sequence is at most every key found in any of its groups. */
  lemma HeadIsLeast<T>(s: seq<T>, key: T -> string, k: string)
    requires SortedBy(s, key) && WithKey(s, key, k) != []
    ensures s != [] && TextAtMost(key(s[0]), k)
  {
    hide TextAtMost;
    GroupsComeFrom(s, key, k);
    var x := WithKey(s, key, k)[0];
    assert x in WithKey(s, key, k);
    var i :| 0 <= i < |s| && s[i] == x;
    if i == 0 { TextOrderIsTotal(k, k); }
  }

  lemma SameHead<T>(a: seq<T>, b: seq<T>, key: T -> string)
    requires SortedBy(a, key) && SortedBy(b, key) && a != [] && b != []
    requires SameGroups(a, b, key)
    ensures a[0] == b[0]
  {
    hide TextAtMost;
    GroupsHoldElements(b, key, 0);
    HeadIsLeast(a, key, key(b[0]));
    GroupsHoldElements(a, key, 0);
    HeadIsLeast(b, key, key(a[0]));
    TextOrderIsAntisymmetric(key(a[0]), key(b[0]));
    assert WithKey(a, key, key(a[0]))[0] == a[0] && WithKey(b, key, key(b[0]))[0] == b[0];
  }

  lemma SameEmptiness<T>(a: seq<T>, b: seq<T>, key: T -> string)
    requires SameGroups(a, b, key)
    ensures a == [] <==> b == []
  {
    if a != [] { GroupsHoldElements(a, key, 0); }
    if b != [] { GroupsHoldElements(b, key, 0); }
  }

  /** A sorted sequence is determined by its groups of equal key. */
  lemma {:induction false} GroupsDetermine<T>(a: seq<T>, b: seq<T>, key: T -> string)
    requires SortedBy(a, key) && SortedBy(b, key)
    requires SameGroups(a, b, key)
    ensures a == b
  {
    if a == [] || b == [] {
      SameEmptiness(a, b, key);
    } else {
      SameHead(a, b, key);
      forall k ensures WithKey(a[1..], key, k) == WithKey(b[1..], key, k) {
        var head := if key(a[0]) == k then [a[0]] else [];
        assert WithKey(a, key, k)[|head|..] == WithKey(a[1..], key, k);
        assert WithKey(b, key, k)[|head|..] == WithKey(b[1..], key, k);
      }
      GroupsDetermine(a[1..], b[1..], key);
      assert a == [a[0]] + a[1..] && b == [b[0]] + b[1..];
    }
  }

  /** Two sequences sort to the same result exactly when each key has the same elements in the same order. */
  lemma SameSortExactly<T>(a: seq<T>, b: seq<T>, key: T -> string)
    ensures StableSort(a, key) == StableSort(b, key) <==> SameGroups(a, b, key)
  {
    StableSortIsStable(a, key);
    StableSortIsStable(b, key);
    if StableSort(a, key) == StableSort(b, key) {
      forall k ensures WithKey(a, key, k) == WithKey(b, key, k) {
        assert WithKey(StableSort(a, key), key, k) == WithKey(StableSort(b, key), key, k);
      }
    } else if SameGroups(a, b, key) {
      assert SameGroups(StableSort(a, key), StableSort(b, key), key);
      GroupsDetermine(StableSort(a, key), StableSort(b, key), key);
    }
  }

  function Itself(t: string): string { t }

  lemma {:induction false} GroupOfTexts(s: seq<string>, k: string)
    ensures WithKey(s, Itself, k) == seq(multiset(s)[k], _ => k)
  {
    if s != [] {
      assert s == [s[0]] + s[1..];
      GroupOfTexts(s[1..], k);
    }
  }

  /** Texts sort to the same list exactly when they are reorderings of each other. */
  lemma SameTextsExactly(a: seq<string>, b: seq<string>)
    ensures StableSort(a, Itself) == StableSort(b, Itself) <==> multiset(a) == multiset(b)
  {
    StableSortIsStable(a, Itself);
    StableSortIsStable(b, Itself);
    if multiset(a) == multiset(b) {
      forall k ensures WithKey(a, Itself, k) == WithKey(b, Itself, k) {
        GroupOfTexts(a, k);
        GroupOfTexts(b, k);
      }
      assert SameGroups(a, b, Itself);
      SameSortExactly(a, b, Itself);
    }
  }
}
