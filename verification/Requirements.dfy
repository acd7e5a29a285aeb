/** The order-insensitive normal form of a list of required environment variables. */
module Requirements {
  import opened Ordering

  datatype Requirement = Requirement(name: string, oneOf: seq<string>)

  /** What a requirement says: a name and its accepted values, in no particular order. */
  type Meaning = (string, multiset<string>)

  function Name(r: Requirement): string { r.name }

  function Tidied(r: Requirement): Requirement {
    r.(oneOf := StableSort(r.oneOf, Itself))
  }

  function TidyAll(s: seq<Requirement>): (r: seq<Requirement>)
    ensures |r| == |s|
  {
    if s == [] then [] else [Tidied(s[0])] + TidyAll(s[1..])
  }

  function Canonical(s: seq<Requirement>): seq<Requirement> {
    StableSort(TidyAll(s), Name)
  }

  function MeaningOf(r: Requirement): Meaning {
    (r.name, multiset(r.oneOf))
  }

  function Meanings(s: seq<Requirement>): (r: seq<Meaning>)
    ensures |r| == |s|
  {
    if s == [] then [] else [MeaningOf(s[0])] + Meanings(s[1..])
  }

  /** What a list says under one name, in list order. */
  function Under(s: seq<Requirement>, name: string): seq<Meaning> {
    Meanings(WithKey(s, Name, name))
  }

  ghost predicate SameUnderEveryName(a: seq<Requirement>, b: seq<Requirement>) {
    forall name :: Under(a, name) == Under(b, name)
  }

  /** The same requirements, whatever the order of the entries and of the values in each. */
  predicate Reordering(a: seq<Requirement>, b: seq<Requirement>) {
    multiset(Meanings(a)) == multiset(Meanings(b))
  }

  /** Entries that share a name also say the same thing; distinct names are the usual case. */
  predicate Unambiguous(s: seq<Requirement>) {
    forall i, j :: 0 <= i < j < |s| && s[i].name == s[j].name ==> MeaningOf(s[i]) == MeaningOf(s[j])
  }

  predicate DistinctNames(s: seq<Requirement>) {
    forall i, j :: 0 <= i < j < |s| ==> s[i].name != s[j].name
  }

  method CanonicalRequiredEnvironment(values: seq<Requirement>) returns (canonical: seq<Requirement>)
    ensures canonical == Canonical(values)
  {
    canonical := values;
    assert canonical == TidyAll(values[..0]) + values[0..];
    hide TidyAll;
    hide Tidied;
    hide StableSort;
    for i := 0 to |values|
      invariant canonical == TidyAll(values[..i]) + values[i..]
    {
      TidyInPlace(values, i);
      canonical := canonical[i := Tidied(canonical[i])];
    }
    assert values[..|values|] == values && canonical == TidyAll(values);
    canonical := StableSort(canonical, Name);
  }

  lemma {:induction false} TidyOneMore(s: seq<Requirement>, i: nat)
    requires i < |s|
    ensures TidyAll(s[..i + 1]) == TidyAll(s[..i]) + [Tidied(s[i])]
  {
    assert s[..i + 1][1..] == s[1..][..i];
    if i > 0 {
      assert s[..i][1..] == s[1..][..i - 1];
      TidyOneMore(s[1..], i - 1);
    }
  }

  lemma TidyInPlace(s: seq<Requirement>, i: nat)
    requires i < |s|
    ensures var partly := TidyAll(s[..i]) + s[i..];
            partly[i := Tidied(partly[i])] == TidyAll(s[..i + 1]) + s[i + 1..]
  {
    TidyOneMore(s, i);
    hide TidyAll;
    hide Tidied;
    assert s[i..] == [s[i]] + s[i + 1..];
  }

  lemma TidiedExactly(a: Requirement, b: Requirement)
    ensures Tidied(a) == Tidied(b) <==> MeaningOf(a) == MeaningOf(b)
  {
    SameTextsExactly(a.oneOf, b.oneOf);
  }

  lemma {:induction false} TidyAllExactly(a: seq<Requirement>, b: seq<Requirement>)
    ensures TidyAll(a) == TidyAll(b) <==> Meanings(a) == Meanings(b)
  {
    if |a| == |b| != 0 {
      hide Tidied;
      hide MeaningOf;
      TidiedExactly(a[0], b[0]);
      TidyAllExactly(a[1..], b[1..]);
      assert TidyAll(a)[1..] == TidyAll(a[1..]) && TidyAll(b)[1..] == TidyAll(b[1..]);
      assert Meanings(a)[1..] == Meanings(a[1..]) && Meanings(b)[1..] == Meanings(b[1..]);
    }
  }

  lemma {:induction false} TidyingKeepsGroups(s: seq<Requirement>, name: string)
    ensures WithKey(TidyAll(s), Name, name) == TidyAll(WithKey(s, Name, name))
  {
    if s != [] {
      TidyingKeepsGroups(s[1..], name);
      assert Name(Tidied(s[0])) == Name(s[0]);
      hide Tidied;
      assert TidyAll(s)[1..] == TidyAll(s[1..]);
      var rest := WithKey(s[1..], Name, name);
      assert ([s[0]] + rest)[1..] == rest && [] + rest == rest;
    }
  }

  lemma {:induction false} TidyingKeepsMeanings(s: seq<Requirement>)
    ensures Meanings(TidyAll(s)) == Meanings(s)
  {
    if s != [] {
      TidyingKeepsMeanings(s[1..]);
      StableSortIsStable(s[0].oneOf, Itself);
      assert TidyAll(s)[1..] == TidyAll(s[1..]);
    }
  }

  /** Two lists have one canonical form exactly when they say the same, in order, under every name. */
  lemma CanonicalFormsAgreeExactly(a: seq<Requirement>, b: seq<Requirement>)
    ensures Canonical(a) == Canonical(b) <==> SameUnderEveryName(a, b)
  {
    hide TidyAll;
    hide Meanings;
    hide StableSort;
    forall name
      ensures WithKey(TidyAll(a), Name, name) == WithKey(TidyAll(b), Name, name) <==> Under(a, name) == Under(b, name)
    {
      TidyingKeepsGroups(a, name);
      TidyingKeepsGroups(b, name);
      TidyAllExactly(WithKey(a, Name, name), WithKey(b, Name, name));
    }
    SameSortExactly(TidyAll(a), TidyAll(b), Name);
  }

  /** The canonical form says what the list says, and canonicalising again changes nothing. */
  lemma CanonicalIsIdempotent(s: seq<Requirement>)
    ensures SameUnderEveryName(Canonical(s), s)
    ensures Canonical(Canonical(s)) == Canonical(s)
  {
    forall name ensures Under(Canonical(s), name) == Under(s, name) {
      StableSortIsStable(TidyAll(s), Name);
      assert WithKey(StableSort(TidyAll(s), Name), Name, name) == WithKey(TidyAll(s), Name, name);
      TidyingKeepsGroups(s, name);
      TidyingKeepsMeanings(WithKey(s, Name, name));
    }
    CanonicalFormsAgreeExactly(Canonical(s), s);
  }

  // ---- Reorderings ----

  lemma UnderFirst(s: seq<Requirement>, name: string)
    requires s != []
    ensures Under(s, name) == (if s[0].name == name then [MeaningOf(s[0])] else []) + Under(s[1..], name)
  {
    hide MeaningOf;
    var rest := WithKey(s[1..], Name, name);
    assert ([s[0]] + rest)[1..] == rest && [] + rest == rest;
  }

  lemma {:induction false} CountedUnderItsName(s: seq<Requirement>, m: Meaning)
    ensures multiset(Meanings(s))[m] == multiset(Under(s, m.0))[m]
  {
    if s != [] {
      CountedUnderItsName(s[1..], m);
      UnderFirst(s, m.0);
      hide Under;
    }
  }

  lemma {:induction false} MeaningHasAnEntry(s: seq<Requirement>, m: Meaning) returns (i: nat)
    requires m in Meanings(s)
    ensures i < |s| && MeaningOf(s[i]) == m
  {
    if MeaningOf(s[0]) == m {
      i := 0;
    } else {
      i := MeaningHasAnEntry(s[1..], m);
      i := i + 1;
    }
  }

  lemma {:induction false} NamesUnder(s: seq<Requirement>, name: string)
    ensures forall m :: m in Under(s, name) ==> m.0 == name && m in Meanings(s)
  {
    if s != [] {
      NamesUnder(s[1..], name);
      UnderFirst(s, name);
      hide Under;
    }
  }

  lemma UniformUnder(s: seq<Requirement>, m: Meaning)
    requires forall other :: other in Meanings(s) && other.0 == m.0 ==> other == m
    ensures Under(s, m.0) == seq(multiset(Meanings(s))[m], _ => m)
  {
    NamesUnder(s, m.0);
    CountedUnderItsName(s, m);
    Uniform(Under(s, m.0), m);
  }

  lemma {:induction false} Uniform(s: seq<Meaning>, m: Meaning)
    requires forall i :: 0 <= i < |s| ==> s[i] == m
    ensures s == seq(multiset(s)[m], _ => m)
  {
    if s != [] {
      assert s == [s[0]] + s[1..];
      Uniform(s[1..], m);
    }
  }

  lemma AgreementIsReordering(a: seq<Requirement>, b: seq<Requirement>)
    requires SameUnderEveryName(a, b)
    ensures Reordering(a, b)
  {
    hide Meanings;
    hide Under;
    forall m: Meaning ensures multiset(Meanings(a))[m] == multiset(Meanings(b))[m] {
      CountedUnderItsName(a, m);
      CountedUnderItsName(b, m);
      assert Under(a, m.0) == Under(b, m.0);
    }
  }

  lemma OneMeaningPerName(a: seq<Requirement>, m: Meaning, other: Meaning)
    requires Unambiguous(a) && m in Meanings(a) && other in Meanings(a) && m.0 == other.0
    ensures m == other
  {
    var i := MeaningHasAnEntry(a, m);
    var j := MeaningHasAnEntry(a, other);
    assert i < j || j < i || i == j;
  }

  lemma UnambiguousReorderingsAgree(a: seq<Requirement>, b: seq<Requirement>)
    requires Unambiguous(a) && Reordering(a, b)
    ensures SameUnderEveryName(a, b)
  {
    hide Unambiguous;
    hide Meanings;
    assert forall m :: m in Meanings(a) <==> m in Meanings(b) by {
      assert forall m :: m in Meanings(a) <==> m in multiset(Meanings(a));
      assert forall m :: m in Meanings(b) <==> m in multiset(Meanings(b));
    }
    forall name ensures Under(a, name) == Under(b, name) {
      var m: Meaning :| m.0 == name && (m in Meanings(a) || forall n :: n in Meanings(a) ==> n.0 != name) by {
        if !(exists m :: m in Meanings(a) && m.0 == name) {
          var none: Meaning := (name, multiset{});
          assert none.0 == name;
        }
      }
      forall other | other in Meanings(a) && other.0 == m.0 ensures other == m {
        OneMeaningPerName(a, m, other);
      }
      UniformUnder(a, m);
      UniformUnder(b, m);
    }
  }

  /** With distinct names, one canonical form means reordering and nothing else. */
  lemma DistinctNamesAgreeExactly(a: seq<Requirement>, b: seq<Requirement>)
    requires DistinctNames(a)
    ensures Canonical(a) == Canonical(b) <==> Reordering(a, b)
  {
    hide Canonical;
    assert Unambiguous(a);
    CanonicalFormsAgreeExactly(a, b);
    if Reordering(a, b) {
      UnambiguousReorderingsAgree(a, b);
    } else if SameUnderEveryName(a, b) {
      AgreementIsReordering(a, b);
    }
  }

  function ToFront(s: seq<Requirement>, i: nat): seq<Requirement>
    requires i < |s|
  {
    [s[i]] + s[..i] + s[i + 1..]
  }

  lemma {:induction false} MeaningsOfConcat(a: seq<Requirement>, b: seq<Requirement>)
    ensures Meanings(a + b) == Meanings(a) + Meanings(b)
  {
    if a == [] {
      assert a + b == b;
    } else {
      assert (a + b)[1..] == a[1..] + b;
      MeaningsOfConcat(a[1..], b);
    }
  }

  lemma ToFrontReorders(s: seq<Requirement>, i: nat)
    requires i < |s|
    ensures Reordering(s, ToFront(s, i))
    ensures Under(ToFront(s, i), s[i].name) != [] && Under(ToFront(s, i), s[i].name)[0] == MeaningOf(s[i])
  {
    var x, front, back := [s[i]], s[..i], s[i + 1..];
    assert s == front + x + back;
    MeaningsOfConcat(front + x, back);
    MeaningsOfConcat(front, x);
    MeaningsOfConcat(x + front, back);
    MeaningsOfConcat(x, front);
    assert ToFront(s, i)[0] == s[i];
  }

  /** The canonical form ignores every reordering exactly when no name is given two meanings. */
  lemma OrderInsensitiveExactly(a: seq<Requirement>)
    ensures Unambiguous(a) <==> forall b :: Reordering(a, b) ==> Canonical(b) == Canonical(a)
  {
    hide Canonical;
    hide Reordering;
    hide Under;
    hide MeaningOf;
    if Unambiguous(a) {
      forall b | Reordering(a, b) ensures Canonical(b) == Canonical(a) {
        UnambiguousReorderingsAgree(a, b);
        CanonicalFormsAgreeExactly(a, b);
      }
    } else {
      var i, j :| 0 <= i < j < |a| && a[i].name == a[j].name && MeaningOf(a[i]) != MeaningOf(a[j]);
      ToFrontReorders(a, i);
      ToFrontReorders(a, j);
      CanonicalFormsAgreeExactly(ToFront(a, i), ToFront(a, j));
      assert Under(ToFront(a, i), a[i].name) != Under(ToFront(a, j), a[i].name);
      assert !(forall b :: Reordering(a, b) ==> Canonical(b) == Canonical(a)) by {
        assert Canonical(ToFront(a, i)) != Canonical(a) || Canonical(ToFront(a, j)) != Canonical(a);
      }
    }
  }

  // ---- The lists that reach the canonical form ----

  const MAX_REQUIRED_ENV := 32

  /** What validation accepts: a bounded list of distinct names, each entry passing the rules for one entry. */
  predicate Accepted(values: seq<Requirement>, allowed: Requirement -> bool) {
    && |values| <= MAX_REQUIRED_ENV
    && DistinctNames(values)
    && forall i :: 0 <= i < |values| ==> allowed(values[i])
  }

  /** The check of a case's required variables, with the names seen so far in a set. */
  method ValidateRequiredEnvironment(values: seq<Requirement>, allowed: Requirement -> bool) returns (accepted: bool)
    ensures accepted <==> Accepted(values, allowed)
  {
    if |values| > MAX_REQUIRED_ENV {
      return false;
    }
    var names: set<string> := {};
    for i := 0 to |values|
      invariant names == set j | 0 <= j < i :: values[j].name
      invariant DistinctNames(values[..i])
      invariant forall j :: 0 <= j < i ==> allowed(values[j])
    {
      if values[i].name in names || !allowed(values[i]) {
        return false;
      }
      names := names + {values[i].name};
    }
    assert values[..|values|] == values;
    return true;
  }

  /** Of a list that validation accepts, every reordering has the same canonical form, and nothing else has it. */
  lemma AcceptedIgnoresOrder(values: seq<Requirement>, allowed: Requirement -> bool)
    requires Accepted(values, allowed)
    ensures forall other :: Reordering(values, other) <==> Canonical(other) == Canonical(values)
  {
    hide Canonical;
    hide Reordering;
    forall other ensures Reordering(values, other) <==> Canonical(other) == Canonical(values) {
      DistinctNamesAgreeExactly(values, other);
    }
  }

  // ---- Why the names are checked ----

  /** A name given twice with different values: the two orders of the entries have different canonical forms. */
  lemma RepeatedNameKeepsItsOrder(name: string, v: seq<string>, w: seq<string>)
    requires multiset(v) != multiset(w)
    ensures var a, b := Requirement(name, v), Requirement(name, w);
            Reordering([a, b], [b, a]) && Canonical([a, b]) != Canonical([b, a])
  {
    var a, b := Requirement(name, v), Requirement(name, w);
    TwoUnder(a, b);
    TwoUnder(b, a);
    hide Canonical;
    CanonicalFormsAgreeExactly([a, b], [b, a]);
    assert Under([a, b], name) != Under([b, a], name) by {
      assert Under([a, b], name)[0] != Under([b, a], name)[0];
    }
  }

  lemma TwoUnder(a: Requirement, b: Requirement)
    requires a.name == b.name
    ensures Meanings([a, b]) == [MeaningOf(a), MeaningOf(b)] == Under([a, b], a.name)
  {
    hide MeaningOf;
    assert [a, b][1..] == [b] && [b][1..] == [];
    assert WithKey([b], Name, a.name) == [b];
    assert WithKey([a, b], Name, a.name) == [a, b];
  }

  /** The shortest list on which the order of entries would matter: validation refuses it. */
  lemma OrderMattersHere()
    ensures var list := [Requirement("MODE", ["fast"]), Requirement("MODE", ["safe"])];
            && !DistinctNames(list) && !Unambiguous(list)
            && exists other :: Reordering(list, other) && Canonical(other) != Canonical(list)
  {
    var a, b := Requirement("MODE", ["fast"]), Requirement("MODE", ["safe"]);
    assert "fast"[0] != "safe"[0];
    assert "fast" in multiset(["fast"]) && "fast" !in multiset(["safe"]);
    hide Canonical;
    RepeatedNameKeepsItsOrder("MODE", ["fast"], ["safe"]);
    assert [a, b][0].name == [a, b][1].name && MeaningOf([a, b][0]) != MeaningOf([a, b][1]);
    assert Reordering([a, b], [b, a]);
  }
}
