/**
 * `endpointCheckRevision`: a Refresh compares its two direct lists by sorting each by
 * (namespace, name) and encoding it. The encoding is injective, so the sorted list itself
 * stands for the encoded string.
 */
module Snapshot {
  import opened ByteOrder

  /** `content` is the rest of the object, resource version included. */
  datatype Item = Item(namespace: string, name: string, content: string)

  /** The comparison handed to `sort.Slice`. */
  predicate Before(a: Item, b: Item) {
    if a.namespace == b.namespace then Below(a.name, b.name) else Below(a.namespace, b.namespace)
  }

  ghost predicate Ascending(s: seq<Item>) {
    forall i, j :: 0 <= i < j < |s| ==> !Before(s[j], s[i])
  }

  /** The API server holds at most one object per namespace and name. */
  ghost predicate DistinctNames(s: seq<Item>) {
    forall i, j :: 0 <= i < j < |s| ==> (s[i].namespace, s[i].name) != (s[j].namespace, s[j].name)
  }

  lemma BeforeTransitive(a: Item, b: Item, c: Item)
    requires Before(a, b) && Before(b, c)
    ensures Before(a, c)
  {
    if a.namespace == b.namespace && b.namespace == c.namespace { Transitive(a.name, b.name, c.name); }
    if a.namespace != b.namespace && b.namespace != c.namespace {
      Transitive(a.namespace, b.namespace, c.namespace);
      Irreflexive(a.namespace);
    }
  }

  lemma BeforeTotal(a: Item, b: Item)
    ensures Before(a, b) || Before(b, a) || (a.namespace, a.name) == (b.namespace, b.name)
    ensures !(Before(a, b) && Before(b, a))
  {
    Total(a.namespace, b.namespace);
    Total(a.name, b.name);
    if Before(a, b) && Before(b, a) {
      BeforeTransitive(a, b, a);
      Irreflexive(a.namespace);
      Irreflexive(a.name);
    }
  }

  lemma NotBeforeTransitive(a: Item, b: Item, c: Item)
    requires !Before(b, a) && !Before(c, b)
    ensures !Before(c, a)
  {
    BeforeTotal(a, b);
    BeforeTotal(b, c);
    if Before(c, a) {
      if Before(a, b) { BeforeTransitive(c, a, b); }
    }
  }

  /** Sorts a copy of the list; the input is left alone. */
  method EndpointCheckRevision(items: seq<Item>) returns (encoded: seq<Item>)
    ensures Ascending(encoded) && multiset(encoded) == multiset(items)
  {
    encoded := [];
    for i := 0 to |items|
      invariant Ascending(encoded) && multiset(encoded) == multiset(items[..i])
    {
      encoded := Insert(encoded, items[i]);
      assert items[..i + 1] == items[..i] + [items[i]];
    }
    assert items[..|items|] == items;
  }

  method Insert(s: seq<Item>, x: Item) returns (r: seq<Item>)
    requires Ascending(s)
    ensures Ascending(r) && multiset(r) == multiset(s) + multiset{x}
  {
    var k := |s|;
    while k > 0 && Before(x, s[k - 1])
      invariant 0 <= k <= |s|
      invariant forall j :: k <= j < |s| ==> Before(x, s[j])
    {
      k := k - 1;
    }
    r := s[..k] + [x] + s[k..];
    InsertedAscends(s, x, k);
    assert s == s[..k] + s[k..];
  }

  lemma InsertedAscends(s: seq<Item>, x: Item, k: nat)
    requires Ascending(s) && k <= |s|
    requires k > 0 ==> !Before(x, s[k - 1])
    requires forall j :: k <= j < |s| ==> Before(x, s[j])
    ensures Ascending(s[..k] + [x] + s[k..])
  {
    var r := s[..k] + [x] + s[k..];
    forall i, j | 0 <= i < j < |r| ensures !Before(r[j], r[i]) {
      if i == k {
        BeforeTotal(x, s[j - 1]);
      } else if j == k {
        if i < k - 1 { NotBeforeTransitive(s[i], s[k - 1], x); }
      } else if i < k && j > k {
        assert r[j] == s[j - 1] && r[i] == s[i];
      }
    }
  }

  lemma {:induction false} SortedListsAgree(a: seq<Item>, b: seq<Item>)
    requires Ascending(a) && Ascending(b) && DistinctNames(a) && DistinctNames(b)
    requires multiset(a) == multiset(b)
    ensures a == b
    decreases |a|
  {
    assert |a| == |multiset(a)| == |multiset(b)| == |b|;
    if |a| > 0 {
      FirstsAgree(a, b);
      Tail(a);
      Tail(b);
      SortedListsAgree(a[1..], b[1..]);
    }
  }

  lemma Tail(s: seq<Item>)
    requires s != []
    ensures s == [s[0]] + s[1..] && multiset(s[1..]) == multiset(s) - multiset{s[0]}
    ensures Ascending(s) ==> Ascending(s[1..])
    ensures DistinctNames(s) ==> DistinctNames(s[1..])
  {
    assert s == [s[0]] + s[1..];
  }

  lemma FirstsAgree(a: seq<Item>, b: seq<Item>)
    requires Ascending(a) && Ascending(b) && DistinctNames(a) && DistinctNames(b)
    requires multiset(a) == multiset(b) && |a| > 0 && |b| > 0
    ensures a[0] == b[0]
  {
    assert a[0] in multiset(b) && b[0] in multiset(a);
    var i :| 0 <= i < |b| && b[i] == a[0];
    var j :| 0 <= j < |a| && a[j] == b[0];
    if i > 0 && j > 0 { BeforeTotal(a[0], b[0]); }
  }

  lemma DistinctNamesPermute(a: seq<Item>, b: seq<Item>)
    requires DistinctNames(a) && multiset(a) == multiset(b)
    ensures DistinctNames(b)
  {
    forall i, j | 0 <= i < j < |b| ensures (b[i].namespace, b[i].name) != (b[j].namespace, b[j].name) {
      if (b[i].namespace, b[i].name) == (b[j].namespace, b[j].name) {
        assert b[i] in multiset(a) && b[j] in multiset(a);
        assert b[i] == b[j];
        assert b == b[..j] + [b[j]] + b[j + 1..];
        assert b[..j] == b[..i] + [b[i]] + b[i + 1..j];
        assert multiset(b)[b[i]] >= 2;
        OnceOnly(a, b[i]);
      }
    }
  }

  lemma {:induction false} OnceOnly(a: seq<Item>, x: Item)
    requires DistinctNames(a)
    ensures multiset(a)[x] <= 1
    decreases |a|
  {
    if |a| > 0 {
      assert a == [a[0]] + a[1..];
      OnceOnly(a[1..], x);
      if a[0] == x { assert x !in a[1..]; }
    }
  }

  /** The revision is independent of list order and forgets nothing else: the revisions of two
      lists are equal exactly when the lists hold the same objects. */
  lemma RevisionsAgreeIff(first: seq<Item>, second: seq<Item>, a: seq<Item>, b: seq<Item>)
    requires DistinctNames(first) && DistinctNames(second)
    requires Ascending(a) && multiset(a) == multiset(first)
    requires Ascending(b) && multiset(b) == multiset(second)
    ensures a == b <==> multiset(first) == multiset(second)
  {
    DistinctNamesPermute(first, a);
    DistinctNamesPermute(second, b);
    if multiset(first) == multiset(second) { SortedListsAgree(a, b); }
  }
}
