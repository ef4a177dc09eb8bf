/** Go's byte-wise string order. A Dafny char stands for one byte of a Go string. */
module ByteOrder {

  predicate Below(a: string, b: string) {
    if |b| == 0 then false
    else if |a| == 0 then true
    else a[0] < b[0] || (a[0] == b[0] && Below(a[1..], b[1..]))
  }

  lemma {:induction false} Irreflexive(a: string)
    ensures !Below(a, a)
  {
    if |a| > 0 { Irreflexive(a[1..]); }
  }

  lemma {:induction false} Total(a: string, b: string)
    ensures Below(a, b) || Below(b, a) || a == b
  {
    if |a| > 0 && |b| > 0 {
      Total(a[1..], b[1..]);
      assert a[0] == b[0] && a[1..] == b[1..] ==> a == [a[0]] + a[1..] == b;
    }
  }

  lemma {:induction false} Transitive(a: string, b: string, c: string)
    requires Below(a, b) && Below(b, c)
    ensures Below(a, c)
  {
    if |a| > 0 && a[0] == b[0] && b[0] == c[0] { Transitive(a[1..], b[1..], c[1..]); }
  }

  lemma Asymmetric(a: string, b: string)
    requires Below(a, b)
    ensures !Below(b, a)
  {
    if Below(b, a) {
      Transitive(a, b, a);
      Irreflexive(a);
    }
  }

  ghost predicate IsLeast(k: string, keys: set<string>) {
    k in keys && forall other <- keys :: other != k ==> Below(k, other)
  }

  lemma {:induction false} LeastExists(keys: set<string>)
    requires keys != {}
    ensures exists k :: IsLeast(k, keys)
    decreases keys
  {
    var k :| k in keys;
    if keys == {k} {
      assert IsLeast(k, keys);
    } else {
      LeastExists(keys - {k});
      var l :| IsLeast(l, keys - {k});
      Total(k, l);
      if Below(k, l) {
        forall other <- keys | other != k ensures Below(k, other) {
          if other != l { Transitive(k, l, other); }
        }
        assert IsLeast(k, keys);
      } else {
        assert IsLeast(l, keys);
      }
    }
  }

  ghost function Least(keys: set<string>): (k: string)
    requires keys != {}
    ensures IsLeast(k, keys)
  {
    LeastExists(keys);
    var k :| IsLeast(k, keys);
    k
  }

  lemma LeastIsUnique(k: string, l: string, keys: set<string>)
    requires IsLeast(k, keys) && IsLeast(l, keys)
    ensures k == l
  {
    if k != l { Asymmetric(k, l); }
  }
}
