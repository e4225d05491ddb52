/** The order in which std::map enumerates its keys. */
module HeaderOrders {
  /** `a <= b` as std::string compares: by the first character that differs. */
  predicate UpTo(a: string, b: string)
    decreases |a|
  {
    a == "" || (b != "" && (a[0] < b[0] || (a[0] == b[0] && UpTo(a[1..], b[1..]))))
  }

  predicate IsLeast(k: string, keys: set<string>) {
    k in keys && forall x | x in keys :: UpTo(k, x)
  }

  lemma {:induction false} UpToIsTotal(a: string, b: string)
    ensures UpTo(a, b) || UpTo(b, a)
    decreases |a|
  {
    if a != "" && b != "" && a[0] == b[0] {
      UpToIsTotal(a[1..], b[1..]);
    }
  }

  lemma {:induction false} UpToIsAntisymmetric(a: string, b: string)
    requires UpTo(a, b) && UpTo(b, a)
    ensures a == b
    decreases |a|
  {
    if a != "" {
      UpToIsAntisymmetric(a[1..], b[1..]);
      assert a == [a[0]] + a[1..] && b == [b[0]] + b[1..];
    }
  }

  lemma {:induction false} UpToIsTransitive(a: string, b: string, c: string)
    requires UpTo(a, b) && UpTo(b, c)
    ensures UpTo(a, c)
    decreases |a|
  {
    if a != "" && a[0] == b[0] == c[0] {
      UpToIsTransitive(a[1..], b[1..], c[1..]);
    }
  }

  lemma {:induction false} SomeIsLeast(keys: set<string>)
    requires keys != {}
    ensures exists k :: IsLeast(k, keys)
    decreases |keys|
  {
    var x :| x in keys;
    var rest := keys - {x};
    UpToIsTotal(x, x);
    if rest == {} {
      assert keys == {x} && IsLeast(x, keys);
    } else {
      SomeIsLeast(rest);
      var k :| IsLeast(k, rest);
      UpToIsTotal(x, k);
      if UpTo(k, x) {
        assert IsLeast(k, keys);
      } else {
        forall y | y in keys ensures UpTo(x, y) {
          if y != x {
            UpToIsTransitive(x, k, y);
          }
        }
        assert IsLeast(x, keys);
      }
    }
  }

  lemma LeastIsUnique(keys: set<string>)
    ensures forall j, k | IsLeast(j, keys) && IsLeast(k, keys) :: j == k
  {
    forall j, k | IsLeast(j, keys) && IsLeast(k, keys) ensures j == k {
      UpToIsAntisymmetric(j, k);
    }
  }

  /** All keys, each once, from the least to the greatest. */
  function Ascending(keys: set<string>): (r: seq<string>)
    ensures forall k :: k in r <==> k in keys
    ensures forall i, j | 0 <= i < j < |r| :: r[i] != r[j] && UpTo(r[i], r[j])
    decreases |keys|
  {
    if keys == {} then []
    else
      SomeIsLeast(keys);
      LeastIsUnique(keys);
      var k :| IsLeast(k, keys);
      [k] + Ascending(keys - {k})
  }
}
