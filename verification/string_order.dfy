/** The byte-wise order that Go's `sort.Strings` uses, and the least element of a set of names. */
module StringOrder {

  predicate Leq(a: string, b: string)
  {
    a == [] || (b != [] && (a[0] < b[0] || (a[0] == b[0] && Leq(a[1..], b[1..]))))
  }

  lemma {:induction false} LeqReflexive(a: string)
    ensures Leq(a, a)
  {
    if a != [] {
      LeqReflexive(a[1..]);
    }
  }

  lemma {:induction false} LeqTotal(a: string, b: string)
    ensures Leq(a, b) || Leq(b, a)
  {
    if a != [] && b != [] && a[0] == b[0] {
      LeqTotal(a[1..], b[1..]);
    }
  }

  lemma {:induction false} LeqAntisymmetric(a: string, b: string)
    requires Leq(a, b) && Leq(b, a)
    ensures a == b
  {
    if a != [] {
      LeqAntisymmetric(a[1..], b[1..]);
      assert a == [a[0]] + a[1..] && b == [b[0]] + b[1..];
    }
  }

  lemma {:induction false} LeqTransitive(a: string, b: string, c: string)
    requires Leq(a, b) && Leq(b, c)
    ensures Leq(a, c)
  {
    if a != [] && a[0] == b[0] && b[0] == c[0] {
      LeqTransitive(a[1..], b[1..], c[1..]);
    }
  }

  ghost predicate IsLeast(m: string, names: set<string>)
  {
    m in names && forall n | n in names :: Leq(m, n)
  }

  lemma {:induction false} LeastExists(names: set<string>)
    requires names != {}
    ensures exists m :: IsLeast(m, names)
  {
    var m :| m in names;
    LeqReflexive(m);
    var rest := names - {m};
    assert names == rest + {m};
    if rest == {} {
      assert IsLeast(m, names);
    } else {
      LeastExists(rest);
      var r :| IsLeast(r, rest);
      LeqTotal(m, r);
      if Leq(r, m) {
        assert IsLeast(r, names);
      } else {
        forall n | n in rest ensures Leq(m, n) {
          LeqTransitive(m, r, n);
        }
        assert IsLeast(m, names);
      }
    }
  }

  /** The least of a non-empty set of names. */
  ghost function Least(names: set<string>): (m: string)
    requires names != {}
    ensures IsLeast(m, names)
  {
    LeastExists(names);
    var m :| IsLeast(m, names);
    m
  }

  lemma LeastUnique(m: string, names: set<string>)
    requires IsLeast(m, names)
    ensures m == Least(names)
  {
    LeqAntisymmetric(m, Least(names));
  }

  ghost predicate Sorted(names: seq<string>)
  {
    forall i, j | 0 <= i <= j < |names| :: Leq(names[i], names[j])
  }

  /** Lists a set of names in ascending order. */
  method SortNames(names: set<string>) returns (sorted: seq<string>)
    ensures Sorted(sorted)
    ensures forall n :: n in sorted <==> n in names
  {
    sorted := [];
    var rest := names;
    while rest != {}
      invariant rest <= names
      invariant Sorted(sorted)
      invariant forall n :: n in sorted <==> n in names - rest
    {
      var name :| name in rest;
      rest := rest - {name};
      sorted := Insert(name, sorted);
    }
  }

  method Insert(name: string, names: seq<string>) returns (r: seq<string>)
    requires Sorted(names)
    ensures Sorted(r)
    ensures forall n :: n in r <==> n == name || n in names
  {
    var i := 0;
    while i < |names| && Leq(names[i], name)
      invariant 0 <= i <= |names|
      invariant forall k | 0 <= k < i :: Leq(names[k], name)
    {
      i := i + 1;
    }
    r := names[..i] + [name] + names[i..];
    LeqReflexive(name);
    if i < |names| {
      LeqTotal(names[i], name);
      forall k | i <= k < |names| ensures Leq(name, names[k]) {
        LeqTransitive(name, names[i], names[k]);
      }
    }
    assert forall n :: n in names <==> n in names[..i] || n in names[i..] by {
      assert names == names[..i] + names[i..];
    }
  }
}
