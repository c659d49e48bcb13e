/** Iteration order of the source's `BTreeMap<String, _>`: ascending by code point, shorter first. */
module KeyOrder {
  predicate Before(a: string, b: string) {
    b != "" && (a == "" || a[0] < b[0] || (a[0] == b[0] && Before(a[1..], b[1..])))
  }

  /** Up to `i` the strings are the same, and there `a` ends or has the smaller character. */
  predicate DiffersAt(a: string, b: string, i: nat) {
    i <= |a| && i < |b| && a[..i] == b[..i] && (i < |a| ==> a[i] < b[i])
  }

  lemma {:induction false} DiffersIsBefore(a: string, b: string, i: nat)
    requires DiffersAt(a, b, i)
    ensures Before(a, b)
  {
    if i > 0 {
      assert a[..i][0] == a[0] && b[..i][0] == b[0];
      assert a[1..][..i - 1] == a[..i][1..] && b[1..][..i - 1] == b[..i][1..];
      DiffersIsBefore(a[1..], b[1..], i - 1);
    }
  }

  lemma {:induction false} BeforeDiffers(a: string, b: string) returns (i: nat)
    requires Before(a, b)
    ensures DiffersAt(a, b, i)
  {
    i := 0;
    if a != "" && a[0] == b[0] {
      i := BeforeDiffers(a[1..], b[1..]);
      assert a[..i + 1] == [a[0]] + a[1..][..i] && b[..i + 1] == [b[0]] + b[1..][..i];
      i := i + 1;
    }
  }

  /** The order is that of the first difference, shorter strings first. */
  lemma BeforeIff(a: string, b: string)
    ensures Before(a, b) <==> exists i: nat :: DiffersAt(a, b, i)
  {
    if Before(a, b) {
      var i := BeforeDiffers(a, b);
    }
    if i: nat :| DiffersAt(a, b, i) {
      DiffersIsBefore(a, b, i);
    }
  }

  lemma {:induction false} BeforeIsTotal(a: string, b: string)
    ensures a == b || Before(a, b) || Before(b, a)
  {
    if a != "" && b != "" && a[0] == b[0] {
      BeforeIsTotal(a[1..], b[1..]);
      assert a == [a[0]] + a[1..] && b == [b[0]] + b[1..];
    }
  }

  lemma {:induction false} BeforeIsAsymmetric(a: string, b: string)
    requires Before(a, b)
    ensures a != b && !Before(b, a)
  {
    if a != "" && a[0] == b[0] {
      BeforeIsAsymmetric(a[1..], b[1..]);
    }
  }

  lemma {:induction false} BeforeIsTransitive(a: string, b: string, c: string)
    requires Before(a, b) && Before(b, c)
    ensures Before(a, c)
  {
    if a != "" && a[0] == b[0] == c[0] {
      BeforeIsTransitive(a[1..], b[1..], c[1..]);
    }
  }

  predicate IsLeast(key: string, keys: set<string>) {
    key in keys && forall other | other in keys :: other == key || Before(key, other)
  }

  lemma {:induction false} LeastExists(keys: set<string>)
    requires keys != {}
    ensures exists key :: IsLeast(key, keys)
  {
    var some :| some in keys;
    var rest := keys - {some};
    if rest == {} {
      assert keys == {some};
      assert IsLeast(some, keys);
    } else {
      LeastExists(rest);
      var least :| IsLeast(least, rest);
      BeforeIsTotal(some, least);
      var winner := if Before(some, least) then some else least;
      forall other | other in keys
        ensures other == winner || Before(winner, other)
      {
        if winner == some && other != some && other != least {
          BeforeIsTransitive(some, least, other);
        }
      }
      assert IsLeast(winner, keys);
    }
  }

  function Least(keys: set<string>): (key: string)
    requires keys != {}
    ensures IsLeast(key, keys)
  {
    LeastExists(keys);
    assert forall a, b | IsLeast(a, keys) && IsLeast(b, keys) :: a == b by {
      forall a, b | IsLeast(a, keys) && IsLeast(b, keys)
        ensures a == b
      {
        if a != b {
          BeforeIsAsymmetric(a, b);
        }
      }
    }
    var key :| IsLeast(key, keys);
    key
  }

  predicate Ascending(keys: seq<string>) {
    forall i, j | 0 <= i < j < |keys| :: Before(keys[i], keys[j])
  }

  /** The keys of a `BTreeMap` in the order iteration yields them. */
  function InOrder(keys: set<string>): (order: seq<string>)
    ensures forall key :: key in order <==> key in keys
    ensures Ascending(order)
    decreases |keys|
  {
    if keys == {} then []
    else
      var key := Least(keys);
      [key] + InOrder(keys - {key})
  }
}
