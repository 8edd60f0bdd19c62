/** Ascending order of strings by code point, as Python's sorted() gives it.

    Object members are printed in this order (json.dumps with sort_keys) and results
    are stitched in this order (sorted(key_to_hash.items())). */
module KeyOrder {

  predicate AtMost(a: string, b: string) {
    a == "" || (b != "" && (a[0] < b[0] || (a[0] == b[0] && AtMost(a[1..], b[1..]))))
  }

  /** Two strings in code-point order: the second extends the first, or is the larger at the
      first character in which they differ. */
  ghost predicate InOrder(a: string, b: string) {
    a <= b || exists i :: 0 <= i < |a| && i < |b| && a[..i] == b[..i] && a[i] < b[i]
  }

  lemma {:induction false} AtMostIsInOrder(a: string, b: string)
    ensures AtMost(a, b) <==> a <= b || exists i :: 0 <= i < |a| && i < |b| && a[..i] == b[..i] && a[i] < b[i]
  {
    if a != "" && b != "" {
      assert a == [a[0]] + a[1..] && b == [b[0]] + b[1..];
      if a[0] == b[0] {
        AtMostIsInOrder(a[1..], b[1..]);
        LaterInOrder(a, b);
      } else if a[0] < b[0] {
        assert a[..0] == b[..0];
      }
    }
  }

  /** A common first character changes nothing. */
  lemma LaterInOrder(a: string, b: string)
    requires a != "" && b != "" && a[0] == b[0]
    ensures InOrder(a, b) <==> InOrder(a[1..], b[1..])
  {
    var c, x, y := a[0], a[1..], b[1..];
    assert a == [c] + x && b == [c] + y;
    assert a <= b <==> x <= y;
    if i :| 0 <= i < |x| && i < |y| && x[..i] == y[..i] && x[i] < y[i] { ConsDiffer(c, x, y, i); }
    if i :| 0 <= i < |a| && i < |b| && a[..i] == b[..i] && a[i] < b[i] { RestDiffer(c, x, y, i); }
  }

  lemma ConsDiffer(c: char, x: string, y: string, i: nat)
    requires i < |x| && i < |y| && x[..i] == y[..i] && x[i] < y[i]
    ensures InOrder([c] + x, [c] + y)
  {
    var a, b := [c] + x, [c] + y;
    assert a[..i + 1] == [c] + x[..i] && b[..i + 1] == [c] + y[..i];
    assert a[i + 1] < b[i + 1];
  }

  lemma RestDiffer(c: char, x: string, y: string, i: nat)
    requires var a, b := [c] + x, [c] + y; i < |a| && i < |b| && a[..i] == b[..i] && a[i] < b[i]
    ensures InOrder(x, y)
  {
    var a, b := [c] + x, [c] + y;
    assert x[..i - 1] == a[..i][1..] && y[..i - 1] == b[..i][1..];
    assert x[i - 1] < y[i - 1];
  }

  lemma Comparable(a: string, b: string)
    ensures AtMost(a, b) || AtMost(b, a)
  {}

  lemma Antisymmetric(a: string, b: string)
    requires AtMost(a, b) && AtMost(b, a)
    ensures a == b
  {
    if a != "" {
      Antisymmetric(a[1..], b[1..]);
      assert a == [a[0]] + a[1..] && b == [b[0]] + b[1..];
    }
  }

  lemma Transitive(a: string, b: string, c: string)
    requires AtMost(a, b) && AtMost(b, c)
    ensures AtMost(a, c)
  {}

  predicate IsLeast(k: string, keys: set<string>) {
    k in keys && forall other | other in keys :: AtMost(k, other)
  }

  lemma LeastExists(keys: set<string>)
    requires keys != {}
    ensures exists k :: IsLeast(k, keys)
  {
    var k :| k in keys;
    if keys == {k} {
      Comparable(k, k);
      assert IsLeast(k, keys);
    } else {
      LeastExists(keys - {k});
      var m :| IsLeast(m, keys - {k});
      Comparable(k, m);
      var least := if AtMost(k, m) then k else m;
      forall other | other in keys ensures AtMost(least, other) {
        Comparable(other, other);
        if other != k && AtMost(k, m) { Transitive(k, m, other); }
      }
      assert IsLeast(least, keys);
    }
  }

  lemma LeastIsUnique(keys: set<string>)
    ensures forall a, b | IsLeast(a, keys) && IsLeast(b, keys) :: a == b
  {
    forall a, b | IsLeast(a, keys) && IsLeast(b, keys) ensures a == b {
      Antisymmetric(a, b);
    }
  }

  ghost predicate Ascending(ks: seq<string>) {
    forall i, j | 0 <= i < j < |ks| :: InOrder(ks[i], ks[j]) && ks[i] != ks[j]
  }

  ghost function Elements(ks: seq<string>): set<string> {
    set k | k in ks
  }

  lemma LeastFirst(first: string, rest: seq<string>, keys: set<string>)
    requires IsLeast(first, keys) && Ascending(rest) && forall k :: k in rest <==> k in keys - {first}
    ensures Ascending([first] + rest) && forall k :: k in [first] + rest <==> k in keys
  {
    var all := [first] + rest;
    forall i, j | 0 <= i < j < |all| ensures InOrder(all[i], all[j]) && all[i] != all[j] {
      assert all[j] == rest[j - 1] && rest[j - 1] in rest;
      if i > 0 {
        assert all[i] == rest[i - 1];
      } else {
        AtMostIsInOrder(first, all[j]);
      }
    }
  }

  /** The keys of a finite collection in ascending order, each exactly once. */
  function SortedKeys(keys: set<string>): (ks: seq<string>)
    ensures forall k :: k in ks <==> k in keys
    ensures Ascending(ks)
    ensures |ks| == |keys|
  {
    if keys == {} then []
    else
      LeastExists(keys);
      LeastIsUnique(keys);
      var first :| IsLeast(first, keys);
      var rest := SortedKeys(keys - {first});
      LeastFirst(first, rest, keys);
      [first] + rest
  }

  /** The first of an ascending listing is the least. */
  lemma FirstIsLeast(ks: seq<string>, keys: set<string>)
    requires Ascending(ks) && Elements(ks) == keys && ks != []
    ensures IsLeast(ks[0], keys)
  {
    assert ks[0] in ks;
    forall other | other in keys ensures AtMost(ks[0], other) {
      assert other in ks;
      var i :| 0 <= i < |ks| && ks[i] == other;
      AtMostIsInOrder(ks[0], other);
    }
  }

  lemma RestElements(ks: seq<string>)
    requires Ascending(ks) && ks != []
    ensures Elements(ks[1..]) == Elements(ks) - {ks[0]}
  {
    assert ks == [ks[0]] + ks[1..];
    assert ks[0] !in ks[1..];
  }

  /** Ascending order determines the sequence: there is one way to list a set. */
  lemma {:induction false} SortedKeysUnique(ks: seq<string>, keys: set<string>)
    requires Ascending(ks) && Elements(ks) == keys
    ensures ks == SortedKeys(keys)
  {
    if ks != [] {
      FirstIsLeast(ks, keys);
      RestElements(ks);
      SortedKeysUnique(ks[1..], keys - {ks[0]});
      SortedKeysStep(keys, ks[0]);
      assert ks == [ks[0]] + ks[1..];
    }
  }

  /** The two strings "a" and "b" come in this order. */
  lemma SortedExample()
    ensures SortedKeys({"b", "a"}) == ["a", "b"]
  {
    var ks := ["a", "b"];
    assert "a"[..0] == "b"[..0] && InOrder(ks[0], ks[1]);
    assert Elements(ks) == {"b", "a"} by { assert ks[0] in ks && ks[1] in ks; }
    SortedKeysUnique(ks, {"b", "a"});
  }

  lemma SortedKeysStep(keys: set<string>, least: string)
    requires IsLeast(least, keys)
    ensures SortedKeys(keys) == [least] + SortedKeys(keys - {least})
  {
    LeastIsUnique(keys);
  }
}
