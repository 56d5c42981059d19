/** The order of text by character codes, and sorting by it. */
module TextOrder {
  /** a comes before b. */
  predicate Below(a: string, b: string) {
    b != [] && (a == [] || a[0] < b[0] || (a[0] == b[0] && Below(a[1..], b[1..])))
  }

  /** The texts part at k: one ends there, or has the smaller character. */
  predicate PartsAt(a: string, b: string, k: nat) {
    k <= |a| && k < |b| && a[..k] == b[..k] && (k == |a| || a[k] < b[k])
  }

  /** The order of dictionaries. */
  lemma {:induction false} BelowIs(a: string, b: string)
    ensures Below(a, b) <==> exists k: nat :: PartsAt(a, b, k)
  {
    if a == [] && b != [] {
      assert PartsAt(a, b, 0);
    } else if a != [] && b != [] {
      if a[0] < b[0] { assert PartsAt(a, b, 0); }
      BelowIs(a[1..], b[1..]);
      if k: nat :| PartsAt(a[1..], b[1..], k) && a[0] == b[0] {
        assert a[..k + 1] == [a[0]] + a[1..][..k] && b[..k + 1] == [b[0]] + b[1..][..k];
        assert PartsAt(a, b, k + 1);
      }
      if k: nat :| PartsAt(a, b, k) && k > 0 {
        assert a[..k][0] == a[0] && b[..k][0] == b[0];
        assert a[1..][..k - 1] == a[..k][1..] && b[1..][..k - 1] == b[..k][1..];
        assert PartsAt(a[1..], b[1..], k - 1);
      }
    }
  }

  lemma {:induction false} Irreflexive(a: string)
    ensures !Below(a, a)
  {
    if a != [] { Irreflexive(a[1..]); }
  }

  lemma {:induction false} Transitive(a: string, b: string, c: string)
    requires Below(a, b) && Below(b, c)
    ensures Below(a, c)
  {
    if a != [] && a[0] == b[0] == c[0] { Transitive(a[1..], b[1..], c[1..]); }
  }

  lemma {:induction false} Total(a: string, b: string)
    ensures a == b || Below(a, b) || Below(b, a)
  {
    if a != [] && b != [] && a[0] == b[0] {
      Total(a[1..], b[1..]);
      assert a == [a[0]] + a[1..] && b == [b[0]] + b[1..];
    }
  }

  /** A common beginning does not matter. */
  lemma {:induction false} SameStart(p: string, a: string, b: string)
    ensures Below(p + a, p + b) <==> Below(a, b)
  {
    if p == [] {
      assert p + a == a && p + b == b;
    } else {
      SameStart(p[1..], a, b);
      assert (p + a)[1..] == p[1..] + a && (p + b)[1..] == p[1..] + b;
    }
  }

  /** Strictly ascending, hence free of duplicates. */
  predicate Ascending(s: seq<string>) {
    forall i, j :: 0 <= i < j < |s| ==> Below(s[i], s[j])
  }

  /** Put a text at its place; one that is there already changes nothing. */
  function InsertText(s: seq<string>, x: string): seq<string> {
    if s == [] || Below(x, s[0]) then [x] + s else if s[0] == x then s else [s[0]] + InsertText(s[1..], x)
  }

  function SortedUnique(s: seq<string>): seq<string> {
    if s == [] then [] else InsertText(SortedUnique(s[..|s| - 1]), s[|s| - 1])
  }

  lemma {:induction false} InsertMember(s: seq<string>, x: string, y: string)
    ensures y in InsertText(s, x) <==> y == x || y in s
  {
    if s != [] && !Below(x, s[0]) && s[0] != x {
      InsertMember(s[1..], x, y);
      assert s == [s[0]] + s[1..];
    }
  }

  lemma {:induction false} InsertAscends(s: seq<string>, x: string)
    requires Ascending(s)
    ensures Ascending(InsertText(s, x))
  {
    if s == [] {
    } else if Below(x, s[0]) {
      forall j | 0 <= j < |s|
        ensures Below(x, s[j])
      {
        if j > 0 { Transitive(x, s[0], s[j]); }
      }
    } else if s[0] != x {
      var rest := InsertText(s[1..], x);
      InsertAscends(s[1..], x);
      Total(x, s[0]);
      forall j | 0 <= j < |rest|
        ensures Below(s[0], rest[j])
      {
        InsertMember(s[1..], x, rest[j]);
      }
    }
  }

  /** The sorted set of texts: exactly the given ones, strictly ascending. */
  lemma {:induction false} SortedUniqueIs(s: seq<string>, x: string)
    ensures Ascending(SortedUnique(s)) && (x in SortedUnique(s) <==> x in s)
  {
    if s != [] {
      var before := s[..|s| - 1];
      SortedUniqueIs(before, x);
      InsertAscends(SortedUnique(before), s[|s| - 1]);
      InsertMember(SortedUnique(before), s[|s| - 1], x);
      assert s == before + [s[|s| - 1]];
    }
  }
}
