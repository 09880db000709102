/** sort.Strings: texts in ascending order of their characters. */
module Sorting {
  /** The order of Go strings; a proper prefix comes first. */
  predicate Leq(a: string, b: string) {
    a == "" || (b != "" && (a[0] < b[0] || (a[0] == b[0] && Leq(a[1..], b[1..]))))
  }

  /** The two texts first differ here. */
  ghost predicate FirstDiffer(a: string, b: string, i: nat) {
    i < |a| && i < |b| && a[..i] == b[..i] && a[i] != b[i]
  }

  /** A text comes before those it begins, and before those with a greater character where they first differ. */
  lemma {:induction false} LeqIff(a: string, b: string)
    ensures a <= b ==> Leq(a, b)
    ensures b < a ==> !Leq(a, b)
    ensures forall i: nat | FirstDiffer(a, b, i) :: Leq(a, b) <==> a[i] < b[i]
  {
    if a != "" && b != "" && a[0] == b[0] {
      LeqIff(a[1..], b[1..]);
      forall i: nat | FirstDiffer(a, b, i) ensures Leq(a, b) <==> a[i] < b[i] {
        assert a[..i][0] == a[0];
        assert i > 0 && a[1..][..i - 1] == a[..i][1..] == b[..i][1..] == b[1..][..i - 1];
        assert FirstDiffer(a[1..], b[1..], i - 1);
      }
    } else if a != "" && b != "" {
      forall i: nat | FirstDiffer(a, b, i) ensures i == 0 {
        HeadsAgree(a, b, i);
      }
    }
  }

  lemma HeadsAgree(a: string, b: string, i: nat)
    requires FirstDiffer(a, b, i)
    ensures i == 0 || a[0] == b[0]
  {
    assert i > 0 ==> a[..i][0] == a[0] && b[..i][0] == b[0];
  }

  lemma {:induction false} LeqTotal(a: string, b: string)
    ensures Leq(a, b) || Leq(b, a)
    ensures Leq(a, b) && Leq(b, a) ==> a == b
  {
    if a != "" && b != "" && a[0] == b[0] {
      LeqTotal(a[1..], b[1..]);
      assert a == [a[0]] + a[1..] && b == [b[0]] + b[1..];
    }
  }

  lemma {:induction false} LeqTransitive(a: string, b: string, c: string)
    requires Leq(a, b) && Leq(b, c)
    ensures Leq(a, c)
  {
    if a != "" && a[0] == b[0] && b[0] == c[0] {
      LeqTransitive(a[1..], b[1..], c[1..]);
    }
  }

  function Elements(s: seq<string>): set<string> {
    if s == [] then {} else {s[0]} + Elements(s[1..])
  }

  lemma {:induction false} ElementsAppend(s: seq<string>, x: string)
    ensures Elements(s + [x]) == Elements(s) + {x}
  {
    if s == [] {
      assert s + [x] == [x] && [x][1..] == [];
    } else {
      ElementsAppend(s[1..], x);
      assert (s + [x])[1..] == s[1..] + [x];
    }
  }

  predicate NoRepeats(s: seq<string>) {
    s == [] || (s[0] !in Elements(s[1..]) && NoRepeats(s[1..]))
  }

  lemma {:induction false} NoRepeatsAppend(s: seq<string>, x: string)
    requires NoRepeats(s) && x !in Elements(s)
    ensures NoRepeats(s + [x])
  {
    if s == [] {
      assert s + [x] == [x] && [x][1..] == [];
    } else {
      NoRepeatsAppend(s[1..], x);
      ElementsAppend(s[1..], x);
      assert (s + [x])[1..] == s[1..] + [x];
    }
  }

  /** Ascending, without repeats. */
  ghost predicate Ascending(s: seq<string>) {
    s == [] || (Ascending(s[1..]) && forall x <- Elements(s[1..]) :: Leq(s[0], x) && s[0] != x)
  }

  function Insert(x: string, s: seq<string>): (r: seq<string>)
    ensures Elements(r) == {x} + Elements(s)
  {
    if s == [] then assert [x][1..] == []; [x]
    else if Leq(x, s[0]) then assert ([x] + s)[1..] == s; [x] + s
    else
      var r := [s[0]] + Insert(x, s[1..]);
      assert r[1..] == Insert(x, s[1..]);
      r
  }

  function Sort(s: seq<string>): (r: seq<string>)
    ensures Elements(r) == Elements(s)
  {
    if s == [] then [] else Insert(s[0], Sort(s[1..]))
  }

  lemma {:induction false} InsertAscending(x: string, s: seq<string>)
    requires Ascending(s) && x !in Elements(s)
    ensures Ascending(Insert(x, s))
  {
    if s == [] {
      assert [x][1..] == [];
    } else if Leq(x, s[0]) {
      assert ([x] + s)[1..] == s;
      forall y <- Elements(s) ensures Leq(x, y) && x != y {
        if y != s[0] {
          LeqTransitive(x, s[0], y);
        }
      }
    } else {
      InsertAscending(x, s[1..]);
      LeqTotal(x, s[0]);
      assert ([s[0]] + Insert(x, s[1..]))[1..] == Insert(x, s[1..]);
    }
  }

  /** Sorting distinct texts gives the same texts in strictly ascending order. */
  lemma {:induction false} SortAscending(s: seq<string>)
    requires NoRepeats(s)
    ensures Ascending(Sort(s)) && Elements(Sort(s)) == Elements(s)
  {
    if s != [] {
      SortAscending(s[1..]);
      InsertAscending(s[0], Sort(s[1..]));
    }
  }

  /** A set of texts has one ascending listing: the order in which a map was walked leaves no trace. */
  lemma {:induction false} AscendingUnique(a: seq<string>, b: seq<string>)
    requires Ascending(a) && Ascending(b) && Elements(a) == Elements(b)
    ensures a == b
  {
    if a == [] {
      assert Elements(b) == {};
    } else {
      assert a[0] in Elements(a);
      assert b != [];
      assert b[0] in Elements(b);
      LeqTotal(a[0], b[0]);
      assert a[0] == b[0];
      assert Elements(a[1..]) == Elements(a) - {a[0]};
      assert Elements(b[1..]) == Elements(b) - {b[0]};
      AscendingUnique(a[1..], b[1..]);
      assert a == [a[0]] + a[1..] && b == [b[0]] + b[1..];
    }
  }
}
