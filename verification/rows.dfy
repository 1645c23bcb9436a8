/**
 * Rows keyed by price, and sorting them. The overlays sort their strike rows
 * and the state source's contract rows with `sort((a, b) => a[0] - b[0])`;
 * the model states only what that promises: an ascending permutation.
 */
module Rows {

  /** A row of a payload: its price (element 0) and the value read from it. */
  datatype Row<V> = Row(price: real, value: V)

  /** Non-decreasing price order. */
  ghost predicate Ascending<V>(s: seq<Row<V>>) {
    forall i, j :: 0 <= i < j < |s| ==> s[i].price <= s[j].price
  }

  /** Places `x` before the first row of `s` whose price is not smaller. */
  function Insert<V>(x: Row<V>, s: seq<Row<V>>): seq<Row<V>> {
    if s == [] || x.price <= s[0].price then [x] + s
    else [s[0]] + Insert(x, s[1..])
  }

  /** Insertion sort by price. */
  function SortByPrice<V>(s: seq<Row<V>>): seq<Row<V>> {
    if s == [] then [] else Insert(s[0], SortByPrice(s[1..]))
  }

  /** Inserting adds exactly `x`. */
  lemma {:induction false} InsertPermutes<V>(x: Row<V>, s: seq<Row<V>>)
    ensures multiset(Insert(x, s)) == multiset(s) + multiset{x}
  {
    if s != [] && x.price > s[0].price {
      assert s == [s[0]] + s[1..];
      InsertPermutes(x, s[1..]);
    }
  }

  /** Inserting adds one row, and the first row is `x` or the former first row. */
  lemma {:induction false} InsertHead<V>(x: Row<V>, s: seq<Row<V>>)
    ensures |Insert(x, s)| == |s| + 1
    ensures Insert(x, s)[0] == x || (s != [] && Insert(x, s)[0] == s[0])
  {
    if s != [] && x.price > s[0].price {
      InsertHead(x, s[1..]);
    }
  }

  /** Inserting into an ascending sequence keeps it ascending. */
  lemma {:induction false} InsertAscending<V>(x: Row<V>, s: seq<Row<V>>)
    requires Ascending(s)
    ensures Ascending(Insert(x, s))
  {
    if s != [] && x.price > s[0].price {
      var tail := Insert(x, s[1..]);
      assert Ascending(s[1..]) by {
        forall i, j | 0 <= i < j < |s[1..]| ensures s[1..][i].price <= s[1..][j].price {
          assert s[1..][i] == s[i + 1] && s[1..][j] == s[j + 1];
        }
      }
      InsertAscending(x, s[1..]);
      InsertHead(x, s[1..]);
      assert s[0].price <= tail[0].price;
      var r := [s[0]] + tail;
      assert Insert(x, s) == r;
      forall i, j | 0 <= i < j < |r| ensures r[i].price <= r[j].price {
        assert r[j] == tail[j - 1];
        assert tail[0].price <= tail[j - 1].price;
        if i > 0 { assert r[i] == tail[i - 1]; }
      }
    }
  }

  /** The sorted sequence is an ascending permutation of the input. */
  lemma {:induction false} SortByPriceCorrect<V>(s: seq<Row<V>>)
    ensures multiset(SortByPrice(s)) == multiset(s)
    ensures Ascending(SortByPrice(s))
  {
    if s != [] {
      assert s == [s[0]] + s[1..];
      SortByPriceCorrect(s[1..]);
      InsertPermutes(s[0], SortByPrice(s[1..]));
      InsertAscending(s[0], SortByPrice(s[1..]));
    }
  }

  /** Sorting neither loses nor invents rows. */
  lemma SortByPriceMembers<V>(s: seq<Row<V>>)
    ensures Ascending(SortByPrice(s))
    ensures |SortByPrice(s)| == |s|
    ensures forall x :: x in SortByPrice(s) <==> x in s
  {
    SortByPriceCorrect(s);
    var r := SortByPrice(s);
    assert |r| == |multiset(r)| == |multiset(s)| == |s|;
    forall x ensures x in r <==> x in s {
      assert x in r <==> x in multiset(r);
      assert x in s <==> x in multiset(s);
    }
  }
}
