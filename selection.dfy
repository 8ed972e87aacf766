/** The list of seats picked on a venue map, shared by both seat-selection
    panels. A pick is identified by (sector, row, seat); the price travels with
    it but is not part of its identity. The row is a string in the panel that
    creates orders and a number in the client-only panel, hence the type
    parameter `R`. */
module Selection {

  datatype Pick<R> = Pick(sector: string, row: R, seat: int, price: int)

  datatype Key<R> = Key(sector: string, row: R, seat: int)

  function KeyOf<R>(p: Pick<R>): Key<R> {
    Key(p.sector, p.row, p.seat)
  }

  /** `selectedSeats.some(s => same sector, row and seat)`: some pick of the
      list has that sector, row and seat, whatever its price. */
  predicate HasKey<R(==)>(s: seq<Pick<R>>, k: Key<R>)
    ensures HasKey(s, k) <==> exists p :: p in s && p.sector == k.sector && p.row == k.row && p.seat == k.seat
  {
    exists i :: 0 <= i < |s| && KeyOf(s[i]) == k
  }

  /** No two picks share a (sector, row, seat). */
  ghost predicate NoDupKeys<R>(s: seq<Pick<R>>) {
    forall i, j :: 0 <= i < j < |s| ==> KeyOf(s[i]) != KeyOf(s[j])
  }

  /** `selectedSeats.filter(s => !(same sector, row and seat))`: every pick
      with key `k` is dropped, every other pick is kept in order. */
  function Without<R(==)>(s: seq<Pick<R>>, k: Key<R>): (r: seq<Pick<R>>)
    ensures |r| <= |s|
    ensures !HasKey(r, k)
    ensures forall p :: p in r ==> p in s
    ensures forall i :: 0 <= i < |s| && KeyOf(s[i]) != k ==> s[i] in r
  {
    if s == [] then []
    else if KeyOf(s[0]) == k then Without(s[1..], k)
    else [s[0]] + Without(s[1..], k)
  }

  /** `selectedSeats.reduce((acc, s) => acc + s.price, 0)`: the sum of the
      prices (on integers the order of the additions does not matter). */
  function Total<R>(s: seq<Pick<R>>): (r: int)
    ensures s == [] ==> r == 0
  {
    if s == [] then 0 else s[0].price + Total(s[1..])
  }

  /** With non-negative prices the total is never negative and is at least
      the price of every single pick; a single pick costs its own price. */
  lemma {:induction false} TotalBounds<R>(s: seq<Pick<R>>)
    requires forall i :: 0 <= i < |s| ==> s[i].price >= 0
    ensures Total(s) >= 0
    ensures forall i :: 0 <= i < |s| ==> Total(s) >= s[i].price
    ensures |s| == 1 ==> Total(s) == s[0].price
  {
    if s != [] {
      assert forall i :: 1 <= i < |s| ==> s[1..][i - 1] == s[i];
      TotalBounds(s[1..]);
    }
  }

  /** Filtering out a key the list holds makes it strictly shorter. */
  lemma {:induction false} WithoutShrinks<R>(s: seq<Pick<R>>, k: Key<R>)
    requires HasKey(s, k)
    ensures |Without(s, k)| < |s|
  {
    if KeyOf(s[0]) != k {
      var j :| 0 <= j < |s| && KeyOf(s[j]) == k;
      assert s[1..][j - 1] == s[j];
      WithoutShrinks(s[1..], k);
    }
  }

  lemma {:induction false} WithoutAbsent<R>(s: seq<Pick<R>>, k: Key<R>)
    requires !HasKey(s, k)
    ensures Without(s, k) == s
  {
    if s != [] {
      assert KeyOf(s[0]) != k;
      assert !HasKey(s[1..], k) by {
        forall i | 0 <= i < |s[1..]| ensures KeyOf(s[1..][i]) != k {
          assert s[1..][i] == s[i + 1];
        }
      }
      WithoutAbsent(s[1..], k);
    }
  }

  /** Appending a pick with a new key and filtering that key out again gives
      back the list. */
  lemma {:induction false} WithoutAppendAbsent<R>(s: seq<Pick<R>>, p: Pick<R>)
    requires !HasKey(s, KeyOf(p))
    ensures Without(s + [p], KeyOf(p)) == s
  {
    if s == [] {
      assert [p][1..] == [];
    } else {
      assert (s + [p])[1..] == s[1..] + [p];
      assert !HasKey(s[1..], KeyOf(p)) by {
        forall j | 0 <= j < |s[1..]| ensures KeyOf(s[1..][j]) != KeyOf(p) {
          assert s[1..][j] == s[j + 1];
        }
      }
      WithoutAppendAbsent(s[1..], p);
      assert KeyOf(s[0]) != KeyOf(p);
      assert [s[0]] + s[1..] == s;
    }
  }

  /** Deselecting a pick of a duplicate-free list removes exactly that pick
      and keeps the others in their order. */
  lemma {:induction false} WithoutRemovesOne<R>(s: seq<Pick<R>>, i: nat)
    requires NoDupKeys(s) && i < |s|
    ensures Without(s, KeyOf(s[i])) == s[..i] + s[i + 1..]
  {
    var k := KeyOf(s[i]);
    if i == 0 {
      assert !HasKey(s[1..], k) by {
        forall j | 0 <= j < |s[1..]| ensures KeyOf(s[1..][j]) != k {
          assert s[1..][j] == s[j + 1];
        }
      }
      WithoutAbsent(s[1..], k);
    } else {
      assert KeyOf(s[0]) != k;
      assert NoDupKeys(s[1..]) by {
        forall a, b | 0 <= a < b < |s[1..]| ensures KeyOf(s[1..][a]) != KeyOf(s[1..][b]) {
          assert s[1..][a] == s[a + 1] && s[1..][b] == s[b + 1];
        }
      }
      assert s[1..][i - 1] == s[i];
      WithoutRemovesOne(s[1..], i - 1);
      assert s[1..][..i - 1] + s[1..][i..] == s[1..i] + s[i + 1..];
      assert [s[0]] + s[1..i] == s[..i];
    }
  }

  /** Filtering keeps a duplicate-free list duplicate-free. */
  lemma {:induction false} WithoutKeepsNoDupKeys<R>(s: seq<Pick<R>>, k: Key<R>)
    requires NoDupKeys(s)
    ensures NoDupKeys(Without(s, k))
  {
    if s != [] {
      assert NoDupKeys(s[1..]) by {
        forall a, b | 0 <= a < b < |s[1..]| ensures KeyOf(s[1..][a]) != KeyOf(s[1..][b]) {
          assert s[1..][a] == s[a + 1] && s[1..][b] == s[b + 1];
        }
      }
      WithoutKeepsNoDupKeys(s[1..], k);
      if KeyOf(s[0]) != k {
        var rest := Without(s[1..], k);
        assert !HasKey(rest, KeyOf(s[0])) by {
          forall j | 0 <= j < |rest| ensures KeyOf(rest[j]) != KeyOf(s[0]) {
            assert rest[j] in s[1..];
            var m :| 0 <= m < |s[1..]| && s[1..][m] == rest[j];
            assert s[1..][m] == s[m + 1];
          }
        }
        var r := [s[0]] + rest;
        forall a, b | 0 <= a < b < |r| ensures KeyOf(r[a]) != KeyOf(r[b]) {
          if a == 0 {
            assert r[b] == rest[b - 1];
          } else {
            assert r[a] == rest[a - 1] && r[b] == rest[b - 1];
          }
        }
      }
    }
  }

  /** Appending a pick whose key is absent keeps the list duplicate-free. */
  lemma AppendKeepsNoDupKeys<R>(s: seq<Pick<R>>, p: Pick<R>)
    requires NoDupKeys(s) && !HasKey(s, KeyOf(p))
    ensures NoDupKeys(s + [p])
  {
    var r := s + [p];
    forall a, b | 0 <= a < b < |r| ensures KeyOf(r[a]) != KeyOf(r[b]) {
      if b == |s| {
        assert r[a] == s[a];
      } else {
        assert r[a] == s[a] && r[b] == s[b];
      }
    }
  }

  lemma {:induction false} TotalConcat<R>(a: seq<Pick<R>>, b: seq<Pick<R>>)
    ensures Total(a + b) == Total(a) + Total(b)
  {
    if a == [] {
      assert a + b == b;
    } else {
      assert (a + b)[1..] == a[1..] + b;
      TotalConcat(a[1..], b);
    }
  }

  /** Removing the pick at `i` lowers the total by exactly its price. */
  lemma TotalWithout<R>(s: seq<Pick<R>>, i: nat)
    requires i < |s|
    ensures Total(s[..i] + s[i + 1..]) == Total(s) - s[i].price
  {
    var left, right := s[..i], s[i + 1..];
    assert s[i..] == [s[i]] + right;
    assert s == left + s[i..];
    TotalConcat(left, s[i..]);
    TotalCons(s[i], right);
    TotalConcat(left, right);
  }

  /** A pick in front adds its price to the total. */
  lemma TotalCons<R>(p: Pick<R>, s: seq<Pick<R>>)
    ensures Total([p] + s) == p.price + Total(s)
  {
    assert ([p] + s)[1..] == s;
  }

  /** Appending a pick raises the total by exactly its price. */
  lemma TotalAppend<R>(s: seq<Pick<R>>, p: Pick<R>)
    ensures Total(s + [p]) == Total(s) + p.price
  {
    TotalConcat(s, [p]);
    assert [p][1..] == [];
  }
}
