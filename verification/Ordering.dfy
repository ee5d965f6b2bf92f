/** Index order of the queue's bounded scans: by time, then by id. */
module Ordering {
  /** An index entry. Ids are 32 lowercase hex digits, read as a number: same order. */
  datatype Key = Key(at: int, id: nat)

  predicate Before(a: Key, b: Key) {
    a.at < b.at || (a.at == b.at && a.id < b.id)
  }

  predicate Least(k: Key, keys: set<Key>) {
    k in keys && forall x :: x in keys && x != k ==> Before(k, x)
  }

  lemma {:induction false} LeastExists(keys: set<Key>)
    requires keys != {}
    ensures exists k :: Least(k, keys)
  {
    var k :| k in keys;
    var others := keys - {k};
    assert forall x :: x in keys <==> x == k || x in others;
    if others == {} {
      assert Least(k, keys);
    } else {
      LeastExists(others);
      var m :| Least(m, others);
      if Before(k, m) {
        assert Least(k, keys);
      } else {
        assert Least(m, keys);
      }
    }
  }

  /** `ORDER BY at, id` over a set of index entries. */
  function Sorted(keys: set<Key>): (r: seq<Key>)
    ensures |r| == |keys|
    ensures forall k :: k in keys <==> k in r
    ensures forall i, j :: 0 <= i < j < |r| ==> Before(r[i], r[j])
  {
    if keys == {} then []
    else
      LeastExists(keys);
      var k :| Least(k, keys);
      var rest := Sorted(keys - {k});
      [k] + rest
  }

  /** ... `LIMIT n`. */
  function First(keys: set<Key>, n: nat): (r: seq<Key>)
    ensures |r| == if |keys| < n then |keys| else n
    ensures forall k :: k in r ==> k in keys
    ensures forall i, j :: 0 <= i < j < |r| ==> Before(r[i], r[j])
    ensures forall k, i :: k in keys && k !in r && 0 <= i < |r| ==> Before(r[i], k)
    ensures |r| < n ==> forall k :: k in keys ==> k in r
  {
    var all := Sorted(keys);
    if |all| <= n then all else all[..n]
  }

  function Ids(keys: seq<Key>): (r: set<nat>)
    ensures forall id :: id in r <==> exists i :: 0 <= i < |keys| && keys[i].id == id
  {
    set i | 0 <= i < |keys| :: keys[i].id
  }

  lemma {:induction false} IdsCount(rows: seq<Key>)
    requires forall i, j :: 0 <= i < j < |rows| ==> rows[i].id != rows[j].id
    ensures |Ids(rows)| == |rows|
  {
    if rows != [] {
      var n := |rows| - 1;
      IdsCount(rows[..n]);
      assert Ids(rows) == Ids(rows[..n]) + {rows[n].id};
    }
  }

  // ---- Byte-wise order of texts: the walk order of a BTreeSet<String> ----

  predicate Below(a: string, b: string) {
    b != "" && (a == "" || a[0] < b[0] || (a[0] == b[0] && Below(a[1..], b[1..])))
  }

  lemma {:induction false} BelowIsTotal(a: string, b: string)
    ensures (Below(a, b) && !Below(b, a) && a != b) || (Below(b, a) && !Below(a, b) && a != b)
            || (a == b && !Below(a, b))
  {
    if a != "" && b != "" {
      BelowIsTotal(a[1..], b[1..]);
      assert a == [a[0]] + a[1..] && b == [b[0]] + b[1..];
    }
  }

  lemma {:induction false} BelowIsTransitive(a: string, b: string, c: string)
    requires Below(a, b) && Below(b, c)
    ensures Below(a, c)
  {
    if a != "" && a[0] == b[0] == c[0] {
      BelowIsTransitive(a[1..], b[1..], c[1..]);
    }
  }

  predicate Lowest(t: string, texts: set<string>) {
    t in texts && forall x :: x in texts && x != t ==> Below(t, x)
  }

  lemma {:induction false} LowestExists(texts: set<string>)
    requires texts != {}
    ensures exists t :: Lowest(t, texts)
  {
    var t :| t in texts;
    var others := texts - {t};
    assert forall x :: x in texts <==> x == t || x in others;
    if others == {} {
      assert Lowest(t, texts);
    } else {
      LowestExists(others);
      var m :| Lowest(m, others);
      BelowIsTotal(t, m);
      if Below(t, m) {
        forall x | x in others && x != m ensures Below(t, x) {
          BelowIsTransitive(t, m, x);
        }
        assert Lowest(t, texts);
      } else {
        assert Lowest(m, texts);
      }
    }
  }

  function InOrder(texts: set<string>): (r: seq<string>)
    ensures |r| == |texts|
    ensures forall t :: t in texts <==> t in r
    ensures forall i, j :: 0 <= i < j < |r| ==> r[i] != r[j]
  {
    if texts == {} then []
    else
      LowestExists(texts);
      assert forall a, b :: Lowest(a, texts) && Lowest(b, texts) ==> a == b by {
        forall a, b ensures (Below(a, b) && !Below(b, a)) || (Below(b, a) && !Below(a, b)) || a == b {
          BelowIsTotal(a, b);
        }
      }
      var t :| Lowest(t, texts);
      [t] + InOrder(texts - {t})
  }
}
