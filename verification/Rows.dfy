/** ORDER BY (rank, id) over a finite set of rows. */
module Rows {
  import opened Types

  datatype RowKey = RowKey(rank: int, id: Uuid)

  predicate Before(a: RowKey, b: RowKey) {
    a.rank < b.rank || (a.rank == b.rank && a.id < b.id)
  }

  predicate IsLeast(m: RowKey, keys: set<RowKey>) {
    m in keys && forall k | k in keys && k != m :: Before(m, k)
  }

  lemma {:induction false} LeastExists(keys: set<RowKey>)
    requires keys != {}
    ensures exists m :: IsLeast(m, keys)
    decreases |keys|
  {
    var k :| k in keys;
    if keys == {k} {
      assert IsLeast(k, keys);
    } else {
      var rest := keys - {k};
      assert keys == rest + {k};
      LeastExists(rest);
      var m :| IsLeast(m, rest);
      assert IsLeast(if Before(m, k) then m else k, keys);
    }
  }

  function Least(keys: set<RowKey>): (m: RowKey)
    requires keys != {}
    ensures m in keys
  {
    LeastExists(keys);
    var m :| IsLeast(m, keys);
    m
  }

  predicate Ascending(rows: seq<RowKey>) {
    forall i, j | 0 <= i < j < |rows| :: Before(rows[i], rows[j])
  }

  function OrderBy(keys: set<RowKey>): seq<RowKey>
    decreases |keys|
  {
    if keys == {} then []
    else
      var m := Least(keys);
      [m] + OrderBy(keys - {m})
  }

  /** The rows in ascending order, each exactly once. */
  lemma {:induction false} OrderByRows(keys: set<RowKey>)
    ensures var rows := OrderBy(keys);
            && |rows| == |keys|
            && (forall k :: k in rows <==> k in keys)
            && Ascending(rows)
    decreases |keys|
  {
    if keys != {} {
      var m := Least(keys);
      LeastExists(keys);
      assert IsLeast(m, keys);
      OrderByRows(keys - {m});
    }
  }

  /** The order is total: no other arrangement of the same rows is ascending. */
  lemma {:induction false} OnlyOneOrder(a: seq<RowKey>, b: seq<RowKey>)
    requires Ascending(a) && Ascending(b)
    requires |a| == |b| && forall k :: k in a <==> k in b
    ensures a == b
    decreases |a|
  {
    if a != [] {
      assert a[0] in b;
      assert b[0] in a;
      assert a[0] == b[0];
      forall k ensures k in a[1..] <==> k in b[1..] {
        if k in a[1..] { assert k in a && k != a[0]; assert k in b; }
        if k in b[1..] { assert k in b && k != b[0]; assert k in a; }
      }
      OnlyOneOrder(a[1..], b[1..]);
      assert a == [a[0]] + a[1..] && b == [b[0]] + b[1..];
    }
  }

  function Ids(rows: seq<RowKey>): seq<Uuid> {
    seq(|rows|, i requires 0 <= i < |rows| => rows[i].id)
  }

  /** What a LIMIT keeps comes before what it leaves. */
  lemma LimitKeepsFirst(rows: seq<RowKey>, n: nat, kept: Uuid, left: Uuid) returns (i: nat, j: nat)
    requires Ascending(rows) && n <= |rows|
    requires kept in Ids(rows)[..n] && left in Ids(rows) && left !in Ids(rows)[..n]
    ensures i < n <= j < |rows| && rows[i].id == kept && rows[j].id == left && Before(rows[i], rows[j])
  {
    var ids := Ids(rows);
    i :| 0 <= i < n && ids[..n][i] == kept;
    assert ids == ids[..n] + ids[n..];
    var m :| 0 <= m < |ids[n..]| && ids[n..][m] == left;
    j := n + m;
  }
}
