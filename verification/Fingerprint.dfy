/** The canonical text of a create request. SHA-256 is taken to be injective, so a request's
    fingerprint is identified with the text it hashes. */
module Fingerprint {
  import opened Types

  const HEX := "0123456789abcdef"

  /** The low `width` hexadecimal digits of `n`. */
  function Hex(n: nat, width: nat): (s: string)
    ensures |s| == width
  {
    if width == 0 then "" else Hex(n / 16, width - 1) + [HEX[n % 16]]
  }

  /** The text form of section 4 of RFC 9562. */
  function UuidText(u: Uuid): (s: string)
    ensures |s| == 36
  {
    Dashed(Hex(u, 32))
  }

  function Dashed(h: string): (s: string)
    requires |h| == 32
    ensures |s| == 36
  {
    h[..8] + "-" + h[8..12] + "-" + h[12..16] + "-" + h[16..20] + "-" + h[20..]
  }

  function Decimal(n: nat): (s: string)
    ensures |s| >= 1
  {
    if n < 10 then [HEX[n]] else Decimal(n / 10) + [HEX[n % 10]]
  }

  function QuantityText(q: int): string {
    if q < 0 then "-" + Decimal(-q) else Decimal(q)
  }

  function Entry(item: Item): string {
    UuidText(item.product) + ":" + UuidText(item.provider) + ":" + QuantityText(item.quantity)
  }

  function Join(items: seq<Item>): string
    decreases |items|, 1
  {
    if items == [] then "" else Entry(items[0]) + Rest(items)
  }

  /** The text after the first entry. */
  function Rest(items: seq<Item>): string
    requires items != []
    decreases |items|, 0
  {
    if |items| == 1 then "" else "|" + Join(items[1..])
  }

  /** The sort key (product, provider) does not look at quantities. */
  predicate KeyAtMost(a: Item, b: Item) {
    a.product < b.product || (a.product == b.product && a.provider <= b.provider)
  }

  function Insert(item: Item, sorted: seq<Item>): (r: seq<Item>)
    ensures multiset(r) == multiset{item} + multiset(sorted)
  {
    if sorted == [] || KeyAtMost(item, sorted[0]) then [item] + sorted
    else
      assert sorted == [sorted[0]] + sorted[1..];
      [sorted[0]] + Insert(item, sorted[1..])
  }

  function Sort(items: seq<Item>): (r: seq<Item>)
    ensures multiset(r) == multiset(items)
  {
    if items == [] then []
    else
      assert items == [items[0]] + items[1..];
      Insert(items[0], Sort(items[1..]))
  }

  function Canonical(items: seq<Item>): string {
    Join(Sort(items))
  }

  // ----- Equal texts come from equal items -----

  function Pow16(n: nat): (p: nat)
    ensures p >= 1
  {
    if n == 0 then 1 else 16 * Pow16(n - 1)
  }

  lemma UuidFits(u: Uuid)
    ensures u < Pow16(32)
  {
    assert Pow16(8) == 0x1_0000_0000;
    assert Pow16(16) == 0x1_0000_0000_0000_0000;
    assert Pow16(24) == 0x1_0000_0000_0000_0000_0000_0000;
    assert Pow16(32) == 0x1_0000_0000_0000_0000_0000_0000_0000_0000;
  }

  lemma {:induction false} HexInjective(a: nat, b: nat, width: nat)
    requires a < Pow16(width) && b < Pow16(width)
    requires Hex(a, width) == Hex(b, width)
    ensures a == b
  {
    if width > 0 {
      var x, y := Hex(a / 16, width - 1), Hex(b / 16, width - 1);
      assert (x + [HEX[a % 16]])[..width - 1] == x && (y + [HEX[b % 16]])[..width - 1] == y;
      assert HEX[a % 16] == (x + [HEX[a % 16]])[width - 1] == HEX[b % 16];
      HexInjective(a / 16, b / 16, width - 1);
    }
  }

  lemma DashedKeepsDigits(h: string)
    requires |h| == 32
    ensures var s := Dashed(h); h == s[..8] + s[9..13] + s[14..18] + s[19..23] + s[24..]
  {
    var s := Dashed(h);
    assert s[..8] == h[..8];
    assert s[9..13] == h[8..12];
    assert s[14..18] == h[12..16];
    assert s[19..23] == h[16..20];
    assert s[24..] == h[20..];
  }

  lemma UuidTextInjective(a: Uuid, b: Uuid)
    requires UuidText(a) == UuidText(b)
    ensures a == b
  {
    DashedKeepsDigits(Hex(a, 32));
    DashedKeepsDigits(Hex(b, 32));
    UuidFits(a);
    UuidFits(b);
    HexInjective(a, b, 32);
  }

  lemma DigitsDiffer(i: nat, j: nat)
    requires i < 10 && j < 10 && HEX[i] == HEX[j]
    ensures i == j
  {
  }

  lemma DecimalShape(n: nat)
    ensures var s := Decimal(n);
            && s[|s| - 1] == HEX[n % 10]
            && s[..|s| - 1] == if n < 10 then "" else Decimal(n / 10)
  {
  }

  lemma {:induction false} DecimalInjective(a: nat, b: nat)
    requires Decimal(a) == Decimal(b)
    ensures a == b
  {
    DecimalShape(a);
    DecimalShape(b);
    DigitsDiffer(a % 10, b % 10);
    if a >= 10 && b >= 10 { DecimalInjective(a / 10, b / 10); }
  }

  lemma {:induction false} DecimalChars(n: nat)
    ensures forall c | c in Decimal(n) :: c != '|' && c != '-'
  {
    if n >= 10 { DecimalChars(n / 10); }
  }

  lemma QuantityTextInjective(a: int, b: int)
    requires QuantityText(a) == QuantityText(b)
    ensures a == b
  {
    var x, y := if a < 0 then -a else a, if b < 0 then -b else b;
    DecimalChars(x);
    DecimalChars(y);
    assert QuantityText(a)[0] == QuantityText(b)[0];
    assert Decimal(x)[0] in Decimal(x) && Decimal(y)[0] in Decimal(y);
    if a < 0 {
      assert QuantityText(a)[1..] == Decimal(x) && QuantityText(b)[1..] == Decimal(y);
    }
    DecimalInjective(x, y);
  }

  /** A separator that a field cannot contain ends the field unambiguously. */
  lemma FieldEndsAtSeparator(a: string, b: string, s: string, t: string)
    requires '|' !in a && '|' !in b
    requires s == "" || s[0] == '|'
    requires t == "" || t[0] == '|'
    requires a + s == b + t
    ensures a == b && s == t
  {
    var x := a + s;
    assert x == b + t;
    assert forall i | 0 <= i < |a| :: x[i] == a[i] && x[i] != '|';
    assert forall i | 0 <= i < |b| :: x[i] == b[i] && x[i] != '|';
    assert |a| < |x| ==> x[|a|] == '|';
    assert |b| < |x| ==> x[|b|] == '|';
    assert a == x[..|a|] && b == x[..|b|];
    assert s == x[|a|..] && t == x[|b|..];
  }

  /** Two fixed-width fields and a variable one are read back from their concatenation. */
  lemma FieldsFromText(a: string, b: string, q: string, s: string, c: string, d: string, r: string, t: string)
    requires |a| == |b| == |c| == |d| == 36
    requires (a + ":" + b + ":" + q) + s == (c + ":" + d + ":" + r) + t
    ensures a == c && b == d && q + s == r + t
  {
    var x, y := (a + ":" + b + ":" + q) + s, (c + ":" + d + ":" + r) + t;
    assert a == x[..36] && c == y[..36];
    assert b == x[37..73] && d == y[37..73];
    assert q + s == x[74..] && r + t == y[74..];
  }

  lemma EntryThenRest(a: Item, b: Item, s: string, t: string)
    requires s == "" || s[0] == '|'
    requires t == "" || t[0] == '|'
    requires Entry(a) + s == Entry(b) + t
    ensures a == b && s == t
  {
    var p, q := QuantityText(a.quantity), QuantityText(b.quantity);
    FieldsFromText(UuidText(a.product), UuidText(a.provider), p, s, UuidText(b.product), UuidText(b.provider), q, t);
    UuidTextInjective(a.product, b.product);
    UuidTextInjective(a.provider, b.provider);
    QuantityHasNoSeparator(a.quantity);
    QuantityHasNoSeparator(b.quantity);
    FieldEndsAtSeparator(p, q, s, t);
    QuantityTextInjective(a.quantity, b.quantity);
  }

  lemma QuantityHasNoSeparator(q: int)
    ensures '|' !in QuantityText(q)
  {
    DecimalChars(if q < 0 then -q else q);
  }

  lemma EntryNotEmpty(item: Item)
    ensures Entry(item) != ""
  {
  }

  lemma {:induction false} JoinInjective(a: seq<Item>, b: seq<Item>)
    requires Join(a) == Join(b)
    ensures a == b
  {
    if a != [] { EntryNotEmpty(a[0]); }
    if b != [] { EntryNotEmpty(b[0]); }
    if a != [] && b != [] {
      EntryThenRest(a[0], b[0], Rest(a), Rest(b));
      if |a| > 1 {
        assert Rest(a)[1..] == Join(a[1..]) && Rest(b)[1..] == Join(b[1..]);
        JoinInjective(a[1..], b[1..]);
      }
      assert a == [a[0]] + a[1..] && b == [b[0]] + b[1..];
    }
  }

  // ----- Equal items give equal texts -----

  predicate Ordered(s: seq<Item>) {
    forall i, j | 0 <= i < j < |s| :: KeyAtMost(s[i], s[j])
  }

  /** No two different items claim the same offer; items with distinct products always satisfy this. */
  predicate OneItemPerOffer(s: seq<Item>) {
    forall a, b | a in s && b in s && a.product == b.product && a.provider == b.provider :: a == b
  }

  lemma {:induction false} InsertOrdered(item: Item, s: seq<Item>)
    requires Ordered(s)
    ensures Ordered(Insert(item, s))
  {
    if s != [] && !KeyAtMost(item, s[0]) {
      InsertOrdered(item, s[1..]);
      var r := Insert(item, s[1..]);
      forall j | 0 <= j < |r| ensures KeyAtMost(s[0], r[j]) {
        assert r[j] in multiset(r);
        if r[j] != item { assert r[j] in s[1..]; }
      }
    }
  }

  lemma {:induction false} SortOrdered(items: seq<Item>)
    ensures Ordered(Sort(items))
  {
    if items != [] {
      SortOrdered(items[1..]);
      InsertOrdered(items[0], Sort(items[1..]));
    }
  }

  lemma SameHead(a: seq<Item>, b: seq<Item>)
    requires Ordered(a) && Ordered(b) && OneItemPerOffer(a)
    requires a != [] && b != [] && multiset(a) == multiset(b)
    ensures a[0] == b[0]
  {
    assert a[0] in multiset(b) && b[0] in multiset(a);
    var i :| 0 <= i < |b| && b[i] == a[0];
    var j :| 0 <= j < |a| && a[j] == b[0];
    assert KeyAtMost(b[0], b[i]) && KeyAtMost(a[0], a[j]);
  }

  lemma {:induction false} OrderedIsUnique(a: seq<Item>, b: seq<Item>)
    requires Ordered(a) && Ordered(b) && OneItemPerOffer(a)
    requires multiset(a) == multiset(b)
    ensures a == b
  {
    assert |a| == |multiset(a)| == |multiset(b)| == |b|;
    if a != [] {
      SameHead(a, b);
      assert a == [a[0]] + a[1..] && b == [b[0]] + b[1..];
      assert multiset(a[1..]) == multiset(a) - multiset{a[0]} == multiset(b[1..]);
      assert OneItemPerOffer(a[1..]) by {
        assert forall x | x in a[1..] :: x in a;
      }
      OrderedIsUnique(a[1..], b[1..]);
    }
  }

  /** Two requests have the same canonical text exactly when they ask for the same items, in whatever order. */
  lemma CanonicalForm(a: seq<Item>, b: seq<Item>)
    requires OneItemPerOffer(a)
    ensures Canonical(a) == Canonical(b) <==> multiset(a) == multiset(b)
  {
    if Canonical(a) == Canonical(b) {
      JoinInjective(Sort(a), Sort(b));
    }
    if multiset(a) == multiset(b) {
      SortOrdered(a);
      SortOrdered(b);
      forall x, y | x in Sort(a) && y in Sort(a) && x.product == y.product && x.provider == y.provider ensures x == y {
        assert x in multiset(Sort(a)) && y in multiset(Sort(a));
        assert x in a && y in a;
      }
      OrderedIsUnique(Sort(a), Sort(b));
    }
  }

  predicate DistinctProducts(items: seq<Item>) {
    forall i, j | 0 <= i < j < |items| :: items[i].product != items[j].product
  }

  lemma DistinctProductsSuffice(items: seq<Item>)
    requires DistinctProducts(items)
    ensures OneItemPerOffer(items)
  {
  }

  lemma {:induction false} SortKeepsOrdered(s: seq<Item>)
    requires Ordered(s)
    ensures Sort(s) == s
  {
    if s != [] {
      SortKeepsOrdered(s[1..]);
      assert s == [s[0]] + s[1..];
    }
  }

  function Swap(s: seq<Item>, i: nat, j: nat): seq<Item>
    requires i < |s| && j < |s|
  {
    s[i := s[j]][j := s[i]]
  }

  /** Two items that differ only in their quantity may stand in either order in the sorted list. */
  lemma SwapKeepsOrder(s: seq<Item>, i: nat, j: nat)
    requires i < |s| && j < |s| && i != j && Ordered(s)
    requires s[i].product == s[j].product && s[i].provider == s[j].provider
    ensures multiset(Swap(s, i, j)) == multiset(s) && Ordered(Swap(s, i, j))
  {
    var b := Swap(s, i, j);
    forall m, n | 0 <= m < n < |b| ensures KeyAtMost(b[m], b[n]) {
      assert b[m].product == s[m].product && b[m].provider == s[m].provider;
      assert b[n].product == s[n].product && b[n].provider == s[n].provider;
    }
  }

  lemma OrderedTextsDiffer(t: seq<Item>, b: seq<Item>)
    requires Ordered(t) && Ordered(b) && t != b
    ensures Canonical(t) != Canonical(b)
  {
    SortKeepsOrdered(t);
    SortKeepsOrdered(b);
    hide Sort, Join;
    if Join(t) == Join(b) { JoinInjective(t, b); }
  }

  lemma SortTwice(a: seq<Item>)
    ensures |Sort(a)| == |a| && Ordered(Sort(a)) && Canonical(Sort(a)) == Canonical(a)
  {
    assert |multiset(Sort(a))| == |multiset(a)|;
    SortOrdered(a);
    SortKeepsOrdered(Sort(a));
  }

  lemma SwappedTextDiffers(a: seq<Item>, i: nat, j: nat)
    requires i < |Sort(a)| && j < |Sort(a)| && Sort(a)[i] != Sort(a)[j]
    requires Sort(a)[i].product == Sort(a)[j].product && Sort(a)[i].provider == Sort(a)[j].provider
    ensures multiset(Swap(Sort(a), i, j)) == multiset(a) && Canonical(Swap(Sort(a), i, j)) != Canonical(a)
  {
    hide Sort, Canonical, Ordered;
    SortTwice(a);
    SwapKeepsOrder(Sort(a), i, j);
    assert Swap(Sort(a), i, j)[i] != Sort(a)[i];
    OrderedTextsDiffer(Sort(a), Swap(Sort(a), i, j));
  }

  /** The text ignores the order of the items exactly when no offer is asked for in two quantities: the sort key
      does not look at quantities, so two such items are sorted as they were given. */
  lemma OrderInsensitiveIff(a: seq<Item>)
    ensures (forall b | multiset(b) == multiset(a) :: Canonical(b) == Canonical(a)) <==> OneItemPerOffer(a)
  {
    hide Sort, Canonical, Ordered;
    if OneItemPerOffer(a) {
      forall b | multiset(b) == multiset(a) ensures Canonical(b) == Canonical(a) { CanonicalForm(a, b); }
    } else {
      var x, y :| x in a && y in a && x.product == y.product && x.provider == y.provider && x != y;
      var t := Sort(a);
      assert x in multiset(t) && y in multiset(t);
      var i :| 0 <= i < |t| && t[i] == x;
      var j :| 0 <= j < |t| && t[j] == y;
      SwappedTextDiffers(a, i, j);
    }
  }
}
