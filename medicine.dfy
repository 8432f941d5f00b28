/**
 * A medicine document as the catalog stores it, and the order in which the
 * catalog sorts documents on one field.
 */
module Medicine {

  /** One document of the `Medicine` collection (the `_id` and timestamp fields are not modelled). */
  datatype Record = Record(
    medicineName: string,
    categoryName: string,
    slug: string,
    genericName: string,
    strength: string,
    manufacturerName: string,
    unit: string,
    unitSize: int,
    price: real)

  /**
   * The value a document holds under a field name, as the catalog compares it:
   * a missing field sorts before every number, and numbers before strings.
   */
  datatype SortKey = Missing | Number(n: real) | Text(s: string)

  function Key(r: Record, field: string): SortKey {
    match field
    case "medicine_name" => Text(r.medicineName)
    case "category_name" => Text(r.categoryName)
    case "slug" => Text(r.slug)
    case "generic_name" => Text(r.genericName)
    case "strength" => Text(r.strength)
    case "manufacturer_name" => Text(r.manufacturerName)
    case "unit" => Text(r.unit)
    case "unit_size" => Number(r.unitSize as real)
    case "price" => Number(r.price)
    case _ => Missing
  }

  /** Binary (code point by code point) string order. */
  predicate TextLe(a: string, b: string) {
    a == [] || (b != [] && (a[0] < b[0] || (a[0] == b[0] && TextLe(a[1..], b[1..]))))
  }

  lemma {:induction false} TextLeTotal(a: string, b: string)
    ensures TextLe(a, b) || TextLe(b, a)
  {
    if a != [] && b != [] && a[0] == b[0] {
      TextLeTotal(a[1..], b[1..]);
    }
  }

  lemma {:induction false} TextLeTransitive(a: string, b: string, c: string)
    requires TextLe(a, b) && TextLe(b, c)
    ensures TextLe(a, c)
  {
    if a != [] && b != [] && c != [] && a[0] == b[0] == c[0] {
      TextLeTransitive(a[1..], b[1..], c[1..]);
    }
  }

  function Rank(k: SortKey): nat {
    match k
    case Missing => 0
    case Number(_) => 1
    case Text(_) => 2
  }

  /** Ascending order on keys: by kind first, then by value. */
  predicate KeyLe(x: SortKey, y: SortKey) {
    if Rank(x) != Rank(y) then Rank(x) < Rank(y)
    else match (x, y)
      case (Number(a), Number(b)) => a <= b
      case (Text(a), Text(b)) => TextLe(a, b)
      case _ => true
  }

  lemma KeyLeTotal(x: SortKey, y: SortKey)
    ensures KeyLe(x, y) || KeyLe(y, x)
  {
    if x.Text? && y.Text? {
      TextLeTotal(x.s, y.s);
    }
  }

  lemma KeyLeTransitive(x: SortKey, y: SortKey, z: SortKey)
    requires KeyLe(x, y) && KeyLe(y, z)
    ensures KeyLe(x, z)
  {
    if x.Text? && y.Text? && z.Text? {
      TextLeTransitive(x.s, y.s, z.s);
    }
  }

  /** A one-key sort specification: the field and 1 (ascending) or -1 (descending). */
  datatype SortSpec = SortSpec(field: string, direction: int)

  /** `a` may come before `b` under `sort`. */
  predicate Precedes(sort: SortSpec, a: Record, b: Record) {
    if sort.direction == -1 then KeyLe(Key(b, sort.field), Key(a, sort.field))
    else KeyLe(Key(a, sort.field), Key(b, sort.field))
  }

  lemma PrecedesTotal(sort: SortSpec, a: Record, b: Record)
    ensures Precedes(sort, a, b) || Precedes(sort, b, a)
  {
    KeyLeTotal(Key(a, sort.field), Key(b, sort.field));
  }

  lemma PrecedesTransitive(sort: SortSpec, a: Record, b: Record, c: Record)
    requires Precedes(sort, a, b) && Precedes(sort, b, c)
    ensures Precedes(sort, a, c)
  {
    if sort.direction == -1 {
      KeyLeTransitive(Key(c, sort.field), Key(b, sort.field), Key(a, sort.field));
    } else {
      KeyLeTransitive(Key(a, sort.field), Key(b, sort.field), Key(c, sort.field));
    }
  }

  predicate SortedBy(sort: SortSpec, s: seq<Record>) {
    forall i, j :: 0 <= i < j < |s| ==> Precedes(sort, s[i], s[j])
  }

  /** An element that precedes the head of a sorted sequence precedes all of it. */
  lemma PrecedesSorted(sort: SortSpec, x: Record, s: seq<Record>)
    requires SortedBy(sort, s) && s != [] && Precedes(sort, x, s[0])
    ensures forall j :: 0 <= j < |s| ==> Precedes(sort, x, s[j])
  {
    forall j | 0 < j < |s| ensures Precedes(sort, x, s[j]) {
      PrecedesTransitive(sort, x, s[0], s[j]);
    }
  }

  /** The head of a sorted sequence precedes every element of the sequence, `x`, put in place of its tail. */
  lemma HeadPrecedesInsertion(sort: SortSpec, x: Record, s: seq<Record>, rest: seq<Record>)
    requires SortedBy(sort, s) && s != [] && !Precedes(sort, x, s[0])
    requires multiset(rest) == multiset(s[1..]) + multiset{x}
    ensures forall y :: y in rest ==> Precedes(sort, s[0], y)
  {
    forall y | y in rest ensures Precedes(sort, s[0], y) {
      assert y in multiset(rest);
      if y == x {
        PrecedesTotal(sort, x, s[0]);
      } else {
        assert y in multiset(s[1..]);
        var j :| 0 <= j < |s[1..]| && s[1..][j] == y;
        assert s[j + 1] == y;
      }
    }
  }

  /** A head that precedes every element of a sorted sequence keeps it sorted. */
  lemma ConsSorted(sort: SortSpec, h: Record, rest: seq<Record>)
    requires SortedBy(sort, rest)
    requires forall y :: y in rest ==> Precedes(sort, h, y)
    ensures SortedBy(sort, [h] + rest)
  {
    var r := [h] + rest;
    forall i, j | 0 <= i < j < |r| ensures Precedes(sort, r[i], r[j]) {
      assert r[j] == rest[j - 1];
      if i > 0 {
        assert r[i] == rest[i - 1];
      }
    }
  }

  /** Places `x` before the first element it precedes. */
  function Insert(sort: SortSpec, x: Record, s: seq<Record>): (r: seq<Record>)
    requires SortedBy(sort, s)
    ensures multiset(r) == multiset(s) + multiset{x}
    ensures SortedBy(sort, r)
  {
    if s == [] then [x]
    else if Precedes(sort, x, s[0]) then
      PrecedesSorted(sort, x, s);
      ConsSorted(sort, x, s);
      [x] + s
    else
      assert SortedBy(sort, s[1..]);
      var rest := Insert(sort, x, s[1..]);
      assert s == [s[0]] + s[1..];
      HeadPrecedesInsertion(sort, x, s, rest);
      ConsSorted(sort, s[0], rest);
      [s[0]] + rest
  }

  /**
   * The catalog's ordering of a result set: sorted on one key, a permutation
   * of its input; records with equal keys keep their catalog order.
   */
  function Sort(sort: SortSpec, s: seq<Record>): (r: seq<Record>)
    ensures multiset(r) == multiset(s)
    ensures |r| == |s| && forall x :: x in r <==> x in s
    ensures SortedBy(sort, r)
  {
    if s == [] then []
    else
      assert s == [s[0]] + s[1..];
      var r := Insert(sort, s[0], Sort(sort, s[1..]));
      assert |r| == |multiset(r)|;
      assert forall x :: x in r <==> x in multiset(r);
      r
  }
}
