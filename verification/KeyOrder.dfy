/**
 * Orders of object keys: the stable sort by a collation, and the order in which an object enumerates
 * its keys.
 *
 * `rank` stands for the collation order of `localeCompare`: smaller ranks come first, equal ranks
 * are the strings it cannot tell apart.
 */
module KeyOrder {
  import opened Text
  import opened Json

  type Rank = string -> real

  // Sorting, stable as `Array.prototype.sort` is.

  function Insert(rank: Rank, f: Field, sorted: seq<Field>): seq<Field> {
    if sorted == [] || rank(f.key) <= rank(sorted[0].key) then [f] + sorted
    else [sorted[0]] + Insert(rank, f, sorted[1..])
  }

  function Sort(rank: Rank, fields: seq<Field>): seq<Field> {
    if fields == [] then [] else Insert(rank, fields[0], Sort(rank, fields[1..]))
  }

  // `Object.fromEntries`: array-index keys are enumerated first, in numeric order.

  predicate IsIndex(key: string) {
    key != "" && AllDigits(key) && (key[0] == '0' ==> |key| == 1) && DigitsValue(key) < 0xFFFF_FFFF
  }

  function IndexRank(key: string): real { if IsIndex(key) then DigitsValue(key) as real else 0.0 }

  function WithIndex(fields: seq<Field>, index: bool): seq<Field> {
    if fields == [] then []
    else (if IsIndex(fields[0].key) == index then [fields[0]] else []) + WithIndex(fields[1..], index)
  }

  function Hoist(fields: seq<Field>): seq<Field> { Sort(IndexRank, WithIndex(fields, true)) + WithIndex(fields, false) }

  // Lists of fields.

  /** No key twice. */
  predicate Unique(fields: seq<Field>) { forall i, j | 0 <= i < j < |fields| :: fields[i].key != fields[j].key }

  predicate Ordered(rank: Rank, fields: seq<Field>) {
    forall i, j | 0 <= i < j < |fields| :: rank(fields[i].key) <= rank(fields[j].key)
  }

  /** `k1` is an index key and `k2` a later one or none: the order in which an object enumerates them. */
  predicate NumericBefore(k1: string, k2: string) { IsIndex(k1) && (IsIndex(k2) ==> IndexRank(k1) < IndexRank(k2)) }

  /** Index keys come first, in numeric order. */
  predicate NumericFirst(fields: seq<Field>) {
    forall i, j | 0 <= i < j < |fields| && IsIndex(fields[j].key) ::
      IsIndex(fields[i].key) && IndexRank(fields[i].key) <= IndexRank(fields[j].key)
  }

  /** Two keys whose order neither the collation nor the object settles. */
  predicate Tied(rank: Rank, k1: string, k2: string) { rank(k1) == rank(k2) && !IsIndex(k1) && !IsIndex(k2) }

  predicate SameKeys(a: seq<Field>, b: seq<Field>) { |a| == |b| && forall i | 0 <= i < |a| :: a[i].key == b[i].key }

  // Members.

  predicate SameMembers(a: seq<Field>, b: seq<Field>) { (forall f <- a :: f in b) && (forall f <- b :: f in a) }

  lemma {:induction false} InsertMembers(rank: Rank, f: Field, sorted: seq<Field>)
    ensures forall g :: g in Insert(rank, f, sorted) <==> g == f || g in sorted
  {
    if sorted != [] && rank(f.key) > rank(sorted[0].key) {
      InsertMembers(rank, f, sorted[1..]);
      assert sorted == [sorted[0]] + sorted[1..];
    }
  }

  lemma {:induction false} SortMembers(rank: Rank, fields: seq<Field>)
    ensures SameMembers(Sort(rank, fields), fields)
  {
    if fields != [] {
      SortMembers(rank, fields[1..]);
      InsertMembers(rank, fields[0], Sort(rank, fields[1..]));
      assert fields == [fields[0]] + fields[1..];
    }
  }

  // Hoisting keeps the members.

  lemma {:induction false} WithIndexMembers(fields: seq<Field>, index: bool)
    ensures forall f :: f in WithIndex(fields, index) <==> f in fields && IsIndex(f.key) == index
  {
    hide IsIndex;
    if fields != [] {
      WithIndexMembers(fields[1..], index);
      assert fields == [fields[0]] + fields[1..];
    }
  }

  lemma HoistMembers(fields: seq<Field>)
    ensures SameMembers(Hoist(fields), fields)
  {
    hide IsIndex, Sort;
    WithIndexMembers(fields, true);
    WithIndexMembers(fields, false);
    SortMembers(IndexRank, WithIndex(fields, true));
  }

  // Order.

  lemma OrderedCons(rank: Rank, f: Field, rest: seq<Field>)
    requires Ordered(rank, rest) && forall g <- rest :: rank(f.key) <= rank(g.key)
    ensures Ordered(rank, [f] + rest)
  {
  }

  lemma OrderedTail(rank: Rank, fields: seq<Field>)
    requires fields != [] && Ordered(rank, fields)
    ensures Ordered(rank, fields[1..]) && forall f <- fields[1..] :: rank(fields[0].key) <= rank(f.key)
  {
    var rest := fields[1..];
    forall i, j | 0 <= i < j < |rest| ensures rank(rest[i].key) <= rank(rest[j].key) {
      assert rest[i] == fields[i + 1] && rest[j] == fields[j + 1];
    }
  }

  lemma {:induction false} InsertOrdered(rank: Rank, f: Field, sorted: seq<Field>)
    requires Ordered(rank, sorted)
    ensures Ordered(rank, Insert(rank, f, sorted))
  {
    if sorted != [] && rank(f.key) > rank(sorted[0].key) {
      OrderedTail(rank, sorted);
      InsertOrdered(rank, f, sorted[1..]);
      InsertMembers(rank, f, sorted[1..]);
      OrderedCons(rank, sorted[0], Insert(rank, f, sorted[1..]));
    } else {
      if sorted != [] { OrderedTail(rank, sorted); }
      OrderedCons(rank, f, sorted);
    }
  }

  lemma {:induction false} SortOrdered(rank: Rank, fields: seq<Field>)
    ensures Ordered(rank, Sort(rank, fields))
  {
    if fields != [] {
      SortOrdered(rank, fields[1..]);
      InsertOrdered(rank, fields[0], Sort(rank, fields[1..]));
    }
  }

  /** A sorted list is left alone. */
  lemma {:induction false} SortFixed(rank: Rank, fields: seq<Field>)
    requires Ordered(rank, fields)
    ensures Sort(rank, fields) == fields
  {
    if fields != [] {
      OrderedTail(rank, fields);
      SortFixed(rank, fields[1..]);
      if |fields| > 1 { assert fields[1] in fields[1..]; }
    }
  }

  // Index keys are numbers.

  lemma {:induction false} DigitsOfValue(s: string)
    requires s != "" && AllDigits(s) && (s[0] == '0' ==> |s| == 1)
    ensures Digits(DigitsValue(s)) == s && (s[0] != '0' ==> DigitsValue(s) > 0)
  {
    hide Digits, DigitsValue;
    var prefix, last := s[..|s| - 1], s[|s| - 1];
    var d := LastDigit(s);
    if |s| == 1 {
      OneDigit(d);
    } else {
      assert prefix[0] == s[0];
      DigitsOfValue(prefix);
      MoreDigits(DigitsValue(prefix), d);
    }
  }

  lemma LastDigit(s: string) returns (d: nat)
    requires s != "" && AllDigits(s)
    ensures d < 10 && AllDigits(s[..|s| - 1]) && DigitsValue(s) == 10 * DigitsValue(s[..|s| - 1]) + d
    ensures s == s[..|s| - 1] + [(d + '0' as int) as char]
    ensures |s| == 1 ==> DigitsValue(s) == d && s == [(d + '0' as int) as char] && (s[0] != '0' ==> d > 0)
  {
    assert IsDigit(s[|s| - 1]);
    d := s[|s| - 1] as int - '0' as int;
    if |s| == 1 { assert s[..|s| - 1] == ""; }
  }

  lemma OneDigit(d: nat)
    requires d < 10
    ensures Digits(d) == [(d + '0' as int) as char]
  {
    assert "0123456789"[d] == (d + '0' as int) as char;
  }

  lemma MoreDigits(n: nat, d: nat)
    requires 0 < n && d < 10
    ensures Digits(10 * n + d) == Digits(n) + [(d + '0' as int) as char]
  {
    assert "0123456789"[d] == (d + '0' as int) as char;
    assert (10 * n + d) / 10 == n && (10 * n + d) % 10 == d;
  }

  lemma IndexInjective(a: string, b: string)
    requires IsIndex(a) && IsIndex(b) && IndexRank(a) == IndexRank(b)
    ensures a == b
  {
    DigitsOfValue(a);
    DigitsOfValue(b);
  }

  lemma {:induction false} NoLeadingZero(n: nat)
    ensures Digits(n)[0] == '0' ==> n == 0
    ensures n < 10 ==> |Digits(n)| == 1
  {
    if n >= 10 {
      NoLeadingZero(n / 10);
      assert Digits(n)[0] == Digits(n / 10)[0];
    } else {
      OneDigit(n);
    }
  }

  /** The index keys are the decimal numerals of the integers below 2^32 - 1. */
  lemma IndexIff(key: string)
    ensures IsIndex(key) <==> exists n: nat :: n < 4_294_967_295 && key == Digits(n)
  {
    hide Digits, DigitsValue;
    if IsIndex(key) {
      DigitsOfValue(key);
    } else if n: nat :| n < 4_294_967_295 && key == Digits(n) {
      DigitsRoundTrip(n);
      NoLeadingZero(n);
    }
  }

  // What hoisting does to sorted fields.

  lemma NumericTail(fields: seq<Field>)
    requires fields != [] && NumericFirst(fields)
    ensures NumericFirst(fields[1..]) && (!IsIndex(fields[0].key) ==> forall f <- fields[1..] :: !IsIndex(f.key))
  {
    hide IsIndex, IndexRank;
    var rest := fields[1..];
    forall i, j | 0 <= i < j < |rest| && IsIndex(rest[j].key)
      ensures IsIndex(rest[i].key) && IndexRank(rest[i].key) <= IndexRank(rest[j].key)
    {
      assert rest[i] == fields[i + 1] && rest[j] == fields[j + 1];
    }
    forall f | f in rest && !IsIndex(fields[0].key) ensures !IsIndex(f.key) {
      var i :| 0 <= i < |rest| && rest[i] == f;
      assert fields[i + 1] == f;
    }
  }

  lemma {:induction false} Parted(fields: seq<Field>)
    requires NumericFirst(fields)
    ensures WithIndex(fields, true) + WithIndex(fields, false) == fields
  {
    hide IsIndex, IndexRank, NumericFirst;
    if fields != [] {
      NumericTail(fields);
      Parted(fields[1..]);
      if !IsIndex(fields[0].key) { NothingHoisted(fields[1..]); }
      assert fields == [fields[0]] + fields[1..];
    }
  }

  lemma {:induction false} NothingHoisted(fields: seq<Field>)
    requires forall f <- fields :: !IsIndex(f.key)
    ensures Hoist(fields) == fields && WithIndex(fields, true) == [] && WithIndex(fields, false) == fields
  {
    hide IsIndex;
    if fields != [] {
      assert fields[0] in fields;
      NothingHoisted(fields[1..]);
    }
  }

  lemma IndexOrdered(fields: seq<Field>)
    requires NumericFirst(fields)
    ensures Ordered(IndexRank, WithIndex(fields, true))
  {
    hide IsIndex, IndexRank;
    Parted(fields);
    WithIndexMembers(fields, true);
    var first := WithIndex(fields, true);
    forall i, j | 0 <= i < j < |first| ensures IndexRank(first[i].key) <= IndexRank(first[j].key) {
      assert first[i] == fields[i] && first[j] == fields[j] && first[j] in first;
    }
  }

  /** Hoisting always puts index keys first, in numeric order, and leaves alone exactly the lists that have them so. */
  lemma HoistFixedIff(fields: seq<Field>)
    ensures NumericFirst(Hoist(fields)) && (Hoist(fields) == fields <==> NumericFirst(fields))
  {
    hide IsIndex, IndexRank;
    var first, second := Sort(IndexRank, WithIndex(fields, true)), WithIndex(fields, false);
    SortOrdered(IndexRank, WithIndex(fields, true));
    WithIndexMembers(fields, true);
    WithIndexMembers(fields, false);
    SortMembers(IndexRank, WithIndex(fields, true));
    var hoisted := Hoist(fields);
    forall j | |first| <= j < |hoisted| ensures !IsIndex(hoisted[j].key) { assert hoisted[j] in second; }
    forall i, j | 0 <= i < j < |hoisted| && IsIndex(hoisted[j].key)
      ensures IsIndex(hoisted[i].key) && IndexRank(hoisted[i].key) <= IndexRank(hoisted[j].key)
    {
      assert hoisted[i] == first[i] && hoisted[j] == first[j] && first[i] in first;
    }
    if NumericFirst(fields) {
      Parted(fields);
      IndexOrdered(fields);
      SortFixed(IndexRank, WithIndex(fields, true));
    }
  }

  lemma SameKeysNumeric(a: seq<Field>, b: seq<Field>)
    requires SameKeys(a, b)
    ensures NumericFirst(a) <==> NumericFirst(b)
  {
    hide IsIndex, IndexRank;
  }

  // No key twice.

  lemma UniqueTail(fields: seq<Field>)
    requires fields != [] && Unique(fields)
    ensures Unique(fields[1..]) && forall f <- fields[1..] :: f.key != fields[0].key
  {
    var rest := fields[1..];
    forall i, j | 0 <= i < j < |rest| ensures rest[i].key != rest[j].key {
      assert rest[i] == fields[i + 1] && rest[j] == fields[j + 1];
    }
  }

  lemma UniqueCons(f: Field, rest: seq<Field>)
    requires Unique(rest) && forall g <- rest :: g.key != f.key
    ensures Unique([f] + rest)
  {
  }

  lemma {:induction false} InsertUnique(order: Rank, f: Field, fields: seq<Field>)
    requires Unique(fields) && forall g <- fields :: g.key != f.key
    ensures Unique(Insert(order, f, fields))
  {
    if fields != [] && order(f.key) > order(fields[0].key) {
      UniqueTail(fields);
      InsertUnique(order, f, fields[1..]);
      InsertMembers(order, f, fields[1..]);
      UniqueCons(fields[0], Insert(order, f, fields[1..]));
    } else {
      UniqueCons(f, fields);
    }
  }

  lemma {:induction false} SortUnique(order: Rank, fields: seq<Field>)
    requires Unique(fields)
    ensures Unique(Sort(order, fields))
  {
    if fields != [] {
      UniqueTail(fields);
      SortUnique(order, fields[1..]);
      SortMembers(order, fields[1..]);
      InsertUnique(order, fields[0], Sort(order, fields[1..]));
    }
  }

  lemma {:induction false} WithIndexUnique(fields: seq<Field>, index: bool)
    requires Unique(fields)
    ensures Unique(WithIndex(fields, index))
  {
    hide IsIndex;
    if fields != [] {
      UniqueTail(fields);
      WithIndexUnique(fields[1..], index);
      WithIndexMembers(fields[1..], index);
      UniqueCons(fields[0], WithIndex(fields[1..], index));
    }
  }

  lemma HoistUnique(fields: seq<Field>)
    requires Unique(fields)
    ensures Unique(Hoist(fields))
  {
    hide IsIndex;
    var first, second := Sort(IndexRank, WithIndex(fields, true)), WithIndex(fields, false);
    WithIndexUnique(fields, true);
    WithIndexUnique(fields, false);
    SortUnique(IndexRank, WithIndex(fields, true));
    WithIndexMembers(fields, true);
    WithIndexMembers(fields, false);
    SortMembers(IndexRank, WithIndex(fields, true));
    forall i, j | 0 <= i < |first| && 0 <= j < |second| ensures first[i].key != second[j].key {
      assert first[i] in first && second[j] in second;
    }
    UniqueAppend(first, second);
  }

  lemma UniqueAppend(a: seq<Field>, b: seq<Field>)
    requires Unique(a) && Unique(b) && forall i, j | 0 <= i < |a| && 0 <= j < |b| :: a[i].key != b[j].key
    ensures Unique(a + b)
  {
    var all := a + b;
    forall i, j | 0 <= i < j < |all| ensures all[i].key != all[j].key {
      if i >= |a| { assert all[i] == b[i - |a|] && all[j] == b[j - |a|]; }
    }
  }

  // Which key comes before which.

  /** A field with key `k1` comes before one with key `k2`. */
  ghost predicate Before(fields: seq<Field>, k1: string, k2: string) {
    exists i, j | 0 <= i < j < |fields| :: fields[i].key == k1 && fields[j].key == k2
  }

  ghost predicate HasKey(fields: seq<Field>, k: string) { exists f <- fields :: f.key == k }

  lemma BeforeCons(f: Field, rest: seq<Field>, k1: string, k2: string)
    ensures Before([f] + rest, k1, k2) <==> (f.key == k1 && HasKey(rest, k2)) || Before(rest, k1, k2)
  {
    var all := [f] + rest;
    if Before(rest, k1, k2) {
      var i, j :| 0 <= i < j < |rest| && rest[i].key == k1 && rest[j].key == k2;
      assert all[i + 1].key == k1 && all[j + 1].key == k2;
    }
    if f.key == k1 && HasKey(rest, k2) {
      var g :| g in rest && g.key == k2;
      var j :| 0 <= j < |rest| && rest[j] == g;
      assert all[0].key == k1 && all[j + 1].key == k2;
    }
    if Before(all, k1, k2) {
      var i, j :| 0 <= i < j < |all| && all[i].key == k1 && all[j].key == k2;
      if i > 0 { assert rest[i - 1].key == k1 && rest[j - 1].key == k2; } else { assert rest[j - 1] in rest; }
    }
  }

  lemma {:induction false} InsertBefore(rank: Rank, f: Field, sorted: seq<Field>, k1: string, k2: string)
    requires Before(sorted, k1, k2) || (f.key == k1 && HasKey(sorted, k2) && rank(k1) <= rank(k2))
    ensures Before(Insert(rank, f, sorted), k1, k2)
  {
    hide Before;
    if sorted != [] {
      assert sorted == [sorted[0]] + sorted[1..];
      BeforeCons(sorted[0], sorted[1..], k1, k2);
    } else {
      NoneBefore(k1, k2);
    }
    if sorted != [] && rank(f.key) > rank(sorted[0].key) {
      InsertMembers(rank, f, sorted[1..]);
      BeforeCons(sorted[0], Insert(rank, f, sorted[1..]), k1, k2);
      if !(sorted[0].key == k1 && HasKey(sorted[1..], k2)) { InsertBefore(rank, f, sorted[1..], k1, k2); }
    } else {
      BeforeCons(f, sorted, k1, k2);
    }
  }

  lemma NoneBefore(k1: string, k2: string)
    ensures !Before([], k1, k2)
  {
  }

  /** Sorting keeps the order of fields whose keys it need not swap. */
  lemma {:induction false} SortBefore(rank: Rank, fields: seq<Field>, k1: string, k2: string)
    requires Before(fields, k1, k2) && rank(k1) <= rank(k2)
    ensures Before(Sort(rank, fields), k1, k2)
  {
    hide Before;
    if fields == [] {
      NoneBefore(k1, k2);
    } else {
      assert fields == [fields[0]] + fields[1..];
      BeforeCons(fields[0], fields[1..], k1, k2);
      SortMembers(rank, fields[1..]);
      if Before(fields[1..], k1, k2) { SortBefore(rank, fields[1..], k1, k2); }
      InsertBefore(rank, fields[0], Sort(rank, fields[1..]), k1, k2);
    }
  }

  lemma {:induction false} WithIndexBefore(fields: seq<Field>, index: bool, k1: string, k2: string)
    requires Before(fields, k1, k2) && IsIndex(k1) == IsIndex(k2) == index
    ensures Before(WithIndex(fields, index), k1, k2)
  {
    hide Before, IsIndex;
    if fields == [] {
      NoneBefore(k1, k2);
    } else {
      assert fields == [fields[0]] + fields[1..];
      BeforeCons(fields[0], fields[1..], k1, k2);
      WithIndexMembers(fields[1..], index);
      var rest := WithIndex(fields[1..], index);
      if Before(fields[1..], k1, k2) { WithIndexBefore(fields[1..], index, k1, k2); }
      if HasKey(fields[1..], k2) {
        var g :| g in fields[1..] && g.key == k2;
        assert g in rest;
      }
      BeforeCons(fields[0], rest, k1, k2);
      assert [] + rest == rest;
    }
  }

  lemma HoistBefore(fields: seq<Field>, k1: string, k2: string)
    requires Before(fields, k1, k2) && !IsIndex(k1) && !IsIndex(k2)
    ensures Before(Hoist(fields), k1, k2)
  {
    hide IsIndex, Sort;
    WithIndexBefore(fields, false, k1, k2);
    var first, second := Sort(IndexRank, WithIndex(fields, true)), WithIndex(fields, false);
    var i, j :| 0 <= i < j < |second| && second[i].key == k1 && second[j].key == k2;
    assert Hoist(fields)[|first| + i].key == k1 && Hoist(fields)[|first| + j].key == k2;
  }

  lemma SameKeysBefore(a: seq<Field>, b: seq<Field>, k1: string, k2: string)
    requires SameKeys(a, b)
    ensures Before(a, k1, k2) <==> Before(b, k1, k2)
  {
    if Before(a, k1, k2) {
      var i, j :| 0 <= i < j < |a| && a[i].key == k1 && a[j].key == k2;
      assert b[i].key == k1 && b[j].key == k2;
    }
    if Before(b, k1, k2) {
      var i, j :| 0 <= i < j < |b| && b[i].key == k1 && b[j].key == k2;
      assert a[i].key == k1 && a[j].key == k2;
    }
  }

  lemma OnePlace(fields: seq<Field>)
    requires Unique(fields)
    ensures forall i, j | 0 <= i < |fields| && 0 <= j < |fields| :: fields[i].key == fields[j].key ==> i == j
  {
  }

  lemma BeforeHas(fields: seq<Field>, k1: string, k2: string)
    requires Before(fields, k1, k2)
    ensures HasKey(fields, k1) && HasKey(fields, k2) && (Unique(fields) ==> k1 != k2)
  {
    var i, j :| 0 <= i < j < |fields| && fields[i].key == k1 && fields[j].key == k2;
    assert fields[i] in fields && fields[j] in fields;
  }

  /** Of two keys of a list, exactly one comes before the other. */
  lemma OneBefore(fields: seq<Field>, k1: string, k2: string)
    requires Unique(fields) && HasKey(fields, k1) && HasKey(fields, k2) && k1 != k2
    ensures Before(fields, k1, k2) <==> !Before(fields, k2, k1)
  {
    var f :| f in fields && f.key == k1;
    var g :| g in fields && g.key == k2;
    var i :| 0 <= i < |fields| && fields[i] == f;
    var j :| 0 <= j < |fields| && fields[j] == g;
    OnePlace(fields);
  }

  lemma MembersHave(a: seq<Field>, b: seq<Field>, k: string)
    requires SameMembers(a, b)
    ensures HasKey(a, k) <==> HasKey(b, k)
  {
  }

  /** In a sorted list, keys come in collation order, and tied ones as before. */
  lemma SortOrder(rank: Rank, fields: seq<Field>, k1: string, k2: string)
    requires Unique(fields) && HasKey(fields, k1) && HasKey(fields, k2) && k1 != k2
    ensures Before(Sort(rank, fields), k1, k2)
            <==> rank(k1) < rank(k2) || (rank(k1) == rank(k2) && Before(fields, k1, k2))
  {
    hide Sort, Before, HasKey, Unique, Ordered;
    var sorted := Sort(rank, fields);
    SortUnique(rank, fields);
    SortMembers(rank, fields);
    MembersHave(sorted, fields, k1);
    MembersHave(sorted, fields, k2);
    OneBefore(sorted, k1, k2);
    OneBefore(fields, k1, k2);
    SortOrdered(rank, fields);
    if Before(sorted, k1, k2) { OrderedBefore(rank, sorted, k1, k2); }
    if Before(sorted, k2, k1) { OrderedBefore(rank, sorted, k2, k1); }
    if rank(k1) == rank(k2) {
      if Before(fields, k1, k2) { SortBefore(rank, fields, k1, k2); } else { SortBefore(rank, fields, k2, k1); }
    }
  }

  lemma OrderedBefore(rank: Rank, fields: seq<Field>, k1: string, k2: string)
    requires Ordered(rank, fields) && Before(fields, k1, k2)
    ensures rank(k1) <= rank(k2)
  {
  }

  /** Where index keys come first, they come before everything later. */
  lemma NumericOrder(fields: seq<Field>, k1: string, k2: string)
    requires Unique(fields) && NumericFirst(fields) && HasKey(fields, k1) && HasKey(fields, k2) && k1 != k2
    requires IsIndex(k1) || IsIndex(k2)
    ensures Before(fields, k1, k2) <==> NumericBefore(k1, k2)
  {
    hide IsIndex, IndexRank, Before, HasKey, Unique, NumericFirst;
    OneBefore(fields, k1, k2);
    if Before(fields, k1, k2) { NumericStep(fields, k1, k2); }
    if Before(fields, k2, k1) { NumericStep(fields, k2, k1); }
  }

  lemma NumericStep(fields: seq<Field>, k1: string, k2: string)
    requires Unique(fields) && NumericFirst(fields) && Before(fields, k1, k2) && (IsIndex(k1) || IsIndex(k2))
    ensures NumericBefore(k1, k2) && !NumericBefore(k2, k1)
  {
    hide IsIndex, IndexRank;
    var i, j :| 0 <= i < j < |fields| && fields[i].key == k1 && fields[j].key == k2;
    if IsIndex(k2) && IndexRank(k1) == IndexRank(k2) { IndexInjective(k1, k2); }
  }

  /** What an object enumerates: index keys in numeric order, then the others as before. */
  lemma HoistOrder(fields: seq<Field>, k1: string, k2: string)
    requires Unique(fields) && HasKey(fields, k1) && HasKey(fields, k2) && k1 != k2
    ensures Before(Hoist(fields), k1, k2)
            <==> if IsIndex(k1) || IsIndex(k2) then NumericBefore(k1, k2) else Before(fields, k1, k2)
  {
    hide IsIndex, IndexRank, Before, HasKey, Unique, NumericFirst, Hoist, NumericBefore;
    var hoisted := Hoist(fields);
    HoistUnique(fields);
    HoistMembers(fields);
    MembersHave(hoisted, fields, k1);
    MembersHave(hoisted, fields, k2);
    if IsIndex(k1) || IsIndex(k2) {
      HoistFixedIff(fields);
      NumericOrder(hoisted, k1, k2);
    } else {
      OneBefore(fields, k1, k2);
      OneBefore(hoisted, k1, k2);
      if Before(fields, k1, k2) { HoistBefore(fields, k1, k2); } else { HoistBefore(fields, k2, k1); }
    }
  }

  /** A list without repeated keys is determined by its members and their order. */
  lemma {:induction false} SameOrder(a: seq<Field>, b: seq<Field>)
    requires Unique(a) && Unique(b) && SameMembers(a, b)
    requires forall k1, k2 | Before(a, k1, k2) :: Before(b, k1, k2)
    ensures a == b
  {
    hide Before, Unique;
    if a == [] {
      HeadMember(b);
    } else {
      assert a[0] in a && b != [];
      HeadsAgree(a, b);
      UniqueTail(a);
      UniqueTail(b);
      assert a == [a[0]] + a[1..] && b == [b[0]] + b[1..];
      forall f ensures f in a[1..] <==> f in b[1..] { assert f in a <==> f in b; }
      forall k1, k2 | Before(a[1..], k1, k2) ensures Before(b[1..], k1, k2) {
        BeforeHas(a[1..], k1, k2);
        BeforeCons(a[0], a[1..], k1, k2);
        BeforeCons(b[0], b[1..], k1, k2);
      }
      SameOrder(a[1..], b[1..]);
    }
  }

  /** Two lists sort alike exactly when they have the same members, those of equal rank in the same order. */
  lemma SortSameIff(rank: Rank, a: seq<Field>, b: seq<Field>)
    requires Unique(a) && Unique(b)
    ensures Sort(rank, a) == Sort(rank, b)
            <==> && SameMembers(a, b)
                 && forall k1, k2 | rank(k1) == rank(k2) :: Before(a, k1, k2) <==> Before(b, k1, k2)
  {
    hide Sort, Before, Unique, HasKey, Ordered;
    SortMembers(rank, a);
    SortMembers(rank, b);
    if Sort(rank, a) == Sort(rank, b) {
      forall k1, k2 | rank(k1) == rank(k2) ensures Before(a, k1, k2) <==> Before(b, k1, k2) {
        if Before(a, k1, k2) { SortedTie(rank, a, b, k1, k2); }
        if Before(b, k1, k2) { SortedTie(rank, b, a, k1, k2); }
      }
    }
    if SameMembers(a, b) && forall k1, k2 | rank(k1) == rank(k2) :: Before(a, k1, k2) <==> Before(b, k1, k2) {
      SortUnique(rank, a);
      SortUnique(rank, b);
      forall k1, k2 | Before(Sort(rank, a), k1, k2) ensures Before(Sort(rank, b), k1, k2) {
        BeforeHas(Sort(rank, a), k1, k2);
        MembersHave(Sort(rank, a), a, k1);
        MembersHave(Sort(rank, a), a, k2);
        MembersHave(a, b, k1);
        MembersHave(a, b, k2);
        SortOrder(rank, a, k1, k2);
        SortOrder(rank, b, k1, k2);
      }
      SameOrder(Sort(rank, a), Sort(rank, b));
    }
  }

  lemma SortedTie(rank: Rank, a: seq<Field>, b: seq<Field>, k1: string, k2: string)
    requires Unique(a) && Unique(b) && SameMembers(a, b) && Sort(rank, a) == Sort(rank, b)
    requires rank(k1) == rank(k2) && Before(a, k1, k2)
    ensures Before(b, k1, k2)
  {
    hide Sort, Before, Unique, HasKey;
    BeforeHas(a, k1, k2);
    MembersHave(a, b, k1);
    MembersHave(a, b, k2);
    SortOrder(rank, a, k1, k2);
    SortOrder(rank, b, k1, k2);
  }

  lemma HeadsAgree(a: seq<Field>, b: seq<Field>)
    requires a != [] && b != [] && Unique(a) && Unique(b) && SameMembers(a, b)
    requires forall k1, k2 | Before(a, k1, k2) :: Before(b, k1, k2)
    ensures a[0] == b[0]
  {
    assert a[0] in b && b[0] in a;
    var j :| 0 <= j < |b| && b[j] == a[0];
    var i :| 0 <= i < |a| && a[i] == b[0];
    FirstBefore(a);
    OnePlace(b);
  }

  lemma FirstBefore(fields: seq<Field>)
    ensures forall i | 0 < i < |fields| :: Before(fields, fields[0].key, fields[i].key)
  {
  }

  lemma HeadMember(fields: seq<Field>)
    ensures fields != [] ==> exists f :: f in fields
  {
    if fields != [] { assert fields[0] in fields; }
  }
}
