/**
 * The two canonical serializers: `canonicalJson` (rebuild objects with sorted keys, then stringify)
 * and the publication policy's `canonical` (write sorted fields directly).
 */
module CanonicalJson {
  import opened Text
  import opened Json
  import opened KeyOrder

  // The serializers.

  /** Keys sorted at every level; `hoist` says whether the fields pass through a new object. */
  ghost function Canon(rank: Rank, hoist: bool, v: Value): Value
    decreases v, 0
  {
    match v
    case Arr(items) => Arr(CanonItems(rank, hoist, v, items))
    case Obj(fields) =>
      SortMembers(rank, fields);
      var sorted := CanonFields(rank, hoist, v, Sort(rank, fields));
      Obj(if hoist then Hoist(sorted) else sorted)
    case _ => v
  }

  ghost function CanonItems(rank: Rank, hoist: bool, whole: Value, items: seq<Value>): (r: seq<Value>)
    requires forall i | 0 <= i < |items| :: items[i] < whole
    ensures |r| == |items| && forall i | 0 <= i < |items| :: r[i] == Canon(rank, hoist, items[i])
    decreases whole, 0, |items|
  {
    if items == [] then []
    else [Canon(rank, hoist, items[0])] + CanonItems(rank, hoist, whole, items[1..])
  }

  ghost function CanonFields(rank: Rank, hoist: bool, whole: Value, fields: seq<Field>): (r: seq<Field>)
    requires forall f <- fields :: f.value < whole
    ensures |r| == |fields|
    ensures forall i | 0 <= i < |fields| :: r[i] == Field(fields[i].key, Canon(rank, hoist, fields[i].value))
    decreases whole, 0, |fields|
  {
    if fields == [] then []
    else
      assert fields[0] in fields;
      [Field(fields[0].key, Canon(rank, hoist, fields[0].value))] + CanonFields(rank, hoist, whole, fields[1..])
  }

  /** `canonicalJson`. */
  ghost function CanonicalText(rank: Rank, v: Value): string { TextOf(Canon(rank, true, v)) }

  /** The policy's `canonical`, text by direct recursion. */
  ghost function PolicyText(rank: Rank, v: Value): string
    decreases v, 0
  {
    match v
    case Arr(items) => "[" + Join(PolicyItems(rank, v, items), ",") + "]"
    case Obj(fields) =>
      SortMembers(rank, fields);
      "{" + Join(PolicyFields(rank, v, Sort(rank, fields)), ",") + "}"
    case _ => TextOf(v)
  }

  ghost function PolicyItems(rank: Rank, whole: Value, items: seq<Value>): seq<string>
    requires forall i | 0 <= i < |items| :: items[i] < whole
    decreases whole, 0, |items|
  {
    if items == [] then [] else [PolicyText(rank, items[0])] + PolicyItems(rank, whole, items[1..])
  }

  ghost function PolicyFields(rank: Rank, whole: Value, fields: seq<Field>): seq<string>
    requires forall f <- fields :: f.value < whole
    decreases whole, 0, |fields|
  {
    if fields == [] then []
    else
      assert fields[0] in fields;
      [Quote(fields[0].key) + ":" + PolicyText(rank, fields[0].value)] + PolicyFields(rank, whole, fields[1..])
  }

  // Meaning.

  /** Equal up to the order of object keys. */
  ghost predicate SameValue(a: Value, b: Value)
    decreases a
  {
    match (a, b)
    case (Arr(x), Arr(y)) => |x| == |y| && forall i | 0 <= i < |x| :: SameValue(x[i], y[i])
    case (Obj(f), Obj(g)) =>
      (forall i | 0 <= i < |f| :: Among(f[i], g)) && (forall j | 0 <= j < |g| :: Covers(f, g[j]))
    case _ => a == b
  }

  ghost predicate Among(x: Field, g: seq<Field>)
    decreases x, 1
  {
    exists j | 0 <= j < |g| :: SameField(x, g[j])
  }

  ghost predicate Covers(f: seq<Field>, y: Field)
    decreases f
  {
    exists i | 0 <= i < |f| :: SameField(f[i], y)
  }

  ghost predicate SameField(x: Field, y: Field)
    decreases x, 0
  {
    x.key == y.key && SameValue(x.value, y.value)
  }

  ghost predicate Aligned(f: seq<Field>, g: seq<Field>) {
    && |f| == |g| && (forall i | 0 <= i < |f| :: f[i].key == g[i].key)
    && forall i, j | 0 <= i < j < |f| :: f[i].key != f[j].key
  }

  lemma AlignedField(f: seq<Field>, g: seq<Field>, i: nat)
    requires Aligned(f, g) && i < |f|
    ensures Among(f[i], g) <==> SameValue(f[i].value, g[i].value)
    ensures SameValue(f[i].value, g[i].value) ==> Covers(f, g[i])
  {
    hide SameValue;
    if Among(f[i], g) {
      var j :| 0 <= j < |g| && SameField(f[i], g[j]);
      assert f[j].key == g[j].key;
    }
    if SameValue(f[i].value, g[i].value) { assert SameField(f[i], g[i]); }
  }

  /** Objects with the same keys at the same places are the same when their values are. */
  lemma AlignedSame(f: seq<Field>, g: seq<Field>)
    requires Aligned(f, g)
    ensures SameValue(Obj(f), Obj(g)) <==> forall i | 0 <= i < |f| :: SameValue(f[i].value, g[i].value)
  {
    hide Among, Covers, Aligned;
    AlignedLength(f, g);
    forall i | 0 <= i < |f|
      ensures Among(f[i], g) <==> SameValue(f[i].value, g[i].value)
      ensures SameValue(f[i].value, g[i].value) ==> Covers(f, g[i])
    {
      AlignedField(f, g, i);
    }
  }

  lemma AlignedLength(f: seq<Field>, g: seq<Field>)
    requires Aligned(f, g)
    ensures |f| == |g|
  {
  }

  lemma LeafSame(a: Value, b: Value)
    requires !a.Arr? && !a.Obj?
    ensures SameValue(a, b) <==> a == b
  {
  }

  /** Tied keys come in the same order in all objects of the two values that stand at the same place. */
  ghost predicate SameTieOrder(rank: Rank, a: Value, b: Value)
    decreases a
  {
    match (a, b)
    case (Arr(x), Arr(y)) => forall i | 0 <= i < |x| && i < |y| :: SameTieOrder(rank, x[i], y[i])
    case (Obj(f), Obj(g)) =>
      && (forall k1, k2 | Before(f, k1, k2) && Tied(rank, k1, k2) :: Before(g, k1, k2))
      && FieldsTieOrder(rank, f, g)
    case _ => true
  }

  /** Values under the same key of two objects have their tied keys in the same order. */
  ghost predicate FieldsTieOrder(rank: Rank, f: seq<Field>, g: seq<Field>)
    decreases f
  {
    forall i, j | 0 <= i < |f| && 0 <= j < |g| && f[i].key == g[j].key :: SameTieOrder(rank, f[i].value, g[j].value)
  }

  predicate Untied(rank: Rank, fields: seq<Field>) {
    forall i, j | 0 <= i < j < |fields| :: !Tied(rank, fields[i].key, fields[j].key)
  }

  /** No object has two tied keys. */
  predicate NoTies(rank: Rank, v: Value) {
    match v
    case Arr(items) => forall i | 0 <= i < |items| :: NoTies(rank, items[i])
    case Obj(fields) => Untied(rank, fields) && forall i | 0 <= i < |fields| :: NoTies(rank, fields[i].value)
    case _ => true
  }

  predicate UniqueKeys(v: Value) {
    match v
    case Arr(items) => forall i | 0 <= i < |items| :: UniqueKeys(items[i])
    case Obj(fields) => Unique(fields) && forall i | 0 <= i < |fields| :: UniqueKeys(fields[i].value)
    case _ => true
  }

  /** As objects are in memory: no key twice, index keys first in numeric order. */
  predicate InMemory(v: Value) {
    match v
    case Arr(items) => forall i | 0 <= i < |items| :: InMemory(items[i])
    case Obj(fields) =>
      Unique(fields) && NumericFirst(fields) && forall i | 0 <= i < |fields| :: InMemory(fields[i].value)
    case _ => true
  }

  // Equality up to key order is an equivalence.

  lemma {:induction false} SelfSame(v: Value)
    ensures SameValue(v, v)
    decreases v
  {
    match v {
      case Arr(items) => forall i | 0 <= i < |items| ensures SameValue(items[i], items[i]) { SelfSame(items[i]); }
      case Obj(f) =>
        forall i | 0 <= i < |f| ensures Among(f[i], f) && Covers(f, f[i]) {
          SelfSame(f[i].value);
          assert SameField(f[i], f[i]);
        }
      case _ =>
    }
  }

  lemma {:induction false} SameSymmetric(a: Value, b: Value)
    requires SameValue(a, b)
    ensures SameValue(b, a)
    decreases a
  {
    match (a, b) {
      case (Arr(x), Arr(y)) => forall i | 0 <= i < |x| ensures SameValue(y[i], x[i]) { SameSymmetric(x[i], y[i]); }
      case (Obj(f), Obj(g)) =>
        forall j | 0 <= j < |g| ensures Among(g[j], f) {
          assert Covers(f, g[j]);
          var i :| 0 <= i < |f| && SameField(f[i], g[j]);
          SameSymmetric(f[i].value, g[j].value);
          assert SameField(g[j], f[i]);
        }
        forall i | 0 <= i < |f| ensures Covers(g, f[i]) {
          assert Among(f[i], g);
          var j :| 0 <= j < |g| && SameField(f[i], g[j]);
          SameSymmetric(f[i].value, g[j].value);
          assert SameField(g[j], f[i]);
        }
      case _ =>
    }
  }

  lemma {:induction false} SameTransitive(a: Value, b: Value, c: Value)
    requires SameValue(a, b) && SameValue(b, c)
    ensures SameValue(a, c)
    decreases a, 1
  {
    hide Among, Covers;
    match (a, b, c) {
      case (Arr(x), Arr(y), Arr(z)) =>
        forall i | 0 <= i < |x| ensures SameValue(x[i], z[i]) { SameTransitive(x[i], y[i], z[i]); }
      case (Obj(f), Obj(g), Obj(e)) =>
        forall i | 0 <= i < |f| ensures Among(f[i], e) { AmongTransitive(f, i, g, e); }
        forall k | 0 <= k < |e| ensures Covers(f, e[k]) { CoversTransitive(f, g, e[k]); }
      case _ =>
    }
  }

  lemma {:induction false} AmongTransitive(f: seq<Field>, i: nat, g: seq<Field>, e: seq<Field>)
    requires i < |f| && Among(f[i], g) && forall j | 0 <= j < |g| :: Among(g[j], e)
    ensures Among(f[i], e)
    decreases Obj(f), 0
  {
    hide SameValue;
    var j :| 0 <= j < |g| && SameField(f[i], g[j]);
    assert Among(g[j], e);
    var k :| 0 <= k < |e| && SameField(g[j], e[k]);
    SameTransitive(f[i].value, g[j].value, e[k].value);
    assert SameField(f[i], e[k]);
  }

  lemma {:induction false} CoversTransitive(f: seq<Field>, g: seq<Field>, z: Field)
    requires Covers(g, z) && forall j | 0 <= j < |g| :: Covers(f, g[j])
    ensures Covers(f, z)
    decreases Obj(f), 0
  {
    hide SameValue;
    var j :| 0 <= j < |g| && SameField(g[j], z);
    assert Covers(f, g[j]);
    var i :| 0 <= i < |f| && SameField(f[i], g[j]);
    SameTransitive(f[i].value, g[j].value, z.value);
    assert SameField(f[i], z);
  }

  // The fields of a canonical object.

  /** The sorted fields of an object with canonical values, before hoisting. */
  ghost function Sorted(rank: Rank, hoist: bool, fields: seq<Field>): seq<Field> {
    SortMembers(rank, fields);
    CanonFields(rank, hoist, Obj(fields), Sort(rank, fields))
  }

  lemma SortedKeys(rank: Rank, hoist: bool, fields: seq<Field>)
    ensures SameKeys(Sorted(rank, hoist, fields), Sort(rank, fields)) && Ordered(rank, Sorted(rank, hoist, fields))
  {
    SortMembers(rank, fields);
    SortOrdered(rank, fields);
  }

  lemma SortedMember(rank: Rank, hoist: bool, fields: seq<Field>, f: Field)
    requires f in fields
    ensures Field(f.key, Canon(rank, hoist, f.value)) in Sorted(rank, hoist, fields)
  {
    hide Canon;
    SortMembers(rank, fields);
    var sorted := Sort(rank, fields);
    assert f in sorted;
    var i :| 0 <= i < |sorted| && sorted[i] == f;
    assert Sorted(rank, hoist, fields)[i] == Field(f.key, Canon(rank, hoist, f.value));
  }

  lemma SortedOrigin(rank: Rank, hoist: bool, fields: seq<Field>, g: Field) returns (i: nat)
    requires g in Sorted(rank, hoist, fields)
    ensures i < |fields| && g == Field(fields[i].key, Canon(rank, hoist, fields[i].value))
  {
    hide Canon;
    SortMembers(rank, fields);
    var sorted := Sort(rank, fields);
    var k :| 0 <= k < |sorted| && Sorted(rank, hoist, fields)[k] == g;
    assert sorted[k] in fields;
    i :| 0 <= i < |fields| && fields[i] == sorted[k];
  }

  lemma LeafCanon(rank: Rank, v: Value)
    requires !v.Arr? && !v.Obj?
    ensures Canon(rank, true, v) == v
  {
  }

  lemma CanonOf(rank: Rank, hoist: bool, fields: seq<Field>)
    ensures Canon(rank, hoist, Obj(fields)).Obj?
    ensures Canon(rank, hoist, Obj(fields)).fields
         == if hoist then Hoist(Sorted(rank, hoist, fields)) else Sorted(rank, hoist, fields)
  {
    hide Sort, Hoist;
  }

  lemma CanonFieldsOf(rank: Rank, hoist: bool, fields: seq<Field>, e: Field)
    ensures var g := Canon(rank, hoist, Obj(fields)).fields;
            e in g <==> exists i | 0 <= i < |fields| :: e == Field(fields[i].key, Canon(rank, hoist, fields[i].value))
  {
    hide Hoist, Sort, CanonFields;
    var sorted := Sorted(rank, hoist, fields);
    HoistMembers(sorted);
    if e in sorted { var i := SortedOrigin(rank, hoist, fields, e); }
    forall i | 0 <= i < |fields| ensures Field(fields[i].key, Canon(rank, hoist, fields[i].value)) in sorted {
      SortedMember(rank, hoist, fields, fields[i]);
    }
  }

  lemma CanonHas(rank: Rank, hoist: bool, fields: seq<Field>, k: string)
    ensures Canon(rank, hoist, Obj(fields)).Obj?
    ensures HasKey(Canon(rank, hoist, Obj(fields)).fields, k) <==> HasKey(fields, k)
  {
    hide Canon;
    CanonOf(rank, hoist, fields);
    var g := Canon(rank, hoist, Obj(fields)).fields;
    if HasKey(g, k) {
      var e :| e in g && e.key == k;
      CanonFieldsOf(rank, hoist, fields, e);
      var i :| 0 <= i < |fields| && e == Field(fields[i].key, Canon(rank, hoist, fields[i].value));
      assert fields[i] in fields;
    }
    if HasKey(fields, k) {
      var i := KeyPlace(fields, k);
      CanonFieldsOf(rank, hoist, fields, Field(fields[i].key, Canon(rank, hoist, fields[i].value)));
    }
  }

  lemma KeyPlace(fields: seq<Field>, k: string) returns (i: nat)
    requires HasKey(fields, k)
    ensures i < |fields| && fields[i].key == k
  {
    var f :| f in fields && f.key == k;
    i :| 0 <= i < |fields| && fields[i] == f;
  }

  lemma CanonUnique(rank: Rank, hoist: bool, fields: seq<Field>)
    requires Unique(fields)
    ensures Canon(rank, hoist, Obj(fields)).Obj? && Unique(Canon(rank, hoist, Obj(fields)).fields)
    ensures hoist ==> NumericFirst(Canon(rank, hoist, Obj(fields)).fields)
  {
    hide Sort, Hoist, Sorted, Canon, NumericFirst;
    CanonOf(rank, hoist, fields);
    SortedUnique(rank, hoist, fields);
    HoistUnique(Sorted(rank, hoist, fields));
    HoistFixedIff(Sorted(rank, hoist, fields));
  }

  lemma SortedUnique(rank: Rank, hoist: bool, fields: seq<Field>)
    requires Unique(fields)
    ensures Unique(Sorted(rank, hoist, fields))
  {
    hide Sort;
    SortedKeys(rank, hoist, fields);
    SortUnique(rank, fields);
  }

  /** Which of two keys of an object the serializer writes first. */
  ghost predicate WrittenBefore(rank: Rank, hoist: bool, fields: seq<Field>, k1: string, k2: string) {
    if hoist && (IsIndex(k1) || IsIndex(k2)) then NumericBefore(k1, k2)
    else rank(k1) < rank(k2) || (rank(k1) == rank(k2) && Before(fields, k1, k2))
  }

  lemma CanonOrder(rank: Rank, hoist: bool, fields: seq<Field>, k1: string, k2: string)
    requires Unique(fields) && HasKey(fields, k1) && HasKey(fields, k2) && k1 != k2
    ensures Canon(rank, hoist, Obj(fields)).Obj?
    ensures Before(Canon(rank, hoist, Obj(fields)).fields, k1, k2) <==> WrittenBefore(rank, hoist, fields, k1, k2)
  {
    hide IsIndex, Sort, Hoist, Before, Sorted, SameKeys, Unique, Canon, HasKey, NumericBefore;
    SortOrder(rank, fields, k1, k2);
    SortedKeys(rank, hoist, fields);
    var sorted := Sorted(rank, hoist, fields);
    SameKeysBefore(Sort(rank, fields), sorted, k1, k2);
    CanonOf(rank, hoist, fields);
    SortedHas(rank, hoist, fields, k1);
    SortedHas(rank, hoist, fields, k2);
    SortedUnique(rank, hoist, fields);
    HoistOrder(sorted, k1, k2);
  }

  lemma SortedHas(rank: Rank, hoist: bool, fields: seq<Field>, k: string)
    ensures HasKey(Sorted(rank, hoist, fields), k) <==> HasKey(fields, k)
  {
    hide Sort, CanonFields;
    var sorted := Sorted(rank, hoist, fields);
    if HasKey(sorted, k) {
      var e :| e in sorted && e.key == k;
      var i := SortedOrigin(rank, hoist, fields, e);
      assert fields[i] in fields;
    }
    if HasKey(fields, k) {
      var f :| f in fields && f.key == k;
      SortedMember(rank, hoist, fields, f);
    }
  }

  // What equal canonical values mean.

  /** Canonicalization changes nothing but key order. */
  lemma {:induction false} CanonKeepsValue(rank: Rank, hoist: bool, v: Value)
    ensures SameValue(v, Canon(rank, hoist, v))
    decreases v
  {
    hide Hoist, Sort, CanonFields;
    match v {
      case Arr(items) =>
        forall i | 0 <= i < |items| ensures SameValue(items[i], Canon(rank, hoist, items[i])) {
          CanonKeepsValue(rank, hoist, items[i]);
        }
      case Obj(fields) =>
        var g := Canon(rank, hoist, v).fields;
        forall i | 0 <= i < |fields| ensures Among(fields[i], g) {
          CanonKeepsValue(rank, hoist, fields[i].value);
          var e := Field(fields[i].key, Canon(rank, hoist, fields[i].value));
          CanonFieldsOf(rank, hoist, fields, e);
          var j :| 0 <= j < |g| && g[j] == e;
          assert SameField(fields[i], g[j]);
        }
        forall j | 0 <= j < |g| ensures Covers(fields, g[j]) {
          CanonFieldsOf(rank, hoist, fields, g[j]);
          var i :| 0 <= i < |fields| && g[j] == Field(fields[i].key, Canon(rank, hoist, fields[i].value));
          CanonKeepsValue(rank, hoist, fields[i].value);
          assert SameField(fields[i], g[j]);
        }
      case _ =>
    }
  }

  /** Equal canonical values come from values that are equal up to key order. */
  lemma CanonSame(rank: Rank, hoist: bool, a: Value, b: Value)
    requires Canon(rank, hoist, a) == Canon(rank, hoist, b)
    ensures SameValue(a, b)
  {
    hide Canon, SameValue;
    CanonKeepsValue(rank, hoist, a);
    CanonKeepsValue(rank, hoist, b);
    SameSymmetric(b, Canon(rank, hoist, b));
    SameTransitive(a, Canon(rank, hoist, a), b);
  }

  /** The value under a key of a canonical object. */
  lemma CanonAt(rank: Rank, hoist: bool, f: seq<Field>, i: nat, g: seq<Field>, j: nat)
    requires i < |f| && j < |g| && f[i].key == g[j].key && Unique(g)
    requires Canon(rank, hoist, Obj(f)) == Canon(rank, hoist, Obj(g))
    ensures Canon(rank, hoist, f[i].value) == Canon(rank, hoist, g[j].value)
  {
    hide Canon;
    CanonOf(rank, hoist, f);
    var e := Field(f[i].key, Canon(rank, hoist, f[i].value));
    CanonFieldsOf(rank, hoist, f, e);
    CanonFieldsOf(rank, hoist, g, e);
    var k :| 0 <= k < |g| && e == Field(g[k].key, Canon(rank, hoist, g[k].value));
    OnePlace(g);
  }

  lemma CanonItem(rank: Rank, hoist: bool, x: seq<Value>, y: seq<Value>)
    ensures Canon(rank, hoist, Arr(x)) == Canon(rank, hoist, Arr(y))
            <==> |x| == |y| && forall i | 0 <= i < |x| :: Canon(rank, hoist, x[i]) == Canon(rank, hoist, y[i])
  {
    hide Sort, Hoist, CanonFields;
    var p, q := Canon(rank, hoist, Arr(x)).items, Canon(rank, hoist, Arr(y)).items;
    assert forall i | 0 <= i < |x| :: p[i] == Canon(rank, hoist, x[i]);
    assert forall i | 0 <= i < |y| :: q[i] == Canon(rank, hoist, y[i]);
    if |x| == |y| && forall i | 0 <= i < |x| :: Canon(rank, hoist, x[i]) == Canon(rank, hoist, y[i]) { assert p == q; }
  }

  lemma {:induction false} CanonTieOrder(rank: Rank, hoist: bool, a: Value, b: Value)
    requires UniqueKeys(a) && UniqueKeys(b) && Canon(rank, hoist, a) == Canon(rank, hoist, b)
    ensures SameTieOrder(rank, a, b)
    decreases a
  {
    hide Canon, Unique, Before, Tied;
    match (a, b) {
      case (Arr(x), Arr(y)) =>
        CanonItem(rank, hoist, x, y);
        forall i | 0 <= i < |x| && i < |y| ensures SameTieOrder(rank, x[i], y[i]) {
          CanonTieOrder(rank, hoist, x[i], y[i]);
        }
      case (Obj(f), Obj(g)) =>
        forall k1, k2 | Before(f, k1, k2) && Tied(rank, k1, k2) ensures Before(g, k1, k2) {
          TiedStay(rank, hoist, f, g, k1, k2);
        }
        forall i, j | 0 <= i < |f| && 0 <= j < |g| && f[i].key == g[j].key
          ensures SameTieOrder(rank, f[i].value, g[j].value)
        {
          CanonAt(rank, hoist, f, i, g, j);
          CanonTieOrder(rank, hoist, f[i].value, g[j].value);
        }
      case _ =>
    }
  }

  /** Tied keys come out in the order in which they went in. */
  lemma TiedStay(rank: Rank, hoist: bool, f: seq<Field>, g: seq<Field>, k1: string, k2: string)
    requires Unique(f) && Unique(g) && Canon(rank, hoist, Obj(f)) == Canon(rank, hoist, Obj(g))
    requires Before(f, k1, k2) && Tied(rank, k1, k2)
    ensures Before(g, k1, k2)
  {
    hide Canon, Unique, Before, HasKey, IsIndex;
    BeforeHas(f, k1, k2);
    CanonHas(rank, hoist, f, k1);
    CanonHas(rank, hoist, f, k2);
    CanonHas(rank, hoist, g, k1);
    CanonHas(rank, hoist, g, k2);
    CanonOrder(rank, hoist, f, k1, k2);
    CanonOrder(rank, hoist, g, k1, k2);
  }

  /** Every field of `f` has one in `g` with the same key and the same canonical value. */
  ghost predicate Covered(rank: Rank, hoist: bool, f: seq<Field>, g: seq<Field>) {
    forall i | 0 <= i < |f| :: Matched(rank, hoist, f[i], g)
  }

  ghost predicate Matched(rank: Rank, hoist: bool, x: Field, g: seq<Field>) {
    exists j | 0 <= j < |g| :: FieldsMatch(rank, hoist, x, g[j])
  }

  ghost predicate FieldsMatch(rank: Rank, hoist: bool, x: Field, y: Field) {
    x.key == y.key && Canon(rank, hoist, x.value) == Canon(rank, hoist, y.value)
  }

  lemma CoveredMembers(rank: Rank, hoist: bool, f: seq<Field>, g: seq<Field>)
    requires Covered(rank, hoist, f, g)
    ensures Canon(rank, hoist, Obj(f)).Obj? && Canon(rank, hoist, Obj(g)).Obj?
    ensures forall e <- Canon(rank, hoist, Obj(f)).fields :: e in Canon(rank, hoist, Obj(g)).fields
  {
    hide Canon;
    CanonOf(rank, hoist, f);
    CanonOf(rank, hoist, g);
    forall e | e in Canon(rank, hoist, Obj(f)).fields ensures e in Canon(rank, hoist, Obj(g)).fields {
      CanonFieldsOf(rank, hoist, f, e);
      var i :| 0 <= i < |f| && e == Field(f[i].key, Canon(rank, hoist, f[i].value));
      assert Matched(rank, hoist, f[i], g);
      var j :| 0 <= j < |g| && FieldsMatch(rank, hoist, f[i], g[j]);
      CanonFieldsOf(rank, hoist, g, e);
    }
  }

  /** Objects in memory with matching fields, tied ones in the same order, have one canonical form. */
  lemma MatchedCanon(rank: Rank, hoist: bool, f: seq<Field>, g: seq<Field>)
    requires Unique(f) && Unique(g) && NumericFirst(f) && NumericFirst(g)
    requires Covered(rank, hoist, f, g) && Covered(rank, hoist, g, f)
    requires forall k1, k2 | Before(f, k1, k2) && Tied(rank, k1, k2) :: Before(g, k1, k2)
    ensures Canon(rank, hoist, Obj(f)) == Canon(rank, hoist, Obj(g))
  {
    hide Canon, Covered, Unique, NumericFirst, Before, HasKey, Tied, WrittenBefore;
    CoveredMembers(rank, hoist, f, g);
    CoveredMembers(rank, hoist, g, f);
    CanonUnique(rank, hoist, f);
    CanonUnique(rank, hoist, g);
    var a, b := Canon(rank, hoist, Obj(f)).fields, Canon(rank, hoist, Obj(g)).fields;
    forall k1, k2 | Before(a, k1, k2) ensures Before(b, k1, k2) {
      BeforeHas(a, k1, k2);
      MembersHave(a, b, k1);
      MembersHave(a, b, k2);
      CanonHas(rank, hoist, f, k1);
      CanonHas(rank, hoist, f, k2);
      CanonHas(rank, hoist, g, k1);
      CanonHas(rank, hoist, g, k2);
      CanonOrder(rank, hoist, f, k1, k2);
      CanonOrder(rank, hoist, g, k1, k2);
      WrittenAlike(rank, hoist, f, g, k1, k2);
    }
    SameOrder(a, b);
  }

  lemma WrittenAlike(rank: Rank, hoist: bool, f: seq<Field>, g: seq<Field>, k1: string, k2: string)
    requires Unique(f) && Unique(g) && NumericFirst(f) && NumericFirst(g) && k1 != k2
    requires HasKey(f, k1) && HasKey(f, k2) && HasKey(g, k1) && HasKey(g, k2)
    requires Before(f, k1, k2) && Tied(rank, k1, k2) ==> Before(g, k1, k2)
    requires WrittenBefore(rank, hoist, f, k1, k2)
    ensures WrittenBefore(rank, hoist, g, k1, k2)
  {
    hide IsIndex, Before, HasKey, Unique, NumericFirst, NumericBefore;
    if IsIndex(k1) || IsIndex(k2) {
      NumericOrder(f, k1, k2);
      NumericOrder(g, k1, k2);
    }
  }

  /** Objects with the same keys at the same places have one canonical form when their values do. */
  lemma AlignedCanon(rank: Rank, hoist: bool, f: seq<Field>, g: seq<Field>)
    requires SameKeys(f, g) && Unique(f) && NumericFirst(f)
    ensures Canon(rank, hoist, Obj(f)) == Canon(rank, hoist, Obj(g))
            <==> forall i | 0 <= i < |f| :: Canon(rank, hoist, f[i].value) == Canon(rank, hoist, g[i].value)
  {
    hide Canon, NumericFirst, Before, Tied;
    SameKeysNumeric(f, g);
    if Canon(rank, hoist, Obj(f)) == Canon(rank, hoist, Obj(g)) {
      forall i | 0 <= i < |f| ensures Canon(rank, hoist, f[i].value) == Canon(rank, hoist, g[i].value) {
        CanonAt(rank, hoist, f, i, g, i);
      }
    }
    if forall i | 0 <= i < |f| :: Canon(rank, hoist, f[i].value) == Canon(rank, hoist, g[i].value) {
      forall i | 0 <= i < |f| ensures Matched(rank, hoist, f[i], g) && Matched(rank, hoist, g[i], f) {
        assert FieldsMatch(rank, hoist, f[i], g[i]) && FieldsMatch(rank, hoist, g[i], f[i]);
      }
      forall k1, k2 | Before(f, k1, k2) ensures Before(g, k1, k2) { SameKeysBefore(f, g, k1, k2); }
      MatchedCanon(rank, hoist, f, g);
    }
  }

  lemma {:induction false} SameCanon(rank: Rank, hoist: bool, a: Value, b: Value)
    requires InMemory(a) && InMemory(b) && SameValue(a, b) && SameTieOrder(rank, a, b)
    ensures Canon(rank, hoist, a) == Canon(rank, hoist, b)
    decreases a, 1
  {
    hide Canon, Unique, NumericFirst, Before, Tied, Among, Covers;
    match (a, b) {
      case (Arr(x), Arr(y)) =>
        forall i | 0 <= i < |x| ensures Canon(rank, hoist, x[i]) == Canon(rank, hoist, y[i]) {
          SameCanon(rank, hoist, x[i], y[i]);
        }
        CanonItem(rank, hoist, x, y);
      case (Obj(f), Obj(g)) =>
        forall i | 0 <= i < |f| ensures Matched(rank, hoist, f[i], g) { MatchAmong(rank, hoist, f, i, g); }
        forall j | 0 <= j < |g| ensures Matched(rank, hoist, g[j], f) { MatchCovered(rank, hoist, f, g, j); }
        MatchedCanon(rank, hoist, f, g);
      case _ =>
    }
  }

  lemma {:induction false} MatchAmong(rank: Rank, hoist: bool, f: seq<Field>, i: nat, g: seq<Field>)
    requires i < |f| && Among(f[i], g) && FieldsTieOrder(rank, f, g)
    requires InMemory(f[i].value) && forall j | 0 <= j < |g| :: InMemory(g[j].value)
    ensures Matched(rank, hoist, f[i], g)
    decreases Obj(f), 0
  {
    hide Canon, SameValue, InMemory, SameTieOrder;
    var j :| 0 <= j < |g| && SameField(f[i], g[j]);
    SameCanon(rank, hoist, f[i].value, g[j].value);
    assert FieldsMatch(rank, hoist, f[i], g[j]);
  }

  lemma {:induction false} MatchCovered(rank: Rank, hoist: bool, f: seq<Field>, g: seq<Field>, j: nat)
    requires j < |g| && Covers(f, g[j]) && FieldsTieOrder(rank, f, g)
    requires InMemory(g[j].value) && forall i | 0 <= i < |f| :: InMemory(f[i].value)
    ensures Matched(rank, hoist, g[j], f)
    decreases Obj(f), 0
  {
    hide Canon, SameValue, InMemory, SameTieOrder;
    var i :| 0 <= i < |f| && SameField(f[i], g[j]);
    SameCanon(rank, hoist, f[i].value, g[j].value);
    assert FieldsMatch(rank, hoist, g[j], f[i]);
  }

  lemma {:induction false} MemoryUnique(v: Value)
    requires InMemory(v)
    ensures UniqueKeys(v)
    decreases v
  {
    hide Unique, NumericFirst;
    match v {
      case Arr(items) => forall i | 0 <= i < |items| ensures UniqueKeys(items[i]) { MemoryUnique(items[i]); }
      case Obj(fields) =>
        forall i | 0 <= i < |fields| ensures UniqueKeys(fields[i].value) { MemoryUnique(fields[i].value); }
      case _ =>
    }
  }

  /** In memory, one canonical form means equal up to key order, and ties in the same order. */
  lemma CanonIffSame(rank: Rank, hoist: bool, a: Value, b: Value)
    requires InMemory(a) && InMemory(b)
    ensures Canon(rank, hoist, a) == Canon(rank, hoist, b) <==> SameValue(a, b) && SameTieOrder(rank, a, b)
  {
    hide Canon, SameValue, SameTieOrder, InMemory, UniqueKeys;
    MemoryUnique(a);
    MemoryUnique(b);
    if Canon(rank, hoist, a) == Canon(rank, hoist, b) {
      CanonSame(rank, hoist, a, b);
      CanonTieOrder(rank, hoist, a, b);
    }
    if SameValue(a, b) && SameTieOrder(rank, a, b) { SameCanon(rank, hoist, a, b); }
  }

  /** A value without ties has no tied keys to come in another order. */
  lemma {:induction false} NothingTied(rank: Rank, a: Value, b: Value)
    requires NoTies(rank, a)
    ensures SameTieOrder(rank, a, b)
    decreases a
  {
    hide Tied;
    match (a, b) {
      case (Arr(x), Arr(y)) =>
        forall i | 0 <= i < |x| && i < |y| ensures SameTieOrder(rank, x[i], y[i]) { NothingTied(rank, x[i], y[i]); }
      case (Obj(f), Obj(g)) =>
        forall i, j | 0 <= i < |f| && 0 <= j < |g| && f[i].key == g[j].key
          ensures SameTieOrder(rank, f[i].value, g[j].value)
        {
          NothingTied(rank, f[i].value, g[j].value);
        }
      case _ =>
    }
  }

  // Texts.

  lemma {:induction false} CanonFinite(rank: Rank, hoist: bool, v: Value)
    requires Finite(v)
    ensures Finite(Canon(rank, hoist, v))
    decreases v
  {
    hide IsNumeral, Hoist, Sort;
    match v {
      case Arr(items) =>
        forall i | 0 <= i < |items| ensures Finite(Canon(rank, hoist, items[i])) { CanonFinite(rank, hoist, items[i]); }
      case Obj(fields) =>
        var sorted := Sorted(rank, hoist, fields);
        HoistMembers(sorted);
        var final := Canon(rank, hoist, v).fields;
        forall k | 0 <= k < |final| ensures Finite(final[k].value) {
          assert final[k] in final;
          assert final[k] in sorted;
          var i := SortedOrigin(rank, hoist, fields, final[k]);
          CanonFinite(rank, hoist, fields[i].value);
        }
      case _ =>
    }
  }

  lemma TextIffCanon(rank: Rank, hoist: bool, a: Value, b: Value)
    requires Finite(a) && Finite(b)
    ensures TextOf(Canon(rank, hoist, a)) == TextOf(Canon(rank, hoist, b))
            <==> Canon(rank, hoist, a) == Canon(rank, hoist, b)
  {
    hide TextOf, Canon, Finite, Parse;
    CanonFinite(rank, hoist, a);
    CanonFinite(rank, hoist, b);
    ParseText(Canon(rank, hoist, a));
    ParseText(Canon(rank, hoist, b));
  }

  /**
   * The text is a faithful name for the value, for both serializers: equal texts mean values that are
   * equal up to key order, whatever the collation. In memory two values have the same text exactly when
   * they are equal up to key order and the keys the collation cannot tell apart come in the same order;
   * where there are no such keys, exactly when they are equal up to key order.
   */
  lemma TextIffSame(rank: Rank, hoist: bool, a: Value, b: Value)
    requires Finite(a) && Finite(b)
    ensures TextOf(Canon(rank, hoist, a)) == TextOf(Canon(rank, hoist, b)) ==> SameValue(a, b)
    ensures InMemory(a) && InMemory(b) ==>
              (TextOf(Canon(rank, hoist, a)) == TextOf(Canon(rank, hoist, b))
               <==> SameValue(a, b) && SameTieOrder(rank, a, b))
    ensures InMemory(a) && InMemory(b) && NoTies(rank, a) ==>
              (TextOf(Canon(rank, hoist, a)) == TextOf(Canon(rank, hoist, b)) <==> SameValue(a, b))
  {
    hide TextOf, Canon, Finite, NoTies, SameValue, InMemory, SameTieOrder;
    TextIffCanon(rank, hoist, a, b);
    if Canon(rank, hoist, a) == Canon(rank, hoist, b) { CanonSame(rank, hoist, a, b); }
    if InMemory(a) && InMemory(b) { CanonIffSame(rank, hoist, a, b); }
    if NoTies(rank, a) { NothingTied(rank, a, b); }
  }

  // Reading a canonical text back.

  /** An object built from the fields in the given order: index keys first, the others as they came. */
  ghost function Remembered(v: Value): Value { Canon((k: string) => 0.0, true, v) }

  lemma {:induction false} CanonInMemory(rank: Rank, hoist: bool, v: Value)
    requires UniqueKeys(v)
    ensures UniqueKeys(Canon(rank, hoist, v)) && (hoist ==> InMemory(Canon(rank, hoist, v)))
    decreases v
  {
    hide Hoist, Sort, Unique, NumericFirst, CanonFields;
    match v {
      case Arr(items) =>
        forall i | 0 <= i < |items|
          ensures UniqueKeys(Canon(rank, hoist, items[i])) && (hoist ==> InMemory(Canon(rank, hoist, items[i])))
        {
          CanonInMemory(rank, hoist, items[i]);
        }
      case Obj(fields) =>
        var g := Canon(rank, hoist, v).fields;
        CanonUnique(rank, hoist, fields);
        forall j | 0 <= j < |g| ensures UniqueKeys(g[j].value) && (hoist ==> InMemory(g[j].value)) {
          CanonFieldsOf(rank, hoist, fields, g[j]);
          var i :| 0 <= i < |fields| && g[j] == Field(fields[i].key, Canon(rank, hoist, fields[i].value));
          CanonInMemory(rank, hoist, fields[i].value);
        }
      case _ =>
    }
  }

  /** A serializer whose collation ties no less keeps the order of ties. */
  lemma {:induction false} CanonKeepsTies(rank: Rank, other: Rank, hoist: bool, v: Value)
    requires UniqueKeys(v) && forall k1, k2 | rank(k1) == rank(k2) :: other(k1) == other(k2)
    ensures SameTieOrder(rank, v, Canon(other, hoist, v))
    decreases v
  {
    hide Hoist, Sort, Unique, CanonFields, Before, Tied;
    match v {
      case Arr(items) =>
        forall i | 0 <= i < |items| ensures SameTieOrder(rank, items[i], Canon(other, hoist, items[i])) {
          CanonKeepsTies(rank, other, hoist, items[i]);
        }
      case Obj(fields) =>
        var g := Canon(other, hoist, v).fields;
        forall k1, k2 | Before(fields, k1, k2) && Tied(rank, k1, k2) ensures Before(g, k1, k2) {
          TieKept(rank, other, hoist, fields, k1, k2);
        }
        forall i, j | 0 <= i < |fields| && 0 <= j < |g| && fields[i].key == g[j].key
          ensures SameTieOrder(rank, fields[i].value, g[j].value)
        {
          CanonFieldsOf(other, hoist, fields, g[j]);
          var k :| 0 <= k < |fields| && g[j] == Field(fields[k].key, Canon(other, hoist, fields[k].value));
          OnePlace(fields);
          CanonKeepsTies(rank, other, hoist, fields[i].value);
        }
      case _ =>
    }
  }

  lemma TieKept(rank: Rank, other: Rank, hoist: bool, fields: seq<Field>, k1: string, k2: string)
    requires Unique(fields) && Before(fields, k1, k2) && Tied(rank, k1, k2)
    requires rank(k1) == rank(k2) ==> other(k1) == other(k2)
    ensures Canon(other, hoist, Obj(fields)).Obj? && Before(Canon(other, hoist, Obj(fields)).fields, k1, k2)
  {
    hide Canon, Unique, Before, HasKey, IsIndex;
    BeforeHas(fields, k1, k2);
    CanonOrder(other, hoist, fields, k1, k2);
  }

  lemma {:induction false} TieOrderTransitive(rank: Rank, a: Value, b: Value, c: Value)
    requires SameValue(a, b) && SameTieOrder(rank, a, b) && SameTieOrder(rank, b, c)
    ensures SameTieOrder(rank, a, c)
    decreases a, 1
  {
    hide Before, Tied, Among, Covers;
    match (a, b, c) {
      case (Arr(x), Arr(y), Arr(z)) =>
        forall i | 0 <= i < |x| && i < |z| ensures SameTieOrder(rank, x[i], z[i]) {
          TieOrderTransitive(rank, x[i], y[i], z[i]);
        }
      case (Obj(f), Obj(g), Obj(e)) =>
        forall i, k | 0 <= i < |f| && 0 <= k < |e| && f[i].key == e[k].key
          ensures SameTieOrder(rank, f[i].value, e[k].value)
        {
          FieldTieOrder(rank, f, i, g, e, k);
        }
      case _ =>
    }
  }

  lemma {:induction false} FieldTieOrder(rank: Rank, f: seq<Field>, i: nat, g: seq<Field>, e: seq<Field>, k: nat)
    requires i < |f| && k < |e| && f[i].key == e[k].key && Among(f[i], g)
    requires FieldsTieOrder(rank, f, g) && FieldsTieOrder(rank, g, e)
    ensures SameTieOrder(rank, f[i].value, e[k].value)
    decreases Obj(f), 0
  {
    hide SameValue, SameTieOrder;
    var j :| 0 <= j < |g| && SameField(f[i], g[j]);
    TieOrderTransitive(rank, f[i].value, g[j].value, e[k].value);
  }

  /** Parsing a canonical text gives the value back up to key order, and serializing that again gives the same text. */
  lemma ReserializeParsed(rank: Rank, hoist: bool, v: Value)
    requires Finite(v) && InMemory(v)
    ensures var text := TextOf(Canon(rank, hoist, v));
            && Parse(text).Some? && SameValue(v, Remembered(Parse(text).value))
            && TextOf(Canon(rank, hoist, Remembered(Parse(text).value))) == text
  {
    hide TextOf, Canon, Finite, Parse, SameValue, InMemory, UniqueKeys, SameTieOrder;
    var c := Canon(rank, hoist, v);
    CanonFinite(rank, hoist, v);
    ParseText(c);
    MemoryUnique(v);
    CanonInMemory(rank, hoist, v);
    var zero := (k: string) => 0.0;
    CanonInMemory(zero, true, c);
    CanonKeepsValue(rank, hoist, v);
    CanonKeepsValue(zero, true, c);
    SameTransitive(v, c, Remembered(c));
    CanonKeepsTies(rank, rank, hoist, v);
    CanonKeepsTies(rank, zero, true, c);
    TieOrderTransitive(rank, v, c, Remembered(c));
    SameCanon(rank, hoist, v, Remembered(c));
  }

  // The two serializers.

  lemma {:induction false} ItemsJoined(rank: Rank, whole: Value, items: seq<Value>)
    requires forall i | 0 <= i < |items| :: items[i] < whole
    ensures Join(PolicyItems(rank, whole, items), ",") == ItemsText(CanonItems(rank, false, whole, items))
    decreases whole, 0, |items|
  {
    hide Canon, PolicyText, TextOf;
    if items != [] {
      PolicyWritesCanon(rank, items[0]);
      ItemsJoined(rank, whole, items[1..]);
      assert CanonItems(rank, false, whole, items)[1..] == CanonItems(rank, false, whole, items[1..]);
      assert PolicyItems(rank, whole, items)[1..] == PolicyItems(rank, whole, items[1..]);
      assert |items| == 1 ==> PolicyItems(rank, whole, items) == [PolicyText(rank, items[0])];
    }
  }

  lemma {:induction false} FieldsJoined(rank: Rank, whole: Value, fields: seq<Field>)
    requires forall f <- fields :: f.value < whole
    ensures Join(PolicyFields(rank, whole, fields), ",") == FieldsText(CanonFields(rank, false, whole, fields))
    decreases whole, 0, |fields|
  {
    hide Canon, PolicyText, TextOf, Quote, Sort;
    if fields != [] {
      assert fields[0] in fields;
      PolicyWritesCanon(rank, fields[0].value);
      FieldsJoined(rank, whole, fields[1..]);
      assert CanonFields(rank, false, whole, fields)[1..] == CanonFields(rank, false, whole, fields[1..]);
      assert PolicyFields(rank, whole, fields)[1..] == PolicyFields(rank, whole, fields[1..]);
    }
  }

  /** The direct serializer writes the text of the value with sorted keys. */
  lemma {:induction false} PolicyWritesCanon(rank: Rank, v: Value)
    ensures PolicyText(rank, v) == TextOf(Canon(rank, false, v))
    decreases v, 0
  {
    hide Sort, CanonFields, CanonItems, PolicyItems, PolicyFields;
    match v {
      case Arr(items) => ItemsJoined(rank, v, items);
      case Obj(fields) =>
        SortMembers(rank, fields);
        FieldsJoined(rank, v, Sort(rank, fields));
      case _ =>
    }
  }

  /** In the collation's order, the index keys of every object already come first and in numeric order. */
  predicate NumericKeysFirst(rank: Rank, v: Value) {
    match v
    case Arr(items) => forall i | 0 <= i < |items| :: NumericKeysFirst(rank, items[i])
    case Obj(fields) =>
      NumericFirst(Sort(rank, fields)) && forall i | 0 <= i < |fields| :: NumericKeysFirst(rank, fields[i].value)
    case _ => true
  }

  /** A new object changes the order of sorted keys exactly when index keys are not first and in numeric order. */
  lemma {:induction false} CanonsAgreeIff(rank: Rank, v: Value)
    ensures Canon(rank, true, v) == Canon(rank, false, v) <==> NumericKeysFirst(rank, v)
    decreases v, 1
  {
    hide Sort, Hoist, NumericFirst;
    match v {
      case Arr(items) =>
        forall i | 0 <= i < |items|
          ensures Canon(rank, true, items[i]) == Canon(rank, false, items[i]) <==> NumericKeysFirst(rank, items[i])
        {
          CanonsAgreeIff(rank, items[i]);
        }
        ItemsAgreeIff(rank, items);
      case Obj(fields) => ObjectsAgreeIff(rank, fields);
      case _ =>
    }
  }

  lemma ItemsAgreeIff(rank: Rank, items: seq<Value>)
    ensures Canon(rank, true, Arr(items)) == Canon(rank, false, Arr(items))
            <==> forall i | 0 <= i < |items| :: Canon(rank, true, items[i]) == Canon(rank, false, items[i])
  {
    hide Sort, Hoist, CanonFields;
    var x, y := Canon(rank, true, Arr(items)).items, Canon(rank, false, Arr(items)).items;
    forall i | 0 <= i < |items| ensures x[i] == Canon(rank, true, items[i]) && y[i] == Canon(rank, false, items[i]) { }
    if forall i | 0 <= i < |items| :: Canon(rank, true, items[i]) == Canon(rank, false, items[i]) { assert x == y; }
  }

  lemma {:induction false} ObjectsAgreeIff(rank: Rank, fields: seq<Field>)
    ensures Canon(rank, true, Obj(fields)) == Canon(rank, false, Obj(fields)) <==> NumericKeysFirst(rank, Obj(fields))
    decreases Obj(fields), 0
  {
    hide Sort, Hoist, NumericFirst, Canon, Sorted;
    var s, t := Sorted(rank, true, fields), Sorted(rank, false, fields);
    forall i | 0 <= i < |fields|
      ensures Canon(rank, true, fields[i].value) == Canon(rank, false, fields[i].value)
              <==> NumericKeysFirst(rank, fields[i].value)
    {
      CanonsAgreeIff(rank, fields[i].value);
    }
    SortedAgreeIff(rank, fields);
    CanonOf(rank, true, fields);
    CanonOf(rank, false, fields);
    SortedKeys(rank, true, fields);
    SortedKeys(rank, false, fields);
    SameKeysNumeric(s, Sort(rank, fields));
    SameKeysNumeric(t, Sort(rank, fields));
    HoistFixedIff(s);
  }

  lemma SortedAgreeIff(rank: Rank, fields: seq<Field>)
    ensures Sorted(rank, true, fields) == Sorted(rank, false, fields)
            <==> forall i | 0 <= i < |fields| ::
                Canon(rank, true, fields[i].value) == Canon(rank, false, fields[i].value)
  {
    hide Canon, Sort;
    var s, t, sorted := Sorted(rank, true, fields), Sorted(rank, false, fields), Sort(rank, fields);
    SortMembers(rank, fields);
    if s == t {
      forall i | 0 <= i < |fields| ensures Canon(rank, true, fields[i].value) == Canon(rank, false, fields[i].value) {
        assert fields[i] in fields;
        var k :| 0 <= k < |sorted| && sorted[k] == fields[i];
        assert s[k] == t[k];
      }
    }
    if forall i | 0 <= i < |fields| :: Canon(rank, true, fields[i].value) == Canon(rank, false, fields[i].value) {
      forall k | 0 <= k < |sorted| ensures s[k] == t[k] {
        assert sorted[k] in fields;
        var i :| 0 <= i < |fields| && fields[i] == sorted[k];
      }
    }
  }

  /**
   * The two serializers write the same text for a value exactly when, in every object of it, the
   * sorted keys have the index keys first and in numeric order.
   */
  lemma SerializersAgree(rank: Rank, v: Value)
    requires Finite(v)
    ensures CanonicalText(rank, v) == PolicyText(rank, v) <==> NumericKeysFirst(rank, v)
  {
    hide Canon, TextOf, PolicyText, NumericKeysFirst, Finite;
    CanonsAgreeIff(rank, v);
    PolicyWritesCanon(rank, v);
    CanonFinite(rank, true, v);
    CanonFinite(rank, false, v);
    if Canon(rank, true, v) != Canon(rank, false, v) { TextsDiffer(Canon(rank, true, v), Canon(rank, false, v)); }
  }

  lemma TextsDiffer(a: Value, b: Value)
    requires Finite(a) && Finite(b) && a != b
    ensures TextOf(a) != TextOf(b)
  {
    hide TextOf, Parse, Finite;
    ParseText(a);
    ParseText(b);
  }

  function Pair(first: string, second: string): Value { Obj([Field(first, Null), Field(second, Null)]) }

  /** Collation puts "10" before "9", an object enumerates 9 first. */
  lemma IndexKeysSplitSerializers(rank: Rank)
    requires rank("10") < rank("9")
    ensures CanonicalText(rank, Pair("9", "10")) != PolicyText(rank, Pair("9", "10"))
  {
    hide CanonicalText, PolicyText;
    var nine, ten := Field("9", Null), Field("10", Null);
    assert [nine, ten][1..] == [ten] && [ten][1..] == [];
    assert Sort(rank, [ten]) == [ten];
    assert Sort(rank, [nine, ten]) == [ten] + Insert(rank, nine, []) == [ten, nine];
    IndexValues();
    assert !NumericFirst([ten, nine]) by { assert IndexRank([ten, nine][0].key) > IndexRank([ten, nine][1].key); }
    SerializersAgree(rank, Pair("9", "10"));
  }

  lemma IndexValues()
    ensures IsIndex("10") && IsIndex("9") && DigitsValue("10") == 10 && DigitsValue("9") == 9
  {
    assert "10"[..1] == "1" && "1"[..0] == "" && "9"[..0] == "";
    assert DigitsValue("1") == 1;
  }

  // Exactly when the text is the value's own.

  /** Two fields of an object exchanged. */
  function Swapped(fields: seq<Field>, i: nat, j: nat): seq<Field>
    requires i < j < |fields|
  {
    fields[i := fields[j]][j := fields[i]]
  }

  lemma SwapSame(fields: seq<Field>, i: nat, j: nat)
    requires i < j < |fields|
    ensures SameValue(Obj(fields), Obj(Swapped(fields, i, j)))
  {
    var g := Swapped(fields, i, j);
    forall k | 0 <= k < |fields| ensures Among(fields[k], g) && Covers(fields, g[k]) {
      SelfSame(fields[k].value);
      SelfSame(g[k].value);
      var l := if k == i then j else if k == j then i else k;
      assert SameField(fields[k], g[l]) && SameField(fields[l], g[k]);
    }
  }

  lemma SwapCanon(rank: Rank, hoist: bool, fields: seq<Field>, i: nat, j: nat)
    requires i < j < |fields| && Unique(fields) && Tied(rank, fields[i].key, fields[j].key)
    ensures Canon(rank, hoist, Obj(fields)) != Canon(rank, hoist, Obj(Swapped(fields, i, j)))
  {
    hide Canon, IsIndex;
    var k1, k2, g := fields[i].key, fields[j].key, Swapped(fields, i, j);
    assert g[i].key == k2 && g[j].key == k1;
    assert Before(fields, k1, k2) && Before(g, k2, k1);
    SwapUnique(fields, i, j);
    BeforeHas(g, k2, k1);
    OneBefore(g, k1, k2);
    if Canon(rank, hoist, Obj(fields)) == Canon(rank, hoist, Obj(g)) { TiedStay(rank, hoist, fields, g, k1, k2); }
  }

  lemma SwapUnique(fields: seq<Field>, i: nat, j: nat)
    requires i < j < |fields| && Unique(fields)
    ensures Unique(Swapped(fields, i, j))
    ensures NumericFirst(fields) && !IsIndex(fields[i].key) && !IsIndex(fields[j].key) ==>
              NumericFirst(Swapped(fields, i, j))
  {
    hide IsIndex, IndexRank;
    OnePlace(fields);
    var g := Swapped(fields, i, j);
    forall a, b | 0 <= a < b < |g| ensures g[a].key != g[b].key { }
  }

  /** A field given another value: the text changes if the value's does. */
  lemma FieldCanon(rank: Rank, hoist: bool, fields: seq<Field>, i: nat, u: Value)
    requires i < |fields| && Unique(fields) && Canon(rank, hoist, u) != Canon(rank, hoist, fields[i].value)
    ensures Canon(rank, hoist, Obj(fields)) != Canon(rank, hoist, Obj(fields[i := Field(fields[i].key, u)]))
  {
    hide Canon;
    var g := fields[i := Field(fields[i].key, u)];
    assert g[i].key == fields[i].key && g[i].value == u;
    if Canon(rank, hoist, Obj(g)) == Canon(rank, hoist, Obj(fields)) { CanonAt(rank, hoist, g, i, fields, i); }
  }

  lemma FieldSame(fields: seq<Field>, i: nat, u: Value)
    requires i < |fields| && InMemory(Obj(fields)) && Finite(Obj(fields))
    requires Twin(fields[i].value, u)
    ensures Twin(Obj(fields), Obj(fields[i := Field(fields[i].key, u)]))
  {
    hide SameValue, IsIndex, IndexRank;
    var g := fields[i := Field(fields[i].key, u)];
    OnePlace(fields);
    SameKeysNumeric(fields, g);
    forall k | 0 <= k < |fields| ensures SameValue(fields[k].value, g[k].value) { SelfSame(fields[k].value); }
    AlignedSame(fields, g);
  }

  lemma ItemSame(rank: Rank, hoist: bool, items: seq<Value>, i: nat, u: Value)
    requires i < |items| && InMemory(Arr(items)) && Finite(Arr(items)) && Twin(items[i], u)
    requires Canon(rank, hoist, items[i]) != Canon(rank, hoist, u)
    ensures Twin(Arr(items), Arr(items[i := u]))
    ensures Canon(rank, hoist, Arr(items)) != Canon(rank, hoist, Arr(items[i := u]))
  {
    hide Canon;
    var g := items[i := u];
    forall k | 0 <= k < |items| ensures SameValue(items[k], g[k]) { SelfSame(items[k]); }
    CanonItem(rank, hoist, items, g);
    assert g[i] == u;
  }

  /** The same value up to key order, as another object in memory could be. */
  ghost predicate Twin(v: Value, w: Value) { Finite(w) && InMemory(w) && SameValue(v, w) }

  /** A value with a tie has a twin with another text. */
  lemma {:induction false} TiedTwin(rank: Rank, hoist: bool, v: Value) returns (w: Value)
    requires Finite(v) && InMemory(v) && !NoTies(rank, v)
    ensures Twin(v, w) && Canon(rank, hoist, v) != Canon(rank, hoist, w)
    decreases v
  {
    hide Canon, SameValue, Unique, NumericFirst, Tied;
    match v {
      case Arr(items) =>
        var i :| 0 <= i < |items| && !NoTies(rank, items[i]);
        var u := TiedTwin(rank, hoist, items[i]);
        ItemSame(rank, hoist, items, i, u);
        return Arr(items[i := u]);
      case Obj(fields) =>
        if Untied(rank, fields) {
          var i :| 0 <= i < |fields| && !NoTies(rank, fields[i].value);
          var u := TiedTwin(rank, hoist, fields[i].value);
          FieldCanon(rank, hoist, fields, i, u);
          FieldSame(fields, i, u);
          return Obj(fields[i := Field(fields[i].key, u)]);
        } else {
          var i, j :| 0 <= i < j < |fields| && Tied(rank, fields[i].key, fields[j].key);
          SwapCanon(rank, hoist, fields, i, j);
          SwapSame(fields, i, j);
          SwapFits(rank, fields, i, j);
          return Obj(Swapped(fields, i, j));
        }
    }
  }

  lemma SwapFits(rank: Rank, fields: seq<Field>, i: nat, j: nat)
    requires i < j < |fields| && InMemory(Obj(fields)) && Finite(Obj(fields))
    requires Tied(rank, fields[i].key, fields[j].key)
    ensures InMemory(Obj(Swapped(fields, i, j))) && Finite(Obj(Swapped(fields, i, j)))
  {
    hide Unique, NumericFirst, IsIndex;
    SwapUnique(fields, i, j);
  }

  /**
   * Every object in memory that is the same up to key order has the same text, if and only if no object
   * of the value has two keys, both no index keys, that the collation cannot tell apart.
   */
  lemma TextUniqueIff(rank: Rank, hoist: bool, v: Value)
    requires Finite(v) && InMemory(v)
    ensures NoTies(rank, v)
            <==> forall w | Twin(v, w) :: TextOf(Canon(rank, hoist, w)) == TextOf(Canon(rank, hoist, v))
  {
    hide TextOf, Canon, Finite, NoTies, SameValue, InMemory, SameTieOrder;
    if NoTies(rank, v) {
      forall w | Twin(v, w) ensures TextOf(Canon(rank, hoist, w)) == TextOf(Canon(rank, hoist, v)) {
        TextIffSame(rank, hoist, v, w);
      }
    } else {
      var w := TiedTwin(rank, hoist, v);
      TextIffCanon(rank, hoist, v, w);
    }
  }

  /**
   * Two different keys, both no index keys, that the collation cannot tell apart keep their insertion
   * order, so the two orders of such an object are the same value with different texts.
   */
  lemma TiedKeysSplitTexts(rank: Rank, hoist: bool, k1: string, k2: string)
    requires k1 != k2 && Tied(rank, k1, k2)
    ensures InMemory(Pair(k1, k2)) && InMemory(Pair(k2, k1)) && SameValue(Pair(k1, k2), Pair(k2, k1))
    ensures TextOf(Canon(rank, hoist, Pair(k1, k2))) != TextOf(Canon(rank, hoist, Pair(k2, k1)))
  {
    hide IsIndex, Canon, TextOf, SameValue;
    var fields := [Field(k1, Null), Field(k2, Null)];
    assert Swapped(fields, 0, 1) == [Field(k2, Null), Field(k1, Null)];
    SwapSame(fields, 0, 1);
    SwapCanon(rank, hoist, fields, 0, 1);
    TextIffCanon(rank, hoist, Pair(k1, k2), Pair(k2, k1));
  }
}
