/** `digestGitTreeEntries`: the digest by which the created tree is compared with the predicted one. */
module TreeDigest {
  import opened Json
  import opened KeyOrder
  import opened CanonicalJson
  import opened TreeRewrite

  /** An entry of a tree listing; only those of kind "blob" are digested. */
  datatype TreeEntry = TreeEntry(path: string, mode: string, kind: string, sha: string)

  function LowerChar(c: char): char { if 'A' <= c <= 'Z' then (c as int + 32) as char else c }

  /** `toLowerCase` on hexadecimal text. */
  function Lower(s: string): string { if s == "" then "" else [LowerChar(s[0])] + Lower(s[1..]) }

  /** The object digested for a blob. */
  function BlobValue(path: string, e: Entry): Value {
    Obj([Field("mode", Str(e.mode)), Field("path", Str(path)), Field("sha", Str(e.sha))])
  }

  /** The blobs of a listing, each under its path. */
  function BlobFields(entries: seq<TreeEntry>): seq<Field> {
    if entries == [] then []
    else
      var e := entries[0];
      (if e.kind == "blob" then [Field(e.path, BlobValue(e.path, Entry(e.mode, Lower(e.sha))))] else [])
          + BlobFields(entries[1..])
  }

  function Values(fields: seq<Field>): (r: seq<Value>)
    ensures |r| == |fields| && forall i | 0 <= i < |fields| :: r[i] == fields[i].value
  {
    if fields == [] then [] else [fields[0].value] + Values(fields[1..])
  }

  /** What is hashed: the blobs sorted by path, in canonical JSON. */
  ghost function DigestText(rank: Rank, entries: seq<TreeEntry>): string {
    CanonicalText(rank, Arr(Values(Sort(rank, BlobFields(entries)))))
  }

  ghost function Digest(hash: string -> string, rank: Rank, entries: seq<TreeEntry>): string {
    hash(DigestText(rank, entries))
  }

  ghost predicate Injective(hash: string -> string) { forall a, b :: hash(a) == hash(b) ==> a == b }

  /** `low` is `s` with the letters A to Z in lower case. */
  ghost predicate LowerOf(s: string, low: string) {
    && |low| == |s|
    && forall i | 0 <= i < |s| ::
         low[i] as int == s[i] as int + if 'A' <= s[i] <= 'Z' then 'a' as int - 'A' as int else 0
  }

  predicate IsBlob(e: TreeEntry) { e.kind == "blob" }

  /** `entries` list exactly the blobs of `blobs`, each once, under any case of their names. */
  ghost predicate Lists(entries: seq<TreeEntry>, blobs: Blobs) {
    && (forall i, j | 0 <= i < j < |entries| && IsBlob(entries[i]) && IsBlob(entries[j]) ::
          entries[i].path != entries[j].path)
    && (forall e <- entries | IsBlob(e) ::
          e.path in blobs && blobs[e.path].mode == e.mode && LowerOf(e.sha, blobs[e.path].sha))
    && (forall path | path in blobs :: exists e <- entries :: IsBlob(e) && e.path == path)
  }

  /** The blob at `p` is listed before the one at `q`. */
  ghost predicate ListedBefore(entries: seq<TreeEntry>, p: string, q: string) {
    exists i, j | 0 <= i < j < |entries| ::
      IsBlob(entries[i]) && entries[i].path == p && IsBlob(entries[j]) && entries[j].path == q
  }

  /** Paths that the collation cannot tell apart come in the same order in both listings. */
  ghost predicate SameTiedPaths(rank: Rank, a: seq<TreeEntry>, b: seq<TreeEntry>) {
    forall p, q | rank(p) == rank(q) :: ListedBefore(a, p, q) <==> ListedBefore(b, p, q)
  }

  // What the listings are in terms of the fields that are sorted.

  predicate FieldsAre(fields: seq<Field>, blobs: Blobs) {
    && Unique(fields)
    && (forall f <- fields :: f.key in blobs && f.value == BlobValue(f.key, blobs[f.key]))
    && (forall path | path in blobs :: Field(path, BlobValue(path, blobs[path])) in fields)
  }

  lemma {:induction false} LowerIs(s: string, low: string)
    ensures LowerOf(s, low) <==> Lower(s) == low
  {
    if s != "" && low != "" {
      LowerIs(s[1..], low[1..]);
      assert low == [low[0]] + low[1..];
      if LowerOf(s, low) {
        forall i | 0 <= i < |s[1..]|
          ensures low[1..][i] as int
               == s[1..][i] as int + if 'A' <= s[1..][i] <= 'Z' then 'a' as int - 'A' as int else 0
        {
          assert s[1..][i] == s[i + 1] && low[1..][i] == low[i + 1];
        }
      }
      if Lower(s) == low {
        assert low[0] == LowerChar(s[0]) && low[1..] == Lower(s[1..]);
        forall i | 0 <= i < |s|
          ensures low[i] as int == s[i] as int + if 'A' <= s[i] <= 'Z' then 'a' as int - 'A' as int else 0
        {
          if i > 0 { assert s[1..][i - 1] == s[i] && low[1..][i - 1] == low[i]; }
        }
      }
    }
  }

  /** The field of a blob. */
  function FieldFor(e: TreeEntry): Field { Field(e.path, BlobValue(e.path, Entry(e.mode, Lower(e.sha)))) }

  lemma BlobFieldsStep(first: TreeEntry, rest: seq<TreeEntry>)
    ensures BlobFields([first] + rest)
         == if IsBlob(first) then [FieldFor(first)] + BlobFields(rest) else BlobFields(rest)
  {
    hide BlobValue, Lower;
    assert ([first] + rest)[1..] == rest;
  }

  lemma {:induction false} BlobFieldsMembers(entries: seq<TreeEntry>, f: Field)
    ensures f in BlobFields(entries) <==> exists e <- entries :: IsBlob(e) && f == FieldFor(e)
  {
    hide FieldFor;
    if entries != [] {
      BlobFieldsMembers(entries[1..], f);
      assert entries == [entries[0]] + entries[1..];
      BlobFieldsStep(entries[0], entries[1..]);
    }
  }

  lemma {:induction false} BlobFieldsBefore(entries: seq<TreeEntry>, p: string, q: string)
    ensures Before(BlobFields(entries), p, q) <==> ListedBefore(entries, p, q)
  {
    hide BlobValue, Lower, Before, BlobFields, ListedBefore;
    if entries == [] {
      NothingListed(p, q);
      NoneBefore(p, q);
    } else {
      var first, rest := entries[0], entries[1..];
      BlobFieldsBefore(rest, p, q);
      BlobKeys(rest, q);
      BlobFieldsStep(first, rest);
      if IsBlob(first) { BeforeCons(FieldFor(first), BlobFields(rest), p, q); }
      ListedCons(first, rest, p, q);
      assert entries == [first] + rest;
    }
  }

  lemma NothingListed(p: string, q: string)
    ensures BlobFields([]) == [] && !ListedBefore([], p, q)
  {
  }

  lemma BlobKeys(entries: seq<TreeEntry>, k: string)
    ensures HasKey(BlobFields(entries), k) <==> exists e <- entries :: IsBlob(e) && e.path == k
  {
    hide BlobFields, BlobValue, Lower;
    if HasKey(BlobFields(entries), k) {
      var f :| f in BlobFields(entries) && f.key == k;
      BlobFieldsMembers(entries, f);
    }
    if e :| e in entries && IsBlob(e) && e.path == k {
      BlobFieldsMembers(entries, FieldFor(e));
      assert FieldFor(e).key == k;
    }
  }

  lemma ListedCons(first: TreeEntry, rest: seq<TreeEntry>, p: string, q: string)
    ensures ListedBefore([first] + rest, p, q) <==>
              || (IsBlob(first) && first.path == p && exists e <- rest :: IsBlob(e) && e.path == q)
              || ListedBefore(rest, p, q)
  {
    var all := [first] + rest;
    if ListedBefore(all, p, q) {
      var i, j :| 0 <= i < j < |all| && IsBlob(all[i]) && all[i].path == p && IsBlob(all[j]) && all[j].path == q;
      assert all[j] == rest[j - 1];
      if i > 0 { assert all[i] == rest[i - 1]; }
    }
    if IsBlob(first) && first.path == p && exists e <- rest :: IsBlob(e) && e.path == q {
      var j :| 0 <= j < |rest| && IsBlob(rest[j]) && rest[j].path == q;
      assert all[0] == first && all[j + 1] == rest[j];
    }
    if ListedBefore(rest, p, q) {
      var i, j :| 0 <= i < j < |rest| && IsBlob(rest[i]) && rest[i].path == p && IsBlob(rest[j]) && rest[j].path == q;
      assert all[i + 1] == rest[i] && all[j + 1] == rest[j];
    }
  }

  /** No path twice among the fields is no path before itself. */
  lemma UniqueIsNotBefore(fields: seq<Field>)
    ensures Unique(fields) <==> forall k :: !Before(fields, k, k)
  {
    if !Unique(fields) {
      var i, j :| 0 <= i < j < |fields| && fields[i].key == fields[j].key;
      assert Before(fields, fields[i].key, fields[i].key);
    }
  }

  lemma ListedOnce(entries: seq<TreeEntry>)
    ensures Unique(BlobFields(entries)) <==>
              forall i, j | 0 <= i < j < |entries| && IsBlob(entries[i]) && IsBlob(entries[j]) ::
                entries[i].path != entries[j].path
  {
    hide BlobFields, Unique, Before;
    UniqueIsNotBefore(BlobFields(entries));
    forall k ensures Before(BlobFields(entries), k, k) <==> ListedBefore(entries, k, k) {
      BlobFieldsBefore(entries, k, k);
    }
    if i, j :| 0 <= i < j < |entries| && IsBlob(entries[i]) && IsBlob(entries[j])
               && entries[i].path == entries[j].path {
      assert ListedBefore(entries, entries[i].path, entries[i].path);
    }
  }

  lemma ListsAre(entries: seq<TreeEntry>, blobs: Blobs)
    ensures Lists(entries, blobs) <==> FieldsAre(BlobFields(entries), blobs)
  {
    hide BlobFields, Unique, BlobValue, Lower, LowerOf;
    ListedOnce(entries);
    var fields := BlobFields(entries);
    forall f ensures f in fields <==> exists e <- entries :: IsBlob(e) && f == FieldFor(e) {
      BlobFieldsMembers(entries, f);
    }
    forall e | e in entries && IsBlob(e) && e.path in blobs
      ensures FieldFor(e).value == BlobValue(e.path, blobs[e.path]) <==>
                blobs[e.path].mode == e.mode && LowerOf(e.sha, blobs[e.path].sha)
    {
      LowerIs(e.sha, blobs[e.path].sha);
      BlobValueSame(e.path, Entry(e.mode, Lower(e.sha)), e.path, blobs[e.path]);
      SelfSame(FieldFor(e).value);
    }
    if FieldsAre(fields, blobs) {
      forall path | path in blobs ensures exists e <- entries :: IsBlob(e) && e.path == path {
        var e :| e in entries && IsBlob(e) && Field(path, BlobValue(path, blobs[path])) == FieldFor(e);
      }
      forall e | e in entries && IsBlob(e)
        ensures e.path in blobs && FieldFor(e).value == BlobValue(e.path, blobs[e.path])
      {
        assert FieldFor(e) in fields;
      }
    }
    if Lists(entries, blobs) {
      forall path | path in blobs ensures Field(path, BlobValue(path, blobs[path])) in fields {
        var e :| e in entries && IsBlob(e) && e.path == path;
        assert FieldFor(e) in fields;
      }
    }
  }

  // Proof.

  lemma {:induction false} BlobFieldsShape(entries: seq<TreeEntry>, f: Field)
    requires f in BlobFields(entries)
    ensures exists e: Entry :: f.value == BlobValue(f.key, e)
  {
    var e := entries[0];
    if f !in BlobFields(entries[1..]) {
      assert e.kind == "blob" && f.value == BlobValue(f.key, Entry(e.mode, Lower(e.sha)));
    } else {
      BlobFieldsShape(entries[1..], f);
    }
  }

  lemma BlobValueSame(p: string, e: Entry, q: string, g: Entry)
    ensures SameValue(BlobValue(p, e), BlobValue(q, g)) <==> p == q && e == g
  {
    hide SameValue;
    var x, y := BlobValue(p, e).fields, BlobValue(q, g).fields;
    assert "mode"[0] == 'm' && "path"[0] == 'p' && "sha"[0] == 's';
    AlignedSame(x, y);
    LeafSame(x[0].value, y[0].value);
    LeafSame(x[1].value, y[1].value);
    LeafSame(x[2].value, y[2].value);
  }

  /** The sorted blobs of a listing. */
  function SortedBlobs(rank: Rank, entries: seq<TreeEntry>): seq<Field> { Sort(rank, BlobFields(entries)) }

  lemma SortedShape(rank: Rank, entries: seq<TreeEntry>, i: nat)
    requires i < |SortedBlobs(rank, entries)|
    ensures exists e: Entry :: SortedBlobs(rank, entries)[i].value == BlobValue(SortedBlobs(rank, entries)[i].key, e)
  {
    hide Sort, BlobFields, BlobValue;
    SortMembers(rank, BlobFields(entries));
    assert SortedBlobs(rank, entries)[i] in SortedBlobs(rank, entries);
    BlobFieldsShape(entries, SortedBlobs(rank, entries)[i]);
  }

  lemma ArrFinite(rank: Rank, entries: seq<TreeEntry>)
    ensures Finite(Arr(Values(SortedBlobs(rank, entries))))
  {
    hide SortedBlobs, BlobFields;
    var sorted := SortedBlobs(rank, entries);
    forall i | 0 <= i < |sorted| ensures Finite(sorted[i].value) { SortedShape(rank, entries, i); }
  }

  /** Equal digested arrays are equal lists of blobs. */
  lemma ArrSame(rank: Rank, a: seq<TreeEntry>, b: seq<TreeEntry>)
    ensures SameValue(Arr(Values(SortedBlobs(rank, a))), Arr(Values(SortedBlobs(rank, b))))
            <==> SortedBlobs(rank, a) == SortedBlobs(rank, b)
  {
    hide SortedBlobs, BlobValue;
    var x, y := SortedBlobs(rank, a), SortedBlobs(rank, b);
    forall i | 0 <= i < |x| && i < |y| ensures SameValue(x[i].value, y[i].value) <==> x[i] == y[i] {
      SortedShape(rank, a, i);
      SortedShape(rank, b, i);
      var e: Entry :| x[i].value == BlobValue(x[i].key, e);
      var g: Entry :| y[i].value == BlobValue(y[i].key, g);
      BlobValueSame(x[i].key, e, y[i].key, g);
      SelfSame(x[i].value);
    }
    if SameValue(Arr(Values(x)), Arr(Values(y))) {
      assert |x| == |y|;
      forall i | 0 <= i < |x| ensures x[i] == y[i] { assert SameValue(Values(x)[i], Values(y)[i]); }
    }
  }

  lemma ListsIff(a: seq<TreeEntry>, b: seq<TreeEntry>, x: Blobs, y: Blobs)
    requires FieldsAre(BlobFields(a), x) && FieldsAre(BlobFields(b), y)
    ensures SameMembers(BlobFields(a), BlobFields(b)) <==> x == y
  {
    hide BlobFields, BlobValue;
    if SameMembers(BlobFields(a), BlobFields(b)) {
      forall path | path in x ensures path in y && x[path] == y[path] {
        assert Field(path, BlobValue(path, x[path])) in BlobFields(b);
        BlobValueSame(path, x[path], path, y[path]);
        SelfSame(BlobValue(path, x[path]));
      }
      forall path | path in y ensures path in x { assert Field(path, BlobValue(path, y[path])) in BlobFields(a); }
    }
  }

  /** Equal digests are equal lists of sorted blobs, whatever the collation. */
  lemma DigestSorted(hash: string -> string, rank: Rank, a: seq<TreeEntry>, b: seq<TreeEntry>)
    requires Injective(hash)
    ensures Digest(hash, rank, a) == Digest(hash, rank, b) <==> SortedBlobs(rank, a) == SortedBlobs(rank, b)
  {
    hide Canon, TextOf, Finite, SameValue, Values, BlobFields, Sort;
    ArrFinite(rank, a);
    ArrFinite(rank, b);
    var x, y := Arr(Values(SortedBlobs(rank, a))), Arr(Values(SortedBlobs(rank, b)));
    TextIffSame(rank, true, x, y);
    ArrSame(rank, a, b);
  }

  lemma FieldsOnce(entries: seq<TreeEntry>, blobs: Blobs)
    requires FieldsAre(BlobFields(entries), blobs)
    ensures Unique(BlobFields(entries))
  {
  }

  /**
   * The digest check passes exactly when the two trees hold the same blobs (same paths, same modes, same
   * names) and the paths that the collation cannot tell apart are listed in the same order.
   */
  lemma DigestIff(hash: string -> string, rank: Rank, a: seq<TreeEntry>, b: seq<TreeEntry>, x: Blobs, y: Blobs)
    requires Injective(hash) && Lists(a, x) && Lists(b, y)
    ensures Digest(hash, rank, a) == Digest(hash, rank, b) <==> x == y && SameTiedPaths(rank, a, b)
  {
    hide BlobFields, Sort, Digest, Before, Unique, Lists, ListedBefore, FieldsAre;
    ListsAre(a, x);
    ListsAre(b, y);
    FieldsOnce(a, x);
    FieldsOnce(b, y);
    forall p, q ensures Before(BlobFields(a), p, q) <==> ListedBefore(a, p, q) { BlobFieldsBefore(a, p, q); }
    forall p, q ensures Before(BlobFields(b), p, q) <==> ListedBefore(b, p, q) { BlobFieldsBefore(b, p, q); }
    DigestSorted(hash, rank, a, b);
    SortSameIff(rank, BlobFields(a), BlobFields(b));
    ListsIff(a, b, x, y);
  }

  /** Two listings of the same two blobs, at paths the collation cannot tell apart, have different digests. */
  lemma TiedPathsSplitDigests(hash: string -> string, rank: Rank, p: string, q: string, e: Entry, g: Entry)
    requires Injective(hash) && p != q && rank(p) == rank(q) && LowerOf(e.sha, e.sha) && LowerOf(g.sha, g.sha)
    ensures var first, second := TreeEntry(p, e.mode, "blob", e.sha), TreeEntry(q, g.mode, "blob", g.sha);
            var blobs := map[p := e, q := g];
            && Lists([first, second], blobs) && Lists([second, first], blobs)
            && Digest(hash, rank, [first, second]) != Digest(hash, rank, [second, first])
  {
    hide Digest, LowerOf;
    var first, second := TreeEntry(p, e.mode, "blob", e.sha), TreeEntry(q, g.mode, "blob", g.sha);
    DigestIff(hash, rank, [first, second], [second, first], map[p := e, q := g], map[p := e, q := g]);
    assert [first, second][0] == first && [first, second][1] == second;
    assert ListedBefore([first, second], p, q);
    assert !ListedBefore([second, first], p, q);
  }

  // The digested text.

  /** An object of exactly the three members of a blob. */
  ghost predicate Describes(v: Value, path: string, e: Entry) {
    && v.Obj? && Unique(v.fields)
    && forall f :: f in v.fields <==>
                     f == Field("mode", Str(e.mode)) || f == Field("path", Str(path)) || f == Field("sha", Str(e.sha))
  }

  lemma BlobDescribed(rank: Rank, path: string, e: Entry)
    ensures Describes(Canon(rank, true, BlobValue(path, e)), path, e)
  {
    hide Canon, Hoist, Sort;
    var fields := BlobValue(path, e).fields;
    assert "mode"[0] == 'm' && "path"[0] == 'p' && "sha"[0] == 's';
    CanonUnique(rank, true, fields);
    forall i | 0 <= i < 3 ensures Canon(rank, true, fields[i].value) == fields[i].value {
      LeafCanon(rank, fields[i].value);
    }
    forall f ensures f in Canon(rank, true, Obj(fields)).fields <==> f in fields {
      CanonFieldsOf(rank, true, fields, f);
      if f in fields { var i :| 0 <= i < |fields| && fields[i] == f; }
    }
  }

  function Keys(fields: seq<Field>): (r: seq<string>)
    ensures |r| == |fields| && forall i | 0 <= i < |fields| :: r[i] == fields[i].key
  {
    seq(|fields|, i requires 0 <= i < |fields| => fields[i].key)
  }

  /** The paths of a listing, sorted. */
  function SortedPaths(rank: Rank, entries: seq<TreeEntry>): seq<string> { Keys(SortedBlobs(rank, entries)) }

  lemma PathsSorted(rank: Rank, entries: seq<TreeEntry>, blobs: Blobs)
    requires FieldsAre(BlobFields(entries), blobs)
    ensures var paths := SortedPaths(rank, entries);
            && (forall i, j | 0 <= i < j < |paths| :: paths[i] != paths[j] && rank(paths[i]) <= rank(paths[j]))
            && (forall path :: path in paths <==> path in blobs)
            && |SortedBlobs(rank, entries)| == |paths|
            && forall i | 0 <= i < |paths| ::
                 paths[i] in blobs && SortedBlobs(rank, entries)[i].value == BlobValue(paths[i], blobs[paths[i]])
  {
    hide BlobValue, BlobFields, Sort;
    var fields, sorted := BlobFields(entries), SortedBlobs(rank, entries);
    SortMembers(rank, fields);
    SortOrdered(rank, fields);
    SortUnique(rank, fields);
    forall path | path in blobs ensures path in Keys(sorted) {
      var f := Field(path, BlobValue(path, blobs[path]));
      assert f in sorted;
      var i :| 0 <= i < |sorted| && sorted[i] == f;
      assert Keys(sorted)[i] == path;
    }
  }

  /**
   * What is hashed reads as an array of one object for each blob of the tree, which holds its mode, its
   * path and its name in lower case and nothing else, in the order of the paths.
   */
  lemma DigestedText(hash: string -> string, rank: Rank, entries: seq<TreeEntry>, blobs: Blobs)
    requires Lists(entries, blobs)
    ensures var text, paths := DigestText(rank, entries), SortedPaths(rank, entries);
            && Digest(hash, rank, entries) == hash(text)
            && (forall i, j | 0 <= i < j < |paths| :: paths[i] != paths[j] && rank(paths[i]) <= rank(paths[j]))
            && (forall path :: path in paths <==> path in blobs)
            && Parse(text).Some? && Parse(text).value.Arr? && |Parse(text).value.items| == |paths|
            && forall i | 0 <= i < |paths| :: Describes(Parse(text).value.items[i], paths[i], blobs[paths[i]])
  {
    hide Canon, TextOf, Finite, Parse, Lists, FieldsAre, BlobFields, Sort, SortedPaths, BlobValue, Describes,
      SortedBlobs;
    ListsAre(entries, blobs);
    PathsSorted(rank, entries, blobs);
    var sorted := SortedBlobs(rank, entries);
    ArrFinite(rank, entries);
    CanonFinite(rank, true, Arr(Values(sorted)));
    ParseText(Canon(rank, true, Arr(Values(sorted))));
    ItemsCanon(rank, Values(sorted));
    SortedIs(rank, entries);
    var paths := SortedPaths(rank, entries);
    forall i | 0 <= i < |paths|
      ensures Describes(Canon(rank, true, Arr(Values(sorted))).items[i], paths[i], blobs[paths[i]])
    {
      BlobDescribed(rank, paths[i], blobs[paths[i]]);
    }
  }

  lemma SortedIs(rank: Rank, entries: seq<TreeEntry>)
    ensures DigestText(rank, entries) == TextOf(Canon(rank, true, Arr(Values(SortedBlobs(rank, entries)))))
  {
  }

  lemma ItemsCanon(rank: Rank, values: seq<Value>)
    ensures var v := Canon(rank, true, Arr(values));
            && v.Arr? && |v.items| == |values|
            && forall i | 0 <= i < |values| :: v.items[i] == Canon(rank, true, values[i])
  {
    hide Sort, Hoist, CanonFields;
  }
}
