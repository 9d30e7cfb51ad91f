/** The byte-budgeted context builder and the model-input bound. */
module ContextBudget {
  import opened Wrappers
  import opened Utf8

  /** A source with the serialization of its redacted content. */
  datatype Source = Source(sourceType: string, sourceId: string, text: string) {
    /** What sources are ordered by. */
    function Key(): string { sourceType + ":" + sourceId }
  }

  datatype Item = Item(source: Source, content: string, byteSize: nat)

  datatype Limits = Limits(maximumItems: int, maximumBytes: int, maximumItemBytes: int)

  datatype Package = Package(items: seq<Item>, totalBytes: nat, truncated: bool)

  datatype ContextError = UnsafeLimits

  const SUFFIX := "\n[CONTEXT TRUNCATED]"

  function Min(a: int, b: int): int { if a <= b then a else b }
  function Max(a: int, b: int): int { if a >= b then a else b }

  /** `truncateUtf8`: the text and whether it was cut. */
  function TruncateUtf8(value: string, maximumBytes: int): (string, bool) {
    var encoded := Encode(value);
    if |encoded| <= maximumBytes then (value, false)
    else (Decode(encoded[..Max(0, Min(|encoded|, maximumBytes - 32))]) + SUFFIX, true)
  }

  ghost predicate Cut(value: string, n: nat, kept: string) { exists k: nat :: CutsTo(value, n, k, kept) }

  /** `text` is what the first `n` bytes of `value` decode to, and the mark. */
  ghost predicate Shortened(value: string, n: nat, mark: string, text: string) {
    |mark| <= |text| && text[|text| - |mark|..] == mark && Cut(value, n, text[..|text| - |mark|])
  }

  lemma ShortenedBy(value: string, n: nat, k: nat, kept: string, mark: string)
    requires CutsTo(value, n, k, kept)
    ensures Shortened(value, n, mark, kept + mark)
  {
    assert (kept + mark)[..|kept|] == kept;
  }

  lemma SuffixLength()
    ensures ByteLength(SUFFIX) == 20
  {
    hide Encode;
    AsciiLength(SUFFIX);
  }

  /**
   * A text within the maximum is kept; a longer one becomes exactly the whole characters of its first
   * bytes, 32 fewer than the maximum, a replacement character if that cuts one, and the mark: at least
   * ten bytes below the maximum when that is 30 or more.
   */
  lemma TruncatedFits(value: string, maximumBytes: int)
    ensures var (text, cut) := TruncateUtf8(value, maximumBytes);
            && (cut <==> ByteLength(value) > maximumBytes) && (!cut ==> text == value)
            && (cut ==> ByteLength(text) <= Max(maximumBytes - 10, 22))
            && (cut ==> Shortened(value, Max(0, maximumBytes - 32), SUFFIX, text))
  {
    hide Encode, Decode, WholeChars, CutsTo, Cut, Shortened;
    var encoded := Encode(value);
    if |encoded| > maximumBytes {
      var n := Max(0, Min(|encoded|, maximumBytes - 32));
      CutText(value, n);
      ShortenedBy(value, n, WholeChars(value, n), Decode(encoded[..n]), SUFFIX);
      EncodeAppend(Decode(encoded[..n]), SUFFIX);
      SuffixLength();
    }
  }

  // The builder.

  function Insert(rank: string -> real, s: Source, sorted: seq<Source>): seq<Source> {
    if sorted == [] || rank(s.Key()) <= rank(sorted[0].Key()) then [s] + sorted
        else [sorted[0]] + Insert(rank, s, sorted[1..])
  }

  /** The stable sort by key; `rank` is the collation. */
  function Sort(rank: string -> real, sources: seq<Source>): seq<Source> {
    if sources == [] then [] else Insert(rank, sources[0], Sort(rank, sources[1..]))
  }

  /** The sources that are looked at: the first `maximumItems` in key order. */
  function Chosen(rank: string -> real, sources: seq<Source>, maximumItems: nat): seq<Source> {
    var sorted := Sort(rank, sources);
    if |sorted| <= maximumItems then sorted else sorted[..maximumItems]
  }

  function Total(items: seq<Item>): nat {
    if items == [] then 0 else Total(items[..|items| - 1]) + items[|items| - 1].byteSize
  }

  /** Every source taken over whole, in order. */
  predicate Complete(items: seq<Item>, sources: seq<Source>) {
    && |items| == |sources|
    && forall i | 0 <= i < |items| :: items[i].source == sources[i] && items[i].content == sources[i].text
  }

  /** An item made from a source when `used` bytes are spent: within its cap, and cut only if it must be. */
  predicate Fits(limits: Limits, used: int, item: Item, source: Source) {
    var cap := Min(limits.maximumItemBytes, limits.maximumBytes - used);
    && cap >= 256 && item.source == source && item.content == TruncateUtf8(source.text, cap).0
    && item.byteSize == ByteLength(item.content) <= cap
  }

  /** The items made so far, each within its own cap, from the sources in order. */
  ghost predicate Bounded(limits: Limits, items: seq<Item>, sources: seq<Source>) {
    && |items| <= |sources|
    && forall i | 0 <= i < |items| :: Fits(limits, Total(items[..i]), items[i], sources[i])
  }

  lemma BoundedGrows(limits: Limits, items: seq<Item>, sources: seq<Source>, item: Item)
    requires Bounded(limits, items, sources) && |items| < |sources|
          && Fits(limits, Total(items), item, sources[|items|])
    ensures Bounded(limits, items + [item], sources)
  {
    hide Fits, Total;
    var longer := items + [item];
    forall i | 0 <= i < |longer| ensures Fits(limits, Total(longer[..i]), longer[i], sources[i]) {
      assert longer[..i] == items[..i];
      if i < |items| { assert longer[i] == items[i]; } else { assert items[..i] == items; }
    }
  }

  lemma TotalGrows(items: seq<Item>, item: Item)
    ensures Total(items + [item]) == Total(items) + item.byteSize
  {
    var longer := items + [item];
    assert longer[..|longer| - 1] == items;
  }

  /**
   * The builder's loop over `remaining`, `truncated` and `items`. Unsafe limits are an error. Every
   * item fits its cap, the items are the chosen sources in order, the total never exceeds the maximum,
   * and the package says it is not truncated exactly when every source is there whole.
   */
  method BuildInvestigationContext(rank: string -> real, sources: seq<Source>,
      limits: Limits) returns (r: Result<Package, ContextError>)
    ensures r.Err? <==> limits.maximumItems < 1 || limits.maximumBytes < 1024 || limits.maximumItemBytes < 256
    ensures r.Ok? ==>
              && Bounded(limits, r.value.items, Chosen(rank, sources, limits.maximumItems))
              && |r.value.items| <= limits.maximumItems
              && (|r.value.items| < |Chosen(rank, sources, limits.maximumItems)| ==>
                    limits.maximumBytes - Total(r.value.items) < 256)
              && r.value.totalBytes == Total(r.value.items) <= limits.maximumBytes
              && (!r.value.truncated <==> Complete(r.value.items, Sort(rank, sources)))
  {
    hide TruncateUtf8, ByteLength, Sort, Total, Bounded;
    if limits.maximumItems < 1 || limits.maximumBytes < 1024 || limits.maximumItemBytes < 256 {
      return Err(UnsafeLimits);
    }
    var remaining := limits.maximumBytes;
    SortIsPermutation(rank, sources);
    var chosen := Chosen(rank, sources, limits.maximumItems);
    ghost var all := Sort(rank, sources);
    var truncated := |sources| > limits.maximumItems;
    var items: seq<Item> := [];
    NothingBounded(limits, chosen);
    var i := 0;
    while i < |chosen|
      invariant 0 <= i <= |chosen| && |items| == i
      invariant Bounded(limits, items, chosen)
      invariant remaining == limits.maximumBytes - Total(items) && remaining >= 0
      invariant !truncated <==>
                && |chosen| == |all|
                && forall j | 0 <= j < i :: items[j].source == all[j] && items[j].content == all[j].text
    {
      var source := chosen[i];
      var cap := Min(limits.maximumItemBytes, remaining);
      if cap < 256 {
        truncated := true;
        break;
      }
      var bounded := TruncateUtf8(source.text, cap);
      TruncatedFits(source.text, cap);
      var byteSize := ByteLength(bounded.0);
      var item := Item(source, bounded.0, byteSize);
      BoundedGrows(limits, items, chosen, item);
      TotalGrows(items, item);
      remaining := remaining - byteSize;
      truncated := truncated || bounded.1;
      items := items + [item];
      i := i + 1;
    }
    return Ok(Package(items, Total(items), truncated));
  }

  lemma NothingBounded(limits: Limits, sources: seq<Source>)
    ensures Bounded(limits, [], sources) && Total([]) == 0
  {
  }

  predicate Ordered(rank: string -> real, sources: seq<Source>) {
    forall i, j | 0 <= i < j < |sources| :: rank(sources[i].Key()) <= rank(sources[j].Key())
  }

  lemma {:induction false} InsertOrders(rank: string -> real, s: Source, sorted: seq<Source>)
    requires Ordered(rank, sorted)
    ensures var r := Insert(rank, s, sorted);
            Ordered(rank, r) && |r| == |sorted| + 1 && multiset(r) == multiset(sorted) + multiset{s}
  {
    if sorted != [] && rank(s.Key()) > rank(sorted[0].Key()) {
      var rest := sorted[1..];
      forall i, j | 0 <= i < j < |rest| ensures rank(rest[i].Key()) <= rank(rest[j].Key()) {
        assert rest[i] == sorted[i + 1] && rest[j] == sorted[j + 1];
      }
      InsertOrders(rank, s, rest);
      assert sorted == [sorted[0]] + rest;
      OrderedCons(rank, sorted[0], s, rest, Insert(rank, s, rest));
    }
  }

  lemma OrderedCons(rank: string -> real, first: Source, s: Source, rest: seq<Source>, inserted: seq<Source>)
    requires Ordered(rank, inserted) && Ordered(rank, [first] + rest) && rank(first.Key()) <= rank(s.Key())
    requires multiset(inserted) == multiset(rest) + multiset{s}
    ensures Ordered(rank, [first] + inserted)
  {
    var all := [first] + rest;
    forall k | 0 <= k < |inserted| ensures rank(first.Key()) <= rank(inserted[k].Key()) {
      assert inserted[k] in multiset(inserted);
      if inserted[k] != s {
        var i :| 0 <= i < |rest| && rest[i] == inserted[k];
        assert all[i + 1] == rest[i] && all[0] == first;
      }
    }
  }

  lemma SplitFirst(sources: seq<Source>)
    requires sources != []
    ensures multiset(sources) == multiset(sources[1..]) + multiset{sources[0]}
  {
    assert sources == [sources[0]] + sources[1..];
  }

  /** The sources in key order, none lost and none twice. */
  lemma {:induction false} SortIsPermutation(rank: string -> real, sources: seq<Source>)
    ensures var r := Sort(rank, sources); Ordered(rank, r) && |r| == |sources| && multiset(r) == multiset(sources)
  {
    if sources != [] {
      hide Ordered, Insert;
      SortIsPermutation(rank, sources[1..]);
      InsertOrders(rank, sources[0], Sort(rank, sources[1..]));
      SplitFirst(sources);
    }
  }

  /** The sources whose key has the place `v` in the collation. */
  function Placed(rank: string -> real, sources: seq<Source>, v: real): seq<Source> {
    if sources == [] then []
    else (if rank(sources[0].Key()) == v then [sources[0]] else []) + Placed(rank, sources[1..], v)
  }

  lemma {:induction false} InsertKeepsTies(rank: string -> real, s: Source, sorted: seq<Source>, v: real)
    ensures Placed(rank, Insert(rank, s, sorted), v)
         == (if rank(s.Key()) == v then [s] else []) + Placed(rank, sorted, v)
  {
    var inserted := Insert(rank, s, sorted);
    if sorted == [] || rank(s.Key()) <= rank(sorted[0].Key()) {
      assert inserted[1..] == sorted;
    } else {
      assert inserted[1..] == Insert(rank, s, sorted[1..]);
      InsertKeepsTies(rank, s, sorted[1..], v);
    }
  }

  /** Sources whose keys the collation does not tell apart keep their order. */
  lemma {:induction false} SortIsStable(rank: string -> real, sources: seq<Source>, v: real)
    ensures Placed(rank, Sort(rank, sources), v) == Placed(rank, sources, v)
  {
    if sources != [] {
      hide Insert;
      SortIsStable(rank, sources[1..], v);
      InsertKeepsTies(rank, sources[0], Sort(rank, sources[1..]), v);
    }
  }

  // The bound on the model input.

  const POLICY_SUFFIX := "\n[MODEL INPUT TRUNCATED BY POLICY]"

  function BoundedInput(value: string, maximumTokens: int): string {
    var maximumBytes := Max(4096, maximumTokens * 4);
    var bytes := Encode(value);
    if |bytes| <= maximumBytes then value else Decode(bytes[..maximumBytes - 64]) + POLICY_SUFFIX
  }

  /** `Math.ceil(byteLength / 4)`. */
  function ApproximateInputTokens(value: string): nat { (ByteLength(value) + 3) / 4 }

  /**
   * A bounded input is never estimated above its token limit, or above 1024 tokens for smaller limits; it
   * is the value itself when that fits, and otherwise its whole characters up to 64 bytes less, and the mark.
   */
  lemma BoundedInputFits(value: string, maximumTokens: int)
    ensures ApproximateInputTokens(BoundedInput(value, maximumTokens)) <= Max(1024, maximumTokens)
    ensures ByteLength(value) <= Max(4096, maximumTokens * 4) ==> BoundedInput(value, maximumTokens) == value
    ensures ByteLength(value) > Max(4096, maximumTokens * 4) ==>
              Shortened(value, Max(4096, maximumTokens * 4) - 64, POLICY_SUFFIX, BoundedInput(value, maximumTokens))
  {
    hide Encode, Decode, WholeChars, CutsTo, Cut, Shortened;
    var maximumBytes := Max(4096, maximumTokens * 4);
    if ByteLength(value) > maximumBytes {
      CutText(value, maximumBytes - 64);
      ShortenedBy(value, maximumBytes - 64, WholeChars(value, maximumBytes - 64),
                  Decode(Encode(value)[..maximumBytes - 64]), POLICY_SUFFIX);
      EncodeAppend(Decode(Encode(value)[..maximumBytes - 64]), POLICY_SUFFIX);
      AsciiLength(POLICY_SUFFIX);
    }
  }
}
