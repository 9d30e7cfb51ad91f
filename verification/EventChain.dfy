/** The hash-chained incident event log: appending, hashing and verifying. */
module EventChain {
  import opened Wrappers
  import opened Text
  import opened Json
  import opened KeyOrder
  import opened CanonicalJson
  import opened Sequences

  /** A row of the event log. */
  datatype Event = Event(incidentId: string, sequence: int, kind: string, payload: Value, occurredAt: string,
                         actorType: string, actorId: Option<string>, requestId: Option<string>,
                         correlationId: Option<string>, causationId: Option<string>, previousHash: Option<string>,
                         eventHash: string)

  /** What an append is asked to record. */
  datatype Command = Command(incidentId: string, kind: string, payload: Value, occurredAt: string, actorType: string,
                             actorId: Option<string>, requestId: Option<string>, correlationId: Option<string>,
                             causationId: Option<string>)

  /** The hash function and the collation of the key sort. */
  datatype Hasher = Hasher(hash: string -> string, rank: Rank) {
    /** No two texts share a hash, and no hash is empty. */
    ghost predicate Ideal() { (forall a, b :: hash(a) == hash(b) ==> a == b) && forall a :: hash(a) != "" }
  }

  const KEYS: seq<string> :=
    ["actorId", "actorType", "causationId", "correlationId", "incidentId", "occurredAt", "payload", "previousHash",
     "requestId", "sequence", "type"]

  /** `s ? s : undefined`, the reading both callers give an id. */
  function Given(s: Option<string>): Option<string> { if s == Some("") then None else s }

  /** `s ?? null` as JSON. */
  function Nullable(s: Option<string>): Value { if s.Some? then Str(s.value) else Null }

  /** A number as it is written. */
  function Numeral(n: int): string { if n < 0 then "-" + Digits(-n) else Digits(n) }

  /** The hashed values, in the order of `KEYS`. */
  function HashedValues(c: Command, sequence: int, previous: Option<string>): seq<Value> {
    [Nullable(Given(c.actorId)), Str(c.actorType), Nullable(Given(c.causationId)), Nullable(Given(c.correlationId)),
     Str(c.incidentId), Str(c.occurredAt), c.payload, Nullable(Given(previous)), Nullable(Given(c.requestId)),
     Num(Numeral(sequence)), Str(c.kind)]
  }

  function Keyed(keys: seq<string>, values: seq<Value>): (r: seq<Field>)
    requires |keys| == |values|
    ensures |r| == |keys| && forall i | 0 <= i < |r| :: r[i] == Field(keys[i], values[i])
  {
    if keys == [] then [] else [Field(keys[0], values[0])] + Keyed(keys[1..], values[1..])
  }

  /** The object whose canonical text is hashed. */
  function HashedObject(c: Command, sequence: int, previous: Option<string>): Value {
    Obj(Keyed(KEYS, HashedValues(c, sequence, previous)))
  }

  ghost function EventHash(h: Hasher, c: Command, sequence: int, previous: Option<string>): string {
    h.hash(CanonicalText(h.rank, HashedObject(c, sequence, previous)))
  }

  /** The recorded content of a row. */
  function Content(e: Event): Command {
    Command(e.incidentId, e.kind, e.payload, e.occurredAt, e.actorType, e.actorId, e.requestId, e.correlationId,
        e.causationId)
  }

  // Appending.

  /** The row with the greatest sequence, as `ORDER BY "sequence" DESC LIMIT 1` finds it. */
  function Latest(log: seq<Event>): Option<Event> {
    if log == [] then None
    else
      var rest := Latest(log[1..]);
      if rest.Some? && rest.value.sequence >= log[0].sequence then rest else Some(log[0])
  }

  /** The row written for a command; `stored` is the payload as the database gives it back. */
  ghost function NewEvent(h: Hasher, log: seq<Event>, c: Command, stored: Value): Event {
    var latest := Latest(log);
    var sequence := (if latest.Some? then latest.value.sequence else 0) + 1;
    var previous := if latest.Some? then Some(latest.value.eventHash) else None;
    Event(c.incidentId, sequence, c.kind, stored, c.occurredAt, c.actorType, c.actorId, c.requestId, c.correlationId,
          c.causationId, previous, EventHash(h, c, sequence, previous))
  }

  /** An append and the payload later read back for it. */
  datatype Write = Write(command: Command, stored: Value)

  ghost predicate Storable(w: Write) { Finite(w.command.payload) && Finite(w.stored) }

  /** The payload comes back with the same canonical form. */
  ghost predicate Faithful(h: Hasher, w: Write) {
    Canon(h.rank, true, w.command.payload) == Canon(h.rank, true, w.stored)
  }

  /** The log after serial appends. */
  ghost function Built(h: Hasher, writes: seq<Write>): seq<Event> {
    if writes == [] then []
    else
      var log := Built(h, writes[..|writes| - 1]);
      var w := writes[|writes| - 1];
      log + [NewEvent(h, log, w.command, w.stored)]
  }

  // Verifying.

  datatype Integrity = Intact(checked: int) | Broken(checked: int, sequence: int, reason: Reason)
  datatype Reason = WrongSequence | WrongPrevious | WrongHash

  function InsertEvent(e: Event, sorted: seq<Event>): seq<Event> {
    if sorted == [] || e.sequence <= sorted[0].sequence then [e] + sorted else [sorted[0]] + InsertEvent(e, sorted[1..])
  }

  /** Stable sort by sequence. */
  function BySequence(events: seq<Event>): seq<Event> {
    if events == [] then [] else InsertEvent(events[0], BySequence(events[1..]))
  }

  ghost function VerifyFrom(h: Hasher, events: seq<Event>, previous: Option<string>, expected: int,
      total: nat): Integrity
    decreases events
  {
    if events == [] then Intact(total)
    else
      var e := events[0];
      if e.sequence != expected then Broken(expected - 1, e.sequence, WrongSequence)
      else if e.previousHash != previous then Broken(expected - 1, e.sequence, WrongPrevious)
      else if EventHash(h, Content(e), e.sequence, previous) != e.eventHash
          then Broken(expected - 1, e.sequence, WrongHash)
      else VerifyFrom(h, events[1..], Some(e.eventHash), expected + 1, total)
  }

  ghost function Verify(h: Hasher, events: seq<Event>): Integrity {
    VerifyFrom(h, BySequence(events), None, 1, |events|)
  }

  /** The loop of the source over `previousHash` and `expectedSequence`; `hashOf` computes event hashes. */
  method VerifyIncidentEventChain(h: Hasher, hashOf: (Command, int, Option<string>) -> string, events: seq<Event>)
    returns (r: Integrity)
    requires forall c, n, p :: hashOf(c, n, p) == EventHash(h, c, n, p)
    ensures r == Verify(h, events)
  {
    var sorted := BySequence(events);
    var previousHash: Option<string> := None;
    var expectedSequence := 1;
    for i := 0 to |sorted|
      invariant Verify(h, events) == VerifyFrom(h, sorted[i..], previousHash, expectedSequence, |events|)
    {
      var event := sorted[i];
      if event.sequence != expectedSequence { return Broken(expectedSequence - 1, event.sequence, WrongSequence); }
      if event.previousHash != previousHash { return Broken(expectedSequence - 1, event.sequence, WrongPrevious); }
      var expectedHash := hashOf(Content(event), event.sequence, previousHash);
      if expectedHash != event.eventHash { return Broken(expectedSequence - 1, event.sequence, WrongHash); }
      previousHash := Some(event.eventHash);
      expectedSequence := expectedSequence + 1;
    }
    return Intact(|events|);
  }

  // What a verified log is.

  ghost function PreviousOf(events: seq<Event>, i: nat): Option<string>
    requires i <= |events|
  {
    if i == 0 then None else Some(events[i - 1].eventHash)
  }

  /** The event at `i` is numbered, linked and hashed as the chain requires. */
  ghost predicate Linked(h: Hasher, events: seq<Event>, i: nat)
    requires i < |events|
  {
    && events[i].sequence == i + 1 && events[i].previousHash == PreviousOf(events, i)
    && events[i].eventHash == EventHash(h, Content(events[i]), i + 1, PreviousOf(events, i))
  }

  ghost predicate Chained(h: Hasher, events: seq<Event>) { forall i | 0 <= i < |events| :: Linked(h, events, i) }

  lemma {:induction false} VerifyTail(h: Hasher, events: seq<Event>, i: nat, total: nat)
    requires i <= |events|
    ensures VerifyFrom(h, events[i..], PreviousOf(events, i), i + 1, total).Intact?
            <==> forall j | i <= j < |events| :: Linked(h, events, j)
    ensures var r := VerifyFrom(h, events[i..], PreviousOf(events, i), i + 1, total); r.Intact? ==> r == Intact(total)
    decreases |events| - i
  {
    hide EventHash;
    if i < |events| {
      assert events[i..][0] == events[i] && events[i..][1..] == events[i + 1..];
      VerifyTail(h, events, i + 1, total);
      assert (forall j | i <= j < |events| :: Linked(h, events, j))
        <==> (Linked(h, events, i) && forall j | i + 1 <= j < |events| :: Linked(h, events, j));
    }
  }

  /** Verification succeeds exactly on chains, and then says how many events were checked. */
  lemma VerifyIffChained(h: Hasher, events: seq<Event>)
    ensures Verify(h, events).Intact? <==> Chained(h, BySequence(events))
    ensures Verify(h, events).Intact? ==> Verify(h, events) == Intact(|events|)
  {
    hide Linked, BySequence, VerifyFrom;
    var sorted := BySequence(events);
    assert sorted[0..] == sorted;
    VerifyTail(h, sorted, 0, |events|);
  }

  /**
   * A broken log says where: the events before the broken one are as the chain requires, and the reason
   * is the first of number, link and hash that is wrong.
   */
  lemma BrokenMeans(h: Hasher, events: seq<Event>)
    requires Verify(h, events).Broken?
    ensures var log, r := BySequence(events), Verify(h, events);
            && 0 <= r.checked < |log| && r.sequence == log[r.checked].sequence
            && (forall j | 0 <= j < r.checked :: Linked(h, log, j)) && !Linked(h, log, r.checked)
            && (r.reason == WrongSequence <==> log[r.checked].sequence != r.checked + 1)
            && (r.reason == WrongPrevious <==>
                  log[r.checked].sequence == r.checked + 1
                  && log[r.checked].previousHash != PreviousOf(log, r.checked))
            && (r.reason == WrongHash <==>
                  log[r.checked].sequence == r.checked + 1
                  && log[r.checked].previousHash == PreviousOf(log, r.checked))
  {
    hide Linked, BySequence, VerifyFrom;
    var log := BySequence(events);
    assert log[0..] == log;
    BrokenAt(h, log, 0, |events|);
  }

  lemma {:induction false} BrokenAt(h: Hasher, log: seq<Event>, i: nat, total: nat)
    requires i <= |log| && VerifyFrom(h, log[i..], PreviousOf(log, i), i + 1, total).Broken?
    ensures var r := VerifyFrom(h, log[i..], PreviousOf(log, i), i + 1, total);
            && i <= r.checked < |log| && r.sequence == log[r.checked].sequence
            && (forall j | i <= j < r.checked :: Linked(h, log, j)) && !Linked(h, log, r.checked)
            && (r.reason == WrongSequence <==> log[r.checked].sequence != r.checked + 1)
            && (r.reason == WrongPrevious <==>
                  log[r.checked].sequence == r.checked + 1
                  && log[r.checked].previousHash != PreviousOf(log, r.checked))
            && (r.reason == WrongHash <==>
                  log[r.checked].sequence == r.checked + 1
                  && log[r.checked].previousHash == PreviousOf(log, r.checked))
    decreases |log| - i
  {
    hide EventHash;
    if i < |log| {
      assert log[i..][0] == log[i] && log[i..][1..] == log[i + 1..];
      if Linked(h, log, i) { BrokenAt(h, log, i + 1, total); }
    }
  }

  // Reordering.

  ghost predicate Increasing(events: seq<Event>) {
    forall i, j | 0 <= i < j < |events| :: events[i].sequence < events[j].sequence
  }

  lemma {:induction false} InsertEventKeeps(e: Event, sorted: seq<Event>)
    requires Increasing(sorted) && forall f <- sorted :: f.sequence != e.sequence
    ensures Increasing(InsertEvent(e, sorted)) && forall f :: f in InsertEvent(e, sorted) <==> f == e || f in sorted
  {
    if sorted != [] && e.sequence > sorted[0].sequence {
      IncreasingTail(sorted);
      InsertEventKeeps(e, sorted[1..]);
      IncreasingCons(sorted[0], InsertEvent(e, sorted[1..]));
      assert sorted == [sorted[0]] + sorted[1..];
    } else {
      IncreasingCons(e, sorted);
    }
  }

  lemma IncreasingTail(events: seq<Event>)
    requires events != [] && Increasing(events)
    ensures Increasing(events[1..]) && forall f <- events[1..] :: events[0].sequence < f.sequence
  {
    var rest := events[1..];
    forall i, j | 0 <= i < j < |rest| ensures rest[i].sequence < rest[j].sequence {
      assert rest[i] == events[i + 1] && rest[j] == events[j + 1];
    }
  }

  lemma IncreasingCons(e: Event, rest: seq<Event>)
    requires Increasing(rest) && forall f <- rest :: e.sequence < f.sequence
    ensures Increasing([e] + rest)
  {
  }

  ghost predicate DistinctSequences(events: seq<Event>) {
    forall i, j | 0 <= i < j < |events| :: events[i].sequence != events[j].sequence
  }

  lemma {:induction false} BySequenceSorts(events: seq<Event>)
    requires DistinctSequences(events)
    ensures Increasing(BySequence(events)) && forall f :: f in BySequence(events) <==> f in events
  {
    if events != [] {
      var rest := events[1..];
      forall i, j | 0 <= i < j < |rest| ensures rest[i].sequence != rest[j].sequence {
        assert rest[i] == events[i + 1] && rest[j] == events[j + 1];
      }
      BySequenceSorts(rest);
      InsertEventKeeps(events[0], BySequence(rest));
      assert events == [events[0]] + rest;
    }
  }

  lemma {:induction false} IncreasingUnique(a: seq<Event>, b: seq<Event>)
    requires Increasing(a) && Increasing(b) && forall f :: f in a <==> f in b
    ensures a == b
  {
    if a == [] {
      if b != [] { HeadIn(b); }
    } else {
      HeadIn(a);
      assert b != [];
      HeadIn(b);
      assert a[0] == b[0];
      IncreasingTail(a);
      IncreasingTail(b);
      assert a == [a[0]] + a[1..] && b == [b[0]] + b[1..];
      forall f ensures f in a[1..] <==> f in b[1..] { assert f in a <==> f in b; }
      IncreasingUnique(a[1..], b[1..]);
    }
  }

  lemma HeadIn(events: seq<Event>)
    requires events != []
    ensures exists f :: f in events
    ensures events[0] in events
          && (Increasing(events) ==> forall f <- events :: f == events[0] || events[0].sequence < f.sequence)
  {
    assert events[0] in events;
  }

  /** Sorting any reordering of an increasing log gives the log back. */
  lemma Resorted(events: seq<Event>, shuffled: seq<Event>)
    requires Increasing(events) && multiset(shuffled) == multiset(events)
    ensures BySequence(shuffled) == events
  {
    PermutedMembers(shuffled, events);
    forall i, j | 0 <= i < j < |shuffled| ensures shuffled[i].sequence != shuffled[j].sequence {
      if shuffled[i] == shuffled[j] {
        var k, m := RepeatPermuted(shuffled, events, i, j);
      } else {
        assert shuffled[i] in events && shuffled[j] in events;
        var k :| 0 <= k < |events| && events[k] == shuffled[i];
        var m :| 0 <= m < |events| && events[m] == shuffled[j];
        assert k < m || m < k;
      }
    }
    BySequenceSorts(shuffled);
    IncreasingUnique(BySequence(shuffled), events);
  }

  // Hashing.

  lemma DigitsLead(n: nat)
    ensures Digits(n)[0] == '0' ==> |Digits(n)| == 1
    ensures |Digits(n)| == 1 <==> n < 10
  {
    if n >= 10 { DigitsLead(n / 10); }
  }

  lemma NumeralFits(n: int)
    ensures IsNumeral(Numeral(n))
  {
    var m: nat := if n < 0 then -n else n;
    DigitsLead(m);
    var s := Digits(m);
    DigitRunOf(s, "");
    assert s + "" == s && s[..|s|] == s && s[|s|..] == "";
    assert IsDigit(s[0]);
    if n < 0 { assert Numeral(n)[1..] == s; } else { assert Numeral(n) == s; }
  }

  lemma NumeralInjective(n: int, m: int)
    requires Numeral(n) == Numeral(m)
    ensures n == m
  {
    DigitsRoundTrip(if n < 0 then -n else n);
    DigitsRoundTrip(if m < 0 then -m else m);
    assert IsDigit(Digits(if n < 0 then -n else n)[0]) && IsDigit(Digits(if m < 0 then -m else m)[0]);
    assert n < 0 ==> Numeral(n)[0] == '-' && Numeral(n)[1..] == Digits(-n);
    assert m < 0 ==> Numeral(m)[0] == '-' && Numeral(m)[1..] == Digits(-m);
    assert n >= 0 ==> Numeral(n) == Digits(n);
    assert m >= 0 ==> Numeral(m) == Digits(m);
  }

  /** Two hashed contents are the same: equal fields, an empty id being no id, the payload up to key order. */
  ghost predicate SameContent(c: Command, d: Command) {
    && c.incidentId == d.incidentId && c.kind == d.kind && c.occurredAt == d.occurredAt && c.actorType == d.actorType
    && Given(c.actorId) == Given(d.actorId) && Given(c.requestId) == Given(d.requestId)
    && Given(c.correlationId) == Given(d.correlationId) && Given(c.causationId) == Given(d.causationId)
    && SameValue(c.payload, d.payload)
  }

  /** Two contents hash alike: equal fields, and payloads with one canonical form. */
  ghost predicate SameHashed(h: Hasher, c: Command, d: Command) {
    && c.incidentId == d.incidentId && c.kind == d.kind && c.occurredAt == d.occurredAt && c.actorType == d.actorType
    && Given(c.actorId) == Given(d.actorId) && Given(c.requestId) == Given(d.requestId)
    && Given(c.correlationId) == Given(d.correlationId) && Given(c.causationId) == Given(d.causationId)
    && Canon(h.rank, true, c.payload) == Canon(h.rank, true, d.payload)
  }

  lemma NullableCanon(rank: Rank, a: Option<string>, b: Option<string>)
    ensures Canon(rank, true, Nullable(a)) == Canon(rank, true, Nullable(b)) <==> a == b
  {
  }

  lemma KeysDiffer()
    ensures forall i, j | 0 <= i < j < 11 :: KEYS[i] != KEYS[j]
  {
    var lengths := [7, 9, 11, 13, 10, 10, 7, 12, 9, 8, 4];
    assert forall i | 0 <= i < 11 :: |KEYS[i]| == lengths[i];
    assert KEYS[0][0] != KEYS[6][0] && KEYS[1][0] != KEYS[8][0] && KEYS[4][0] != KEYS[5][0];
  }

  /** The keys of the hashed object: all different, none an index key. */
  lemma KeysPlain(fields: seq<Field>)
    requires |fields| == 11 && forall i | 0 <= i < 11 :: fields[i].key == KEYS[i]
    ensures Unique(fields) && NumericFirst(fields)
  {
    KeysDiffer();
    forall i | 0 <= i < 11 ensures !IsIndex(fields[i].key) {
      assert fields[i].key[0] in KEYS[i] && !IsDigit(KEYS[i][0]);
    }
  }

  lemma ObjectCanon(h: Hasher, c: Command, n: int, p: Option<string>, d: Command, m: int, q: Option<string>)
    ensures Canon(h.rank, true, HashedObject(c, n, p)) == Canon(h.rank, true, HashedObject(d, m, q))
            <==> SameHashed(h, c, d) && n == m && Given(p) == Given(q)
  {
    hide Canon, Given, Nullable, Numeral, IsIndex, SameHashed, NumericFirst;
    var x, y := HashedValues(c, n, p), HashedValues(d, m, q);
    var f, g := Keyed(KEYS, x), Keyed(KEYS, y);
    KeysPlain(f);
    AlignedCanon(h.rank, true, f, g);
    ValuesCanon(h, c, n, p, d, m, q);
    assert forall i | 0 <= i < 11 :: f[i] == Field(KEYS[i], x[i]) && g[i] == Field(KEYS[i], y[i]);
    if CanonsEqual(h, x, y) {
      forall i | 0 <= i < |f| ensures Canon(h.rank, true, f[i].value) == Canon(h.rank, true, g[i].value) {
        assert f[i].value == x[i] && g[i].value == y[i];
      }
    }
    if forall i | 0 <= i < |f| :: Canon(h.rank, true, f[i].value) == Canon(h.rank, true, g[i].value) {
      forall i | 0 <= i < |x| ensures Canon(h.rank, true, x[i]) == Canon(h.rank, true, y[i]) {
        assert f[i].value == x[i] && g[i].value == y[i];
      }
    }
  }

  ghost predicate CanonEqual(h: Hasher, a: Value, b: Value) { Canon(h.rank, true, a) == Canon(h.rank, true, b) }

  ghost predicate CanonsEqual(h: Hasher, x: seq<Value>, y: seq<Value>) {
    |x| == |y| && forall i | 0 <= i < |x| :: Canon(h.rank, true, x[i]) == Canon(h.rank, true, y[i])
  }

  lemma ValuesCanon(h: Hasher, c: Command, n: int, p: Option<string>, d: Command, m: int, q: Option<string>)
    ensures var x, y := HashedValues(c, n, p), HashedValues(d, m, q);
            CanonsEqual(h, x, y) <==> SameHashed(h, c, d) && n == m && Given(p) == Given(q)
  {
    hide Canon, Given, Nullable, Numeral;
    var x, y := HashedValues(c, n, p), HashedValues(d, m, q);
    NullableCanon(h.rank, Given(c.actorId), Given(d.actorId));
    LeavesCanon(h.rank, x[1], y[1]);
    NullableCanon(h.rank, Given(c.causationId), Given(d.causationId));
    NullableCanon(h.rank, Given(c.correlationId), Given(d.correlationId));
    LeavesCanon(h.rank, x[4], y[4]);
    LeavesCanon(h.rank, x[5], y[5]);
    NullableCanon(h.rank, Given(p), Given(q));
    NullableCanon(h.rank, Given(c.requestId), Given(d.requestId));
    LeavesCanon(h.rank, x[9], y[9]);
    if Numeral(n) == Numeral(m) { NumeralInjective(n, m); }
    LeavesCanon(h.rank, x[10], y[10]);
    Eleven(h, x, y);
  }

  lemma LeavesCanon(rank: Rank, a: Value, b: Value)
    requires !a.Arr? && !a.Obj? && !b.Arr? && !b.Obj?
    ensures Canon(rank, true, a) == Canon(rank, true, b) <==> a == b
  {
  }

  lemma Eleven(h: Hasher, x: seq<Value>, y: seq<Value>)
    requires |x| == |y| == 11
    ensures CanonsEqual(h, x, y) <==>
            && CanonEqual(h, x[0], y[0]) && CanonEqual(h, x[1], y[1]) && CanonEqual(h, x[2], y[2])
            && CanonEqual(h, x[3], y[3]) && CanonEqual(h, x[4], y[4]) && CanonEqual(h, x[5], y[5])
            && CanonEqual(h, x[6], y[6]) && CanonEqual(h, x[7], y[7]) && CanonEqual(h, x[8], y[8])
            && CanonEqual(h, x[9], y[9]) && CanonEqual(h, x[10], y[10])
  {
    hide Canon;
  }

  lemma ObjectFinite(c: Command, n: int, p: Option<string>)
    requires Finite(c.payload)
    ensures Finite(HashedObject(c, n, p))
  {
    hide Keyed, HashedValues;
    ValuesFinite(c, n, p);
    var x := HashedValues(c, n, p);
    var f := Keyed(KEYS, x);
    forall i | 0 <= i < 11 ensures f[i] == Field(KEYS[i], x[i]) { }
  }

  lemma ValuesFinite(c: Command, n: int, p: Option<string>)
    requires Finite(c.payload)
    ensures |HashedValues(c, n, p)| == 11 && forall v <- HashedValues(c, n, p) :: Finite(v)
  {
    hide Given, Numeral, IsNumeral;
    NumeralFits(n);
  }

  /**
   * Equal hashes mean equal contents, sequence and link, whatever keys the payloads have. They are equal
   * exactly when the payloads also have one canonical form, which for payloads in memory without tied keys
   * is to be equal up to key order.
   */
  lemma HashIff(h: Hasher, c: Command, n: int, p: Option<string>, d: Command, m: int, q: Option<string>)
    requires h.Ideal() && Finite(c.payload) && Finite(d.payload)
    ensures EventHash(h, c, n, p) == EventHash(h, d, m, q) ==> SameContent(c, d) && n == m && Given(p) == Given(q)
    ensures EventHash(h, c, n, p) == EventHash(h, d, m, q) <==> SameHashed(h, c, d) && n == m && Given(p) == Given(q)
    ensures InMemory(c.payload) && InMemory(d.payload) && NoTies(h.rank, c.payload) ==>
              (EventHash(h, c, n, p) == EventHash(h, d, m, q)
               <==> SameContent(c, d) && n == m && Given(p) == Given(q))
  {
    hide HashedObject, Finite, NoTies, SameValue, Given, TextOf, Canon, InMemory, SameTieOrder;
    ObjectFinite(c, n, p);
    ObjectFinite(d, m, q);
    TextIffCanon(h.rank, true, HashedObject(c, n, p), HashedObject(d, m, q));
    ObjectCanon(h, c, n, p, d, m, q);
    if SameHashed(h, c, d) { CanonSame(h.rank, true, c.payload, d.payload); }
    if InMemory(c.payload) && InMemory(d.payload) && NoTies(h.rank, c.payload) {
      NothingTied(h.rank, c.payload, d.payload);
      CanonIffSame(h.rank, true, c.payload, d.payload);
    }
  }

  // Which text is hashed.

  /** An id as it is hashed: an absent or empty one is null. */
  function IdValue(id: Option<string>): Value { if id.Some? && id.value != "" then Str(id.value) else Null }

  /** The members of the hashed object: eleven names, each with the value of that name. */
  ghost predicate Names(m: seq<Field>, h: Hasher, c: Command, sequence: int, previous: Option<string>) {
    && Unique(m)
    && (forall f <- m :: f.key in ["actorId", "actorType", "causationId", "correlationId", "incidentId", "occurredAt",
                                   "payload", "previousHash", "requestId", "sequence", "type"])
    && Field("actorId", IdValue(c.actorId)) in m && Field("actorType", Str(c.actorType)) in m
    && Field("causationId", IdValue(c.causationId)) in m && Field("correlationId", IdValue(c.correlationId)) in m
    && Field("incidentId", Str(c.incidentId)) in m && Field("occurredAt", Str(c.occurredAt)) in m
    && Field("payload", Canon(h.rank, true, c.payload)) in m && Field("previousHash", IdValue(previous)) in m
    && Field("requestId", IdValue(c.requestId)) in m && Field("sequence", Num(Numeral(sequence))) in m
    && Field("type", Str(c.kind)) in m
  }

  /**
   * The hash is that of a JSON text which reads as an object of exactly eleven members, each holding the
   * field of its name (null for an absent or empty id), the payload up to key order.
   */
  lemma HashedText(h: Hasher, c: Command, n: int, p: Option<string>)
    requires Finite(c.payload)
    ensures var text := CanonicalText(h.rank, HashedObject(c, n, p));
            && EventHash(h, c, n, p) == h.hash(text) && Parse(text).Some? && Parse(text).value.Obj?
            && Names(Parse(text).value.fields, h, c, n, p)
    ensures SameValue(c.payload, Canon(h.rank, true, c.payload))
  {
    hide Canon, TextOf, Finite, Parse, SameValue, HashedObject, HashedMembers, Names;
    ObjectFinite(c, n, p);
    CanonFinite(h.rank, true, HashedObject(c, n, p));
    ParseText(Canon(h.rank, true, HashedObject(c, n, p)));
    CanonKeepsValue(h.rank, true, c.payload);
    MembersAre(h, c, n, p);
    NamesHold(h, c, n, p);
  }

  lemma ElevenValues(c: Command, n: int, p: Option<string>)
    ensures |HashedValues(c, n, p)| == 11
  {
  }

  ghost function HashedMembers(h: Hasher, c: Command, n: int, p: Option<string>): seq<Field> {
    CanonOf(h.rank, true, Keyed(KEYS, HashedValues(c, n, p)));
    Canon(h.rank, true, HashedObject(c, n, p)).fields
  }

  lemma MemberAt(h: Hasher, c: Command, n: int, p: Option<string>, i: nat)
    requires i < 11
    ensures var v := HashedValues(c, n, p)[i];
            && Field(KEYS[i], Canon(h.rank, true, v)) in HashedMembers(h, c, n, p)
            && (!v.Arr? && !v.Obj? ==> Canon(h.rank, true, v) == v)
  {
    hide Canon, HashedValues;
    ElevenValues(c, n, p);
    var x := HashedValues(c, n, p);
    var fields := Keyed(KEYS, x);
    CanonFieldsOf(h.rank, true, fields, Field(KEYS[i], Canon(h.rank, true, x[i])));
    assert fields[i] == Field(KEYS[i], x[i]);
    if !x[i].Arr? && !x[i].Obj? { LeafCanon(h.rank, x[i]); }
  }

  lemma OnlyNames(h: Hasher, c: Command, n: int, p: Option<string>)
    ensures Unique(HashedMembers(h, c, n, p)) && forall f <- HashedMembers(h, c, n, p) :: f.key in KEYS
  {
    hide Canon, HashedValues, IsIndex, NumericFirst, Unique;
    ElevenValues(c, n, p);
    var fields := Keyed(KEYS, HashedValues(c, n, p));
    KeysPlain(fields);
    CanonUnique(h.rank, true, fields);
    forall f | f in HashedMembers(h, c, n, p) ensures f.key in KEYS {
      CanonFieldsOf(h.rank, true, fields, f);
      var i :| 0 <= i < |fields| && f == Field(fields[i].key, Canon(h.rank, true, fields[i].value));
      assert f.key == KEYS[i];
    }
  }

  lemma Member(h: Hasher, c: Command, n: int, p: Option<string>, i: nat, key: string, value: Value)
    requires i < 11 && KEYS[i] == key && HashedValues(c, n, p)[i] == value && !value.Arr? && !value.Obj?
    ensures Field(key, value) in HashedMembers(h, c, n, p)
  {
    MemberAt(h, c, n, p, i);
  }

  lemma IdMembers(h: Hasher, c: Command, n: int, p: Option<string>)
    ensures var m := HashedMembers(h, c, n, p);
            && Field("actorId", IdValue(c.actorId)) in m && Field("causationId", IdValue(c.causationId)) in m
            && Field("correlationId", IdValue(c.correlationId)) in m
  {
    hide HashedMembers;
    Member(h, c, n, p, 0, "actorId", IdValue(c.actorId));
    Member(h, c, n, p, 2, "causationId", IdValue(c.causationId));
    Member(h, c, n, p, 3, "correlationId", IdValue(c.correlationId));
  }

  lemma LinkMembers(h: Hasher, c: Command, n: int, p: Option<string>)
    ensures var m := HashedMembers(h, c, n, p);
            && Field("previousHash", IdValue(p)) in m && Field("requestId", IdValue(c.requestId)) in m
            && Field("sequence", Num(Numeral(n))) in m
  {
    hide HashedMembers, Numeral;
    Member(h, c, n, p, 7, "previousHash", IdValue(p));
    Member(h, c, n, p, 8, "requestId", IdValue(c.requestId));
    Member(h, c, n, p, 9, "sequence", Num(Numeral(n)));
  }

  lemma TextMembers(h: Hasher, c: Command, n: int, p: Option<string>)
    ensures var m := HashedMembers(h, c, n, p);
            && Field("actorType", Str(c.actorType)) in m && Field("incidentId", Str(c.incidentId)) in m
            && Field("occurredAt", Str(c.occurredAt)) in m && Field("type", Str(c.kind)) in m
  {
    hide HashedMembers;
    Member(h, c, n, p, 1, "actorType", Str(c.actorType));
    Member(h, c, n, p, 4, "incidentId", Str(c.incidentId));
    Member(h, c, n, p, 5, "occurredAt", Str(c.occurredAt));
    Member(h, c, n, p, 10, "type", Str(c.kind));
  }

  lemma PayloadMember(h: Hasher, c: Command, n: int, p: Option<string>)
    ensures Field("payload", Canon(h.rank, true, c.payload)) in HashedMembers(h, c, n, p)
  {
    hide HashedMembers, Canon;
    MemberAt(h, c, n, p, 6);
    assert HashedValues(c, n, p)[6] == c.payload && KEYS[6] == "payload";
  }

  lemma NamesHold(h: Hasher, c: Command, n: int, p: Option<string>)
    ensures Names(HashedMembers(h, c, n, p), h, c, n, p)
  {
    hide Canon, Numeral, Unique, HashedMembers, IdValue;
    OnlyNames(h, c, n, p);
    IdMembers(h, c, n, p);
    LinkMembers(h, c, n, p);
    TextMembers(h, c, n, p);
    PayloadMember(h, c, n, p);
  }

  lemma MembersAre(h: Hasher, c: Command, n: int, p: Option<string>)
    ensures Canon(h.rank, true, HashedObject(c, n, p)) == Obj(HashedMembers(h, c, n, p))
  {
    hide Canon, HashedValues;
    ElevenValues(c, n, p);
    CanonOf(h.rank, true, Keyed(KEYS, HashedValues(c, n, p)));
  }

  // Built logs verify.

  lemma {:induction false} LatestIsLast(log: seq<Event>)
    requires log != [] && Increasing(log)
    ensures Latest(log) == Some(log[|log| - 1])
  {
    if |log| > 1 {
      IncreasingTail(log);
      LatestIsLast(log[1..]);
    }
  }

  /** What serial appends leave behind: numbered, linked, and each hashed from its command. */
  ghost predicate AppendedAt(h: Hasher, writes: seq<Write>, log: seq<Event>, i: nat)
    requires i < |log| == |writes|
  {
    && log[i].sequence == i + 1 && log[i].previousHash == PreviousOf(log, i)
    && Content(log[i]) == writes[i].command.(payload := writes[i].stored) && RowOf(log[i], writes[i])
    && log[i].eventHash == EventHash(h, writes[i].command, i + 1, PreviousOf(log, i))
  }

  /** The row keeps what the command says, field by field. */
  predicate RowOf(e: Event, w: Write) {
    && e.incidentId == w.command.incidentId && e.kind == w.command.kind && e.payload == w.stored
    && e.occurredAt == w.command.occurredAt && e.actorType == w.command.actorType && e.actorId == w.command.actorId
    && e.requestId == w.command.requestId && e.correlationId == w.command.correlationId
    && e.causationId == w.command.causationId
  }

  ghost predicate Appended(h: Hasher, writes: seq<Write>, log: seq<Event>) {
    |log| == |writes| && forall i | 0 <= i < |log| :: AppendedAt(h, writes, log, i)
  }

  lemma AppendedIncreasing(h: Hasher, writes: seq<Write>, log: seq<Event>)
    requires Appended(h, writes, log)
    ensures Increasing(log) && (log != [] ==> log[|log| - 1].sequence == |log|)
  {
    hide EventHash, PreviousOf;
    forall i, j | 0 <= i < j < |log| ensures log[i].sequence < log[j].sequence {
      assert AppendedAt(h, writes, log, i) && AppendedAt(h, writes, log, j);
    }
    if log != [] { assert AppendedAt(h, writes, log, |log| - 1); }
  }

  lemma AppendOne(h: Hasher, writes: seq<Write>, w: Write, log: seq<Event>, e: Event)
    requires Appended(h, writes, log) && e.sequence == |log| + 1 && e.previousHash == PreviousOf(log, |log|)
    requires Content(e) == w.command.(payload := w.stored) && RowOf(e, w)
    requires e.eventHash == EventHash(h, w.command, |log| + 1, PreviousOf(log, |log|))
    ensures Appended(h, writes + [w], log + [e])
  {
    hide EventHash;
    var longer, all := log + [e], writes + [w];
    forall i | 0 <= i < |longer| ensures AppendedAt(h, all, longer, i) {
      if i < |log| { assert AppendedAt(h, writes, log, i) && longer[i] == log[i] && all[i] == writes[i]; }
      assert PreviousOf(longer, i) == PreviousOf(log, i);
    }
  }

  lemma {:induction false} BuiltAppended(h: Hasher, writes: seq<Write>)
    ensures Appended(h, writes, Built(h, writes))
  {
    hide EventHash, Appended;
    if writes == [] {
      NothingAppended(h);
    } else {
      var before, w := writes[..|writes| - 1], writes[|writes| - 1];
      BuiltAppended(h, before);
      var log := Built(h, before);
      AppendedIncreasing(h, before, log);
      AppendedLength(h, before, log);
      if log != [] { LatestIsLast(log); }
      AppendOne(h, before, w, log, NewEvent(h, log, w.command, w.stored));
      assert before + [w] == writes;
    }
  }

  lemma NothingAppended(h: Hasher)
    ensures Appended(h, [], [])
  {
  }

  lemma AppendedLength(h: Hasher, writes: seq<Write>, log: seq<Event>)
    requires Appended(h, writes, log)
    ensures |log| == |writes|
  {
  }

  /** An appended event verifies exactly when its payload came back with the same canonical form. */
  lemma LinkedIff(h: Hasher, writes: seq<Write>, log: seq<Event>, i: nat)
    requires h.Ideal() && Appended(h, writes, log) && i < |log| && Storable(writes[i])
    ensures Linked(h, log, i) <==> Faithful(h, writes[i])
  {
    hide EventHash, Finite, Given, Canon, SameContent, NoTies, InMemory;
    assert AppendedAt(h, writes, log, i);
    HashIff(h, writes[i].command, i + 1, PreviousOf(log, i), Content(log[i]), i + 1, PreviousOf(log, i));
  }

  lemma {:induction false} BuiltPrefix(h: Hasher, writes: seq<Write>, k: nat)
    requires k <= |writes|
    ensures |Built(h, writes)| == |writes| && Built(h, writes)[..k] == Built(h, writes[..k])
  {
    hide NewEvent;
    if k < |writes| {
      BuiltPrefix(h, writes[..|writes| - 1], k);
      assert writes[..|writes| - 1][..k] == writes[..k];
    } else {
      if writes != [] { BuiltPrefix(h, writes[..|writes| - 1], 0); }
      assert writes[..k] == writes && Built(h, writes)[..k] == Built(h, writes);
    }
  }

  /**
   * A log built by serial appends, and every prefix of it, read in any order, verifies if and only if
   * every payload in it comes back with the same canonical form.
   */
  lemma BuiltLogsVerify(h: Hasher, writes: seq<Write>, k: nat, rows: seq<Event>)
    requires h.Ideal() && (forall w <- writes :: Storable(w))
    requires k <= |writes| == |Built(h, writes)| && multiset(rows) == multiset(Built(h, writes)[..k])
    ensures Verify(h, rows).Intact? <==> forall i | 0 <= i < k :: Faithful(h, writes[i])
    ensures Verify(h, rows).Intact? ==> Verify(h, rows) == Intact(k)
  {
    hide Storable, Built, BySequence, Increasing, Appended, Faithful, Linked;
    BuiltPrefix(h, writes, k);
    var prefix := Built(h, writes[..k]);
    BuiltAppended(h, writes[..k]);
    AppendedLength(h, writes[..k], prefix);
    AppendedIncreasing(h, writes[..k], prefix);
    Resorted(prefix, rows);
    VerifyIffChained(h, rows);
    assert |rows| == |multiset(rows)| == |multiset(prefix)| == |prefix|;
    forall i | 0 <= i < k ensures Linked(h, prefix, i) <==> Faithful(h, writes[i]) {
      assert writes[..k][i] == writes[i] && writes[i] in writes;
      LinkedIff(h, writes[..k], prefix, i);
    }
  }

  /**
   * For payloads in memory: it comes back so exactly when it is equal up to key order and tied keys keep
   * their order; without tied keys, exactly when it is equal up to key order.
   */
  lemma FaithfulIff(h: Hasher, w: Write)
    requires InMemory(w.command.payload) && InMemory(w.stored)
    ensures Faithful(h, w)
            <==> SameValue(w.command.payload, w.stored) && SameTieOrder(h.rank, w.command.payload, w.stored)
    ensures NoTies(h.rank, w.command.payload) ==> (Faithful(h, w) <==> SameValue(w.command.payload, w.stored))
  {
    hide Canon, SameValue, SameTieOrder, InMemory, NoTies;
    CanonIffSame(h.rank, true, w.command.payload, w.stored);
    if NoTies(h.rank, w.command.payload) { NothingTied(h.rank, w.command.payload, w.stored); }
  }

  /** A payload of two tied keys that come back the other way round: the same value, and the log is broken. */
  lemma TiedPayloadBreaksLog(h: Hasher, c: Command, k1: string, k2: string)
    requires h.Ideal() && k1 != k2 && Tied(h.rank, k1, k2) && c.payload == Pair(k1, k2)
    ensures var w := Write(c, Pair(k2, k1));
            SameValue(w.command.payload, w.stored) && !Verify(h, Built(h, [w])).Intact?
  {
    hide Canon, TextOf, SameValue, Tied, Verify, Built, Appended;
    var w := Write(c, Pair(k2, k1));
    TiedKeysSplitTexts(h.rank, true, k1, k2);
    BuiltAppended(h, [w]);
    AppendedLength(h, [w], Built(h, [w]));
    assert Built(h, [w])[..1] == Built(h, [w]);
    PairFinite(k1, k2);
    PairFinite(k2, k1);
    BuiltLogsVerify(h, [w], 1, Built(h, [w]));
    assert !Faithful(h, [w][0]);
  }

  lemma PairFinite(k1: string, k2: string)
    ensures Finite(Pair(k1, k2))
  {
  }

  // Verified logs are determined by their last hash.

  /** Equal in everything that is hashed. */
  ghost predicate SameEvent(e: Event, f: Event) {
    && e.sequence == f.sequence && e.previousHash == f.previousHash && e.eventHash == f.eventHash
    && e.incidentId == f.incidentId && e.kind == f.kind && SameValue(e.payload, f.payload)
    && e.occurredAt == f.occurredAt && e.actorType == f.actorType && Given(e.actorId) == Given(f.actorId)
    && Given(e.requestId) == Given(f.requestId) && Given(e.correlationId) == Given(f.correlationId)
    && Given(e.causationId) == Given(f.causationId)
  }

  ghost predicate AllFinite(events: seq<Event>) { forall e <- events :: Finite(e.payload) }

  lemma LinkedHash(h: Hasher, events: seq<Event>, i: nat)
    requires h.Ideal() && i < |events| && Chained(h, events)
    ensures events[i].eventHash != "" && Linked(h, events, i)
  {
    assert Linked(h, events, i);
  }

  lemma StepBack(h: Hasher, a: seq<Event>, b: seq<Event>, i: nat, j: nat)
    requires h.Ideal() && Chained(h, a) && Chained(h, b) && AllFinite(a) && AllFinite(b)
    requires i < |a| && j < |b| && a[i].eventHash == b[j].eventHash
    ensures i == j && SameEvent(a[i], b[j]) && (i > 0 ==> a[i - 1].eventHash == b[j - 1].eventHash)
  {
    hide EventHash, Chained, Finite, SameValue;
    LinkedHash(h, a, i);
    LinkedHash(h, b, j);
    if i > 0 { LinkedHash(h, a, i - 1); }
    if j > 0 { LinkedHash(h, b, j - 1); }
    assert a[i] in a && b[j] in b;
    HashIff(h, Content(a[i]), i + 1, PreviousOf(a, i), Content(b[j]), j + 1, PreviousOf(b, j));
  }

  lemma {:induction false} SameBelow(h: Hasher, a: seq<Event>, b: seq<Event>, i: nat)
    requires h.Ideal() && Chained(h, a) && Chained(h, b) && AllFinite(a) && AllFinite(b)
    requires i < |a| && i < |b| && a[i].eventHash == b[i].eventHash
    ensures forall k | 0 <= k <= i :: SameEvent(a[k], b[k])
  {
    hide Chained, AllFinite, SameEvent;
    StepBack(h, a, b, i, i);
    if i > 0 { SameBelow(h, a, b, i - 1); }
  }

  /**
   * Two non-empty logs that verify and end in the same hash are the same log: as many events, and
   * each equal to its counterpart in every hashed field.
   */
  lemma LastHashDetermines(h: Hasher, x: seq<Event>, y: seq<Event>)
    requires h.Ideal() && Verify(h, x).Intact? && Verify(h, y).Intact?
    requires var a, b := BySequence(x), BySequence(y);
             AllFinite(a) && AllFinite(b) && a != [] && b != [] && a[|a| - 1].eventHash == b[|b| - 1].eventHash
    ensures var a, b := BySequence(x), BySequence(y);
            |a| == |b| && forall k | 0 <= k < |a| :: SameEvent(a[k], b[k])
  {
    hide Chained, AllFinite, SameEvent, BySequence, Verify;
    var a, b := BySequence(x), BySequence(y);
    VerifyIffChained(h, x);
    VerifyIffChained(h, y);
    StepBack(h, a, b, |a| - 1, |b| - 1);
    SameBelow(h, a, b, |a| - 1);
  }
}
