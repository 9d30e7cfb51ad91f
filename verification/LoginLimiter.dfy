/** The login limiter: pruned, swept and evicted counters against the full history of attempts. */
module LoginLimiter {
  datatype Options = Options(windowMs: int, maxFailuresPerIp: int, maxFailuresGlobal: int, maxTrackedIps: int)

  /** The failures of one address; windows are listed in insertion order, as the source's map iterates them. */
  datatype Window = Window(ip: string, failures: seq<int>)

  datatype Event = Failure(ip: string, time: int) | Success(ip: string)

  // The counters.

  /** The values still inside the window at `now`. */
  function Prune(values: seq<int>, now: int, windowMs: int): seq<int> {
    if values == [] then []
    else (if now - values[0] < windowMs then [values[0]] else []) + Prune(values[1..], now, windowMs)
  }

  function Sweep(table: seq<Window>, now: int, windowMs: int): seq<Window> {
    if table == [] then []
    else
      var kept := Prune(table[0].failures, now, windowMs);
      (if kept == [] then [] else [Window(table[0].ip, kept)]) + Sweep(table[1..], now, windowMs)
  }

  /** The failures listed for an address; none if it is not tracked. */
  function Entry(table: seq<Window>, ip: string): seq<int> {
    if table == [] then [] else if table[0].ip == ip then table[0].failures else Entry(table[1..], ip)
  }

  predicate Tracked(table: seq<Window>, ip: string) { table != [] && (table[0].ip == ip || Tracked(table[1..], ip)) }

  function Drop(table: seq<Window>, ip: string): seq<Window> {
    if table == [] then [] else if table[0].ip == ip then table[1..] else [table[0]] + Drop(table[1..], ip)
  }

  function Push(table: seq<Window>, ip: string, now: int): seq<Window> {
    if table == [] then []
    else if table[0].ip == ip then [table[0].(failures := table[0].failures + [now])] + table[1..]
    else [table[0]] + Push(table[1..], ip, now)
  }

  /** `track` and the push: a new address evicts the oldest one when the table is full. */
  function Track(table: seq<Window>, ip: string, now: int, maxTracked: int): seq<Window> {
    if Tracked(table, ip) then Push(table, ip, now)
    else (if |table| >= maxTracked && table != [] then table[1..] else table) + [Window(ip, [now])]
  }

  // The history.

  /** Times of all failures. */
  function Times(h: seq<Event>): seq<int> {
    if h == [] then []
    else Times(h[..|h| - 1]) + (if h[|h| - 1].Failure? then [h[|h| - 1].time] else [])
  }

  /** Times of the failures of an address since its last success. */
  function IpTimes(h: seq<Event>, ip: string): seq<int> {
    if h == [] then []
    else
      var e := h[|h| - 1];
      if e.ip != ip then IpTimes(h[..|h| - 1], ip)
      else if e.Success? then []
      else IpTimes(h[..|h| - 1], ip) + [e.time]
  }

  function Addresses(h: seq<Event>): set<string> { set e | e in h :: e.ip }

  /** The addresses with a failure inside the window. */
  function Live(h: seq<Event>, now: int, windowMs: int): set<string> {
    set ip | ip in Addresses(h) && Prune(IpTimes(h, ip), now, windowMs) != []
  }

  /** At every failure so far, the live addresses and the new one fitted into the table. */
  predicate AlwaysFit(o: Options, h: seq<Event>) {
    h == [] ||
    var before, e := h[..|h| - 1], h[|h| - 1];
    AlwaysFit(o, before) && (e.Failure? ==> |Live(before, e.time, o.windowMs) + {e.ip}| <= o.maxTrackedIps)
  }

  /** What the limiter is for: counting over the whole history. */
  predicate Limited(o: Options, h: seq<Event>, ip: string, now: int) {
    |Prune(Times(h), now, o.windowMs)| >= o.maxFailuresGlobal
    || |Prune(IpTimes(h, ip), now, o.windowMs)| >= o.maxFailuresPerIp
  }

  predicate GloballyLimited(o: Options, h: seq<Event>, now: int) {
    |Prune(Times(h), now, o.windowMs)| >= o.maxFailuresGlobal
  }

  // Pruning.

  lemma {:induction false} PruneAppend(a: seq<int>, b: seq<int>, now: int, windowMs: int)
    ensures Prune(a + b, now, windowMs) == Prune(a, now, windowMs) + Prune(b, now, windowMs)
  {
    if a == [] {
      assert a + b == b;
    } else {
      assert (a + b)[1..] == a[1..] + b;
      PruneAppend(a[1..], b, now, windowMs);
    }
  }

  /** Pruning early loses nothing that pruning later would keep. */
  lemma {:induction false} PruneTwice(values: seq<int>, early: int, late: int, windowMs: int)
    requires early <= late
    ensures Prune(Prune(values, early, windowMs), late, windowMs) == Prune(values, late, windowMs)
  {
    if values != [] {
      PruneTwice(values[1..], early, late, windowMs);
      var head := if early - values[0] < windowMs then [values[0]] else [];
      PruneAppend(head, Prune(values[1..], early, windowMs), late, windowMs);
    }
  }

  predicate IsSuffix(a: seq<int>, b: seq<int>) { |a| <= |b| && a == b[|b| - |a|..] }

  lemma PruneSuffix(a: seq<int>, b: seq<int>, now: int, windowMs: int)
    requires IsSuffix(a, b)
    ensures IsSuffix(Prune(a, now, windowMs), Prune(b, now, windowMs))
  {
    var front := b[..|b| - |a|];
    assert b == front + a;
    PruneAppend(front, a, now, windowMs);
  }

  // The table.

  predicate DistinctIps(table: seq<Window>) {
    table != [] ==> !Tracked(table[1..], table[0].ip) && DistinctIps(table[1..])
  }

  lemma {:induction false} NotTracked(table: seq<Window>, ip: string)
    requires !Tracked(table, ip)
    ensures Entry(table, ip) == []
  {
    if table != [] { NotTracked(table[1..], ip); }
  }

  lemma {:induction false} SweepTracks(table: seq<Window>, now: int, windowMs: int, ip: string)
    ensures Tracked(Sweep(table, now, windowMs), ip) ==> Tracked(table, ip)
  {
    if table != [] {
      SweepTracks(table[1..], now, windowMs, ip);
      SweepHead(table, now, windowMs);
    }
  }

  /** What the sweep makes of the first window. */
  lemma SweepHead(table: seq<Window>, now: int, windowMs: int)
    requires table != []
    ensures var kept, rest := Prune(table[0].failures, now, windowMs), Sweep(table[1..], now, windowMs);
            var swept := Sweep(table, now, windowMs);
            if kept == [] then swept == rest
            else swept != [] && swept[0] == Window(table[0].ip, kept) && swept[1..] == rest
  {
  }

  lemma {:induction false} SweepDistinct(table: seq<Window>, now: int, windowMs: int)
    requires DistinctIps(table)
    ensures DistinctIps(Sweep(table, now, windowMs)) && |Sweep(table, now, windowMs)| <= |table|
  {
    if table != [] {
      SweepDistinct(table[1..], now, windowMs);
      SweepTracks(table[1..], now, windowMs, table[0].ip);
      SweepHead(table, now, windowMs);
    }
  }

  lemma {:induction false} SweepEntry(table: seq<Window>, now: int, windowMs: int, ip: string)
    requires DistinctIps(table)
    ensures var swept := Sweep(table, now, windowMs);
            && Entry(swept, ip) == Prune(Entry(table, ip), now, windowMs)
            && (Tracked(swept, ip) <==> Entry(swept, ip) != [])
  {
    if table != [] {
      SweepEntry(table[1..], now, windowMs, ip);
      SweepTracks(table[1..], now, windowMs, ip);
      SweepHead(table, now, windowMs);
      if table[0].ip == ip { NotTracked(Sweep(table[1..], now, windowMs), ip); }
    }
  }

  lemma {:induction false} PushTracks(table: seq<Window>, ip: string, now: int, other: string)
    ensures Tracked(Push(table, ip, now), other) <==> Tracked(table, other)
  {
    if table != [] && table[0].ip != ip { PushTracks(table[1..], ip, now, other); }
  }

  lemma {:induction false} PushTable(table: seq<Window>, ip: string, now: int, other: string)
    requires DistinctIps(table) && Tracked(table, ip)
    ensures var pushed := Push(table, ip, now);
            && DistinctIps(pushed) && |pushed| == |table|
            && Entry(pushed, other) == (if other == ip then Entry(table, ip) + [now] else Entry(table, other))
  {
    if table[0].ip != ip {
      PushTable(table[1..], ip, now, other);
      PushTracks(table[1..], ip, now, table[0].ip);
    }
  }

  lemma {:induction false} AppendTracks(table: seq<Window>, w: Window, other: string)
    ensures Tracked(table + [w], other) <==> Tracked(table, other) || other == w.ip
  {
    if table == [] {
      assert table + [w] == [w];
    } else {
      assert (table + [w])[1..] == table[1..] + [w];
      AppendTracks(table[1..], w, other);
    }
  }

  lemma {:induction false} AppendEntry(table: seq<Window>, w: Window, other: string)
    requires DistinctIps(table) && !Tracked(table, w.ip)
    ensures DistinctIps(table + [w]) && Entry(table + [w], other) == (if other == w.ip then w.failures
        else Entry(table, other))
  {
    if table == [] {
      assert table + [w] == [w];
    } else {
      assert (table + [w])[1..] == table[1..] + [w];
      AppendEntry(table[1..], w, other);
      AppendTracks(table[1..], w, table[0].ip);
    }
  }

  lemma {:induction false} DropTracks(table: seq<Window>, ip: string, other: string)
    ensures Tracked(Drop(table, ip), other) ==> Tracked(table, other)
  {
    if table != [] && table[0].ip != ip { DropTracks(table[1..], ip, other); }
  }

  lemma {:induction false} DropTable(table: seq<Window>, ip: string, other: string)
    requires DistinctIps(table)
    ensures var dropped := Drop(table, ip);
            && DistinctIps(dropped) && |dropped| <= |table|
            && Entry(dropped, other) == (if other == ip then [] else Entry(table, other))
  {
    if table != [] {
      if table[0].ip == ip {
        NotTracked(table[1..], ip);
      } else {
        DropTable(table[1..], ip, other);
        DropTracks(table[1..], ip, table[0].ip);
      }
    }
  }

  // The invariant: the counters against the history.

  /** The entry of an address is the end of its failures in the window, and all of them while live addresses fit. */
  ghost predicate EntryAgrees(o: Options, table: seq<Window>, h: seq<Event>, clock: int, ip: string) {
    var counted, wanted := Prune(Entry(table, ip), clock, o.windowMs), Prune(IpTimes(h, ip), clock, o.windowMs);
    IsSuffix(counted, wanted) && (AlwaysFit(o, h) ==> counted == wanted)
  }

  /** The largest table: its bound, or one entry when the bound is not positive. */
  function TableBound(o: Options): int { if o.maxTrackedIps < 1 then 1 else o.maxTrackedIps }

  ghost predicate Agrees(o: Options, table: seq<Window>, global: seq<int>, h: seq<Event>, clock: int) {
    && DistinctIps(table) && |table| <= TableBound(o)
    && Prune(global, clock, o.windowMs) == Prune(Times(h), clock, o.windowMs)
    && forall ip: string :: EntryAgrees(o, table, h, clock, ip)
  }

  lemma SweepAgrees(o: Options, table: seq<Window>, global: seq<int>, h: seq<Event>, clock: int, now: int)
    requires Agrees(o, table, global, h, clock) && clock <= now
    ensures var swept, pruned := Sweep(table, now, o.windowMs), Prune(global, now, o.windowMs);
            && Agrees(o, swept, pruned, h, now) && pruned == Prune(Times(h), now, o.windowMs)
            && forall ip: string ::
                 && IsSuffix(Entry(swept, ip), Prune(IpTimes(h, ip), now, o.windowMs))
                 && (AlwaysFit(o, h) ==> Entry(swept, ip) == Prune(IpTimes(h, ip), now, o.windowMs))
                 && (Tracked(swept, ip) <==> Entry(swept, ip) != [])
  {
    hide Prune, Sweep, Entry, Times, IpTimes, AlwaysFit, IsSuffix, DistinctIps, Tracked;
    var swept, pruned := Sweep(table, now, o.windowMs), Prune(global, now, o.windowMs);
    SweepDistinct(table, now, o.windowMs);
    PruneTwice(global, clock, now, o.windowMs);
    PruneTwice(Times(h), clock, now, o.windowMs);
    PruneTwice(global, now, now, o.windowMs);
    forall ip: string
      ensures EntryAgrees(o, swept, h, now, ip)
      ensures IsSuffix(Entry(swept, ip), Prune(IpTimes(h, ip), now, o.windowMs))
      ensures AlwaysFit(o, h) ==> Entry(swept, ip) == Prune(IpTimes(h, ip), now, o.windowMs)
      ensures Tracked(swept, ip) <==> Entry(swept, ip) != []
    {
      assert EntryAgrees(o, table, h, clock, ip);
      SweepEntry(table, now, o.windowMs, ip);
      var entry, wanted := Entry(table, ip), IpTimes(h, ip);
      PruneTwice(entry, clock, now, o.windowMs);
      PruneTwice(entry, now, now, o.windowMs);
      PruneTwice(wanted, clock, now, o.windowMs);
      PruneSuffix(Prune(entry, clock, o.windowMs), Prune(wanted, clock, o.windowMs), now, o.windowMs);
    }
  }

  lemma HistoryGrows(h: seq<Event>, e: Event, ip: string)
    ensures Times(h + [e]) == Times(h) + (if e.Failure? then [e.time] else [])
    ensures IpTimes(h + [e], ip) == (if e.ip != ip then IpTimes(h, ip) else if e.Success? then []
        else IpTimes(h, ip) + [e.time])
  {
    assert (h + [e])[..|h + [e]| - 1] == h;
  }

  lemma FitGrows(o: Options, h: seq<Event>, e: Event)
    ensures AlwaysFit(o, h + [e])
          <==> AlwaysFit(o, h) && (e.Failure? ==> |Live(h, e.time, o.windowMs) + {e.ip}| <= o.maxTrackedIps)
  {
    assert (h + [e])[..|h + [e]| - 1] == h;
  }

  function Ips(table: seq<Window>): set<string> { if table == [] then {} else {table[0].ip} + Ips(table[1..]) }

  lemma {:induction false} IpsCount(table: seq<Window>)
    requires DistinctIps(table)
    ensures |Ips(table)| == |table|
  {
    if table != [] {
      IpsCount(table[1..]);
      IpsTracked(table[1..], table[0].ip);
    }
  }

  lemma {:induction false} IpsTracked(table: seq<Window>, ip: string)
    ensures ip in Ips(table) <==> Tracked(table, ip)
  {
    if table != [] { IpsTracked(table[1..], ip); }
  }

  lemma {:induction false} KnownAddress(h: seq<Event>, ip: string)
    requires IpTimes(h, ip) != []
    ensures ip in Addresses(h)
  {
    var e := h[|h| - 1];
    assert e in h && forall x <- h[..|h| - 1] :: x in h;
    if e.ip != ip { KnownAddress(h[..|h| - 1], ip); }
  }

  /** While live addresses fit, a full table is full of live addresses, so a new address never finds it full. */
  lemma RoomForNewAddress(o: Options, swept: seq<Window>, h: seq<Event>, ip: string, now: int)
    requires DistinctIps(swept) && !Tracked(swept, ip)
    requires forall x: string ::
               && Entry(swept, x) == Prune(IpTimes(h, x), now, o.windowMs)
               && (Tracked(swept, x) <==> Entry(swept, x) != [])
    requires |Live(h, now, o.windowMs) + {ip}| <= o.maxTrackedIps
    ensures |swept| < o.maxTrackedIps
  {
    hide Prune, Entry, Tracked, IpTimes, DistinctIps, Ips;
    IpsCount(swept);
    IpsTracked(swept, ip);
    var live := Live(h, now, o.windowMs);
    forall x: string ensures x in Ips(swept) <==> x in live {
      IpsTracked(swept, x);
      assert Entry(swept, x) == Prune(IpTimes(h, x), now, o.windowMs);
      NothingPruned(now, o.windowMs);
      if Prune(IpTimes(h, x), now, o.windowMs) != [] { KnownAddress(h, x); }
    }
    assert Ips(swept) == live && ip !in live;
  }

  lemma NothingPruned(now: int, windowMs: int)
    ensures Prune([], now, windowMs) == []
  {
  }

  lemma PushOne(now: int, windowMs: int)
    ensures Prune([now], now, windowMs) == if 0 < windowMs then [now] else []
  {
    assert [now][1..] == [];
  }

  lemma EvictTable(table: seq<Window>, other: string)
    requires table != [] && DistinctIps(table)
    ensures DistinctIps(table[1..]) && Entry(table[1..], other) == (if other == table[0].ip then []
        else Entry(table, other))
  {
    if other == table[0].ip { NotTracked(table[1..], other); }
  }

  /** What tracking a failure does to every entry. */
  lemma TrackTable(table: seq<Window>, ip: string, now: int, maxTracked: int, other: string)
    requires DistinctIps(table)
    ensures var next := Track(table, ip, now, maxTracked);
            var evicts := !Tracked(table, ip) && |table| >= maxTracked && table != [];
            && DistinctIps(next) && (Tracked(table, ip) ==> |next| == |table|) && (evicts ==> |next| == |table|)
            && (!Tracked(table, ip) && !evicts ==> |next| == |table| + 1)
            && Entry(next, other) == (if evicts && other == table[0].ip then []
                                      else if other == ip then Entry(table, ip) + [now] else Entry(table, other))
  {
    if Tracked(table, ip) {
      PushTable(table, ip, now, other);
    } else {
      NotTracked(table, ip);
      if |table| >= maxTracked && table != [] {
        EvictTable(table, other);
        AppendEntry(table[1..], Window(ip, [now]), other);
      } else {
        AppendEntry(table, Window(ip, [now]), other);
      }
    }
  }

  lemma SuffixAppend(a: seq<int>, b: seq<int>, tail: seq<int>)
    requires IsSuffix(a, b)
    ensures IsSuffix(a + tail, b + tail) && (a == b ==> a + tail == b + tail)
  {
    assert (b + tail)[|b| - |a|..] == a + tail;
  }

  /** One entry after a failure, when that address or another one failed. */
  lemma FailureEntry(o: Options, swept: seq<Window>, h: seq<Event>, now: int, ip: string, x: string)
    requires DistinctIps(swept) && EntryAgrees(o, swept, h, now, x)
    requires forall y: string :: && (AlwaysFit(o, h) ==> Entry(swept, y) == Prune(IpTimes(h, y), now, o.windowMs))
                                 && (Tracked(swept, y) <==> Entry(swept, y) != [])
    ensures EntryAgrees(o, Track(swept, ip, now, o.maxTrackedIps), h + [Failure(ip, now)], now, x)
  {
    hide Prune, Track, IpTimes, AlwaysFit, DistinctIps, Live, Tracked, Entry;
    var e := Failure(ip, now);
    TrackTable(swept, ip, now, o.maxTrackedIps, x);
    HistoryGrows(h, e, x);
    FitGrows(o, h, e);
    var tail := Prune([now], now, o.windowMs);
    PruneAppend(Entry(swept, x), [now], now, o.windowMs);
    PruneAppend(IpTimes(h, x), [now], now, o.windowMs);
    SuffixAppend(Prune(Entry(swept, x), now, o.windowMs), Prune(IpTimes(h, x), now, o.windowMs), tail);
    NothingPruned(now, o.windowMs);
    if AlwaysFit(o, h + [e]) && !Tracked(swept, ip) { RoomForNewAddress(o, swept, h, ip, now); }
  }

  lemma FailureAgrees(o: Options, swept: seq<Window>, pruned: seq<int>, h: seq<Event>, now: int, ip: string)
    requires Agrees(o, swept, pruned, h, now)
    requires forall y: string :: && (AlwaysFit(o, h) ==> Entry(swept, y) == Prune(IpTimes(h, y), now, o.windowMs))
                                 && (Tracked(swept, y) <==> Entry(swept, y) != [])
    ensures Agrees(o, Track(swept, ip, now, o.maxTrackedIps), pruned + [now], h + [Failure(ip, now)], now)
  {
    hide Prune, Track, IpTimes, Times, AlwaysFit, DistinctIps, Tracked, Entry, EntryAgrees;
    TrackTable(swept, ip, now, o.maxTrackedIps, ip);
    HistoryGrows(h, Failure(ip, now), ip);
    PruneAppend(pruned, [now], now, o.windowMs);
    PruneAppend(Times(h), [now], now, o.windowMs);
    forall x: string ensures EntryAgrees(o, Track(swept, ip, now, o.maxTrackedIps), h + [Failure(ip, now)], now, x) {
      FailureEntry(o, swept, h, now, ip, x);
    }
  }

  lemma PruneGrows(pruned: seq<int>, h: seq<Event>, ip: string, now: int, windowMs: int)
    requires pruned == Prune(Times(h), now, windowMs)
    ensures |Prune(Times(h + [Failure(ip, now)]), now, windowMs)| <= |pruned + [now]|
  {
    hide Prune, Times, IpTimes;
    HistoryGrows(h, Failure(ip, now), ip);
    PruneAppend(Times(h), [now], now, windowMs);
    PushOne(now, windowMs);
  }

  /** Right after a failure the counters need no further pruning, unless the window is empty. */
  lemma CountsAfterFailure(o: Options, swept: seq<Window>, pruned: seq<int>, h: seq<Event>, now: int, ip: string)
    requires DistinctIps(swept) && pruned == Prune(Times(h), now, o.windowMs)
    requires forall y: string :: && IsSuffix(Entry(swept, y), Prune(IpTimes(h, y), now, o.windowMs))
                                 && (AlwaysFit(o, h) ==> Entry(swept, y) == Prune(IpTimes(h, y), now, o.windowMs))
                                 && (Tracked(swept, y) <==> Entry(swept, y) != [])
    requires o.windowMs > 0
    ensures var next, later := Track(swept, ip, now, o.maxTrackedIps), h + [Failure(ip, now)];
            && pruned + [now] == Prune(Times(later), now, o.windowMs)
            && |Entry(next, ip)| <= |Prune(IpTimes(later, ip), now, o.windowMs)|
            && (AlwaysFit(o, later) ==> Entry(next, ip) == Prune(IpTimes(later, ip), now, o.windowMs))
  {
    hide Prune, Track, IpTimes, Times, AlwaysFit, DistinctIps, Tracked, Entry;
    var e := Failure(ip, now);
    TrackTable(swept, ip, now, o.maxTrackedIps, ip);
    HistoryGrows(h, e, ip);
    FitGrows(o, h, e);
    PushOne(now, o.windowMs);
    PruneAppend(Times(h), [now], now, o.windowMs);
    PruneAppend(IpTimes(h, ip), [now], now, o.windowMs);
    if AlwaysFit(o, h + [e]) && !Tracked(swept, ip) { RoomForNewAddress(o, swept, h, ip, now); }
  }

  lemma SuccessAgrees(o: Options, table: seq<Window>, global: seq<int>, h: seq<Event>, clock: int, ip: string)
    requires Agrees(o, table, global, h, clock)
    ensures Agrees(o, Drop(table, ip), global, h + [Success(ip)], clock)
  {
    hide Prune, Drop, IpTimes, Times, AlwaysFit, DistinctIps, Entry;
    var e := Success(ip);
    DropTable(table, ip, ip);
    HistoryGrows(h, e, ip);
    assert Times(h) + [] == Times(h);
    FitGrows(o, h, e);
    forall x: string ensures EntryAgrees(o, Drop(table, ip), h + [e], clock, x) {
      assert EntryAgrees(o, table, h, clock, x);
      DropTable(table, ip, x);
      HistoryGrows(h, e, x);
      NothingPruned(clock, o.windowMs);
    }
  }

  // With an empty window.

  predicate Past(h: seq<Event>, clock: int) { forall e <- h :: e.Failure? ==> e.time <= clock }

  lemma {:induction false} AllPruned(values: seq<int>, now: int, windowMs: int)
    requires windowMs <= 0 && forall v <- values :: v <= now
    ensures Prune(values, now, windowMs) == []
  {
    if values != [] {
      assert values[0] in values;
      forall v | v in values[1..] ensures v <= now { assert v in values; }
      AllPruned(values[1..], now, windowMs);
    }
  }

  lemma {:induction false} TimesPast(h: seq<Event>, now: int, ip: string)
    requires Past(h, now)
    ensures (forall v <- Times(h) :: v <= now) && forall v <- IpTimes(h, ip) :: v <= now
  {
    if h != [] {
      assert h[|h| - 1] in h;
      assert forall e <- h[..|h| - 1] :: e in h;
      TimesPast(h[..|h| - 1], now, ip);
    }
  }

  /** An empty window forgets every failure at once. */
  lemma EmptyWindowForgets(h: seq<Event>, now: int, windowMs: int, ip: string)
    requires windowMs <= 0 && Past(h, now)
    ensures Prune(Times(h), now, windowMs) == [] && Prune(IpTimes(h, ip), now, windowMs) == []
  {
    TimesPast(h, now, ip);
    AllPruned(Times(h), now, windowMs);
    AllPruned(IpTimes(h, ip), now, windowMs);
  }

  /** Right after a failure in an empty window the counters hold just that failure. */
  lemma CountsInEmptyWindow(o: Options, swept: seq<Window>, pruned: seq<int>, h: seq<Event>, now: int, ip: string)
    requires DistinctIps(swept) && pruned == Prune(Times(h), now, o.windowMs) && o.windowMs <= 0 && Past(h, now)
    requires IsSuffix(Entry(swept, ip), Prune(IpTimes(h, ip), now, o.windowMs))
    ensures pruned == [] && Entry(Track(swept, ip, now, o.maxTrackedIps), ip) == [now]
    ensures var later := h + [Failure(ip, now)];
            Prune(Times(later), now, o.windowMs) == [] && Prune(IpTimes(later, ip), now, o.windowMs) == []
  {
    hide Prune, Times, IpTimes, Track;
    EmptyWindowForgets(h, now, o.windowMs, ip);
    assert Past(h + [Failure(ip, now)], now);
    EmptyWindowForgets(h + [Failure(ip, now)], now, o.windowMs, ip);
    TrackTable(swept, ip, now, o.maxTrackedIps, ip);
    assert [] + [now] == [now];
  }

  /** The limiter's state, with the attempts it has been told of. */
  class JudgeLoginLimiter {
    const options: Options
    var perIp: seq<Window>
    var globalFailures: seq<int>
    ghost var history: seq<Event>
    ghost var clock: int

    constructor (options: Options, start: int)
      ensures this.options == options && Valid() && history == [] && clock == start
    {
      this.options := options;
      perIp, globalFailures, history, clock := [], [], [], start;
    }

    ghost predicate Valid()
      reads this
    {
      Agrees(options, perIp, globalFailures, history, clock) && Past(history, clock)
    }

    /** What the counters answer. */
    predicate Counted(ip: string)
      reads this
    {
      |globalFailures| >= options.maxFailuresGlobal || |Entry(perIp, ip)| >= options.maxFailuresPerIp
    }

    /** Drops what has left the window, from both counters. */
    method SweepAt(now: int)
      requires Valid() && clock <= now
      modifies this`perIp, this`globalFailures, this`clock
      ensures Valid() && clock == now
      ensures perIp == Sweep(old(perIp), now, options.windowMs)
          && globalFailures == Prune(old(globalFailures), now, options.windowMs)
    {
      hide Agrees, Sweep, Prune;
      SweepAgrees(options, perIp, globalFailures, history, clock, now);
      globalFailures := PruneValues(globalFailures, now);
      perIp := SweepWindows(perIp, now);
      clock := now;
    }

    /** The loop over the map: prune each window, delete the empty ones. */
    method SweepWindows(table: seq<Window>, now: int) returns (swept: seq<Window>)
      ensures swept == Sweep(table, now, options.windowMs)
    {
      hide Prune;
      swept := [];
      for i := 0 to |table|
        invariant Sweep(table, now, options.windowMs) == swept + Sweep(table[i..], now, options.windowMs)
      {
        var failures := PruneValues(table[i].failures, now);
        assert table[i..][0] == table[i] && table[i..][1..] == table[i + 1..];
        SweepHead(table[i..], now, options.windowMs);
        if failures != [] { swept := swept + [Window(table[i].ip, failures)]; }
      }
    }

    method PruneValues(values: seq<int>, now: int) returns (kept: seq<int>)
      ensures kept == Prune(values, now, options.windowMs)
    {
      kept := [];
      for i := 0 to |values|
        invariant Prune(values, now, options.windowMs) == kept + Prune(values[i..], now, options.windowMs)
      {
        assert values[i..][0] == values[i] && values[i..][1..] == values[i + 1..];
        if now - values[i] < options.windowMs { kept := kept + [values[i]]; }
      }
    }

    /**
     * For non-decreasing time: never limits more than the history does, always limits when the global
     * count does, and answers exactly as the history while live addresses have fitted in the table.
     */
    method IsLimited(ip: string, now: int) returns (limited: bool)
      requires Valid() && clock <= now
      modifies this
      ensures Valid() && clock == now && history == old(history) && |perIp| <= TableBound(options)
      ensures limited ==> Limited(options, history, ip, now)
      ensures GloballyLimited(options, history, now) ==> limited
      ensures AlwaysFit(options, history) ==> (limited <==> Limited(options, history, ip, now))
    {
      SweepAgrees(options, perIp, globalFailures, history, clock, now);
      SweepAt(now);
      limited := Counted(ip);
    }

    /**
     * The same, for the attempt just recorded. In an empty window the new failure is counted although
     * no window holds it, so the two answers agree unless a limit is one and none is below.
     */
    method RecordFailure(ip: string, now: int) returns (limited: bool)
      requires Valid() && clock <= now
      modifies this
      ensures Valid() && clock == now && history == old(history) + [Failure(ip, now)] && |perIp| <= TableBound(options)
      ensures options.windowMs > 0 && limited ==> Limited(options, history, ip, now)
      ensures GloballyLimited(options, history, now) ==> limited
      ensures options.windowMs > 0 && AlwaysFit(options, history) ==> (limited <==> Limited(options, history, ip, now))
      ensures options.windowMs <= 0 ==>
                && (limited <==> options.maxFailuresGlobal <= 1 || options.maxFailuresPerIp <= 1)
                && (Limited(options, history, ip, now)
                    <==> options.maxFailuresGlobal <= 0 || options.maxFailuresPerIp <= 0)
    {
      SweepAgrees(options, perIp, globalFailures, history, clock, now);
      SweepAt(now);
      FailureAgrees(options, perIp, globalFailures, history, now, ip);
      PruneGrows(globalFailures, history, ip, now, options.windowMs);
      if options.windowMs > 0 {
        CountsAfterFailure(options, perIp, globalFailures, history, now, ip);
      } else {
        CountsInEmptyWindow(options, perIp, globalFailures, history, now, ip);
      }
      globalFailures := globalFailures + [now];
      perIp := Track(perIp, ip, now, options.maxTrackedIps);
      history := history + [Failure(ip, now)];
      limited := Counted(ip);
    }

    method RecordSuccess(ip: string)
      requires Valid()
      modifies this
      ensures Valid() && clock == old(clock) && history == old(history) + [Success(ip)] && IpTimes(history, ip) == []
      ensures globalFailures == old(globalFailures)
      ensures forall x: string :: Entry(perIp, x) == if x == ip then [] else Entry(old(perIp), x)
    {
      forall x: string ensures Entry(Drop(perIp, ip), x) == if x == ip then [] else Entry(perIp, x) {
        DropTable(perIp, ip, x);
      }
      SuccessAgrees(options, perIp, globalFailures, history, clock, ip);
      HistoryGrows(history, Success(ip), ip);
      perIp := Drop(perIp, ip);
      history := history + [Success(ip)];
    }
  }
}
