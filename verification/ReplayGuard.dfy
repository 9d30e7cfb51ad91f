/** The webhook replay guard: a pruned table of accepted deliveries that answers for the whole history. */
module ReplayGuard {
  datatype Delivery = Delivery(id: string, time: int)

  predicate IdChar(c: char) { 'A' <= c <= 'Z' || 'a' <= c <= 'z' || '0' <= c <= '9' || c == '-' }

  /** `/^[A-Za-z0-9-]{8,128}$/`. */
  predicate WellFormed(id: string) { 8 <= |id| <= 128 && forall c <- id :: IdChar(c) }

  /** The id was accepted at or after `cutoff`. */
  predicate AcceptedSince(history: seq<Delivery>, id: string, cutoff: int) {
    exists d <- history :: d.id == id && d.time >= cutoff
  }

  function Pruned(seen: map<string, int>, cutoff: int): map<string, int> {
    map id | id in seen && seen[id] >= cutoff :: seen[id]
  }

  /** The table speaks for the history at every cutoff from `since` on. */
  ghost predicate Speaks(seen: map<string, int>, history: seq<Delivery>, since: int) {
    && (forall id | id in seen :: Delivery(id, seen[id]) in history)
    && (forall d <- history :: d.time >= since ==> d.id in seen && seen[d.id] >= d.time)
  }

  /** Deliveries of one id are accepted more than the window apart. */
  ghost predicate Apart(history: seq<Delivery>, window: int) {
    forall i, j | 0 <= i < j < |history| && history[i].id == history[j].id :: history[i].time < history[j].time - window
  }

  /** After pruning, an id is in the table exactly when it was accepted since the cutoff. */
  lemma PrunedSpeaks(seen: map<string, int>, history: seq<Delivery>, since: int, cutoff: int, id: string)
    requires Speaks(seen, history, since) && since <= cutoff
    ensures id in Pruned(seen, cutoff) <==> AcceptedSince(history, id, cutoff)
    ensures Speaks(Pruned(seen, cutoff), history, cutoff)
  {
    if AcceptedSince(history, id, cutoff) { var d :| d in history && d.id == id && d.time >= cutoff; }
  }

  /** Accepting an id that is not in the table keeps the table true, whatever the sign of the window. */
  lemma AcceptedApart(seen: map<string, int>, history: seq<Delivery>, id: string, now: int, window: int)
    requires Speaks(seen, history, now - window) && id !in seen && Apart(history, window)
    ensures Speaks(seen[id := now], history + [Delivery(id, now)], now - window)
    ensures Apart(history + [Delivery(id, now)], window)
  {
    var longer := history + [Delivery(id, now)];
    forall i, j | 0 <= i < j < |longer| && longer[i].id == longer[j].id
        ensures longer[i].time < longer[j].time - window {
      if j == |history| { assert history[i] in history; }
    }
    var table := seen[id := now];
    forall x | x in table ensures Delivery(x, table[x]) in longer {
      if x != id { assert Delivery(x, seen[x]) in history; }
    }
  }

  class WebhookReplayGuard {
    const replayWindowSeconds: int
    var seen: map<string, int>
    ghost var history: seq<Delivery>
    ghost var clock: int

    constructor (replayWindowSeconds: int, start: int)
      ensures this.replayWindowSeconds == replayWindowSeconds && Valid() && history == [] && clock == start
    {
      this.replayWindowSeconds := replayWindowSeconds;
      seen, history, clock := map[], [], start;
    }

    function Window(): int { replayWindowSeconds * 1000 }

    ghost predicate Valid()
      reads this
    {
      Speaks(seen, history, clock - Window()) && Apart(history, Window())
    }

    /** The loop that deletes what is older than the cutoff. */
    method Prune(cutoff: int)
      modifies this`seen
      ensures seen == Pruned(old(seen), cutoff)
    {
      ghost var before := seen;
      var ids := seen.Keys;
      while ids != {}
        invariant ids <= before.Keys
        invariant seen == map id | id in before && (id in ids || before[id] >= cutoff) :: before[id]
        decreases |ids|
      {
        var id :| id in ids;
        if seen[id] < cutoff { seen := seen - {id}; }
        ids := ids - {id};
      }
    }

    /**
     * For non-decreasing time: a well-formed id is accepted exactly when it was not accepted within
     * the window, in the whole history of the guard, pruned or not.
     */
    method Accept(deliveryId: string, current: int) returns (accepted: bool)
      requires Valid() && clock <= current
      modifies this
      ensures Valid() && clock == (if WellFormed(deliveryId) then current else old(clock))
      ensures accepted <==> WellFormed(deliveryId) && !AcceptedSince(old(history), deliveryId, current - Window())
      ensures history == if accepted then old(history) + [Delivery(deliveryId, current)] else old(history)
    {
      if !WellFormed(deliveryId) { return false; }
      var cutoff := current - replayWindowSeconds * 1000;
      PrunedSpeaks(seen, history, clock - Window(), cutoff, deliveryId);
      Prune(cutoff);
      clock := current;
      if deliveryId in seen { return false; }
      Admit(deliveryId, current);
      return true;
    }

    method Admit(deliveryId: string, current: int)
      requires deliveryId !in seen && Valid() && clock == current
      modifies this`seen, this`history
      ensures Valid() && history == old(history) + [Delivery(deliveryId, current)]
    {
      AcceptedApart(seen, history, deliveryId, current, Window());
      seen := seen[deliveryId := current];
      history := history + [Delivery(deliveryId, current)];
    }
  }
}
