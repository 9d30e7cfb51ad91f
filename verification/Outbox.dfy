/**
 * The transactional outbox: messages claimed in batches, put on a queue that ignores known job ids,
 * and marked without looking at who holds the lock.
 */
module Outbox {
  import opened Wrappers

  type WorkerId = string

  datatype Status = Pending | Processing | Failed | DeadLetter | Published

  /** A job as the queue knows it: the queue of its topic and its job id. */
  datatype Job = Job(topic: string, id: string)

  /** An outbox row; rows are numbered in creation order. */
  datatype Message = Message(topic: string, key: string, status: Status, attempts: nat, availableAt: int,
      lockedAt: Option<int>)

  /** Topics with a queue, the claim limit, the lock timeout in milliseconds and the attempt limit. */
  datatype Config = Config(topics: set<string>, batchSize: nat, lockTimeout: nat, maximumAttempts: int)

  function JobOf(m: Message): Job { Job(m.topic, m.key) }

  predicate Claimable(cfg: Config, m: Message, now: int) {
    && (m.status == Pending || m.status == Failed
        || (m.status == Processing && m.lockedAt.Some? && m.lockedAt.value < now - cfg.lockTimeout))
    && m.availableAt <= now
  }

  function Claimed(m: Message, now: int): Message {
    m.(status := Processing, lockedAt := Some(now), attempts := m.attempts + 1)
  }

  function Power(n: nat): nat { if n == 0 then 1 else 2 * Power(n - 1) }

  function Min(a: int, b: int): int { if a <= b then a else b }

  /** Seconds until a failed message is tried again. */
  function DelaySeconds(attempts: nat): int { Min(300, Power(Min(attempts, 8))) }

  function MarkedPublished(m: Message): Message { m.(status := Published, lockedAt := None) }

  function MarkedFailed(cfg: Config, m: Message, now: int, attempts: nat): Message {
    m.(status := if attempts >= cfg.maximumAttempts then DeadLetter else Failed,
       availableAt := now + 1000 * DelaySeconds(attempts), lockedAt := None)
  }

  /** `queue.add` with a job id: a known id is ignored. */
  function Enqueue(queue: seq<Job>, job: Job): seq<Job> { if job in queue then queue else queue + [job] }

  // Any number of publishers.

  /** A claimed message in a publisher's hands, and how far it has come. */
  datatype Task = Task(message: nat, attempts: nat, stage: Stage)
  datatype Stage = ToEnqueue | ToMark | ToFail

  /**
   * What becomes of a call: it takes effect and answers, it takes effect but the answer is lost, or it
   * does neither.
   */
  datatype Reply = Done | Lost | Refused

  datatype State = State(now: int, messages: seq<Message>, queue: seq<Job>, batches: map<WorkerId, seq<Task>>)

  datatype Step =
    | Tick(millis: nat) | Insert(topic: string, key: string)
    | Claims(worker: WorkerId, picked: seq<nat>) | Crashes(worker: WorkerId)
    | Enqueues(worker: WorkerId, reply: Reply) | Marks(worker: WorkerId, reply: Reply)
    | Fails(worker: WorkerId, reply: Reply)

  /** Rows a claim may take, returned in any order; it skips rows that others have locked. */
  predicate Picks(cfg: Config, messages: seq<Message>, now: int, picked: seq<nat>) {
    && |picked| <= cfg.batchSize
    && (forall i | 0 <= i < |picked| :: picked[i] < |messages| && Claimable(cfg, messages[picked[i]], now))
    && forall i, j | 0 <= i < j < |picked| :: picked[i] != picked[j]
  }

  /** With nothing locked: a claimable row is left behind only by a full batch of older ones. */
  predicate PicksOldest(cfg: Config, messages: seq<Message>, now: int, picked: seq<nat>) {
    && Picks(cfg, messages, now, picked)
    && forall i | 0 <= i < |messages| && Claimable(cfg, messages[i], now) && i !in picked ::
         |picked| == cfg.batchSize && forall k | 0 <= k < |picked| :: picked[k] < i
  }

  /** Rows at `picked` claimed together. */
  function ClaimAll(messages: seq<Message>, picked: seq<nat>, now: int): (r: seq<Message>)
    ensures |r| == |messages|
  {
    seq(|messages|, i requires 0 <= i < |messages| => if i in picked then Claimed(messages[i], now) else messages[i])
  }

  function Tasks(messages: seq<Message>, picked: seq<nat>): seq<Task>
    requires forall i | 0 <= i < |picked| :: picked[i] < |messages|
  {
    seq(|picked|, i requires 0 <= i < |picked| => Task(picked[i], messages[picked[i]].attempts + 1, ToEnqueue))
  }

  predicate Busy(s: State, w: WorkerId) {
    w in s.batches && s.batches[w] != [] && s.batches[w][0].message < |s.messages|
  }

  function WithStage(s: State, w: WorkerId, stage: Stage): State
    requires Busy(s, w)
  {
    s.(batches := s.batches[w := [s.batches[w][0].(stage := stage)] + s.batches[w][1..]])
  }

  function Rest(s: State, w: WorkerId): State
    requires Busy(s, w)
  {
    s.(batches := s.batches[w := s.batches[w][1..]])
  }

  function Next(cfg: Config, s: State, step: Step): State {
    match step
    case Tick(millis) => s.(now := s.now + millis)
    case Insert(topic, key) =>
      if exists m <- s.messages :: m.key == key then s
      else s.(messages := s.messages + [Message(topic, key, Pending, 0, s.now, None)])
    case Claims(w, picked) =>
      if (w in s.batches && s.batches[w] != []) || !Picks(cfg, s.messages, s.now, picked) then s
      else s.(messages := ClaimAll(s.messages, picked, s.now), batches := s.batches[w := Tasks(s.messages, picked)])
    case Crashes(w) => s.(batches := s.batches - {w})
    case Enqueues(w, reply) =>
      if !Busy(s, w) || s.batches[w][0].stage != ToEnqueue then s
      else
        var m := s.messages[s.batches[w][0].message];
        if m.topic !in cfg.topics || reply == Refused then WithStage(s, w, ToFail)
        else WithStage(s.(queue := Enqueue(s.queue, JobOf(m))), w, if reply == Done then ToMark else ToFail)
    case Marks(w, reply) =>
      if !Busy(s, w) || s.batches[w][0].stage != ToMark then s
      else
        var i := s.batches[w][0].message;
        var t := s.(messages := if reply == Refused then s.messages
            else s.messages[i := MarkedPublished(s.messages[i])]);
        if reply == Done then Rest(t, w) else WithStage(t, w, ToFail)
    case Fails(w, reply) =>
      if !Busy(s, w) || s.batches[w][0].stage != ToFail then s
      else
        var i := s.batches[w][0].message;
        var m := MarkedFailed(cfg, s.messages[i], s.now, s.batches[w][0].attempts);
        var t := s.(messages := if reply == Refused then s.messages else s.messages[i := m]);
        if reply == Done then Rest(t, w) else t.(batches := t.batches - {w})
  }

  function Run(cfg: Config, s: State, steps: seq<Step>): State {
    if steps == [] then s else Next(cfg, Run(cfg, s, steps[..|steps| - 1]), steps[|steps| - 1])
  }

  predicate Initial(s: State) { s.messages == [] && s.queue == [] && s.batches == map[] }

  // The invariant.

  predicate NoRepeats(queue: seq<Job>) { forall i, j | 0 <= i < j < |queue| :: queue[i] != queue[j] }

  predicate DistinctKeys(messages: seq<Message>) {
    forall i, j | 0 <= i < j < |messages| :: messages[i].key != messages[j].key
  }

  /** When the message can next be claimed; a final message never is. */
  function ClaimableFrom(cfg: Config, m: Message): int {
    if m.status == Processing && m.lockedAt.Some? && m.lockedAt.value + cfg.lockTimeout + 1 > m.availableAt
    then m.lockedAt.value + cfg.lockTimeout + 1
    else m.availableAt
  }

  predicate Final(m: Message) { m.status == Published || m.status == DeadLetter }

  /** The longest wait there can be: the lock timeout, or the longest delay after a failure. */
  function LongestWait(cfg: Config): int { if cfg.lockTimeout + 1 > 256_000 then cfg.lockTimeout + 1 else 256_000 }

  ghost predicate MessageSound(cfg: Config, now: int, m: Message) {
    && (m.status == Processing ==> m.lockedAt.Some? && m.lockedAt.value <= now)
    && m.availableAt <= now + LongestWait(cfg)
  }

  ghost predicate BatchSound(messages: seq<Message>, queue: seq<Job>, tasks: seq<Task>) {
    && (forall t <- tasks :: t.message < |messages|)
    && (tasks != [] && tasks[0].stage == ToMark ==> JobOf(messages[tasks[0].message]) in queue)
    && forall i | 0 < i < |tasks| :: tasks[i].stage == ToEnqueue
  }

  ghost predicate Inv(cfg: Config, s: State) {
    && NoRepeats(s.queue) && DistinctKeys(s.messages)
    && (forall m <- s.messages :: MessageSound(cfg, s.now, m))
    && (forall m <- s.messages :: m.status == Published ==> JobOf(m) in s.queue)
    && (forall w | w in s.batches :: BatchSound(s.messages, s.queue, s.batches[w]))
  }

  /** Nothing is taken from the queue, and messages keep their job. */
  ghost predicate Grows(s: State, t: State) {
    && s.queue <= t.queue && |s.messages| <= |t.messages| && s.now <= t.now
    && forall i | 0 <= i < |s.messages| :: JobOf(t.messages[i]) == JobOf(s.messages[i])
  }

  /** Delays start at one second and double up to 256 seconds; the cap of 300 seconds is never reached. */
  lemma DelayBounds(attempts: nat)
    ensures 1 <= DelaySeconds(attempts) <= 256 && DelaySeconds(0) == 1
    ensures 1 <= attempts <= 8 ==> DelaySeconds(attempts) == 2 * DelaySeconds(attempts - 1)
    ensures attempts >= 8 ==> DelaySeconds(attempts) == 256
  {
    PowerAtMost(Min(attempts, 8));
    if attempts > 0 { PowerAtMost(Min(attempts - 1, 8)); }
    assert Power(8) == 256 by { assert Power(4) == 16; assert Power(6) == 64; }
  }

  lemma {:induction false} PowerAtMost(n: nat)
    requires n <= 8
    ensures 1 <= Power(n) <= 256
  {
    if n > 0 { PowerBound(n); }
  }

  lemma {:induction false} PowerBound(n: nat)
    requires 0 < n <= 8
    ensures 2 <= Power(n) && Power(n) * Power(8 - n) == 256
    decreases n
  {
    if n == 1 {
      assert Power(1) == 2 && Power(7) == 128 by { assert Power(3) == 8; assert Power(5) == 32; }
    } else {
      PowerBound(n - 1);
      assert Power(8 - (n - 1)) == 2 * Power(8 - n);
      assert Power(n - 1) * (2 * Power(8 - n)) == (2 * Power(n - 1)) * Power(8 - n);
    }
  }

  lemma BatchGrows(messages: seq<Message>, queue: seq<Job>, later: seq<Message>, longer: seq<Job>, tasks: seq<Task>)
    requires BatchSound(messages, queue, tasks) && queue <= longer && |messages| <= |later|
    requires forall i | 0 <= i < |messages| :: JobOf(later[i]) == JobOf(messages[i])
    ensures BatchSound(later, longer, tasks)
  {
    assert forall job <- queue :: job in longer;
  }

  /** A step that grows the state and leaves all batches but one alone. */
  lemma InvFrom(cfg: Config, s: State, t: State, w: WorkerId)
    requires Inv(cfg, s) && Grows(s, t) && NoRepeats(t.queue) && DistinctKeys(t.messages)
    requires forall m <- t.messages :: MessageSound(cfg, t.now, m) && (m.status == Published ==> JobOf(m) in t.queue)
    requires forall v | v in t.batches && v != w :: v in s.batches && t.batches[v] == s.batches[v]
    requires w in t.batches ==> BatchSound(t.messages, t.queue, t.batches[w])
    ensures Inv(cfg, t)
  {
    hide MessageSound, BatchSound;
    forall v | v in t.batches && v != w ensures BatchSound(t.messages, t.queue, t.batches[v]) {
      BatchGrows(s.messages, s.queue, t.messages, t.queue, t.batches[v]);
    }
  }

  /** One message is rewritten, keeping its job. */
  lemma RewriteSound(cfg: Config, s: State, i: nat, m: Message)
    requires Inv(cfg, s) && i < |s.messages| && JobOf(m) == JobOf(s.messages[i]) && MessageSound(cfg, s.now, m)
    requires m.status == Published ==> JobOf(m) in s.queue
    ensures var messages := s.messages[i := m];
            && DistinctKeys(messages) && Grows(s, s.(messages := messages))
            && forall x <- messages :: MessageSound(cfg, s.now, x) && (x.status == Published ==> JobOf(x) in s.queue)
  {
    hide MessageSound;
    var messages := s.messages[i := m];
    forall x | x in messages ensures MessageSound(cfg, s.now, x) && (x.status == Published ==> JobOf(x) in s.queue) {
      if x != m { assert x in s.messages; }
    }
  }

  lemma MarkInv(cfg: Config, s: State, w: WorkerId, reply: Reply)
    requires Inv(cfg, s) && Busy(s, w) && s.batches[w][0].stage == ToMark
    ensures var t := Next(cfg, s, Marks(w, reply)); Inv(cfg, t) && Grows(s, t)
  {
    var i := s.batches[w][0].message;
    assert BatchSound(s.messages, s.queue, s.batches[w]);
    assert MessageSound(cfg, s.now, s.messages[i]);
    RewriteSound(cfg, s, i, MarkedPublished(s.messages[i]));
    InvFrom(cfg, s, Next(cfg, s, Marks(w, reply)), w);
  }

  lemma FailInv(cfg: Config, s: State, w: WorkerId, reply: Reply)
    requires Inv(cfg, s) && Busy(s, w) && s.batches[w][0].stage == ToFail
    ensures var t := Next(cfg, s, Fails(w, reply)); Inv(cfg, t) && Grows(s, t)
  {
    var task := s.batches[w][0];
    assert BatchSound(s.messages, s.queue, s.batches[w]);
    DelayBounds(task.attempts);
    RewriteSound(cfg, s, task.message, MarkedFailed(cfg, s.messages[task.message], s.now, task.attempts));
    InvFrom(cfg, s, Next(cfg, s, Fails(w, reply)), w);
  }

  lemma EnqueueKeeps(queue: seq<Job>, job: Job)
    requires NoRepeats(queue)
    ensures NoRepeats(Enqueue(queue, job)) && queue <= Enqueue(queue, job) && job in Enqueue(queue, job)
    ensures forall x <- queue :: x in Enqueue(queue, job)
  {
  }

  lemma EnqueueInv(cfg: Config, s: State, w: WorkerId, reply: Reply)
    requires Inv(cfg, s) && Busy(s, w)
    ensures var t := Next(cfg, s, Enqueues(w, reply)); Inv(cfg, t) && Grows(s, t)
  {
    var m := s.messages[s.batches[w][0].message];
    assert BatchSound(s.messages, s.queue, s.batches[w]);
    EnqueueKeeps(s.queue, JobOf(m));
    hide Enqueue;
    InvFrom(cfg, s, Next(cfg, s, Enqueues(w, reply)), w);
  }

  lemma ClaimInv(cfg: Config, s: State, w: WorkerId, picked: seq<nat>)
    requires Inv(cfg, s)
    ensures var t := Next(cfg, s, Claims(w, picked)); Inv(cfg, t) && Grows(s, t)
  {
    var t := Next(cfg, s, Claims(w, picked));
    if t != s {
      forall m | m in t.messages
          ensures MessageSound(cfg, t.now, m) && (m.status == Published ==> JobOf(m) in t.queue) {
        var i :| 0 <= i < |t.messages| && t.messages[i] == m;
        assert s.messages[i] in s.messages;
      }
      InvFrom(cfg, s, t, w);
    }
  }

  lemma InsertInv(cfg: Config, s: State, topic: string, key: string)
    requires Inv(cfg, s)
    ensures var t := Next(cfg, s, Insert(topic, key)); Inv(cfg, t) && Grows(s, t)
  {
    var t := Next(cfg, s, Insert(topic, key));
    if "" in s.batches { BatchGrows(s.messages, s.queue, t.messages, t.queue, s.batches[""]); }
    InvFrom(cfg, s, t, "");
  }

  lemma NextInv(cfg: Config, s: State, step: Step)
    requires Inv(cfg, s)
    ensures Inv(cfg, Next(cfg, s, step)) && Grows(s, Next(cfg, s, step))
  {
    hide LongestWait;
    match step {
      case Tick(_) =>
      case Insert(topic, key) => InsertInv(cfg, s, topic, key);
      case Claims(w, picked) => ClaimInv(cfg, s, w, picked);
      case Crashes(w) => InvFrom(cfg, s, Next(cfg, s, step), w);
      case Enqueues(w, reply) => if Busy(s, w) { EnqueueInv(cfg, s, w, reply); }
      case Marks(w, reply) => if Busy(s, w) && s.batches[w][0].stage == ToMark { MarkInv(cfg, s, w, reply); }
      case Fails(w, reply) => if Busy(s, w) && s.batches[w][0].stage == ToFail { FailInv(cfg, s, w, reply); }
    }
  }

  lemma {:induction false} RunInv(cfg: Config, s: State, steps: seq<Step>)
    requires Initial(s)
    ensures Inv(cfg, Run(cfg, s, steps))
  {
    hide Inv, Next;
    if steps == [] {
      InitialInv(cfg, s);
    } else {
      RunInv(cfg, s, steps[..|steps| - 1]);
      NextInv(cfg, Run(cfg, s, steps[..|steps| - 1]), steps[|steps| - 1]);
    }
  }

  lemma InitialInv(cfg: Config, s: State)
    requires Initial(s)
    ensures Inv(cfg, s)
  {
  }

  lemma {:induction false} RunGrows(cfg: Config, s: State, steps: seq<Step>, k: nat)
    requires Initial(s) && k <= |steps|
    ensures Grows(Run(cfg, s, steps[..k]), Run(cfg, s, steps))
  {
    hide Inv, Next;
    if k == |steps| {
      assert steps[..k] == steps;
    } else {
      var before := steps[..|steps| - 1];
      assert before[..k] == steps[..k];
      RunGrows(cfg, s, before, k);
      RunInv(cfg, s, before);
      NextInv(cfg, Run(cfg, s, before), steps[|steps| - 1]);
    }
  }

  /**
   * Under any interleaving: a message that was ever marked published has its job in the queue from
   * then on, and the queue holds no job twice.
   */
  lemma PublishedIsQueued(cfg: Config, s: State, steps: seq<Step>, k: nat, i: nat)
    requires Initial(s) && k <= |steps|
    requires var early := Run(cfg, s, steps[..k]); i < |early.messages| && early.messages[i].status == Published
    ensures var early, late := Run(cfg, s, steps[..k]), Run(cfg, s, steps);
            && i < |late.messages| && JobOf(late.messages[i]) == JobOf(early.messages[i])
                && JobOf(late.messages[i]) in late.queue
            && NoRepeats(late.queue) && DistinctKeys(late.messages)
  {
    RunInv(cfg, s, steps[..k]);
    RunInv(cfg, s, steps);
    RunGrows(cfg, s, steps, k);
    hide Run;
    var early, late := Run(cfg, s, steps[..k]), Run(cfg, s, steps);
    assert early.messages[i] in early.messages;
    assert forall job <- early.queue :: job in late.queue;
  }

  /**
   * A message that is neither published nor a dead letter is claimable exactly from a known time on,
   * which is never further away than the lock timeout or the longest delay.
   */
  lemma NeverStuck(cfg: Config, s: State, steps: seq<Step>, i: nat, time: int)
    requires Initial(s) && i < |Run(cfg, s, steps).messages| && !Final(Run(cfg, s, steps).messages[i])
    ensures var t := Run(cfg, s, steps);
            var m := t.messages[i];
            && (Claimable(cfg, m, time) <==> time >= ClaimableFrom(cfg, m))
            && ClaimableFrom(cfg, m) <= t.now + LongestWait(cfg)
  {
    RunInv(cfg, s, steps);
    hide Run;
    var t := Run(cfg, s, steps);
    assert t.messages[i] in t.messages;
  }

  // Attempts are claims, and only enough of them make a dead letter.

  /** A claim that takes effect and takes message `i`. */
  predicate TakesUp(cfg: Config, s: State, step: Step, i: nat) {
    && step.Claims? && i in step.picked && Picks(cfg, s.messages, s.now, step.picked)
    && (step.worker in s.batches ==> s.batches[step.worker] == [])
  }

  /** How often message `i` was claimed in a run. */
  function ClaimsOf(cfg: Config, s: State, steps: seq<Step>, i: nat): nat {
    if steps == [] then 0
    else
      var before := steps[..|steps| - 1];
      ClaimsOf(cfg, s, before, i)
      + if TakesUp(cfg, Run(cfg, s, before), steps[|steps| - 1], i) then 1 else 0
  }

  function AttemptsOf(s: State, i: nat): nat { if i < |s.messages| then s.messages[i].attempts else 0 }

  /** Nobody has counted more attempts than the message, and a dead letter has had enough. */
  ghost predicate Tired(cfg: Config, s: State) {
    && (forall m <- s.messages :: m.status == DeadLetter ==> m.attempts >= cfg.maximumAttempts)
    && forall w | w in s.batches :: TasksTired(s.messages, s.batches[w])
  }

  ghost predicate TasksTired(messages: seq<Message>, tasks: seq<Task>) {
    forall t <- tasks :: t.message < |messages| && t.attempts <= messages[t.message].attempts
  }

  lemma TasksStayTired(messages: seq<Message>, later: seq<Message>, tasks: seq<Task>)
    requires TasksTired(messages, tasks) && |messages| <= |later|
    requires forall i | 0 <= i < |messages| :: messages[i].attempts <= later[i].attempts
    ensures TasksTired(later, tasks)
  {
  }

  /** A step changes the attempts of a message only by claiming it. */
  lemma NextCounts(cfg: Config, s: State, step: Step, i: nat)
    ensures AttemptsOf(Next(cfg, s, step), i) == AttemptsOf(s, i) + if TakesUp(cfg, s, step, i) then 1 else 0
    ensures |s.messages| <= |Next(cfg, s, step).messages|
  {
    hide DelaySeconds;
  }

  lemma NextTired(cfg: Config, s: State, step: Step)
    requires Tired(cfg, s)
    ensures Tired(cfg, Next(cfg, s, step))
  {
    var t := Next(cfg, s, step);
    forall i | 0 <= i < |s.messages|
      ensures i < |t.messages| && s.messages[i].attempts <= t.messages[i].attempts
    {
      NextCounts(cfg, s, step, i);
    }
    forall w | w in t.batches ensures TasksTired(t.messages, t.batches[w]) { TasksGoOn(cfg, s, step, w); }
    forall m | m in t.messages && m.status == DeadLetter ensures m.attempts >= cfg.maximumAttempts {
      if m !in s.messages { NewDeadLetter(cfg, s, step, m); }
    }
  }

  lemma TasksGoOn(cfg: Config, s: State, step: Step, w: WorkerId)
    requires Tired(cfg, s) && w in Next(cfg, s, step).batches
    requires forall i | 0 <= i < |s.messages| ::
               i < |Next(cfg, s, step).messages| && s.messages[i].attempts <= Next(cfg, s, step).messages[i].attempts
    ensures TasksTired(Next(cfg, s, step).messages, Next(cfg, s, step).batches[w])
  {
    hide DelaySeconds, MarkedPublished, MarkedFailed;
    var t := Next(cfg, s, step);
    if w in s.batches { TasksStayTired(s.messages, t.messages, s.batches[w]); }
  }

  lemma NewDeadLetter(cfg: Config, s: State, step: Step, m: Message)
    requires Tired(cfg, s) && m in Next(cfg, s, step).messages && m !in s.messages && m.status == DeadLetter
    ensures m.attempts >= cfg.maximumAttempts
  {
    hide DelaySeconds;
    if step.Fails? && Busy(s, step.worker) { assert TasksTired(s.messages, s.batches[step.worker]); }
  }

  lemma {:induction false} RunTired(cfg: Config, s: State, steps: seq<Step>)
    requires Initial(s)
    ensures Tired(cfg, Run(cfg, s, steps))
  {
    hide Tired, Next;
    if steps == [] {
      NobodyTired(cfg, s);
    } else {
      RunTired(cfg, s, steps[..|steps| - 1]);
      NextTired(cfg, Run(cfg, s, steps[..|steps| - 1]), steps[|steps| - 1]);
    }
  }

  lemma NobodyTired(cfg: Config, s: State)
    requires Initial(s)
    ensures Tired(cfg, s)
  {
  }

  /** In every run the attempts of a message are its claims, and a dead letter was claimed the maximum of times. */
  lemma {:induction false} AttemptsAreClaims(cfg: Config, s: State, steps: seq<Step>, i: nat)
    requires Initial(s)
    ensures var t := Run(cfg, s, steps);
            && AttemptsOf(t, i) == ClaimsOf(cfg, s, steps, i)
            && (i < |t.messages| && t.messages[i].status == DeadLetter ==>
                  ClaimsOf(cfg, s, steps, i) >= cfg.maximumAttempts)
  {
    hide Next, TakesUp;
    RunTired(cfg, s, steps);
    if steps != [] {
      AttemptsAreClaims(cfg, s, steps[..|steps| - 1], i);
      NextCounts(cfg, Run(cfg, s, steps[..|steps| - 1]), steps[|steps| - 1], i);
    }
  }

  // Published is not absorbing.

  predicate IsPublished(s: State, i: nat) { i < |s.messages| && s.messages[i].status == Published }

  /** A failure mark that takes effect on message `i`. */
  predicate TakesBack(s: State, step: Step, i: nat) {
    && step.Fails? && step.reply != Refused && Busy(s, step.worker)
    && s.batches[step.worker][0].stage == ToFail && s.batches[step.worker][0].message == i
  }

  /** What a failure mark that takes effect writes, by the attempts its publisher saw. */
  lemma FailureMark(cfg: Config, s: State, step: Step, i: nat)
    requires TakesBack(s, step, i)
    ensures var tried, m, t := s.batches[step.worker][0].attempts, s.messages[i], Next(cfg, s, step).messages[i];
            && (t.status == DeadLetter <==> tried >= cfg.maximumAttempts)
            && (t.status == Failed <==> tried < cfg.maximumAttempts)
            && t.availableAt == s.now + 1000 * DelaySeconds(tried) && t.lockedAt == None
            && t.attempts == m.attempts && JobOf(t) == JobOf(m)
  {
    hide DelaySeconds;
  }

  /** A published message stays published under a step exactly when that step is not a failure mark on it. */
  lemma PublishedStaysIff(cfg: Config, s: State, step: Step, i: nat)
    requires IsPublished(s, i)
    ensures IsPublished(Next(cfg, s, step), i) <==> !TakesBack(s, step, i)
  {
  }

  /** Along a run a published message stays published exactly as long as no failure mark takes effect on it. */
  lemma {:induction false} StaysPublishedIff(cfg: Config, s: State, steps: seq<Step>, k: nat, i: nat)
    requires k <= |steps| && IsPublished(Run(cfg, s, steps[..k]), i)
    ensures (forall j | k <= j <= |steps| :: IsPublished(Run(cfg, s, steps[..j]), i))
            <==> forall j | k <= j < |steps| :: !TakesBack(Run(cfg, s, steps[..j]), steps[j], i)
    decreases |steps| - k
  {
    hide Next, TakesBack, IsPublished;
    if k < |steps| {
      RunStep(cfg, s, steps, k);
      PublishedStaysIff(cfg, Run(cfg, s, steps[..k]), steps[k], i);
      if IsPublished(Run(cfg, s, steps[..k + 1]), i) { StaysPublishedIff(cfg, s, steps, k + 1, i); }
    }
  }

  lemma RunStep(cfg: Config, s: State, steps: seq<Step>, k: nat)
    requires k < |steps|
    ensures Run(cfg, s, steps[..k + 1]) == Next(cfg, Run(cfg, s, steps[..k]), steps[k])
  {
    assert steps[..k + 1][..k] == steps[..k];
  }

  /**
   * A publisher whose queue call took effect but gave no answer stalls; its message is claimed again
   * after the lock timeout and published; then the first publisher's failure mark takes it back.
   */
  function StaleRun(cfg: Config, topic: string, key: string): seq<Step> {
    [Insert(topic, key), Claims("stale", [0]), Enqueues("stale", Lost), Tick(cfg.lockTimeout + 1),
     Claims("fresh", [0]), Enqueues("fresh", Done), Marks("fresh", Done), Fails("stale", Done)]
  }

  /** The first publisher stalls with a failure mark to make, and the lock timeout passes. */
  lemma StaleStart(cfg: Config, s: State, topic: string, key: string)
    requires Initial(s) && topic in cfg.topics && cfg.batchSize > 0
    ensures var m := Message(topic, key, Pending, 0, s.now, None);
            Run(cfg, s, StaleRun(cfg, topic, key)[..4])
            == State(s.now + cfg.lockTimeout + 1, [Claimed(m, s.now)], Enqueue([], JobOf(m)),
                     map["stale" := [Task(0, 1, ToFail)]])
  {
    hide Run, Next, Claimed, Enqueue;
    var steps, later := StaleRun(cfg, topic, key), s.now + cfg.lockTimeout + 1;
    var m := Message(topic, key, Pending, 0, s.now, None);
    ClaimedFields(cfg, m, s.now, later);
    assert steps[..0] == [];
    NoSteps(cfg, s);
    FirstSteps(cfg, s, topic, key);
    var s1 := s.(messages := [m]);
    Continue(cfg, s, steps, 0, s, s1);
    ClaimsOnly(cfg, s1, "stale", m);
    var s2 := s1.(messages := [Claimed(m, s.now)], batches := s1.batches["stale" := [Task(0, 1, ToEnqueue)]]);
    Continue(cfg, s, steps, 1, s1, s2);
    HeadSteps(cfg, s2, "stale", Claimed(m, s.now), Task(0, 1, ToEnqueue), Lost);
    var s3 := s2.(queue := Enqueue([], JobOf(m)), batches := s2.batches["stale" := [Task(0, 1, ToFail)]]);
    Continue(cfg, s, steps, 2, s2, s3);
    FirstSteps(cfg, s3, topic, key);
    Continue(cfg, s, steps, 3, s3, s3.(now := later));
  }

  lemma StaleFailureUnpublishes(cfg: Config, s: State, topic: string, key: string)
    requires Initial(s) && topic in cfg.topics && cfg.batchSize > 0 && cfg.maximumAttempts > 1
    ensures var steps := StaleRun(cfg, topic, key);
            IsPublished(Run(cfg, s, steps[..7]), 0) && Run(cfg, s, steps).messages[0].status == Failed
  {
    hide Run, Next, Claimed, MarkedPublished, MarkedFailed, Enqueue;
    var steps, later := StaleRun(cfg, topic, key), s.now + cfg.lockTimeout + 1;
    var m := Message(topic, key, Pending, 0, s.now, None);
    ClaimedFields(cfg, m, s.now, later);
    var held, again := Claimed(m, s.now), Claimed(Claimed(m, s.now), later);
    assert steps[..8] == steps;
    StaleStart(cfg, s, topic, key);
    var s4 := State(later, [held], Enqueue([], JobOf(m)), map["stale" := [Task(0, 1, ToFail)]]);
    ClaimsOnly(cfg, s4, "fresh", held);
    var s5 := s4.(messages := [again], batches := s4.batches["fresh" := [Task(0, 2, ToEnqueue)]]);
    Continue(cfg, s, steps, 4, s4, s5);
    HeadSteps(cfg, s5, "fresh", again, Task(0, 2, ToEnqueue), Done);
    var s6 := s5.(queue := Enqueue(s5.queue, JobOf(m)), batches := s5.batches["fresh" := [Task(0, 2, ToMark)]]);
    Continue(cfg, s, steps, 5, s5, s6);
    HeadSteps(cfg, s6, "fresh", again, Task(0, 2, ToMark), Done);
    var s7 := s6.(messages := [MarkedPublished(again)], batches := s6.batches["fresh" := []]);
    Continue(cfg, s, steps, 6, s6, s7);
    HeadSteps(cfg, s7, "stale", MarkedPublished(again), Task(0, 1, ToFail), Done);
    var failed := MarkedFailed(cfg, MarkedPublished(again), later, 1);
    Continue(cfg, s, steps, 7, s7, s7.(messages := [failed], batches := s7.batches["stale" := []]));
  }

  lemma ClaimedFields(cfg: Config, m: Message, now: int, later: int)
    requires m.availableAt == now < later - cfg.lockTimeout && m.attempts == 0 && m.status == Pending
    ensures var held, again := Claimed(m, now), Claimed(Claimed(m, now), later);
            && Claimable(cfg, m, now) && JobOf(held) == JobOf(again) == JobOf(m) && held.topic == again.topic == m.topic
            && held.attempts == 1 && Claimable(cfg, held, later) && MarkedPublished(again).status == Published
            && (cfg.maximumAttempts > 1 ==> MarkedFailed(cfg, MarkedPublished(again), later, 1).status == Failed)
  {
    hide DelaySeconds;
  }

  lemma NoSteps(cfg: Config, s: State)
    ensures Run(cfg, s, []) == s
  {
  }

  lemma FirstSteps(cfg: Config, s: State, topic: string, key: string)
    ensures s.messages == [] ==>
              Next(cfg, s, Insert(topic, key)) == s.(messages := [Message(topic, key, Pending, 0, s.now, None)])
    ensures Next(cfg, s, Tick(cfg.lockTimeout + 1)) == s.(now := s.now + cfg.lockTimeout + 1)
  {
  }

  lemma Continue(cfg: Config, s: State, steps: seq<Step>, k: nat, t: State, u: State)
    requires k < |steps| && Run(cfg, s, steps[..k]) == t && Next(cfg, t, steps[k]) == u
    ensures Run(cfg, s, steps[..k + 1]) == u
  {
    RunStep(cfg, s, steps, k);
  }

  lemma ClaimsOnly(cfg: Config, s: State, w: WorkerId, m: Message)
    requires s.messages == [m] && Claimable(cfg, m, s.now) && cfg.batchSize > 0 && w !in s.batches
    ensures Next(cfg, s, Claims(w, [0]))
         == s.(messages := [Claimed(m, s.now)], batches := s.batches[w := [Task(0, m.attempts + 1, ToEnqueue)]])
  {
    assert ClaimAll(s.messages, [0], s.now) == [Claimed(m, s.now)];
    assert Tasks(s.messages, [0]) == [Task(0, m.attempts + 1, ToEnqueue)];
  }

  /** What a publisher with one task does next, when there is only one message. */
  lemma HeadSteps(cfg: Config, s: State, w: WorkerId, m: Message, task: Task, reply: Reply)
    requires s.messages == [m] && w in s.batches && s.batches[w] == [task] && task.message == 0 && reply != Refused
    ensures task.stage == ToEnqueue && m.topic in cfg.topics ==>
              Next(cfg, s, Enqueues(w, reply)) == s.(queue := Enqueue(s.queue, JobOf(m)),
                batches := s.batches[w := [task.(stage := if reply == Done then ToMark else ToFail)]])
    ensures task.stage == ToMark && reply == Done ==>
              Next(cfg, s, Marks(w, reply)) == s.(messages := [MarkedPublished(m)], batches := s.batches[w := []])
    ensures task.stage == ToFail && reply == Done ==>
              Next(cfg, s, Fails(w, reply))
              == s.(messages := [MarkedFailed(cfg, m, s.now, task.attempts)], batches := s.batches[w := []])
  {
    assert [task][1..] == [];
    assert [task.(stage := ToMark)] + [] == [task.(stage := ToMark)];
    assert [task.(stage := ToFail)] + [] == [task.(stage := ToFail)];
    assert [m][0 := MarkedPublished(m)] == [MarkedPublished(m)];
    var failed := MarkedFailed(cfg, m, s.now, task.attempts);
    assert [m][0 := failed] == [failed];
  }

  // One publisher's pass, on the rows and the queue.

  /** The first `limit` claimable rows from row `from` on, oldest first. */
  function Oldest(cfg: Config, messages: seq<Message>, now: int, limit: nat, from: nat): (r: seq<nat>)
    requires from <= |messages|
    ensures |r| <= limit
    ensures forall i | 0 <= i < |r| :: from <= r[i] < |messages| && Claimable(cfg, messages[r[i]], now)
    ensures forall i, j | 0 <= i < j < |r| :: r[i] < r[j]
    ensures forall i | from <= i < |messages| && Claimable(cfg, messages[i], now) && i !in r ::
              |r| == limit && forall k | 0 <= k < |r| :: r[k] < i
    decreases |messages| - from
  {
    if from == |messages| || limit == 0 then []
    else if Claimable(cfg, messages[from], now) then [from] + Oldest(cfg, messages, now, limit - 1, from + 1)
    else Oldest(cfg, messages, now, limit, from + 1)
  }

  /** How the calls for one claimed message go, and the time of the marks. */
  datatype Luck = Luck(add: Reply, mark: Reply, fail: Reply, at: int)

  /** The message is put on its queue and marked published, with an answer to both. */
  predicate Succeeds(cfg: Config, m: Message, luck: Luck) {
    m.topic in cfg.topics && luck.add == Done && luck.mark == Done
  }

  /** What a pass makes of one claimed message. */
  function Settled(cfg: Config, m: Message, luck: Luck): Message {
    if Succeeds(cfg, m, luck) then MarkedPublished(m)
    else
      var marked := m.topic in cfg.topics && luck.add == Done && luck.mark == Lost;
      var tried := if marked then MarkedPublished(m) else m;
      if luck.fail == Refused then tried else MarkedFailed(cfg, tried, luck.at, tried.attempts)
  }

  /**
   * What a pass leaves of a claimed message: published when both calls answered; otherwise what the
   * failure mark wrote, by the attempts made, if it took effect, else what the published mark wrote.
   */
  lemma SettledMeans(cfg: Config, m: Message, luck: Luck)
    ensures var t := Settled(cfg, m, luck);
            && t.topic == m.topic && t.key == m.key && t.attempts == m.attempts
            && (if Succeeds(cfg, m, luck) then
                  t.status == Published && t.lockedAt == None && t.availableAt == m.availableAt
                else if luck.fail != Refused then
                  && (t.status == DeadLetter <==> m.attempts >= cfg.maximumAttempts)
                  && (t.status == Failed <==> m.attempts < cfg.maximumAttempts)
                  && t.lockedAt == None && t.availableAt == luck.at + 1000 * DelaySeconds(m.attempts)
                else if m.topic in cfg.topics && luck.add == Done && luck.mark == Lost then
                  t.status == Published && t.lockedAt == None && t.availableAt == m.availableAt
                else t == m)
  {
    hide DelaySeconds;
  }

  /** Marking the message failed throws, which ends the pass. */
  predicate Throws(cfg: Config, m: Message, luck: Luck) { !Succeeds(cfg, m, luck) && luck.fail != Done }

  /** A row during a pass: untouched, claimed, or settled. */
  function RowAt(cfg: Config, m: Message, now: int, luck: Luck, picked: bool, done: bool): Message {
    if done then Settled(cfg, Claimed(m, now), luck) else if picked then Claimed(m, now) else m
  }

  /** After `k` of the picked rows: each row is where the pass has brought it, and what is published is queued. */
  ghost predicate PassAt(cfg: Config, before: seq<Message>, messages: seq<Message>, queue: seq<Job>, now: int,
                         luck: nat -> Luck, picked: seq<nat>, k: nat)
    requires k <= |picked|
  {
    && |messages| == |before|
    && (forall i | 0 <= i < |before| ::
          messages[i] == RowAt(cfg, before[i], now, luck(i), i in picked, i in picked[..k]))
    && (forall i | 0 <= i < |before| && i in picked[..k] && messages[i].status == Published ::
          JobOf(messages[i]) in queue)
  }

  lemma PassStep(cfg: Config, before: seq<Message>, messages: seq<Message>, queue: seq<Job>, now: int,
      luck: nat -> Luck,
                 picked: seq<nat>, k: nat, next: seq<Message>, longer: seq<Job>)
    requires k < |picked| && PassAt(cfg, before, messages, queue, now, luck, picked, k)
    requires Picks(cfg, before, now, picked) && picked[k] < |messages|
    requires next == messages[picked[k] := Settled(cfg, messages[picked[k]], luck(picked[k]))]
    requires forall job <- queue :: job in longer
    requires next[picked[k]].status == Published ==> JobOf(next[picked[k]]) in longer
    ensures PassAt(cfg, before, next, longer, now, luck, picked, k + 1)
    ensures messages[picked[k]] == Claimed(before[picked[k]], now)
  {
    hide Settled;
    assert picked[..k + 1] == picked[..k] + [picked[k]];
    assert picked[k] !in picked[..k] && picked[k] in picked;
    forall i | 0 <= i < |before| ensures i in picked[..k + 1] <==> i in picked[..k] || i == picked[k] { }
  }

  lemma PassLength(cfg: Config, before: seq<Message>, messages: seq<Message>, queue: seq<Job>, now: int,
                   luck: nat -> Luck, picked: seq<nat>, k: nat)
    requires k <= |picked| && PassAt(cfg, before, messages, queue, now, luck, picked, k)
    ensures |messages| == |before|
  {
  }

  lemma PassStart(cfg: Config, before: seq<Message>, messages: seq<Message>, now: int, luck: nat -> Luck,
                  queue: seq<Job>, picked: seq<nat>)
    requires |messages| == |before|
    requires forall i | 0 <= i < |before| :: messages[i] == if i in picked then Claimed(before[i], now) else before[i]
    ensures PassAt(cfg, before, messages, queue, now, luck, picked, 0)
  {
    assert picked[..0] == [];
  }

  /** Only the last settled message can have made the pass throw, and it did if some were left behind. */
  predicate EndedAt(cfg: Config, before: seq<Message>, now: int, luck: nat -> Luck, picked: seq<nat>, done: nat,
      threw: bool)
    requires done <= |picked| && forall k | 0 <= k < |picked| :: picked[k] < |before|
  {
    && (forall k | 0 <= k < done - 1 :: !Throws(cfg, Claimed(before[picked[k]], now), luck(picked[k])))
    && (threw <==> done > 0 && Throws(cfg, Claimed(before[picked[done - 1]], now), luck(picked[done - 1])))
  }

  lemma PickedInRange(cfg: Config, messages: seq<Message>, now: int, picked: seq<nat>)
    requires PicksOldest(cfg, messages, now, picked)
    ensures Picks(cfg, messages, now, picked) && forall k | 0 <= k < |picked| :: picked[k] < |messages|
  {
  }

  lemma EndedStart(cfg: Config, before: seq<Message>, now: int, luck: nat -> Luck, picked: seq<nat>)
    requires forall k | 0 <= k < |picked| :: picked[k] < |before|
    ensures EndedAt(cfg, before, now, luck, picked, 0, false)
  {
  }

  lemma EndedStep(cfg: Config, before: seq<Message>, now: int, luck: nat -> Luck, picked: seq<nat>, done: nat,
                  threw: bool)
    requires done < |picked| && forall k | 0 <= k < |picked| :: picked[k] < |before|
    requires EndedAt(cfg, before, now, luck, picked, done, false)
    requires threw == Throws(cfg, Claimed(before[picked[done]], now), luck(picked[done]))
    ensures EndedAt(cfg, before, now, luck, picked, done + 1, threw)
  {
    hide Throws, Claimed;
  }

  class OutboxRows {
    var messages: seq<Message>
    var queue: seq<Job>
    var publishing: bool

    constructor ()
      ensures messages == [] && queue == [] && !publishing
    {
      messages, queue, publishing := [], [], false;
    }

    /**
     * Claims the oldest claimable rows: as many as there are up to the batch size, and none that is
     * younger than a claimable row left behind. The others stay as they are.
     */
    method ClaimOutboxBatch(cfg: Config, now: int) returns (picked: seq<nat>)
      modifies this`messages
      ensures PicksOldest(cfg, old(messages), now, picked)
      ensures |messages| == |old(messages)|
      ensures forall i | 0 <= i < |messages| ::
                messages[i] == if i in picked then Claimed(old(messages)[i], now) else old(messages)[i]
    {
      picked := Oldest(cfg, messages, now, cfg.batchSize, 0);
      messages := ClaimAll(messages, picked, now);
    }

    /** Puts one claimed message on its queue and marks it, published or failed. */
    method Publish(cfg: Config, i: nat, luck: Luck) returns (threw: bool)
      requires i < |messages| && NoRepeats(queue)
      modifies this`messages, this`queue
      ensures messages == old(messages)[i := Settled(cfg, old(messages)[i], luck)]
      ensures threw <==> Throws(cfg, old(messages)[i], luck)
      ensures NoRepeats(queue) && old(queue) <= queue && forall job <- old(queue) :: job in queue
      ensures messages[i].status == Published ==> old(messages)[i].status == Published || JobOf(messages[i]) in queue
    {
      EnqueueKeeps(queue, JobOf(messages[i]));
      if messages[i].topic in cfg.topics && luck.add != Refused {
        queue := Enqueue(queue, JobOf(messages[i]));
        if luck.add == Done {
          if luck.mark != Refused { messages := messages[i := MarkedPublished(messages[i])]; }
          if luck.mark == Done { return false; }
        }
      }
      if luck.fail != Refused {
        messages := messages[i := MarkedFailed(cfg, messages[i], luck.at, messages[i].attempts)];
      }
      return luck.fail != Done;
    }

    /**
     * The pass of the source: one at a time, claim a batch, publish each message. Afterwards exactly
     * the claimed messages have changed: the first `done` are settled by what happened to them, and the
     * others, left behind when a failure mark throws, are only claimed. Whatever is settled as
     * published is in the queue; the queue has only grown and holds no job twice.
     */
    method PublishOutbox(cfg: Config, now: int, luck: nat -> Luck) returns (picked: seq<nat>, done: nat, threw: bool)
      requires NoRepeats(queue)
      modifies this
      ensures publishing == old(publishing)
      ensures old(publishing) ==> messages == old(messages) && queue == old(queue) && picked == [] && !threw
      ensures !old(publishing) ==> PicksOldest(cfg, old(messages), now, picked)
      ensures done <= |picked| && PassAt(cfg, old(messages), messages, queue, now, luck, picked, done)
      ensures EndedAt(cfg, old(messages), now, luck, picked, done, threw) && (!threw ==> done == |picked|)
      ensures NoRepeats(queue) && old(queue) <= queue
    {
      picked, done, threw := [], 0, false;
      hide *;
      ghost var before := messages;
      if publishing {
        EndedStart(cfg, before, now, luck, picked);
        PassStart(cfg, before, messages, now, luck, queue, picked);
        return;
      }
      publishing := true;
      picked := ClaimOutboxBatch(cfg, now);
      PickedInRange(cfg, before, now, picked);
      PassStart(cfg, before, messages, now, luck, queue, picked);
      done, threw := PublishAll(cfg, now, luck, picked, before);
      publishing := false;
    }

    /** The loop over the claimed messages. */
    method PublishAll(cfg: Config, now: int, luck: nat -> Luck, picked: seq<nat>, ghost before: seq<Message>)
        returns (done: nat, threw: bool)
      requires NoRepeats(queue) && Picks(cfg, before, now, picked)
      requires forall k | 0 <= k < |picked| :: picked[k] < |before|
      requires PassAt(cfg, before, messages, queue, now, luck, picked, 0)
      modifies this`messages, this`queue
      ensures done <= |picked| && PassAt(cfg, before, messages, queue, now, luck, picked, done)
      ensures EndedAt(cfg, before, now, luck, picked, done, threw) && (!threw ==> done == |picked|)
      ensures NoRepeats(queue) && old(queue) <= queue
    {
      done, threw := 0, false;
      hide *;
      EndedStart(cfg, before, now, luck, picked);
      while done < |picked| && !threw
        invariant NoRepeats(queue) && old(queue) <= queue && done <= |picked|
        invariant PassAt(cfg, before, messages, queue, now, luck, picked, done)
        invariant EndedAt(cfg, before, now, luck, picked, done, threw)
        decreases |picked| - done, !threw
      {
        ghost var rows, jobs := messages, queue;
        PassLength(cfg, before, messages, queue, now, luck, picked, done);
        threw := Publish(cfg, picked[done], luck(picked[done]));
        PassStep(cfg, before, rows, jobs, now, luck, picked, done, messages, queue);
        EndedStep(cfg, before, now, luck, picked, done, threw);
        done := done + 1;
      }
    }
  }
}
