/**
 * One pass of the delayer timer (logic/timer.go:76-199) against the store
 * model: fetch the due job IDs, resolve each one's topic, group the results
 * by topic and move each group to its ready queue in one MULTI/EXEC
 * transaction.
 *
 * What Redis and the scheduler decide is given as input: whether the fetch
 * fails, what each topic lookup replies, the order in which lookups finish
 * (the order results reach the channel) and how each move's connection
 * behaves.
 */
module Timer {
  import opened Wrappers
  import opened Keys
  import opened Format
  import opened Store
  import opened Grouping

  /**
   * The reply to HMGET JobBucketKey(id) topic after conversion to strings:
   * the topic, the nil-reply error, or any other error.
   */
  datatype LookupReply = Found(topic: string) | NilReply | LookupFailed(error: string)

  /**
   * What a lookup sends on the channel: the job with its topic, the job with
   * "" after any error other than the nil reply, and nothing after the nil
   * reply.
   */
  function Resolve(jobID: string, reply: LookupReply): (sent: Option<Msg>)
    ensures sent.None? <==> reply.NilReply?
    ensures sent.Some? ==> sent.value.jobID == jobID
    ensures sent.Some? ==> (sent.value.topic != "" <==> reply.Found? && reply.topic != "")
    ensures reply.Found? ==> sent == Some(Msg(jobID, reply.topic))
  {
    match reply
    case Found(t) => Some(Msg(jobID, t))
    case NilReply => None
    case LookupFailed(_) => Some(Msg(jobID, ""))
  }

  /** The messages on the channel when the lookups finish in the order `arrival`. */
  function Inbox(arrival: seq<string>, replies: map<string, LookupReply>): seq<Msg>
    requires forall id :: id in arrival ==> id in replies
    decreases |arrival|
  {
    if arrival == [] then []
    else
      var id := arrival[|arrival| - 1];
      Inbox(arrival[..|arrival| - 1], replies)
        + (match Resolve(id, replies[id]) case Some(m) => [m] case None => [])
  }

  /**
   * The scheduler's inputs for a pass that fetched successfully: the lookups
   * finish in some order of the due jobs, each once, and each has a reply.
   */
  ghost predicate ArrivalOrder(s: State, now: int, replies: map<string, LookupReply>, arrival: seq<string>)
  {
    && NoDup(arrival)
    && Elems(arrival) == Due(s, now)
    && Due(s, now) <= replies.Keys
  }

  /** Some due job's lookup gets the nil reply, so its goroutine sends nothing. */
  ghost predicate SomeNilReply(s: State, now: int, replies: map<string, LookupReply>)
  {
    exists id :: id in Due(s, now) && id in replies && replies[id].NilReply?
  }

  /** Lookup replies that agree with the metadata in the store. */
  ghost predicate RepliesFromStore(s: State, replies: map<string, LookupReply>)
  {
    forall id :: id in replies && replies[id].Found? && replies[id].topic != "" ==>
      id in s.buckets && s.buckets[id] == replies[id].topic
  }

  datatype Stage = Multi | Zrem | Lpush

  /**
   * How the connection of one move behaves: all is well; sending MULTI, ZREM
   * or LPUSH fails; or EXEC returns an error, after the server either ran
   * the transaction or not.
   */
  datatype MoveFault = NoFault | SendFailed(stage: Stage, error: string) | ExecFailed(error: string, applied: bool)

  /** The function name reported when a stage fails to send. */
  function StageName(stage: Stage): string
  {
    match stage
    case Multi => "startTrans"
    case Zrem => "delJobPool"
    case Lpush => "addReadyQueue"
  }

  /** The server ran EXEC. */
  predicate Commits(fault: MoveFault)
  {
    fault.NoFault? || (fault.ExecFailed? && fault.applied)
  }

  function FaultFor(faults: map<string, MoveFault>, topic: string): MoveFault
  {
    if topic in faults then faults[topic] else NoFault
  }

  /**
   * The error EXEC reports when the transaction was refused: the first error
   * reply read back, which is ZREM's complaint about its missing members.
   */
  const ArityError: string := "ERR wrong number of arguments for 'zrem' command"

  /** The store after one move: the transaction's effect if EXEC ran, else nothing. */
  function MoveEffect(s: State, jobIDs: seq<string>, topic: string, fault: MoveFault): State
  {
    if Commits(fault) then Transact(s, MoveTx(jobIDs, topic)).state else s
  }

  /**
   * The log record of one move: the failing stage's error; for a commit,
   * nothing when a count is zero (the error passed on is nil), else the
   * ready line.
   */
  function MoveLog(s: State, jobIDs: seq<string>, topic: string, fault: MoveFault): Log
  {
    var idsText := Join(jobIDs, ",");
    match fault
    case SendFailed(stage, e) => HandleError(Some(e), StageName(stage), idsText)
    case ExecFailed(e, _) => HandleError(Some(e), "commit", idsText)
    case NoFault =>
      if jobIDs == [] then HandleError(Some(ArityError), "commit", idsText)
      else if |Elems(jobIDs) * s.pool.Keys| == 0 || |QueueAt(s, ReadyQueueKey(topic))| + |jobIDs| == 0 then
        HandleError(None, "commit", idsText)
      else ReadyLog(topic, idsText)
  }

  /** The topics whose move ran EXEC with a non-empty list. */
  ghost function Committed(g: map<string, seq<string>>, faults: map<string, MoveFault>): set<string>
  {
    set t | t in g && Commits(FaultFor(faults, t)) && g[t] != []
  }

  /** The job IDs of the committed topics. */
  ghost function PromotedJobs(g: map<string, seq<string>>, faults: map<string, MoveFault>): set<string>
  {
    set t, id | t in Committed(g, faults) && id in g[t] :: id
  }

  /** The store after the move of every group in g, whatever their order. */
  ghost function AfterMoves(s0: State, g: map<string, seq<string>>, faults: map<string, MoveFault>): State
  {
    var c := Committed(g, faults);
    State(
      s0.pool - PromotedJobs(g, faults),
      s0.buckets,
      map k | k in s0.queues.Keys + (set t | t in c :: ReadyQueueKey(t)) ::
        if HasPrefix(k, PrefixReadyQueue) && QueueTopic(k) in c
        then Reverse(g[QueueTopic(k)]) + QueueAt(s0, k)
        else QueueAt(s0, k))
  }

  /** The log record of each group's move, taken against the store s. */
  function MoveLogs(s: State, g: map<string, seq<string>>, faults: map<string, MoveFault>): map<string, Log>
  {
    map t | t in g :: MoveLog(s, g[t], t, FaultFor(faults, t))
  }

  datatype PassOutcome =
    | FetchFailed(log: Log)
    | Hung
    | Completed(groups: map<string, seq<string>>, logs: map<string, Log>)

  /** Fills an argument array: the key, then the job IDs in order (logic/timer.go:183-187). */
  method PrependKey(key: string, jobIDs: seq<string>) returns (args: array<string>)
    ensures args.Length == |jobIDs| + 1
    ensures args[0] == key
    ensures forall k :: 0 <= k < |jobIDs| ==> args[k + 1] == jobIDs[k]
  {
    args := new string[|jobIDs| + 1];
    args[0] := key;
    for k := 0 to |jobIDs|
      invariant args[0] == key
      invariant forall j :: 0 <= j < k ==> args[j + 1] == jobIDs[j]
    {
      args[k + 1] := jobIDs[k];
    }
  }

  /** The ZREM that removes the jobs from the expiry index. */
  method DelJobPool(jobIDs: seq<string>, topic: string) returns (cmd: Command)
    ensures cmd.name == "ZREM"
    ensures cmd.args == [KeyJobPool] + jobIDs
  {
    var args := PrependKey(KeyJobPool, jobIDs);
    assert args[..] == [KeyJobPool] + jobIDs;
    cmd := Command("ZREM", args[..]);
  }

  /** The LPUSH that puts the jobs on the topic's ready queue. */
  method AddReadyQueue(jobIDs: seq<string>, topic: string) returns (cmd: Command)
    ensures cmd.name == "LPUSH"
    ensures cmd.args == [ReadyQueueKey(topic)] + jobIDs
  {
    var args := PrependKey(PrefixReadyQueue + topic, jobIDs);
    assert args[..] == [ReadyQueueKey(topic)] + jobIDs;
    cmd := Command("LPUSH", args[..]);
  }

  /** The Redis server as seen through the timer's connection pool. */
  class Redis {
    var db: State

    /** The store's sanity invariant, kept by every method (see Store.WellFormed). */
    ghost predicate Valid()
      reads this
    {
      WellFormed(db)
    }

    constructor (initial: State)
      requires WellFormed(initial)
      ensures Valid() && db == initial
    {
      db := initial;
    }

    /** One command outside a transaction. */
    method Do(cmd: Command) returns (reply: Reply)
      requires Valid()
      modifies this
      ensures Valid()
      ensures Step(db, reply) == Apply(old(db), cmd)
    {
      ApplyWellFormed(db, cmd);
      var step := Apply(db, cmd);
      db, reply := step.state, step.reply;
    }

    /** EXEC of the commands queued since MULTI. */
    method Exec(tx: seq<Command>) returns (result: ExecResult)
      requires Valid()
      modifies this
      ensures Valid()
      ensures Commit(db, result) == Transact(old(db), tx)
    {
      TransactWellFormed(db, tx);
      var commit := Transact(db, tx);
      db, result := commit.state, commit.result;
    }

    /** ZRANGEBYSCORE KeyJobPool 0 now, or the error of the round trip. */
    method GetExpireJobs(now: int, fault: Option<string>) returns (jobs: Result<set<string>>)
      ensures fault.Some? ==> jobs == Err(fault.value)
      ensures fault.None? ==> jobs.Ok? && jobs.value == Due(db, now)
      ensures jobs.Ok? ==> forall id :: id in jobs.value ==> id in db.pool && 0.0 <= db.pool[id] <= now as real
    {
      if fault.Some? {
        jobs := Err(fault.value);
      } else {
        jobs := Ok(Due(db, now));
      }
    }

    /**
     * The lookup of one job's topic: on the nil reply it sends HDEL to the
     * expiry index key and sends nothing on the channel; on another error it
     * logs and sends the job with ""; otherwise it sends the job with its
     * topic.
     */
    method GetJobTopic(jobID: string, reply: LookupReply) returns (sent: Option<Msg>, log: Log)
      requires Valid()
      modifies this
      ensures Valid() && db == old(db)
      ensures sent == Resolve(jobID, reply)
      ensures log == if reply.LookupFailed? then HandleError(Some(reply.error), "getJobTopic", jobID) else Silent
    {
      match reply
      case NilReply =>
        HDelOnIndexIsNoOp(db, jobID);
        var ignored := Do(Command("HDEL", [KeyJobPool, jobID]));
        sent, log := None, Silent;
      case LookupFailed(e) =>
        log := HandleError(Some(e), "getJobTopic", jobID);
        sent := Some(Msg(jobID, ""));
      case Found(t) =>
        sent, log := Some(Msg(jobID, t)), Silent;
    }

    /**
     * The move of one topic group: MULTI, ZREM, LPUSH and EXEC, giving up at
     * the first failing step; after EXEC both counts must be non-zero for
     * the ready line to be logged.
     */
    method MoveJobToReadyQueue(jobIDs: seq<string>, topic: string, fault: MoveFault) returns (log: Log)
      requires Valid()
      modifies this
      ensures Valid()
      ensures db == MoveEffect(old(db), jobIDs, topic, fault)
      ensures log == MoveLog(old(db), jobIDs, topic, fault)
    {
      var idsText := Join(jobIDs, ",");
      if fault.SendFailed? && fault.stage == Multi {
        log := HandleError(Some(fault.error), "startTrans", idsText);
        return;
      }
      var zrem := DelJobPool(jobIDs, topic);
      if fault.SendFailed? && fault.stage == Zrem {
        log := HandleError(Some(fault.error), "delJobPool", idsText);
        return;
      }
      var lpush := AddReadyQueue(jobIDs, topic);
      if fault.SendFailed? && fault.stage == Lpush {
        log := HandleError(Some(fault.error), "addReadyQueue", idsText);
        return;
      }
      var tx := [zrem, lpush];
      assert tx == MoveTx(jobIDs, topic);
      if fault.ExecFailed? {
        if fault.applied {
          var ignored := Exec(tx);
        }
        log := HandleError(Some(fault.error), "commit", idsText);
        return;
      }
      ghost var before := db;
      TransactMove(before, jobIDs, topic);
      var result := Exec(tx);
      if result.ExecAbort? {
        log := HandleError(Some(ArityError), "commit", idsText);
        return;
      }
      var v := result.replies[0].n;
      var v1 := result.replies[1].n;
      if v == 0 || v1 == 0 {
        // the error handed on here is the nil one left by the commit
        log := HandleError(None, "commit", idsText);
        return;
      }
      log := ReadyLog(topic, idsText);
    }

    /**
     * One pass: fetch, look up every due job (lookups finishing in the order
     * `arrival`), wait for as many results as jobs, group them, and move
     * every group.
     */
    method Run(now: int, fetchFault: Option<string>, replies: map<string, LookupReply>,
               arrival: seq<string>, faults: map<string, MoveFault>) returns (outcome: PassOutcome)
      requires Valid()
      requires fetchFault.None? ==> ArrivalOrder(db, now, replies, arrival)
      modifies this
      ensures Valid()
      ensures fetchFault.Some? ==>
        outcome == FetchFailed(HandleError(fetchFault, "getExpireJobs", "")) && db == old(db)
      ensures fetchFault.None? && SomeNilReply(old(db), now, replies) ==>
        outcome == Hung && db == old(db)
      ensures fetchFault.None? && !SomeNilReply(old(db), now, replies) ==>
        && outcome.Completed?
        && outcome.groups == ByTopic(Inbox(arrival, replies))
        && outcome.logs == MoveLogs(old(db), outcome.groups, faults)
        && db == AfterMoves(old(db), outcome.groups, faults)
    {
      var jobs := GetExpireJobs(now, fetchFault);
      if jobs.Err? {
        outcome := FetchFailed(HandleError(Some(jobs.error), "getExpireJobs", ""));
        return;
      }
      ghost var s0 := db;
      var inbox := LookUpAll(arrival, replies);
      NoDupCard(arrival);
      InboxLength(arrival, replies);
      if |inbox| < |jobs.value| {
        // the fan-in waits for results that are never sent
        outcome := Hung;
        return;
      }
      var topics := Group(inbox);
      InboxDistinct(arrival, replies);
      GroupingDisjoint(inbox);
      var logs := MoveAll(topics, faults);
      outcome := Completed(topics, logs);
    }

    /** Starts a lookup per job and collects what reaches the channel. */
    method LookUpAll(arrival: seq<string>, replies: map<string, LookupReply>) returns (inbox: seq<Msg>)
      requires Valid()
      requires forall id :: id in arrival ==> id in replies
      modifies this
      ensures Valid() && db == old(db)
      ensures inbox == Inbox(arrival, replies)
    {
      inbox := [];
      var i := 0;
      while i < |arrival|
        invariant 0 <= i <= |arrival|
        invariant Valid() && db == old(db)
        invariant inbox == Inbox(arrival[..i], replies)
      {
        var sent, log := GetJobTopic(arrival[i], replies[arrival[i]]);
        if sent.Some? {
          inbox := inbox + [sent.value];
        }
        assert arrival[..i + 1][..i] == arrival[..i];
        i := i + 1;
      }
      assert arrival[..|arrival|] == arrival;
    }

    /**
     * Starts the move of every topic group; the moves run in any order. Each
     * move's log record is the one it would log against the store before
     * the pass's moves, as long as no job is listed under two topics.
     */
    method MoveAll(topics: map<string, seq<string>>, faults: map<string, MoveFault>)
      returns (logs: map<string, Log>)
      requires Valid()
      modifies this
      ensures Valid()
      ensures db == AfterMoves(old(db), topics, faults)
      ensures logs.Keys == topics.Keys
      ensures Exclusive(topics) ==> logs == MoveLogs(old(db), topics, faults)
    {
      logs := map[];
      var pending := topics.Keys;
      while pending != {}
        invariant pending <= topics.Keys
        invariant Valid()
        invariant db == AfterMoves(old(db), Restrict(topics, topics.Keys - pending), faults)
        invariant logs.Keys == topics.Keys - pending
        invariant Exclusive(topics) ==> logs == MoveLogs(old(db), Restrict(topics, topics.Keys - pending), faults)
        decreases pending
      {
        var t :| t in pending;
        var log := MoveJobToReadyQueue(topics[t], t, FaultFor(faults, t));
        MoveAllStep(old(db), topics, faults, pending, t, logs, log);
        logs := logs[t := log];
        pending := pending - {t};
      }
      assert topics.Keys - pending == topics.Keys;
      RestrictAll(topics);
    }
  }

  function Restrict(g: map<string, seq<string>>, keys: set<string>): map<string, seq<string>>
  {
    map t | t in g && t in keys :: g[t]
  }

  lemma RestrictAdd(g: map<string, seq<string>>, keys: set<string>, t: string)
    requires t in g
    ensures Restrict(g, keys)[t := g[t]] == Restrict(g, keys + {t})
  {
  }

  lemma DoneStep(all: set<string>, pending: set<string>, t: string)
    requires pending <= all && t in pending
    ensures (all - pending) + {t} == all - (pending - {t})
  {
  }

  lemma RestrictAll(g: map<string, seq<string>>)
    ensures Restrict(g, g.Keys) == g
  {
  }

  /** As many messages as lookups exactly when no lookup got the nil reply. */
  lemma {:induction false} InboxLength(arrival: seq<string>, replies: map<string, LookupReply>)
    requires forall id :: id in arrival ==> id in replies
    ensures |Inbox(arrival, replies)| <= |arrival|
    ensures |Inbox(arrival, replies)| == |arrival| <==> forall id :: id in arrival ==> !replies[id].NilReply?
    decreases |arrival|
  {
    if arrival != [] {
      var p := arrival[..|arrival| - 1];
      InboxLength(p, replies);
      assert arrival == p + [arrival[|arrival| - 1]];
    }
  }

  /** A message is on the channel exactly when its job's lookup sent it. */
  lemma {:induction false} InboxMember(arrival: seq<string>, replies: map<string, LookupReply>, m: Msg)
    requires forall id :: id in arrival ==> id in replies
    ensures m in Inbox(arrival, replies) <==> m.jobID in arrival && Resolve(m.jobID, replies[m.jobID]) == Some(m)
    decreases |arrival|
  {
    if arrival != [] {
      var p := arrival[..|arrival| - 1];
      InboxMember(p, replies, m);
      assert arrival == p + [arrival[|arrival| - 1]];
    }
  }

  /** Each job's lookup sends at most once, so no job ID is on the channel twice. */
  lemma {:induction false} InboxDistinct(arrival: seq<string>, replies: map<string, LookupReply>)
    requires forall id :: id in arrival ==> id in replies
    requires NoDup(arrival)
    ensures DistinctJobs(Inbox(arrival, replies))
    decreases |arrival|
  {
    if arrival != [] {
      var p := arrival[..|arrival| - 1];
      var id := arrival[|arrival| - 1];
      InboxDistinct(p, replies);
      assert id !in p;
      forall m | m in Inbox(p, replies) ensures m.jobID != id {
        InboxMember(p, replies, m);
      }
    }
  }

  /**
   * After grouping, a job is listed under topic t exactly when it was
   * fetched and its lookup found the non-empty topic t; a failed lookup is
   * listed nowhere, and no job is listed under two topics.
   */
  lemma PassGrouping(arrival: seq<string>, replies: map<string, LookupReply>, id: string, t: string)
    requires forall x :: x in arrival ==> x in replies
    requires NoDup(arrival)
    ensures var g := ByTopic(Inbox(arrival, replies));
      (t in g && id in g[t]) <==> id in arrival && t != "" && replies[id] == Found(t)
    ensures DistinctJobs(Inbox(arrival, replies))
  {
    GroupingMember(Inbox(arrival, replies), t, id);
    InboxMember(arrival, replies, Msg(id, t));
    InboxDistinct(arrival, replies);
  }

  /** A move that ran EXEC on a non-empty list is exactly the promotion; any other changes nothing. */
  lemma MoveAtomic(s: State, jobIDs: seq<string>, topic: string, fault: MoveFault)
    ensures Commits(fault) && jobIDs != [] ==>
      MoveEffect(s, jobIDs, topic, fault) == Promote(s, ReadyQueueKey(topic), jobIDs)
    ensures !(Commits(fault) && jobIDs != []) ==> MoveEffect(s, jobIDs, topic, fault) == s
  {
    TransactMove(s, jobIDs, topic);
  }

  /**
   * A move touches only the expiry index and its own topic's ready queue,
   * and it removes every job from the index exactly when it pushes them all.
   */
  lemma MoveFrame(s: State, jobIDs: seq<string>, topic: string, fault: MoveFault)
    ensures var s' := MoveEffect(s, jobIDs, topic, fault);
      && s'.buckets == s.buckets
      && (forall k :: k != ReadyQueueKey(topic) ==> QueueAt(s', k) == QueueAt(s, k))
      && (s' == s
          || (s'.pool == s.pool - Elems(jobIDs)
              && QueueAt(s', ReadyQueueKey(topic)) == Reverse(jobIDs) + QueueAt(s, ReadyQueueKey(topic))))
  {
    MoveAtomic(s, jobIDs, topic, fault);
  }

  /** A send that fails before EXEC leaves the store as it was and logs that stage. */
  lemma MoveEarlyFailure(s: State, jobIDs: seq<string>, topic: string, stage: Stage, e: string)
    ensures MoveEffect(s, jobIDs, topic, SendFailed(stage, e)) == s
    ensures var idsText := Join(jobIDs, ",");
      MoveLog(s, jobIDs, topic, SendFailed(stage, e))
        == Failure("FAILURE: func " + StageName(stage) + ", " + e
                   + (if idsText != "" then ", [" + idsText + "]" else "") + ".")
  {
    var idsText := Join(jobIDs, ",");
    assert MoveLog(s, jobIDs, topic, SendFailed(stage, e)) == HandleError(Some(e), StageName(stage), idsText);
    HandleErrorText(e, StageName(stage), idsText);
  }

  /**
   * The ready line is logged exactly when EXEC ran with no fault and
   * removed at least one job from the index.
   */
  lemma MoveReadyLogged(s: State, jobIDs: seq<string>, topic: string, fault: MoveFault)
    ensures MoveLog(s, jobIDs, topic, fault).Info?
        <==> fault.NoFault? && jobIDs != [] && Elems(jobIDs) * s.pool.Keys != {}
  {
  }

  /**
   * When none of the jobs is left in the index (another pass took them),
   * the push has already happened, and the count check logs nothing.
   */
  lemma MoveZeroCount(s: State, jobIDs: seq<string>, topic: string)
    requires jobIDs != [] && forall id :: id in jobIDs ==> id !in s.pool
    ensures MoveLog(s, jobIDs, topic, NoFault) == Silent
    ensures MoveEffect(s, jobIDs, topic, NoFault) == Promote(s, ReadyQueueKey(topic), jobIDs)
    ensures MoveEffect(s, jobIDs, topic, NoFault).pool == s.pool
  {
    MoveAtomic(s, jobIDs, topic, NoFault);
    assert Elems(jobIDs) * s.pool.Keys == {};
    assert s.pool - Elems(jobIDs) == s.pool;
  }

  /** Moves of two different topics give the same store in either order. */
  lemma MovesCommute(s: State, ids1: seq<string>, t1: string, f1: MoveFault,
                     ids2: seq<string>, t2: string, f2: MoveFault)
    requires t1 != t2
    ensures MoveEffect(MoveEffect(s, ids1, t1, f1), ids2, t2, f2)
         == MoveEffect(MoveEffect(s, ids2, t2, f2), ids1, t1, f1)
  {
    var k1, k2 := ReadyQueueKey(t1), ReadyQueueKey(t2);
    ReadyQueueKeyInjective(t1, t2);
    MoveAtomic(s, ids1, t1, f1);
    MoveAtomic(s, ids2, t2, f2);
    MoveAtomic(MoveEffect(s, ids1, t1, f1), ids2, t2, f2);
    MoveAtomic(MoveEffect(s, ids2, t2, f2), ids1, t1, f1);
    if Commits(f1) && ids1 != [] && Commits(f2) && ids2 != [] {
      PromoteCommute(s, k1, ids1, k2, ids2);
    }
  }

  lemma PromoteCommute(s: State, k1: string, ids1: seq<string>, k2: string, ids2: seq<string>)
    requires k1 != k2
    ensures Promote(Promote(s, k1, ids1), k2, ids2) == Promote(Promote(s, k2, ids2), k1, ids1)
  {
    var v1, v2 := Reverse(ids1) + QueueAt(s, k1), Reverse(ids2) + QueueAt(s, k2);
    PoolMinusTwice(s.pool, Elems(ids1), Elems(ids2));
    PromoteElsewhere(s, k1, ids1, k2);
    PromoteElsewhere(s, k2, ids2, k1);
    UpdatesCommute(s.queues, k1, v1, k2, v2);
  }

  /** A promotion leaves the queue at every other key as it was. */
  lemma PromoteElsewhere(s: State, k: string, ids: seq<string>, other: string)
    requires other != k
    ensures QueueAt(Promote(s, k, ids), other) == QueueAt(s, other)
  {
  }

  lemma UpdatesCommute(m: map<string, seq<string>>, k1: string, v1: seq<string>, k2: string, v2: seq<string>)
    requires k1 != k2
    ensures m[k1 := v1][k2 := v2] == m[k2 := v2][k1 := v1]
  {
  }

  lemma PoolMinusTwice(pool: map<string, real>, e1: set<string>, e2: set<string>)
    ensures pool - e1 - e2 == pool - e2 - e1
    ensures pool - e1 - e2 == pool - (e1 + e2)
  {
  }

  /** A move preserves the one-type-per-key invariant. */
  lemma MoveWellFormed(s: State, jobIDs: seq<string>, topic: string, fault: MoveFault)
    requires WellFormed(s)
    ensures WellFormed(MoveEffect(s, jobIDs, topic, fault))
  {
    TransactWellFormed(s, MoveTx(jobIDs, topic));
  }

  /** Adding one more group to the moved ones is one more move. */
  lemma AfterMovesStep(s0: State, g: map<string, seq<string>>, t: string, ids: seq<string>,
                       faults: map<string, MoveFault>)
    requires t !in g
    ensures MoveEffect(AfterMoves(s0, g, faults), ids, t, FaultFor(faults, t))
         == AfterMoves(s0, g[t := ids], faults)
  {
    var a := AfterMoves(s0, g, faults);
    var g' := g[t := ids];
    var f := FaultFor(faults, t);
    MoveAtomic(a, ids, t, f);
    if Commits(f) && ids != [] {
      AfterMovesAdd(s0, g, t, ids, faults);
    } else {
      AfterMovesSkip(s0, g, t, ids, faults);
    }
  }

  /** A group whose move does not commit leaves the combined effect as it was. */
  lemma AfterMovesSkip(s0: State, g: map<string, seq<string>>, t: string, ids: seq<string>,
                       faults: map<string, MoveFault>)
    requires t !in g
    requires !(Commits(FaultFor(faults, t)) && ids != [])
    ensures AfterMoves(s0, g[t := ids], faults) == AfterMoves(s0, g, faults)
  {
    var g' := g[t := ids];
    CommittedSkip(g, t, ids, faults);
    PromotedJobsSame(g, g', faults);
    var a, a' := AfterMoves(s0, g, faults), AfterMoves(s0, g', faults);
    assert a'.pool == a.pool;
    QueueKeysSame(s0, g, g', faults);
    forall k | k in a.queues ensures a'.queues[k] == a.queues[k] {
      AfterMovesQueueAt(s0, g, faults, k);
      AfterMovesQueueAt(s0, g', faults, k);
    }
  }

  lemma CommittedSkip(g: map<string, seq<string>>, t: string, ids: seq<string>, faults: map<string, MoveFault>)
    requires t !in g
    requires !(Commits(FaultFor(faults, t)) && ids != [])
    ensures Committed(g[t := ids], faults) == Committed(g, faults)
    ensures forall u :: u in Committed(g, faults) ==> g[t := ids][u] == g[u]
  {
  }

  lemma CommittedAdd(g: map<string, seq<string>>, t: string, ids: seq<string>, faults: map<string, MoveFault>)
    requires t !in g
    requires Commits(FaultFor(faults, t)) && ids != []
    ensures Committed(g[t := ids], faults) == Committed(g, faults) + {t}
    ensures forall u :: u in Committed(g, faults) ==> g[t := ids][u] == g[u]
  {
  }

  /** Two groupings with the same committed topics and lists promote the same jobs. */
  lemma PromotedJobsSame(g: map<string, seq<string>>, g': map<string, seq<string>>, faults: map<string, MoveFault>)
    requires Committed(g', faults) == Committed(g, faults)
    requires forall u :: u in Committed(g, faults) ==> g'[u] == g[u]
    ensures PromotedJobs(g', faults) == PromotedJobs(g, faults)
  {
    forall id ensures id in PromotedJobs(g', faults) <==> id in PromotedJobs(g, faults) {
      PromotedJobsMember(g, faults, id);
      PromotedJobsMember(g', faults, id);
    }
  }

  /** Two groupings with the same committed topics give the same queue keys. */
  lemma QueueKeysSame(s0: State, g: map<string, seq<string>>, g': map<string, seq<string>>,
                      faults: map<string, MoveFault>)
    requires Committed(g', faults) == Committed(g, faults)
    ensures AfterMoves(s0, g', faults).queues.Keys == AfterMoves(s0, g, faults).queues.Keys
  {
  }

  /** A group whose move commits adds exactly its promotion to the combined effect. */
  lemma AfterMovesAdd(s0: State, g: map<string, seq<string>>, t: string, ids: seq<string>,
                      faults: map<string, MoveFault>)
    requires t !in g
    requires Commits(FaultFor(faults, t)) && ids != []
    ensures Promote(AfterMoves(s0, g, faults), ReadyQueueKey(t), ids) == AfterMoves(s0, g[t := ids], faults)
  {
    var p := Promote(AfterMoves(s0, g, faults), ReadyQueueKey(t), ids);
    var a' := AfterMoves(s0, g[t := ids], faults);
    AfterMovesAddPool(s0, g, t, ids, faults);
    AfterMovesAddQueues(s0, g, t, ids, faults);
    assert p.buckets == a'.buckets;
  }

  lemma AfterMovesAddPool(s0: State, g: map<string, seq<string>>, t: string, ids: seq<string>,
                          faults: map<string, MoveFault>)
    requires t !in g
    requires Commits(FaultFor(faults, t)) && ids != []
    ensures Promote(AfterMoves(s0, g, faults), ReadyQueueKey(t), ids).pool == AfterMoves(s0, g[t := ids], faults).pool
  {
    PromotedJobsAdd(g, t, ids, faults);
    PoolMinusTwice(s0.pool, PromotedJobs(g, faults), Elems(ids));
  }

  lemma PromotedJobsAdd(g: map<string, seq<string>>, t: string, ids: seq<string>, faults: map<string, MoveFault>)
    requires t !in g
    requires Commits(FaultFor(faults, t)) && ids != []
    ensures PromotedJobs(g[t := ids], faults) == PromotedJobs(g, faults) + Elems(ids)
  {
    var g' := g[t := ids];
    CommittedAdd(g, t, ids, faults);
    forall id ensures id in PromotedJobs(g', faults) <==> id in PromotedJobs(g, faults) + Elems(ids) {
      PromotedJobsMember(g', faults, id);
      PromotedJobsMember(g, faults, id);
      if id in Elems(ids) {
        assert t in Committed(g', faults) && id in g'[t];
      }
    }
  }

  lemma AfterMovesAddQueues(s0: State, g: map<string, seq<string>>, t: string, ids: seq<string>,
                            faults: map<string, MoveFault>)
    requires t !in g
    requires Commits(FaultFor(faults, t)) && ids != []
    ensures Promote(AfterMoves(s0, g, faults), ReadyQueueKey(t), ids).queues == AfterMoves(s0, g[t := ids], faults).queues
  {
    var g' := g[t := ids];
    var a, a' := AfterMoves(s0, g, faults), AfterMoves(s0, g', faults);
    var p := Promote(a, ReadyQueueKey(t), ids);
    AfterMovesAddKeys(s0, g, t, ids, faults);
    forall k | k in p.queues ensures p.queues[k] == a'.queues[k] {
      AfterMovesAddQueueAt(s0, g, t, ids, faults, k);
    }
  }

  lemma AfterMovesAddKeys(s0: State, g: map<string, seq<string>>, t: string, ids: seq<string>,
                          faults: map<string, MoveFault>)
    requires t !in g
    requires Commits(FaultFor(faults, t)) && ids != []
    ensures Promote(AfterMoves(s0, g, faults), ReadyQueueKey(t), ids).queues.Keys
         == AfterMoves(s0, g[t := ids], faults).queues.Keys
  {
    CommittedAdd(g, t, ids, faults);
    QueueKeysAdd(Committed(g, faults), t);
  }

  lemma QueueKeysAdd(c: set<string>, t: string)
    ensures (set u | u in c + {t} :: ReadyQueueKey(u)) == (set u | u in c :: ReadyQueueKey(u)) + {ReadyQueueKey(t)}
  {
  }

  lemma AfterMovesAddQueueAt(s0: State, g: map<string, seq<string>>, t: string, ids: seq<string>,
                             faults: map<string, MoveFault>, k: string)
    requires t !in g
    requires Commits(FaultFor(faults, t)) && ids != []
    ensures QueueAt(Promote(AfterMoves(s0, g, faults), ReadyQueueKey(t), ids), k)
         == QueueAt(AfterMoves(s0, g[t := ids], faults), k)
  {
    var g' := g[t := ids];
    var key := ReadyQueueKey(t);
    CommittedAdd(g, t, ids, faults);
    QueueTopicRoundTrip(t);
    AfterMovesQueueAt(s0, g, faults, k);
    AfterMovesQueueAt(s0, g', faults, k);
    if k == key {
      AfterMovesQueueAt(s0, g, faults, key);
    }
  }

  /** The queue at any key after the moves: the committed topic's jobs pushed, or the old queue. */
  lemma AfterMovesQueueAt(s0: State, g: map<string, seq<string>>, faults: map<string, MoveFault>, k: string)
    ensures QueueAt(AfterMoves(s0, g, faults), k)
         == if HasPrefix(k, PrefixReadyQueue) && QueueTopic(k) in Committed(g, faults)
            then Reverse(g[QueueTopic(k)]) + QueueAt(s0, k)
            else QueueAt(s0, k)
  {
    var c := Committed(g, faults);
    if HasPrefix(k, PrefixReadyQueue) && QueueTopic(k) in c {
      var t := QueueTopic(k);
      assert k == ReadyQueueKey(t);
      assert k in (set u | u in c :: ReadyQueueKey(u));
    }
  }

  lemma PromotedJobsMember(g: map<string, seq<string>>, faults: map<string, MoveFault>, id: string)
    ensures id in PromotedJobs(g, faults) <==> exists t :: t in Committed(g, faults) && id in g[t]
  {
  }

  /**
   * After a completed pass, a due job whose lookup found topic t has left
   * the index and sits on t's ready queue when t's move ran EXEC, and is
   * still in the index with its score otherwise.
   */
  lemma PassPromotesFound(s: State, now: int, replies: map<string, LookupReply>, arrival: seq<string>,
                          faults: map<string, MoveFault>, id: string, t: string)
    requires ArrivalOrder(s, now, replies, arrival)
    requires id in Due(s, now) && replies[id] == Found(t) && t != ""
    ensures var s' := AfterMoves(s, ByTopic(Inbox(arrival, replies)), faults);
      && (Commits(FaultFor(faults, t)) ==> id !in s'.pool && id in QueueAt(s', ReadyQueueKey(t)))
      && (!Commits(FaultFor(faults, t)) ==> id in s'.pool && s'.pool[id] == s.pool[id])
  {
    var g := ByTopic(Inbox(arrival, replies));
    assert id in Elems(arrival);
    PassGrouping(arrival, replies, id, t);
    PromotedJobsMember(g, faults, id);
    if Commits(FaultFor(faults, t)) {
      assert t in Committed(g, faults);
      QueueTopicRoundTrip(t);
      AfterMovesQueueAt(s, g, faults, ReadyQueueKey(t));
    } else {
      forall u | u in Committed(g, faults) ensures id !in g[u] {
        PassGrouping(arrival, replies, id, u);
      }
    }
  }

  /**
   * A due job whose lookup failed, or found the empty topic, stays in the
   * index with its score and is pushed onto no ready queue.
   */
  lemma PassKeepsUnresolved(s: State, now: int, replies: map<string, LookupReply>, arrival: seq<string>,
                            faults: map<string, MoveFault>, id: string)
    requires ArrivalOrder(s, now, replies, arrival)
    requires id in Due(s, now) && (replies[id].LookupFailed? || replies[id] == Found(""))
    ensures var s' := AfterMoves(s, ByTopic(Inbox(arrival, replies)), faults);
      && id in s'.pool && s'.pool[id] == s.pool[id]
      && forall k :: id in QueueAt(s', k) ==> id in QueueAt(s, k)
  {
    var g := ByTopic(Inbox(arrival, replies));
    var s' := AfterMoves(s, g, faults);
    forall u | u in g ensures id !in g[u] {
      PassGrouping(arrival, replies, id, u);
    }
    PromotedJobsMember(g, faults, id);
    forall k | id in QueueAt(s', k) ensures id in QueueAt(s, k) {
      AfterMovesQueueAt(s, g, faults, k);
    }
  }

  /**
   * A completed pass loses no job: every job that left the index was due,
   * and (when the lookups agree with the metadata) sits on the ready queue
   * of the topic its metadata names; the metadata is left as it was.
   */
  lemma PassNoJobLost(s: State, now: int, replies: map<string, LookupReply>, arrival: seq<string>,
                      faults: map<string, MoveFault>)
    requires ArrivalOrder(s, now, replies, arrival)
    requires RepliesFromStore(s, replies)
    ensures var s' := AfterMoves(s, ByTopic(Inbox(arrival, replies)), faults);
      && s'.buckets == s.buckets
      && s'.pool.Keys <= s.pool.Keys
      && forall id :: id in s.pool && id !in s'.pool ==>
           && id in Due(s, now)
           && id in s.buckets
           && id in QueueAt(s', ReadyQueueKey(s.buckets[id]))
  {
    var g := ByTopic(Inbox(arrival, replies));
    var s' := AfterMoves(s, g, faults);
    forall id | id in s.pool && id !in s'.pool
      ensures id in Due(s, now) && id in s.buckets && id in QueueAt(s', ReadyQueueKey(s.buckets[id]))
    {
      PromotedJobsMember(g, faults, id);
      var u :| u in Committed(g, faults) && id in g[u];
      PassGrouping(arrival, replies, id, u);
      assert id in Elems(arrival);
      QueueTopicRoundTrip(u);
      AfterMovesQueueAt(s, g, faults, ReadyQueueKey(u));
    }
  }

  /**
   * A move's log depends on the store only through which of its jobs are
   * still indexed, so the moves of topics with other jobs leave it as it
   * would be against the store before the pass's moves.
   */
  lemma MoveLogUnaffected(s0: State, topics: map<string, seq<string>>, done: set<string>, t: string,
                          faults: map<string, MoveFault>)
    requires t in topics && t !in done
    ensures Exclusive(topics) ==>
      MoveLog(AfterMoves(s0, Restrict(topics, done), faults), topics[t], t, FaultFor(faults, t))
        == MoveLog(s0, topics[t], t, FaultFor(faults, t))
  {
    if Exclusive(topics) {
      var g, ids := Restrict(topics, done), topics[t];
      var a := AfterMoves(s0, g, faults);
      forall id | id in ids ensures id !in PromotedJobs(g, faults) {
        PromotedJobsMember(g, faults, id);
      }
      assert a.pool.Keys == s0.pool.Keys - PromotedJobs(g, faults);
      assert Elems(ids) * a.pool.Keys == Elems(ids) * s0.pool.Keys;
    }
  }

  /** What one more move does to the store and to the records MoveAll keeps. */
  lemma MoveAllStep(s0: State, topics: map<string, seq<string>>, faults: map<string, MoveFault>,
                    pending: set<string>, t: string, logs: map<string, Log>, log: Log)
    requires pending <= topics.Keys && t in pending
    requires logs.Keys == topics.Keys - pending
    requires Exclusive(topics) ==> logs == MoveLogs(s0, Restrict(topics, topics.Keys - pending), faults)
    requires log == MoveLog(AfterMoves(s0, Restrict(topics, topics.Keys - pending), faults),
                            topics[t], t, FaultFor(faults, t))
    ensures MoveEffect(AfterMoves(s0, Restrict(topics, topics.Keys - pending), faults),
                       topics[t], t, FaultFor(faults, t))
         == AfterMoves(s0, Restrict(topics, topics.Keys - (pending - {t})), faults)
    ensures logs[t := log].Keys == topics.Keys - (pending - {t})
    ensures Exclusive(topics) ==>
      logs[t := log] == MoveLogs(s0, Restrict(topics, topics.Keys - (pending - {t})), faults)
  {
    var done := topics.Keys - pending;
    AfterMovesStep(s0, Restrict(topics, done), t, topics[t], faults);
    LogsStep(s0, topics, done, t, faults, logs, log);
    RestrictAdd(topics, done, t);
    DoneStep(topics.Keys, pending, t);
  }

  /** One more move's record extends the records of the moves done so far. */
  lemma LogsStep(s0: State, topics: map<string, seq<string>>, done: set<string>, t: string,
                 faults: map<string, MoveFault>, logs: map<string, Log>, log: Log)
    requires t in topics && t !in done
    requires Exclusive(topics) ==> logs == MoveLogs(s0, Restrict(topics, done), faults)
    requires log == MoveLog(AfterMoves(s0, Restrict(topics, done), faults), topics[t], t, FaultFor(faults, t))
    ensures Exclusive(topics) ==> logs[t := log] == MoveLogs(s0, Restrict(topics, done + {t}), faults)
  {
    MoveLogUnaffected(s0, topics, done, t, faults);
    MoveLogsAdd(s0, topics, done, t, faults);
  }

  lemma MoveLogsAdd(s0: State, topics: map<string, seq<string>>, done: set<string>, t: string,
                    faults: map<string, MoveFault>)
    requires t in topics
    ensures MoveLogs(s0, Restrict(topics, done + {t}), faults)
         == MoveLogs(s0, Restrict(topics, done), faults)[t := MoveLog(s0, topics[t], t, FaultFor(faults, t))]
  {
  }

  /**
   * In a completed pass every group's jobs came from the index, so a
   * topic's ready line is logged exactly when its move ran with no fault.
   */
  lemma PassReadyLines(s: State, now: int, replies: map<string, LookupReply>, arrival: seq<string>,
                       faults: map<string, MoveFault>, t: string)
    requires ArrivalOrder(s, now, replies, arrival)
    requires t in ByTopic(Inbox(arrival, replies))
    ensures var logs := MoveLogs(s, ByTopic(Inbox(arrival, replies)), faults);
      t in logs && (logs[t].Info? <==> FaultFor(faults, t).NoFault?)
  {
    var g := ByTopic(Inbox(arrival, replies));
    GroupingShape(Inbox(arrival, replies));
    var id := g[t][0];
    PassGrouping(arrival, replies, id, t);
    assert id in Elems(arrival);
    assert id in Elems(g[t]) * s.pool.Keys;
    MoveReadyLogged(s, g[t], t, FaultFor(faults, t));
  }
}
