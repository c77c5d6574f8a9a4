/**
 * The part of the Redis server the timer touches, as a value: the expiry
 * index (the sorted set at KeyJobPool, member to score), job metadata (the
 * "topic" field of each hash at JobBucketKey(id)) and the lists of the
 * ready queues, keyed by their full key. Commands are interpreted the way
 * Redis interprets ZREM and LPUSH, HDEL as far as key types go, and a
 * MULTI/EXEC transaction applies its queued commands as one step.
 */
module Store {
  import opened Keys

  datatype State = State(
    pool: map<string, real>,
    buckets: map<string, string>,
    queues: map<string, seq<string>>)

  function Elems(s: seq<string>): set<string>
  {
    set x | x in s
  }

  predicate NoDup(s: seq<string>)
  {
    forall i, j :: 0 <= i < j < |s| ==> s[i] != s[j]
  }

  /** A list key that does not exist reads as the empty list. */
  function QueueAt(s: State, key: string): seq<string>
  {
    if key in s.queues then s.queues[key] else []
  }

  /** The key holds a metadata hash. */
  predicate IsBucketKey(s: State, key: string)
  {
    HasPrefix(key, PrefixJobBucket) && BucketJobID(key) in s.buckets
  }

  /**
   * Every key holds one type: no list lives at the index key or at a hash key.
   * A sanity invariant of this store model, which stores each type in its own
   * map: every command keeps it, but no result about the timer relies on it.
   */
  ghost predicate WellFormed(s: State)
  {
    && KeyJobPool !in s.queues
    && forall key :: key in s.queues ==> !IsBucketKey(s, key)
  }

  /**
   * ZRANGEBYSCORE KeyJobPool 0 now: the members whose score lies in [0, now].
   * Scores are Redis doubles (finite here); now is a whole number of seconds.
   */
  function Due(s: State, now: int): set<string>
  {
    set id | id in s.pool && 0.0 <= s.pool[id] <= now as real
  }

  function Reverse(s: seq<string>): (r: seq<string>)
    ensures |r| == |s| && forall x :: x in r <==> x in s
  {
    if s == [] then []
    else
      assert s == [s[0]] + s[1..];
      Reverse(s[1..]) + [s[0]]
  }

  /** LPUSH: each value in turn goes to the head of the list. */
  function LPushAll(list: seq<string>, values: seq<string>): seq<string>
    decreases |values|
  {
    if values == [] then list else LPushAll([values[0]] + list, values[1..])
  }

  /** ZREM: members are removed in turn; the count is of members that were present. */
  function ZRemAll(pool: map<string, real>, members: seq<string>): Removal
    decreases |members|
  {
    if members == [] then Removal(pool, 0)
    else
      var r := ZRemAll(pool - {members[0]}, members[1..]);
      Removal(r.pool, if members[0] in pool then r.count + 1 else r.count)
  }

  datatype Removal = Removal(pool: map<string, real>, count: nat)

  /** LPUSH of several values puts them at the head in reverse order. */
  lemma {:induction false} LPushAllReverses(list: seq<string>, values: seq<string>)
    ensures LPushAll(list, values) == Reverse(values) + list
    decreases |values|
  {
    if values != [] {
      LPushAllReverses([values[0]] + list, values[1..]);
      assert Reverse(values[1..]) + ([values[0]] + list)
          == (Reverse(values[1..]) + [values[0]]) + list;
    }
  }

  lemma ElemsCons(members: seq<string>)
    requires members != []
    ensures Elems(members) == {members[0]} + Elems(members[1..])
  {
    assert members == [members[0]] + members[1..];
  }

  /** ZREM removes exactly the listed members. */
  lemma {:induction false} ZRemAllRemoves(pool: map<string, real>, members: seq<string>)
    ensures ZRemAll(pool, members).pool == pool - Elems(members)
    decreases |members|
  {
    if members != [] {
      var m := members[0];
      ZRemAllRemoves(pool - {m}, members[1..]);
      ElemsCons(members);
      assert (pool - {m}) - Elems(members[1..]) == pool - Elems(members);
    }
  }

  /** ZREM counts the distinct listed members that were present. */
  lemma {:induction false} ZRemAllCounts(pool: map<string, real>, members: seq<string>)
    ensures ZRemAll(pool, members).count == |Elems(members) * pool.Keys|
    decreases |members|
  {
    if members != [] {
      var m := members[0];
      var smaller := pool - {m};
      ZRemAllCounts(smaller, members[1..]);
      ElemsCons(members);
      assert smaller.Keys == pool.Keys - {m};
      SplitIntersection(Elems(members[1..]), pool.Keys, m);
    }
  }

  /** Taking one member off the front splits an intersection into two disjoint parts. */
  lemma SplitIntersection(rest: set<string>, keys: set<string>, m: string)
    ensures |({m} + rest) * keys| == |rest * (keys - {m})| + (if m in keys then 1 else 0)
  {
    var left, mine := rest * (keys - {m}), {m} * keys;
    assert ({m} + rest) * keys == left + mine;
    assert left !! mine;
    assert mine == if m in keys then {m} else {};
  }

  datatype Command = Command(name: string, args: seq<string>)

  datatype Reply = Int(n: int) | WrongType | ArgError

  datatype ExecResult = ExecAbort | Replies(replies: seq<Reply>)

  /** A server state together with the reply or replies that produced it. */
  datatype Step = Step(state: State, reply: Reply)
  datatype Batch = Batch(state: State, replies: seq<Reply>)
  datatype Commit = Commit(state: State, result: ExecResult)

  /** Redis accepts the command into a transaction: a known name and a key plus at least one value. */
  predicate Accepted(cmd: Command)
  {
    cmd.name in {"ZREM", "LPUSH", "HDEL"} && |cmd.args| >= 2
  }

  /** One command run against the server. */
  function Apply(s: State, cmd: Command): Step
  {
    if !Accepted(cmd) then Step(s, ArgError)
    else if cmd.name == "ZREM" then ZRem(s, cmd.args[0], cmd.args[1..])
    else if cmd.name == "LPUSH" then LPush(s, cmd.args[0], cmd.args[1..])
    else HDel(s, cmd.args[0], cmd.args[1..])
  }

  function ZRem(s: State, key: string, members: seq<string>): Step
  {
    if key == KeyJobPool then
      var r := ZRemAll(s.pool, members);
      Step(s.(pool := r.pool), Int(r.count))
    else if key in s.queues || IsBucketKey(s, key) then Step(s, WrongType)
    else Step(s, Int(0))
  }

  function LPush(s: State, key: string, values: seq<string>): Step
  {
    if key == KeyJobPool || IsBucketKey(s, key) then Step(s, WrongType)
    else
      var q := LPushAll(QueueAt(s, key), values);
      Step(s.(queues := s.queues[key := q]), Int(|q|))
  }

  /**
   * HDEL: WRONGTYPE on the index and on a list. A bucket holds only the
   * "topic" field here, so deleting that field removes the bucket, where
   * Redis would keep a hash with other fields. The timer sends HDEL only
   * to the index key.
   */
  function HDel(s: State, key: string, fields: seq<string>): Step
  {
    if key == KeyJobPool || key in s.queues then Step(s, WrongType)
    else if IsBucketKey(s, key) && "topic" in fields then
      Step(s.(buckets := s.buckets - {BucketJobID(key)}), Int(1))
    else Step(s, Int(0))
  }

  /** The queued commands run one after the other, nothing in between. */
  function ApplyAll(s: State, cmds: seq<Command>): Batch
    decreases |cmds|
  {
    if cmds == [] then Batch(s, [])
    else
      var first := Apply(s, cmds[0]);
      var rest := ApplyAll(first.state, cmds[1..]);
      Batch(rest.state, [first.reply] + rest.replies)
  }

  /**
   * EXEC: a command Redis refused while queueing discards the whole
   * transaction; otherwise every queued command is applied.
   */
  function Transact(s: State, cmds: seq<Command>): Commit
  {
    if forall c :: c in cmds ==> Accepted(c) then
      var b := ApplyAll(s, cmds);
      Commit(b.state, Replies(b.replies))
    else Commit(s, ExecAbort)
  }

  /** The transaction that moves jobIDs to the ready queue of topic. */
  function MoveTx(jobIDs: seq<string>, topic: string): seq<Command>
  {
    [Command("ZREM", [KeyJobPool] + jobIDs), Command("LPUSH", [ReadyQueueKey(topic)] + jobIDs)]
  }

  /**
   * Reference effect of a promotion: the jobs leave the index and are
   * pushed, newest first, onto the ready queue at key.
   */
  function Promote(s: State, key: string, jobIDs: seq<string>): State
  {
    State(s.pool - Elems(jobIDs), s.buckets, s.queues[key := Reverse(jobIDs) + QueueAt(s, key)])
  }

  /**
   * Running the move transaction is the promotion, and its two replies are
   * the number of index members removed and the new queue length; with no
   * job IDs Redis refuses the commands and EXEC changes nothing.
   */
  lemma TransactMove(s: State, jobIDs: seq<string>, topic: string)
    ensures jobIDs == [] ==> Transact(s, MoveTx(jobIDs, topic)).state == s
    ensures jobIDs == [] ==> Transact(s, MoveTx(jobIDs, topic)).result == ExecAbort
    ensures jobIDs != [] ==>
      Transact(s, MoveTx(jobIDs, topic)).state == Promote(s, ReadyQueueKey(topic), jobIDs)
    ensures jobIDs != [] ==>
      Transact(s, MoveTx(jobIDs, topic)).result
        == Replies([Int(|Elems(jobIDs) * s.pool.Keys|),
                    Int(|QueueAt(s, ReadyQueueKey(topic))| + |jobIDs|)])
  {
    var tx := MoveTx(jobIDs, topic);
    if jobIDs == [] {
      assert !Accepted(tx[0]);
    } else {
      assert forall c :: c in tx ==> Accepted(c);
      MoveBatch(s, jobIDs, topic);
    }
  }

  /** The two commands of a non-empty move, applied in order. */
  lemma MoveBatch(s: State, jobIDs: seq<string>, topic: string)
    requires jobIDs != []
    ensures ApplyAll(s, MoveTx(jobIDs, topic))
         == Batch(Promote(s, ReadyQueueKey(topic), jobIDs),
                  [Int(|Elems(jobIDs) * s.pool.Keys|), Int(|QueueAt(s, ReadyQueueKey(topic))| + |jobIDs|)])
  {
    var tx := MoveTx(jobIDs, topic);
    MoveFirstStep(s, jobIDs, topic);
    MoveSecondStep(s, jobIDs, topic);
    ApplyAllPair(s, tx);
  }

  lemma MoveFirstStep(s: State, jobIDs: seq<string>, topic: string)
    requires jobIDs != []
    ensures Apply(s, MoveTx(jobIDs, topic)[0])
         == Step(s.(pool := s.pool - Elems(jobIDs)), Int(|Elems(jobIDs) * s.pool.Keys|))
  {
    ApplyZRem(s, jobIDs);
  }

  lemma MoveSecondStep(s: State, jobIDs: seq<string>, topic: string)
    requires jobIDs != []
    ensures Apply(s.(pool := s.pool - Elems(jobIDs)), MoveTx(jobIDs, topic)[1])
         == Step(Promote(s, ReadyQueueKey(topic), jobIDs), Int(|QueueAt(s, ReadyQueueKey(topic))| + |jobIDs|))
  {
    var key := ReadyQueueKey(topic);
    var s1 := s.(pool := s.pool - Elems(jobIDs));
    ApplyLPush(s1, jobIDs, key);
    KeySpacesDisjoint(topic);
    LPushList(s1, jobIDs, key);
    assert QueueAt(s1, key) == QueueAt(s, key);
  }

  /** A two-command batch: the second command runs on the first one's result. */
  lemma ApplyAllPair(s: State, tx: seq<Command>)
    requires |tx| == 2
    ensures ApplyAll(s, tx).state == Apply(Apply(s, tx[0]).state, tx[1]).state
    ensures ApplyAll(s, tx).replies == [Apply(s, tx[0]).reply, Apply(Apply(s, tx[0]).state, tx[1]).reply]
  {
    var first := Apply(s, tx[0]);
    var second := Apply(first.state, tx[1]);
    assert tx[1..][0] == tx[1] && tx[1..][1..] == [];
    assert ApplyAll(first.state, tx[1..]) == Batch(second.state, [second.reply]);
  }

  lemma ApplyZRem(s: State, jobIDs: seq<string>)
    requires jobIDs != []
    ensures Apply(s, Command("ZREM", [KeyJobPool] + jobIDs)).state == s.(pool := s.pool - Elems(jobIDs))
    ensures Apply(s, Command("ZREM", [KeyJobPool] + jobIDs)).reply == Int(|Elems(jobIDs) * s.pool.Keys|)
  {
    var cmd := Command("ZREM", [KeyJobPool] + jobIDs);
    assert Accepted(cmd);
    assert cmd.args[0] == KeyJobPool && cmd.args[1..] == jobIDs;
    ZRemAllRemoves(s.pool, jobIDs);
    ZRemAllCounts(s.pool, jobIDs);
  }

  lemma ApplyLPush(s: State, jobIDs: seq<string>, key: string)
    requires jobIDs != []
    ensures Apply(s, Command("LPUSH", [key] + jobIDs)) == LPush(s, key, jobIDs)
  {
    var cmd := Command("LPUSH", [key] + jobIDs);
    assert Accepted(cmd);
    assert cmd.name != "ZREM";
    assert cmd.args[0] == key && cmd.args[1..] == jobIDs;
  }

  /** LPUSH onto a key that holds no sorted set and no hash. */
  lemma LPushList(s: State, jobIDs: seq<string>, key: string)
    requires key != KeyJobPool && !HasPrefix(key, PrefixJobBucket)
    ensures LPush(s, key, jobIDs).state == s.(queues := s.queues[key := Reverse(jobIDs) + QueueAt(s, key)])
    ensures LPush(s, key, jobIDs).reply == Int(|QueueAt(s, key)| + |jobIDs|)
  {
    assert !IsBucketKey(s, key);
    LPushAllReverses(QueueAt(s, key), jobIDs);
  }

  /** No command puts a second type at a key. */
  lemma ApplyWellFormed(s: State, cmd: Command)
    requires WellFormed(s)
    ensures WellFormed(Apply(s, cmd).state)
  {
    if Accepted(cmd) && cmd.name == "HDEL" {
      var s' := Apply(s, cmd).state;
      forall key | key in s'.queues ensures !IsBucketKey(s', key) {
        assert !IsBucketKey(s, key);
      }
    }
  }

  lemma {:induction false} ApplyAllWellFormed(s: State, cmds: seq<Command>)
    requires WellFormed(s)
    ensures WellFormed(ApplyAll(s, cmds).state)
    decreases |cmds|
  {
    if cmds != [] {
      ApplyWellFormed(s, cmds[0]);
      ApplyAllWellFormed(Apply(s, cmds[0]).state, cmds[1..]);
    }
  }

  /** A transaction keeps every key to one type. */
  lemma TransactWellFormed(s: State, cmds: seq<Command>)
    requires WellFormed(s)
    ensures WellFormed(Transact(s, cmds).state)
  {
    ApplyAllWellFormed(s, cmds);
  }

  /**
   * HDEL against the expiry index is refused (the key holds a sorted set)
   * and changes nothing: the job stays in the index.
   */
  lemma HDelOnIndexIsNoOp(s: State, jobID: string)
    ensures Apply(s, Command("HDEL", [KeyJobPool, jobID])) == Step(s, WrongType)
  {
  }

  /** Once promoted, a job is no longer due at any time. */
  lemma DueAfterPromote(s: State, key: string, jobIDs: seq<string>, now: int)
    ensures Due(Promote(s, key, jobIDs), now) == Due(s, now) - Elems(jobIDs)
  {
  }

  /** A later fetch sees every job an earlier one saw that is still indexed. */
  lemma DueMonotone(s: State, now1: int, now2: int)
    requires now1 <= now2
    ensures Due(s, now1) <= Due(s, now2)
    ensures forall id :: id in Due(s, now2) ==> id in s.pool && s.pool[id] >= 0.0
  {
  }

  /** Distinct elements: the list is as long as its set. */
  lemma {:induction false} NoDupCard(s: seq<string>)
    requires NoDup(s)
    ensures |Elems(s)| == |s|
    decreases |s|
  {
    if s != [] {
      NoDupCard(s[1..]);
      assert Elems(s) == {s[0]} + Elems(s[1..]) by { assert s == [s[0]] + s[1..]; }
      assert s[0] !in Elems(s[1..]);
    }
  }
}
