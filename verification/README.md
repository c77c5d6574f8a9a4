# delayer timer: one promotion pass, modelled in Dafny

The delayer keeps delayed jobs in Redis:
- an expiry index, the sorted set `delayer:job_pool` (job ID to ready-at score);
- one metadata hash per job, at `delayer:job_bucket:<id>`, holding the job's `topic`;
- one list per topic, at `delayer:ready_queue:<topic>`.

On every tick the timer runs one pass:
1. It fetches the job IDs whose score lies in `[0, now]`.
2. It looks up each job's topic concurrently.
3. It groups the results by topic as they arrive on a channel.
4. For each topic, it moves that topic's jobs in one MULTI/EXEC transaction: ZREM from the index, then LPUSH onto the topic's ready queue.

This project models that pass against an in-memory model of the store. It then proves what the pass does to the store and what it logs.

Files:
- `keys.dfy`: the key constants and key construction, their inverses, and the disjointness of the three key spaces.
- `format.dfy`: the error callback's message, the ready line, `strings.Join`, and the part of `fmt.Sprintf` these need: `%s`, the only verb the templates use, and the `%%` escape.
- `store.dfy`: the store as a value.
  - ZREM and LPUSH are interpreted as Redis interprets them: per-key types, WRONGTYPE, and LPUSH's head-first order. HDEL gets WRONGTYPE on the index key and on a list, as in Redis.
  - A metadata hash is modelled by its `topic` field alone, so HDEL of `topic` removes the whole bucket. Redis would keep the hash's other fields. The timer never sends HDEL to a metadata key.
  - EXEC applies the queued commands as one step. If Redis refused a command while queueing it, EXEC discards the transaction.
  - `Promote` is the reference effect of a move.
- `grouping.dfy`: the fan-in fold, written as an imperative loop over the arrived messages. It is proved equal to a reference grouping `ByTopic`, whose properties are proved as lemmas.
- `timer.dfy`: the timer's operations on a `Redis` object whose `db` field is the store.
  - `GetExpireJobs`, `GetJobTopic`, `MoveJobToReadyQueue` and `Run`, plus the argument-array builders.
  - Specification functions for one move (`MoveEffect`, `MoveLog`) and for all moves of a pass (`AfterMoves`).
  - End-to-end lemmas about a completed pass.

What Redis and the Go scheduler decide is passed in as data:
- whether the fetch fails;
- each lookup's reply (`Found(topic)`, the nil-reply error, or another error);
- the order in which lookups finish, which is the order their results reach the channel;
- for each topic, how its move's connection behaves: a send fails, EXEC fails, or all goes well.

The model keeps the code's behaviour where it is surprising:
- In the nil-reply branch, which the comment at logic/timer.go:121 takes to mean missing metadata, the code sends `HDEL delayer:job_pool <id>`. That is a hash command on a sorted-set key. Redis refuses it, so the job stays in the index (`Store.HDelOnIndexIsNoOp`). The lookup also sends nothing on the channel. The fan-in waits for one result per fetched job, so such a pass never reaches the moves: `Run` returns `Hung` and the store is unchanged. The job is neither removed nor grouped under the empty topic. `Start` calls `p.run()` synchronously in the ticker goroutine (logic/timer.go:67-70), so a hung pass also stops every later tick.
- If missing metadata instead comes back from HMGET as an empty topic, the lookup sends `(id, "")`. The fan-in drops that result, so the job is moved to no queue and stays in the index with its score (`Timer.PassKeepsUnresolved`). It is fetched again on every tick.
- The count check runs after EXEC. When a count is zero (for example, another pass already took the jobs), the LPUSH has already happened. The error handed to the callback is nil, so nothing is logged (`Timer.MoveZeroCount`), and the pushed IDs stay on the queue.
- A fetch error is not silent: it is logged through the error callback with function name `getExpireJobs`.

## Model

| member | source | states |
|---|---|---|
| Keys.BucketJobID | logic/timer.go:23 | the job ID read from a metadata key rebuilds that key: it inverts `PREFIX_JOB_BUCKET + id` |
| Keys.QueueTopic | logic/timer.go:24 | the topic read from a ready-queue key rebuilds that key: it inverts `PREFIX_READY_QUEUE + topic` |
| Keys.QueueTopicRoundTrip | logic/timer.go:194 | a built ready-queue key has the prefix, and reading its topic back gives the topic |
| Keys.ReadyQueueKeyInjective | logic/timer.go:194 | two topics share a ready queue if and only if they are equal |
| Keys.KeySpacesDisjoint | logic/timer.go:22-24 | a ready-queue key is never the index key or a metadata key, and the index key is neither |
| Format.HandleError | logic/timer.go:53-60 | the callback logs nothing exactly when the error is nil, and never logs at info level |
| Format.HandleErrorText | logic/timer.go:54-58 | a non-nil error logs "FAILURE: func <name>, <error>" + ", [<data>]" when data is non-empty + "." |
| Format.ReadyLog | logic/timer.go:168 | the success line is an info record |
| Format.ReadyLogText | logic/timer.go:168 | the success line reads "Job is ready, Topic: <topic>, IDs: [<ids>]" |
| Store.LPushAllReverses | logic/timer.go:198 | LPUSH of several IDs leaves them at the head of the list in reverse order, ahead of the old contents |
| Store.ZRemAllRemoves | logic/timer.go:188 | ZREM removes exactly the listed members from the index |
| Store.ZRemAllCounts | logic/timer.go:161 | ZREM's reply is the number of distinct listed members that were in the index |
| Store.TransactMove | logic/timer.go:140-162 | the MULTI/ZREM/LPUSH/EXEC transaction equals the reference promotion, and its replies are the count removed and the new queue length; with no IDs, Redis refuses it and nothing changes |
| Store.TransactWellFormed | logic/timer.go:155 | a transaction never puts a second type at a key |
| Store.HDelOnIndexIsNoOp | logic/timer.go:122 | HDEL on the index key is refused with WRONGTYPE and changes nothing |
| Store.DueAfterPromote | logic/timer.go:111 | once promoted, a job is never fetched as due again |
| Store.DueMonotone | logic/timer.go:111 | a later `now` fetches a superset, and only indexed members with a score of 0 or more are fetched |
| Grouping.Group | logic/timer.go:84-100 | the fan-in loop builds exactly the reference grouping of the arrived results |
| Grouping.GroupingStep | logic/timer.go:92-98 | one result is dropped when its topic is empty, starts a list for a new topic, and is appended to an existing topic's list |
| Grouping.GroupingMember | logic/timer.go:90-100 | an ID is listed under a topic if and only if that topic is non-empty and the result (ID, topic) arrived |
| Grouping.GroupingShape | logic/timer.go:92-98 | no topic key is empty, and every list is non-empty |
| Grouping.GroupingOrder | logic/timer.go:94-97 | two results with the same topic are listed in the order they arrived |
| Grouping.GroupingExclusive | logic/timer.go:90-100 | when no ID arrives twice, no ID is listed under two topics |
| Grouping.GroupingDisjoint | logic/timer.go:90-100 | when no ID arrives twice, the grouping as a whole lists each ID under at most one topic |
| Grouping.GroupingTotal | logic/timer.go:92-98 | the lists' total length equals the number of results with a non-empty topic |
| Timer.Resolve | logic/timer.go:115-131 | a lookup sends nothing exactly on the nil reply; it sends the job with its topic when found, and with "" after another error |
| Timer.PrependKey | logic/timer.go:183-187 | the argument array has length len(jobIDs)+1, holds the key at 0, and holds jobIDs[k] at k+1 |
| Timer.DelJobPool | logic/timer.go:182-189 | ZREM's arguments are the index key followed by the job IDs |
| Timer.AddReadyQueue | logic/timer.go:192-199 | LPUSH's arguments are the topic's ready-queue key followed by the job IDs |
| Timer.Redis.Exec | logic/timer.go:177-179 | EXEC leaves the store and replies as the transaction semantics say, and keeps each key to one type |
| Timer.Redis.GetExpireJobs | logic/timer.go:108-112 | a failed fetch returns its error; otherwise it returns exactly the members with a score in [0, now] |
| Timer.Redis.GetJobTopic | logic/timer.go:115-131 | the store is unchanged (the nil branch's HDEL is refused); the message sent is `Resolve`'s; only a non-nil, non-ErrNil error logs, under "getJobTopic" with the job ID |
| Timer.Redis.MoveJobToReadyQueue | logic/timer.go:134-169 | the new store is `MoveEffect` and the log record is `MoveLog` for the given connection behaviour |
| Timer.Redis.LookUpAll | logic/timer.go:86-91 | the messages received are those the lookups send, in arrival order, and the store is unchanged |
| Timer.Redis.MoveAll | logic/timer.go:102-104 | after every topic's move, the store is `AfterMoves`, whatever order the moves ran in; every topic gets one log record, and when no ID is listed under two topics each record is the one its move logs against the store before the pass (`MoveLog`) |
| Timer.MoveLogUnaffected | logic/timer.go:141-168 | a move's log record is not changed by moves of other topics whose IDs it does not share |
| Timer.Redis.Run | logic/timer.go:76-105 | a fetch error is logged and changes nothing; a nil reply among the due jobs hangs the pass before any move; otherwise the groups are the grouping of the arrived results, each group's log record is its `MoveLog` against the store before the pass, and the store is `AfterMoves` of them |
| Timer.PassReadyLines | logic/timer.go:141-168 | in a completed pass every topic has a log record, and it is the ready line exactly when that topic's move ran with no fault |
| Timer.InboxLength | logic/timer.go:86-91 | the channel receives as many results as jobs if and only if no lookup got the nil reply |
| Timer.InboxMember | logic/timer.go:115-131 | a message reaches the channel if and only if its job was looked up and the lookup sent it |
| Timer.InboxDistinct | logic/timer.go:86-91 | when each job is looked up once, no job ID reaches the channel twice |
| Timer.PassGrouping | logic/timer.go:86-100 | a fetched job ends up under topic t if and only if its lookup found the non-empty topic t; a failed lookup ends up under no topic |
| Timer.MoveAtomic | logic/timer.go:140-159 | a move is exactly the promotion when EXEC ran on a non-empty list, and changes nothing otherwise |
| Timer.MoveFrame | logic/timer.go:134-159 | a move touches only the index and its own topic's queue, and removes the IDs exactly when it pushes them |
| Timer.MoveEarlyFailure | logic/timer.go:140-153 | a send failure before EXEC leaves the store unchanged and logs the failing stage's name with the IDs |
| Timer.MoveReadyLogged | logic/timer.go:155-168 | the ready line is logged if and only if EXEC ran with no fault on a non-empty list that still had an ID in the index |
| Timer.MoveZeroCount | logic/timer.go:161-165 | when none of the IDs is still indexed, the push has already happened and nothing is logged |
| Timer.MovesCommute | logic/timer.go:102-104 | moves of two different topics give the same store in either order |
| Timer.MoveWellFormed | logic/timer.go:155 | a move keeps each key to one type (a sanity invariant of the store model, which no other result needs) |
| Timer.AfterMovesStep | logic/timer.go:102-104 | one more topic's move takes the combined effect of the moved topics to the combined effect with that topic added |
| Timer.AfterMovesQueueAt | logic/timer.go:102-104 | after the moves, a committed topic's queue is its IDs reversed ahead of the old queue, and every other queue is unchanged |
| Timer.PassPromotesFound | logic/timer.go:76-105 | after a completed pass, a due job found under topic t is on t's queue and out of the index if t's EXEC ran, and still indexed with its score otherwise |
| Timer.PassKeepsUnresolved | logic/timer.go:118-128 | a due job whose lookup failed stays indexed with its score and is pushed onto no queue |
| Timer.PassNoJobLost | logic/timer.go:76-105 | a completed pass keeps the metadata; every job it removes from the index was due and sits on the queue of the topic its metadata names |

## Left out

- Connection-pool construction, dialing, AUTH and SELECT (logic/timer.go:29-52): connection I/O through a client library that is not part of this model.
- The ticker, `Start` and `Stop` (logic/timer.go:65-73, 202-204): the model covers one pass. Overlapping passes are not modelled beyond `Timer.MoveZeroCount`, which covers a move whose jobs another pass already took.
- Goroutines and the channel (logic/timer.go:85-88, 102-103): lookups finishing in any order are an input sequence. The per-topic moves run one after another, in an order chosen by `MoveAll`. Each move is one atomic transaction, and moves of different topics commute, so any interleaving of the moves gives the same store.
- `time.Now()` (logic/timer.go:111): `now` is a parameter.
- The order of ZRANGEBYSCORE's reply: the fetched jobs are a set. The order that matters downstream is the lookups' arrival order, which is an input.
- Conversions and assertions of the Redis client (`redis.Strings`, `redis.Values`, the `int64` assertions at logic/timer.go:161-162): replies are integers. `Store.TransactMove` shows that both replies of a move are integers, so those assertions cannot fail.
- Which of the three lookup outcomes Redis produces for missing metadata: the code's three-way branch is modelled as written, and each lookup's reply is an input.
- Timer.Redis.Run: a pass that would block forever on the channel returns `Hung` instead. The lookup goroutines' log records are returned by `GetJobTopic` but not collected by `Run`; the moves' records are returned in `Completed`.
- The logger sink: log records are returned as values.
- `fmt.Sprintf` is modelled only for `%s` and `%%` with string arguments; the templates use only `%s`.
- The reply of the HDEL in the nil branch is discarded, as in the code, and its transport errors are not modelled.
- Timer.MoveLog: for an empty ID list, the reported commit error is taken to be Redis's arity error for ZREM. That is the first error reply read back. The client library that picks it is not part of this model. `Run` never moves an empty list (`Grouping.GroupingShape`).
- Scores of `+inf` and `-inf`, and NaN: scores are finite reals. Their double rounding is not modelled either; `now` is compared as a whole number of seconds.
- Redis removing a key whose list becomes empty, or the sorted set at the index key becoming empty: the model keeps such keys, and the index key always holds the sorted set. A metadata hash is the exception: the model keeps only its `topic` field, so HDEL of `topic` removes the bucket. The timer never sends that command.
- Send failures after MULTI end the move without EXEC. The model takes the pooled connection's close to discard the open transaction, so the store is unchanged.
