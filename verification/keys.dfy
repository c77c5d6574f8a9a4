/**
 * Redis key names used by the delayer timer (logic/timer.go:21-25).
 * The expiry index is one fixed sorted-set key; job metadata hashes and
 * ready queues are named by a fixed prefix followed by the job ID or topic.
 */
module Keys {

  const KeyJobPool: string := "delayer:job_pool"
  const PrefixJobBucket: string := "delayer:job_bucket:"
  const PrefixReadyQueue: string := "delayer:ready_queue:"

  predicate HasPrefix(s: string, prefix: string)
  {
    |prefix| <= |s| && s[..|prefix|] == prefix
  }

  /** Key of the metadata hash of one job. */
  function JobBucketKey(jobID: string): string
  {
    PrefixJobBucket + jobID
  }

  /** Key of the ready queue of one topic. */
  function ReadyQueueKey(topic: string): string
  {
    PrefixReadyQueue + topic
  }

  /** The job ID a metadata key names: the inverse of JobBucketKey. */
  function BucketJobID(key: string): (jobID: string)
    requires HasPrefix(key, PrefixJobBucket)
    ensures JobBucketKey(jobID) == key
    ensures |jobID| == |key| - |PrefixJobBucket|
  {
    assert key == key[..|PrefixJobBucket|] + key[|PrefixJobBucket|..];
    key[|PrefixJobBucket|..]
  }

  /** The topic a ready-queue key names: the inverse of ReadyQueueKey. */
  function QueueTopic(key: string): (topic: string)
    requires HasPrefix(key, PrefixReadyQueue)
    ensures ReadyQueueKey(topic) == key
    ensures |topic| == |key| - |PrefixReadyQueue|
  {
    assert key == key[..|PrefixReadyQueue|] + key[|PrefixReadyQueue|..];
    key[|PrefixReadyQueue|..]
  }

  /** Building a ready-queue key and reading its topic back is the identity. */
  lemma QueueTopicRoundTrip(topic: string)
    ensures HasPrefix(ReadyQueueKey(topic), PrefixReadyQueue)
    ensures QueueTopic(ReadyQueueKey(topic)) == topic
  {
    var k := ReadyQueueKey(topic);
    assert k[..|PrefixReadyQueue|] == PrefixReadyQueue;
    assert k[|PrefixReadyQueue|..] == topic;
  }

  /** Distinct topics name distinct ready queues. */
  lemma ReadyQueueKeyInjective(t1: string, t2: string)
    ensures ReadyQueueKey(t1) == ReadyQueueKey(t2) <==> t1 == t2
  {
    if ReadyQueueKey(t1) == ReadyQueueKey(t2) {
      QueueTopicRoundTrip(t1);
      QueueTopicRoundTrip(t2);
    }
  }

  /**
   * The three key spaces never overlap: a ready-queue key is neither the
   * expiry index nor a metadata key, and the expiry index is not a
   * metadata key.
   */
  lemma KeySpacesDisjoint(topic: string)
    ensures ReadyQueueKey(topic) != KeyJobPool
    ensures !HasPrefix(ReadyQueueKey(topic), PrefixJobBucket)
    ensures !HasPrefix(KeyJobPool, PrefixJobBucket)
    ensures !HasPrefix(KeyJobPool, PrefixReadyQueue)
  {
    var k := ReadyQueueKey(topic);
    assert k[8] == 'r';
    assert KeyJobPool[8] == 'j' && PrefixJobBucket[8] == 'j';
    assert KeyJobPool[12] == 'p' && PrefixJobBucket[12] == 'b';
  }
}
