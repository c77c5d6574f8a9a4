/**
 * The fan-in of one timer pass (logic/timer.go:84-100): the (job ID, topic)
 * results that reach the channel, in arrival order, are folded into a map
 * from topic to the job IDs of that topic. Results with an empty topic
 * (failed lookups) are dropped.
 */
module Grouping {

  /** One channel message: a job ID and the topic resolved for it ("" on failure). */
  datatype Msg = Msg(jobID: string, topic: string)

  /** The job IDs that arrived with topic, in arrival order. */
  function JobsFor(msgs: seq<Msg>, topic: string): seq<string>
    decreases |msgs|
  {
    if msgs == [] then []
    else
      var last := msgs[|msgs| - 1];
      JobsFor(msgs[..|msgs| - 1], topic) + (if last.topic == topic then [last.jobID] else [])
  }

  /** The non-empty topics that arrived. */
  function TopicsOf(msgs: seq<Msg>): set<string>
  {
    set m | m in msgs && m.topic != "" :: m.topic
  }

  /** Reference grouping: every non-empty topic with the job IDs that arrived for it. */
  function ByTopic(msgs: seq<Msg>): map<string, seq<string>>
  {
    map t | t in TopicsOf(msgs) :: JobsFor(msgs, t)
  }

  /** The number of messages with a non-empty topic. */
  function CountTopical(msgs: seq<Msg>): nat
    decreases |msgs|
  {
    if msgs == [] then 0
    else CountTopical(msgs[..|msgs| - 1]) + (if msgs[|msgs| - 1].topic != "" then 1 else 0)
  }

  /** No job ID arrives twice. */
  predicate DistinctJobs(msgs: seq<Msg>)
  {
    forall i, j :: 0 <= i < j < |msgs| ==> msgs[i].jobID != msgs[j].jobID
  }

  /** The sum of the lengths of all lists in a grouping. */
  ghost function TotalLength(m: map<string, seq<string>>): nat
    decreases |m|
  {
    if m == map[] then 0
    else
      var k :| k in m;
      assert (m - {k}).Keys == m.Keys - {k};
      |m[k]| + TotalLength(m - {k})
  }

  /**
   * The fold of logic/timer.go:90-100: a message with a non-empty topic
   * starts that topic's list or is appended to it.
   */
  method Group(msgs: seq<Msg>) returns (topics: map<string, seq<string>>)
    ensures topics == ByTopic(msgs)
  {
    topics := map[];
    var i := 0;
    while i < |msgs|
      invariant 0 <= i <= |msgs|
      invariant topics == ByTopic(msgs[..i])
    {
      var m := msgs[i];
      GroupingStep(msgs[..i], m);
      if m.topic != "" {
        if m.topic !in topics {
          topics := topics[m.topic := [m.jobID]];
        } else {
          topics := topics[m.topic := topics[m.topic] + [m.jobID]];
        }
      }
      assert msgs[..i + 1] == msgs[..i] + [m];
      i := i + 1;
    }
    assert msgs[..|msgs|] == msgs;
  }

  /** Dropping the last message from a non-empty arrival sequence. */
  lemma SplitLast(msgs: seq<Msg>)
    requires msgs != []
    ensures msgs == msgs[..|msgs| - 1] + [msgs[|msgs| - 1]]
  {
  }

  lemma JobsForSnoc(p: seq<Msg>, m: Msg, topic: string)
    ensures JobsFor(p + [m], topic) == JobsFor(p, topic) + (if m.topic == topic then [m.jobID] else [])
  {
    assert (p + [m])[..|p|] == p;
  }

  /** A job ID is listed under a topic exactly when a message carried that pair. */
  lemma {:induction false} JobsForMember(msgs: seq<Msg>, topic: string, id: string)
    ensures id in JobsFor(msgs, topic) <==> Msg(id, topic) in msgs
    decreases |msgs|
  {
    if msgs != [] {
      var p := msgs[..|msgs| - 1];
      JobsForMember(p, topic, id);
      SplitLast(msgs);
    }
  }

  /** A topic that never arrived has no job IDs. */
  lemma {:induction false} JobsForAbsent(msgs: seq<Msg>, topic: string)
    requires forall m :: m in msgs ==> m.topic != topic
    ensures JobsFor(msgs, topic) == []
    decreases |msgs|
  {
    if msgs != [] {
      JobsForAbsent(msgs[..|msgs| - 1], topic);
    }
  }

  lemma TopicsOfSnoc(p: seq<Msg>, m: Msg)
    ensures TopicsOf(p + [m]) == TopicsOf(p) + (if m.topic != "" then {m.topic} else {})
  {
    var q := p + [m];
    forall t | t in TopicsOf(q) ensures t in TopicsOf(p) || (m.topic != "" && t == m.topic) {
      var x :| x in q && x.topic != "" && x.topic == t;
      if x != m {
        assert x in p;
      }
    }
  }

  /** One more message changes only the list of its own topic, by appending its job ID. */
  lemma GroupingStep(p: seq<Msg>, m: Msg)
    ensures m.topic == "" ==> ByTopic(p + [m]) == ByTopic(p)
    ensures m.topic != "" && m.topic !in ByTopic(p) ==>
      ByTopic(p + [m]) == ByTopic(p)[m.topic := [m.jobID]]
    ensures m.topic != "" && m.topic in ByTopic(p) ==>
      ByTopic(p + [m]) == ByTopic(p)[m.topic := ByTopic(p)[m.topic] + [m.jobID]]
  {
    if m.topic == "" {
      GroupingStepDropped(p, m);
    } else if m.topic !in ByTopic(p) {
      GroupingStepNew(p, m);
    } else {
      GroupingStepAppend(p, m);
    }
  }

  lemma GroupingSnocValues(p: seq<Msg>, m: Msg)
    ensures TopicsOf(p + [m]) == TopicsOf(p) + (if m.topic != "" then {m.topic} else {})
    ensures forall t :: t in ByTopic(p + [m]) ==>
      ByTopic(p + [m])[t] == JobsFor(p, t) + (if m.topic == t then [m.jobID] else [])
  {
    TopicsOfSnoc(p, m);
    forall t | t in TopicsOf(p + [m])
      ensures ByTopic(p + [m])[t] == JobsFor(p, t) + (if m.topic == t then [m.jobID] else [])
    {
      JobsForSnoc(p, m, t);
    }
  }

  lemma GroupingStepDropped(p: seq<Msg>, m: Msg)
    requires m.topic == ""
    ensures ByTopic(p + [m]) == ByTopic(p)
  {
    var g, g' := ByTopic(p), ByTopic(p + [m]);
    GroupingSnocValues(p, m);
    assert g'.Keys == g.Keys;
    forall t | t in g ensures g'[t] == g[t] {
    }
  }

  lemma GroupingStepNew(p: seq<Msg>, m: Msg)
    requires m.topic != "" && m.topic !in ByTopic(p)
    ensures ByTopic(p + [m]) == ByTopic(p)[m.topic := [m.jobID]]
  {
    var g, g' := ByTopic(p), ByTopic(p + [m]);
    GroupingSnocValues(p, m);
    assert forall x :: x in p ==> x.topic != m.topic;
    JobsForAbsent(p, m.topic);
    var h := g[m.topic := [m.jobID]];
    assert g'.Keys == h.Keys;
    forall t | t in h ensures g'[t] == h[t] {
    }
  }

  lemma GroupingStepAppend(p: seq<Msg>, m: Msg)
    requires m.topic != "" && m.topic in ByTopic(p)
    ensures ByTopic(p + [m]) == ByTopic(p)[m.topic := ByTopic(p)[m.topic] + [m.jobID]]
  {
    var g, g' := ByTopic(p), ByTopic(p + [m]);
    GroupingSnocValues(p, m);
    var h := g[m.topic := g[m.topic] + [m.jobID]];
    assert g'.Keys == h.Keys;
    forall t | t in h ensures g'[t] == h[t] {
    }
  }

  /**
   * Grouping places a job under a topic exactly when a message carried that
   * job with that non-empty topic; so no key is "", and every list is
   * non-empty.
   */
  lemma GroupingMember(msgs: seq<Msg>, topic: string, id: string)
    ensures (topic in ByTopic(msgs) && id in ByTopic(msgs)[topic])
        <==> topic != "" && Msg(id, topic) in msgs
  {
    JobsForMember(msgs, topic, id);
  }

  /** No empty-topic key and no empty list. */
  lemma GroupingShape(msgs: seq<Msg>)
    ensures "" !in ByTopic(msgs)
    ensures forall t :: t in ByTopic(msgs) ==> |ByTopic(msgs)[t]| > 0
  {
    forall t | t in ByTopic(msgs) ensures |ByTopic(msgs)[t]| > 0 {
      var m :| m in msgs && m.topic != "" && m.topic == t;
      JobsForMember(msgs, t, m.jobID);
    }
  }

  /** Filtering by topic distributes over concatenation of arrivals. */
  lemma {:induction false} JobsForAppend(a: seq<Msg>, b: seq<Msg>, topic: string)
    ensures JobsFor(a + b, topic) == JobsFor(a, topic) + JobsFor(b, topic)
    decreases |b|
  {
    if b == [] {
      assert a + b == a;
    } else {
      var p, m := b[..|b| - 1], b[|b| - 1];
      assert b == p + [m];
      assert a + b == (a + p) + [m];
      JobsForAppend(a, p, topic);
      JobsForSnoc(a + p, m, topic);
      JobsForSnoc(p, m, topic);
    }
  }

  /** The list of a topic around one of its arrivals. */
  lemma JobsForAround(msgs: seq<Msg>, j: int)
    requires 0 <= j < |msgs|
    ensures JobsFor(msgs, msgs[j].topic)
         == JobsFor(msgs[..j], msgs[j].topic) + ([msgs[j].jobID] + JobsFor(msgs[j + 1..], msgs[j].topic))
  {
    var m, t := msgs[j], msgs[j].topic;
    var pre, post := msgs[..j], msgs[j + 1..];
    var rest := [m] + post;
    SplitAround(msgs, j);
    JobsForAppend(pre, rest, t);
    JobsForAppend([m], post, t);
    JobsForSingle(m);
  }

  lemma SplitAround<T>(s: seq<T>, j: int)
    requires 0 <= j < |s|
    ensures s == s[..j] + ([s[j]] + s[j + 1..])
  {
  }

  lemma JobsForSingle(m: Msg)
    ensures JobsFor([m], m.topic) == [m.jobID]
  {
    assert [m][..0] == [];
  }

  /** A non-empty topic that arrived is a key of the grouping. */
  lemma ArrivedTopic(msgs: seq<Msg>, j: int)
    requires 0 <= j < |msgs| && msgs[j].topic != ""
    ensures msgs[j].topic in ByTopic(msgs)
    ensures ByTopic(msgs)[msgs[j].topic] == JobsFor(msgs, msgs[j].topic)
  {
    assert msgs[j] in msgs;
  }

  /** Two results with the same non-empty topic are listed in the order they arrived. */
  lemma GroupingOrder(msgs: seq<Msg>, i: int, j: int)
    requires 0 <= i < j < |msgs|
    requires msgs[i].topic == msgs[j].topic != ""
    ensures msgs[j].topic in ByTopic(msgs)
    ensures var jobs := ByTopic(msgs)[msgs[j].topic];
      exists a, b :: 0 <= a < b < |jobs| && jobs[a] == msgs[i].jobID && jobs[b] == msgs[j].jobID
  {
    var t := msgs[j].topic;
    ArrivedTopic(msgs, j);
    JobsForAround(msgs, j);
    var pre := msgs[..j];
    assert msgs[i] == pre[i];
    JobsForMember(pre, t, msgs[i].jobID);
    var first := JobsFor(pre, t);
    var a :| 0 <= a < |first| && first[a] == msgs[i].jobID;
    var jobs := ByTopic(msgs)[t];
    assert jobs[a] == msgs[i].jobID;
    assert jobs[|first|] == msgs[j].jobID;
  }

  /** With distinct job IDs, no job appears under two topics. */
  lemma GroupingExclusive(msgs: seq<Msg>, id: string, t1: string, t2: string)
    requires DistinctJobs(msgs)
    requires t1 in ByTopic(msgs) && id in ByTopic(msgs)[t1]
    requires t2 in ByTopic(msgs) && id in ByTopic(msgs)[t2]
    ensures t1 == t2
  {
    GroupingMember(msgs, t1, id);
    GroupingMember(msgs, t2, id);
    var i :| 0 <= i < |msgs| && msgs[i] == Msg(id, t1);
    var j :| 0 <= j < |msgs| && msgs[j] == Msg(id, t2);
    assert i == j;
  }

  /** No job ID is listed under two topics. */
  predicate Exclusive(g: map<string, seq<string>>)
  {
    forall t1, t2, id :: t1 in g && t2 in g && id in g[t1] && id in g[t2] ==> t1 == t2
  }

  /** When no job ID arrives twice, the grouping lists every ID under one topic. */
  lemma GroupingDisjoint(msgs: seq<Msg>)
    requires DistinctJobs(msgs)
    ensures Exclusive(ByTopic(msgs))
  {
    var g := ByTopic(msgs);
    forall t1, t2, id | t1 in g && t2 in g && id in g[t1] && id in g[t2] ensures t1 == t2 {
      GroupingExclusive(msgs, id, t1, t2);
    }
  }

  /** The total may be computed by taking out any key first. */
  lemma {:induction false} TotalLengthRemove(m: map<string, seq<string>>, k: string)
    requires k in m
    ensures TotalLength(m) == |m[k]| + TotalLength(m - {k})
    decreases |m|
  {
    var k' :| k' in m && TotalLength(m) == |m[k']| + TotalLength(m - {k'});
    if k' != k {
      assert (m - {k'}).Keys == m.Keys - {k'};
      assert (m - {k}).Keys == m.Keys - {k};
      TotalLengthRemove(m - {k'}, k);
      TotalLengthRemove(m - {k}, k');
      assert m - {k'} - {k} == m - {k} - {k'};
    }
  }

  /** Replacing one list changes the total by the difference in its length. */
  lemma TotalLengthUpdate(m: map<string, seq<string>>, k: string, v: seq<string>)
    ensures TotalLength(m[k := v]) + (if k in m then |m[k]| else 0) == TotalLength(m) + |v|
  {
    TotalLengthRemove(m[k := v], k);
    assert m[k := v] - {k} == m - {k};
    if k in m {
      TotalLengthRemove(m, k);
    } else {
      assert m - {k} == m;
    }
  }

  /** Every message with a non-empty topic is in exactly one list, once. */
  lemma {:induction false} GroupingTotal(msgs: seq<Msg>)
    ensures TotalLength(ByTopic(msgs)) == CountTopical(msgs)
    decreases |msgs|
  {
    if msgs == [] {
      assert ByTopic(msgs) == map[];
    } else {
      var p := msgs[..|msgs| - 1];
      var m := msgs[|msgs| - 1];
      GroupingTotal(p);
      SplitLast(msgs);
      GroupingStep(p, m);
      if m.topic != "" {
        if m.topic in ByTopic(p) {
          TotalLengthUpdate(ByTopic(p), m.topic, ByTopic(p)[m.topic] + [m.jobID]);
        } else {
          TotalLengthUpdate(ByTopic(p), m.topic, [m.jobID]);
        }
      }
    }
  }
}
