/** The status level shown next to a job id: how the Job panel classifies a
    job-completion event and merges it into the level it already shows. */
module JobStatus {
  import opened Js
  import opened Wrappers
  import RerunLists

  /** The fields of a `salt/job/<jid>/ret` event that the panel reads. */
  datatype SaltJobRetEvent = SaltJobRetEvent(
    fun: Value,          // pData.fun
    jid: Option<string>, // pData.jid; None when absent
    success: Value,      // pData.success
    retcode: Value)      // pData.retcode

  /** Level per displayed status element, keyed by job id; 0 when the element
      has no level yet (an undefined `dataset.level`). */
  type Levels = map<string, nat>

  /** The polling commands whose events are dropped, and events without a job id. */
  predicate Ignored(ev: SaltJobRetEvent) {
    ev.fun == Str("saltutil.find_job") || ev.fun == Str("saltutil.running") ||
    ev.jid.None? || ev.jid.value == ""
  }

  /** 1 for success, 2 for success with a non-zero return code, 3 otherwise. */
  function EventLevel(ev: SaltJobRetEvent): (level: nat)
    ensures 1 <= level <= 3
    ensures level == 1 <==> ev.success == Bool(true) && ev.retcode == Num(0)
    ensures level == 2 <==> ev.success == Bool(true) && ev.retcode != Num(0)
    ensures level == 3 <==> ev.success != Bool(true)
  {
    if ev.success == Bool(true) && ev.retcode == Num(0) then 1
    else if ev.success == Bool(true) then 2
    else 3
  }

  /** For a boolean `success`, level 1 is exactly an ok result in the sense
      of `_isResultOk`; a merely truthy `success` is level 3 but ok. */
  lemma EventLevelAgreesWithResultOk(ev: SaltJobRetEvent)
    ensures ev.success.Bool? ==>
      (EventLevel(ev) == 1 <==> RerunLists.IsResultOk(RerunLists.MinionResult(ev.success, ev.retcode)))
    ensures EventLevel(SaltJobRetEvent(ev.fun, ev.jid, Num(1), Num(0))) == 3
    ensures RerunLists.IsResultOk(RerunLists.MinionResult(Num(1), Num(0)))
  {
  }

  /** The effect of one event on the levels: only a displayed job's level
      changes, and only upwards. */
  function ApplyEvent(levels: Levels, ev: SaltJobRetEvent): Levels {
    if Ignored(ev) then levels
    else
      var jid := ev.jid.value;
      if jid !in levels then levels
      else if EventLevel(ev) > levels[jid] then levels[jid := EventLevel(ev)]
      else levels
  }

  /** Events in arrival order. */
  function ApplyEvents(levels: Levels, evs: seq<SaltJobRetEvent>): Levels
  {
    if evs == [] then levels else ApplyEvents(ApplyEvent(levels, evs[0]), evs[1..])
  }

  function Max(a: nat, b: nat): nat {
    if a < b then b else a
  }

  /** The highest level among the events that concern `jid`, 0 if none does. */
  function MaxSeen(evs: seq<SaltJobRetEvent>, jid: string): nat {
    if evs == [] then 0
    else Max(Contribution(evs[0], jid), MaxSeen(evs[1..], jid))
  }

  function Contribution(ev: SaltJobRetEvent, jid: string): nat {
    if !Ignored(ev) && ev.jid.value == jid then EventLevel(ev) else 0
  }

  /** Every level stays within 0..3. */
  ghost predicate Bounded(levels: Levels) {
    forall j :: j in levels ==> levels[j] <= 3
  }

  /** One event: the displayed set is unchanged, no level decreases, only the
      event's own job id can change, and its level becomes the larger of the
      old level and the event's level. */
  lemma ApplyEventEffect(levels: Levels, ev: SaltJobRetEvent)
    ensures ApplyEvent(levels, ev).Keys == levels.Keys
    ensures forall j :: j in levels ==> ApplyEvent(levels, ev)[j] == Max(levels[j], Contribution(ev, j))
    ensures Bounded(levels) ==> Bounded(ApplyEvent(levels, ev))
  {
  }

  /** Repeating an event changes nothing. */
  lemma ApplyEventIdempotent(levels: Levels, ev: SaltJobRetEvent)
    ensures ApplyEvent(ApplyEvent(levels, ev), ev) == ApplyEvent(levels, ev)
  {
  }

  /** After any sequence of events each displayed job shows the larger of its
      initial level and the highest level of its events. */
  lemma {:induction false} ApplyEventsIsMax(levels: Levels, evs: seq<SaltJobRetEvent>)
    ensures ApplyEvents(levels, evs).Keys == levels.Keys
    ensures forall j :: j in levels ==> ApplyEvents(levels, evs)[j] == Max(levels[j], MaxSeen(evs, j))
  {
    if evs != [] {
      var next := ApplyEvent(levels, evs[0]);
      ApplyEventEffect(levels, evs[0]);
      ApplyEventsIsMax(next, evs[1..]);
    }
  }

  lemma {:induction false} MaxSeenAppend(a: seq<SaltJobRetEvent>, b: seq<SaltJobRetEvent>, jid: string)
    ensures MaxSeen(a + b, jid) == Max(MaxSeen(a, jid), MaxSeen(b, jid))
  {
    if a != [] {
      assert (a + b)[1..] == a[1..] + b;
      MaxSeenAppend(a[1..], b, jid);
    } else {
      assert a + b == b;
    }
  }

  lemma {:induction false} MaxSeenRemove(b: seq<SaltJobRetEvent>, k: nat, jid: string)
    requires k < |b|
    ensures MaxSeen(b, jid) == Max(Contribution(b[k], jid), MaxSeen(b[..k] + b[k + 1..], jid))
  {
    assert b == b[..k] + ([b[k]] + b[k + 1..]);
    MaxSeenAppend(b[..k], [b[k]] + b[k + 1..], jid);
    MaxSeenAppend(b[..k], b[k + 1..], jid);
    assert ([b[k]] + b[k + 1..])[1..] == b[k + 1..];
  }

  /** The highest level seen does not depend on the order of the events. */
  lemma {:induction false} MaxSeenPermutation(a: seq<SaltJobRetEvent>, b: seq<SaltJobRetEvent>, jid: string)
    requires multiset(a) == multiset(b)
    ensures MaxSeen(a, jid) == MaxSeen(b, jid)
    decreases |a|
  {
    if a == [] {
      assert |multiset(b)| == 0;
    } else {
      assert a[0] in multiset(b);
      var k :| 0 <= k < |b| && b[k] == a[0];
      var rest := b[..k] + b[k + 1..];
      assert b == b[..k] + [b[k]] + b[k + 1..];
      assert multiset(b) == multiset(b[..k]) + multiset{b[k]} + multiset(b[k + 1..]);
      assert a == [a[0]] + a[1..];
      assert multiset(a[1..]) == multiset(a) - multiset{a[0]};
      assert multiset(a[1..]) == multiset(rest);
      MaxSeenPermutation(a[1..], rest, jid);
      MaxSeenRemove(b, k, jid);
    }
  }

  /** Events may arrive in any order: the resulting levels are the same. */
  lemma OrderIndependent(levels: Levels, a: seq<SaltJobRetEvent>, b: seq<SaltJobRetEvent>)
    requires multiset(a) == multiset(b)
    ensures ApplyEvents(levels, a) == ApplyEvents(levels, b)
  {
    ApplyEventsIsMax(levels, a);
    ApplyEventsIsMax(levels, b);
    forall j | j in levels ensures ApplyEvents(levels, a)[j] == ApplyEvents(levels, b)[j] {
      MaxSeenPermutation(a, b, j);
    }
  }

  /** Receiving the same events again (at-least-once delivery) changes nothing. */
  lemma RedeliveryIdempotent(levels: Levels, evs: seq<SaltJobRetEvent>)
    ensures ApplyEvents(ApplyEvents(levels, evs), evs) == ApplyEvents(levels, evs)
  {
    var once := ApplyEvents(levels, evs);
    ApplyEventsIsMax(levels, evs);
    ApplyEventsIsMax(once, evs);
  }
}
