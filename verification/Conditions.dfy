/** The condition list of a KubernetesService and its upsert by type
    (pkg/controllers/kubeservice/ks/status.go). */
module Conditions {
  import opened Base

  type Time = nat

  datatype ConditionStatus = ConditionTrue | ConditionFalse | ConditionUnknown

  datatype ConditionType =
    | Available
    | EtcdAvailable
    | KubeAPIServerAvailable
    | KubeControllerManagerAvailable
    | OtherType(name: string)

  datatype Condition = Condition(
    kind: ConditionType, status: ConditionStatus, reason: string, message: string, lastTransitionTime: Time)

  // ----- lookup and upsert, as functions of the list -----

  function IndexOf(cs: seq<Condition>, t: ConditionType): (i: int)
    ensures -1 <= i < |cs|
    ensures i >= 0 ==> cs[i].kind == t
    ensures forall k :: 0 <= k < (if i >= 0 then i else |cs|) ==> cs[k].kind != t
  {
    if cs == [] then -1
    else if cs[0].kind == t then 0
    else
      var i := IndexOf(cs[1..], t);
      if i == -1 then -1 else i + 1
  }

  function Lookup(cs: seq<Condition>, t: ConditionType): Option<Condition> {
    var i := IndexOf(cs, t);
    if i == -1 then None else Some(cs[i])
  }

  predicate IsTrue(cs: seq<Condition>, t: ConditionType) {
    Lookup(cs, t).Some? && Lookup(cs, t).value.status == ConditionTrue
  }

  /** The first condition of the type, if there is one, has the status. */
  ghost predicate FirstHas(cs: seq<Condition>, t: ConditionType, status: ConditionStatus) {
    exists i :: 0 <= i < |cs| && cs[i].kind == t && cs[i].status == status && forall j :: 0 <= j < i ==> cs[j].kind != t
  }

  /** A type reads as True if and only if its first condition has status True: False,
      Unknown and absent all read as not True. */
  lemma IsTrueExactly(cs: seq<Condition>, t: ConditionType)
    ensures IsTrue(cs, t) <==> FirstHas(cs, t, ConditionTrue)
  {
    var i := IndexOf(cs, t);
    if IsTrue(cs, t) {
      assert cs[i].kind == t && cs[i].status == ConditionTrue;
    }
  }

  datatype Call = Call(kind: ConditionType, status: ConditionStatus, reason: string, message: string, now: Time)

  function Set(cs: seq<Condition>, c: Call): seq<Condition> {
    var i := IndexOf(cs, c.kind);
    if i == -1 then cs + [Condition(c.kind, c.status, c.reason, c.message, c.now)]
    else
      cs[i := Condition(c.kind, c.status, c.reason, c.message,
                        if cs[i].status != c.status then c.now else cs[i].lastTransitionTime)]
  }

  /** The list behind a reference, as the reconciler hands it around. */
  class ConditionList {
    var items: seq<Condition>

    constructor (cs: seq<Condition>)
      ensures items == cs
    {
      items := cs;
    }

    /** ks/status.go GetConditionByType: the index of the first match, or -1. */
    method GetConditionByType(t: ConditionType) returns (i: int)
      ensures i == IndexOf(items, t)
    {
      i := 0;
      while i < |items|
        invariant 0 <= i <= |items|
        invariant forall k :: 0 <= k < i ==> items[k].kind != t
      {
        if items[i].kind == t {
          return;
        }
        i := i + 1;
      }
      i := -1;
    }

    /** ks/status.go SetConditionByType. */
    method SetConditionByType(t: ConditionType, status: ConditionStatus, reason: string, message: string, now: Time)
      modifies this
      ensures items == Set(old(items), Call(t, status, reason, message, now))
    {
      var i := GetConditionByType(t);
      if i == -1 {
        items := items + [Condition(t, status, reason, message, now)];
      } else {
        var existing := items[i];
        if existing.status != status {
          existing := existing.(lastTransitionTime := now);
        }
        existing := existing.(status := status);
        existing := existing.(reason := reason);
        existing := existing.(message := message);
        items := items[i := existing];
      }
    }
  }

  // ----- types stay distinct and keep their places -----

  ghost predicate Distinct(cs: seq<Condition>) {
    forall i, j :: 0 <= i < j < |cs| ==> cs[i].kind != cs[j].kind
  }

  function Types(cs: seq<Condition>): (ts: seq<ConditionType>)
    ensures |ts| == |cs|
  {
    seq(|cs|, i requires 0 <= i < |cs| => cs[i].kind)
  }

  lemma SetKeeps(cs: seq<Condition>, c: Call)
    ensures Distinct(cs) ==> Distinct(Set(cs, c))
    ensures Types(cs) <= Types(Set(cs, c))
    ensures Lookup(Set(cs, c), c.kind) == Some(Condition(c.kind, c.status, c.reason, c.message,
              if Lookup(cs, c.kind).Some? && Lookup(cs, c.kind).value.status == c.status
              then Lookup(cs, c.kind).value.lastTransitionTime else c.now))
    ensures forall t :: t != c.kind ==> Lookup(Set(cs, c), t) == Lookup(cs, t)
  {
    var i := IndexOf(cs, c.kind);
    var set' := Set(cs, c);
    forall t | t != c.kind ensures Lookup(set', t) == Lookup(cs, t) {
      var j := IndexOf(cs, t);
      assert forall k :: 0 <= k < |cs| && cs[k].kind == t ==> set'[k] == cs[k];
      IndexIs(set', t, j);
    }
    IndexIs(set', c.kind, if i == -1 then |cs| else i);
  }

  lemma IndexIs(cs: seq<Condition>, t: ConditionType, i: int)
    requires -1 <= i < |cs|
    requires i >= 0 ==> cs[i].kind == t
    requires forall k :: 0 <= k < (if i >= 0 then i else |cs|) ==> cs[k].kind != t
    ensures IndexOf(cs, t) == i
  {
  }

  function Apply(cs: seq<Condition>, calls: seq<Call>): seq<Condition> {
    if calls == [] then cs else Set(Apply(cs, calls[..|calls| - 1]), calls[|calls| - 1])
  }

  lemma {:induction false} ApplyKeeps(cs: seq<Condition>, calls: seq<Call>)
    requires Distinct(cs)
    ensures Distinct(Apply(cs, calls)) && Types(cs) <= Types(Apply(cs, calls))
  {
    if calls != [] {
      var n := |calls| - 1;
      ApplyKeeps(cs, calls[..n]);
      SetKeeps(Apply(cs, calls[..n]), calls[n]);
    }
  }

  // ----- the history view: what the list must say, from the calls alone -----

  /** The last call for a type, or -1. */
  function LastCall(calls: seq<Call>, t: ConditionType): (k: int)
    ensures -1 <= k < |calls|
    ensures k >= 0 ==> calls[k].kind == t
    ensures forall j :: k < j < |calls| ==> calls[j].kind != t
  {
    if calls == [] then -1
    else if calls[|calls| - 1].kind == t then |calls| - 1
    else LastCall(calls[..|calls| - 1], t)
  }

  /** The status a type had before call k, if it had one. */
  function StatusBefore(cs: seq<Condition>, calls: seq<Call>, k: nat, t: ConditionType): Option<ConditionStatus>
    requires k <= |calls|
  {
    var j := LastCall(calls[..k], t);
    if j >= 0 then Some(calls[j].status)
    else if Lookup(cs, t).Some? then Some(Lookup(cs, t).value.status)
    else None
  }

  /** Call k created the entry of its type or changed its status. */
  predicate IsTransition(cs: seq<Condition>, calls: seq<Call>, k: nat)
    requires k < |calls|
  {
    StatusBefore(cs, calls, k, calls[k].kind) != Some(calls[k].status)
  }

  /** The last call of a type that created its entry or changed its status, or -1. */
  ghost predicate IsLastTransition(cs: seq<Condition>, calls: seq<Call>, t: ConditionType, m: int) {
    -1 <= m < |calls| &&
    (m >= 0 ==> calls[m].kind == t && IsTransition(cs, calls, m)) &&
    forall j :: m < j < |calls| && calls[j].kind == t ==> !IsTransition(cs, calls, j)
  }

  /** What the history of calls says the entry of a type must be. */
  ghost predicate Records(cs: seq<Condition>, calls: seq<Call>, t: ConditionType, entry: Option<Condition>) {
    var k := LastCall(calls, t);
    if k == -1 then entry == Lookup(cs, t)
    else
      entry.Some? && entry.value.kind == t &&
      entry.value.status == calls[k].status &&
      entry.value.reason == calls[k].reason && entry.value.message == calls[k].message &&
      exists m :: IsLastTransition(cs, calls, t, m) &&
        if m >= 0 then entry.value.lastTransitionTime == calls[m].now
        else Lookup(cs, t).Some? && entry.value.lastTransitionTime == Lookup(cs, t).value.lastTransitionTime
  }

  lemma PrefixCalls(cs: seq<Condition>, calls: seq<Call>, c: Call)
    ensures forall t :: LastCall(calls + [c], t) == if c.kind == t then |calls| else LastCall(calls, t)
    ensures forall j :: 0 <= j < |calls| ==> (IsTransition(cs, calls + [c], j) <==> IsTransition(cs, calls, j))
    ensures StatusBefore(cs, calls + [c], |calls|, c.kind) == StatusBefore(cs, calls, |calls|, c.kind)
  {
    var longer := calls + [c];
    assert longer[..|calls|] == calls[..|calls|] == calls;
    forall j | 0 <= j < |calls| ensures IsTransition(cs, longer, j) <==> IsTransition(cs, calls, j) {
      assert longer[..j] == calls[..j];
    }
  }

  /** The present status is the one the history gives. */
  lemma RecordedStatus(cs: seq<Condition>, calls: seq<Call>, t: ConditionType, entry: Option<Condition>)
    requires Records(cs, calls, t, entry)
    ensures StatusBefore(cs, calls, |calls|, t) == if entry.Some? then Some(entry.value.status) else None
  {
    assert calls[..|calls|] == calls;
  }

  lemma RecordsStep(cs: seq<Condition>, calls: seq<Call>, c: Call, before: Option<Condition>, after: Condition)
    requires Records(cs, calls, c.kind, before)
    requires after == Condition(c.kind, c.status, c.reason, c.message,
               if before.Some? && before.value.status == c.status then before.value.lastTransitionTime else c.now)
    ensures Records(cs, calls + [c], c.kind, Some(after))
  {
    PrefixCalls(cs, calls, c);
    RecordedStatus(cs, calls, c.kind, before);
    var longer := calls + [c];
    if before.Some? && before.value.status == c.status {
      assert !IsTransition(cs, longer, |calls|);
      var m: int;
      if LastCall(calls, c.kind) == -1 {
        m := -1;
      } else {
        m :| IsLastTransition(cs, calls, c.kind, m) &&
          if m >= 0 then before.value.lastTransitionTime == calls[m].now
          else
            Lookup(cs, c.kind).Some? &&
            before.value.lastTransitionTime == Lookup(cs, c.kind).value.lastTransitionTime;
      }
      assert IsLastTransition(cs, longer, c.kind, m);
    } else {
      assert IsTransition(cs, longer, |calls|);
      assert IsLastTransition(cs, longer, c.kind, |calls|);
    }
  }

  lemma RecordsOther(cs: seq<Condition>, calls: seq<Call>, c: Call, t: ConditionType, entry: Option<Condition>)
    requires t != c.kind && Records(cs, calls, t, entry)
    ensures Records(cs, calls + [c], t, entry)
  {
    PrefixCalls(cs, calls, c);
    if LastCall(calls, t) != -1 {
      var m :| IsLastTransition(cs, calls, t, m) &&
        if m >= 0 then entry.value.lastTransitionTime == calls[m].now
        else Lookup(cs, t).Some? && entry.value.lastTransitionTime == Lookup(cs, t).value.lastTransitionTime;
      assert IsLastTransition(cs, calls + [c], t, m);
    }
  }

  /** After any calls each entry holds the latest status, reason and message of its
      type, and the time of the last call that created it or changed its status. */
  lemma {:induction false} ListRefinesHistory(cs: seq<Condition>, calls: seq<Call>, t: ConditionType)
    ensures Records(cs, calls, t, Lookup(Apply(cs, calls), t))
  {
    if calls != [] {
      var n := |calls| - 1;
      var c := calls[n];
      assert calls == calls[..n] + [c];
      ListRefinesHistory(cs, calls[..n], t);
      SetKeeps(Apply(cs, calls[..n]), c);
      if t == c.kind {
        RecordsStep(cs, calls[..n], c, Lookup(Apply(cs, calls[..n]), t), Lookup(Apply(cs, calls), t).value);
      } else {
        RecordsOther(cs, calls[..n], c, t, Lookup(Apply(cs, calls[..n]), t));
      }
    }
  }

  /** The last transition is unique, so the history fixes the timestamp. */
  lemma LastTransitionUnique(cs: seq<Condition>, calls: seq<Call>, t: ConditionType, m: int, m': int)
    requires IsLastTransition(cs, calls, t, m) && IsLastTransition(cs, calls, t, m')
    ensures m == m'
  {
  }
}
