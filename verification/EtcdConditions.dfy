/** The condition list of an EtcdCluster: replace-or-append with deletion in place
    (thirdparty/etcd/v1beta2/status.go). */
module EtcdConditions {
  import opened Base
  import Text

  /** An RFC 3339 time text; only its identity matters here. */
  type Stamp = string

  datatype ConditionType = Available | Recovering | Scaling | Upgrading | OtherType(name: string)

  datatype ConditionStatus = ConditionTrue | ConditionFalse | ConditionUnknown

  datatype Content = Content(status: ConditionStatus, reason: string, message: string)

  datatype ClusterCondition = ClusterCondition(
    kind: ConditionType, content: Content, lastUpdateTime: Stamp, lastTransitionTime: Stamp)

  function NewClusterCondition(t: ConditionType, status: ConditionStatus, reason: string, message: string, now: Stamp)
    : ClusterCondition
  {
    ClusterCondition(t, Content(status, reason, message), now, now)
  }

  function Number(n: int): string {
    if n < 0 then "-" + Text.Decimal(-n) else Text.Decimal(n)
  }

  function ScalingMsg(from: int, to: int): string {
    "Current cluster size: " + Number(from) + ", desired cluster size: " + Number(to)
  }

  // ----- the two primitive changes, as functions of the list -----

  function IndexOf(cs: seq<ClusterCondition>, t: ConditionType): (i: int)
    ensures -1 <= i < |cs|
  {
    if cs == [] then -1
    else if cs[0].kind == t then 0
    else
      var i := IndexOf(cs[1..], t);
      if i == -1 then -1 else i + 1
  }

  /** IndexOf finds the first condition of the type. */
  lemma {:induction false} IndexIs(cs: seq<ClusterCondition>, t: ConditionType, i: int)
    requires -1 <= i < |cs|
    ensures i == IndexOf(cs, t) <==>
            (i >= 0 ==> cs[i].kind == t) && (forall k :: 0 <= k < (if i >= 0 then i else |cs|) ==> cs[k].kind != t)
  {
    if cs != [] {
      if i > 0 {
        IndexIs(cs[1..], t, i - 1);
      } else if i == -1 {
        IndexIs(cs[1..], t, -1);
      }
      assert forall k :: 0 < k < |cs| ==> cs[k] == cs[1..][k - 1];
    }
  }

  /** The entry of a type, if it has one. */
  function Lookup(cs: seq<ClusterCondition>, t: ConditionType): Option<ClusterCondition> {
    if cs == [] then None else if cs[0].kind == t then Some(cs[0]) else Lookup(cs[1..], t)
  }

  lemma {:induction false} LookupIsIndexed(cs: seq<ClusterCondition>, t: ConditionType)
    ensures Lookup(cs, t) == var i := IndexOf(cs, t); if i == -1 then None else Some(cs[i])
  {
    if cs != [] {
      LookupIsIndexed(cs[1..], t);
    }
  }

  function Put(cs: seq<ClusterCondition>, c: ClusterCondition): seq<ClusterCondition> {
    if cs == [] then [c]
    else if cs[0].kind == c.kind then [if cs[0].content == c.content then cs[0] else c] + cs[1..]
    else [cs[0]] + Put(cs[1..], c)
  }

  lemma {:induction false} PutPlace(cs: seq<ClusterCondition>, c: ClusterCondition)
    ensures Put(cs, c) ==
            var i := IndexOf(cs, c.kind);
            if i == -1 then cs + [c] else if cs[i].content == c.content then cs else cs[i := c]
  {
    if cs != [] && cs[0].kind != c.kind {
      PutPlace(cs[1..], c);
      var i := IndexOf(cs, c.kind);
      if i != -1 {
        assert cs[i := c] == [cs[0]] + cs[1..][i - 1 := c];
      }
    }
  }

  function Clear(cs: seq<ClusterCondition>, t: ConditionType): seq<ClusterCondition> {
    if cs == [] then []
    else if cs[0].kind == t then cs[1..]
    else [cs[0]] + Clear(cs[1..], t)
  }

  /** The position of a type, one entry further. */
  lemma IndexHead(cs: seq<ClusterCondition>, t: ConditionType)
    requires cs != []
    ensures IndexOf(cs, t) ==
            if cs[0].kind == t then 0 else if IndexOf(cs[1..], t) == -1 then -1 else IndexOf(cs[1..], t) + 1
  {
  }

  /** Taking out entry j + 1 leaves the head in front of the tail without entry j. */
  lemma SpliceTail(cs: seq<ClusterCondition>, j: nat)
    requires j + 1 < |cs|
    ensures [cs[0]] + (cs[1..][..j] + cs[1..][j + 1..]) == cs[..j + 1] + cs[j + 2..]
  {
    assert [cs[0]] + cs[1..][..j] == cs[..j + 1];
    assert cs[1..][j + 1..] == cs[j + 2..];
  }

  lemma {:induction false} ClearSplice(cs: seq<ClusterCondition>, t: ConditionType)
    ensures var i := IndexOf(cs, t); Clear(cs, t) == if i == -1 then cs else cs[..i] + cs[i + 1..]
  {
    if cs != [] && cs[0].kind != t {
      var j := IndexOf(cs[1..], t);
      ClearSplice(cs[1..], t);
      IndexHead(cs, t);
      if j == -1 {
        assert [cs[0]] + cs[1..] == cs;
      } else {
        SpliceTail(cs, j);
      }
    }
  }

  // ----- the operations of the status type -----

  datatype Change = Establish(kind: ConditionType, content: Content, now: Stamp) | Remove(kind: ConditionType)

  datatype Operation =
    | SetScalingUp(from: int, to: int)
    | SetScalingDown(from: int, to: int)
    | SetRecovering
    | SetUpgrading(version: string)
    | SetReady
    | ClearOnly(t: ConditionType)

  /** The primitive changes an operation makes, in order. */
  function Changes(op: Operation, now: Stamp): seq<Change> {
    match op
    case SetScalingUp(a, b) => [Establish(Scaling, Content(ConditionTrue, "Scaling up", ScalingMsg(a, b)), now)]
    case SetScalingDown(a, b) => [Establish(Scaling, Content(ConditionTrue, "Scaling down", ScalingMsg(a, b)), now)]
    case SetRecovering =>
      [Establish(Recovering,
                 Content(ConditionTrue, "Disaster recovery", "Majority is down. Recovering from backup"), now),
       Remove(Available)]
    case SetUpgrading(v) =>
      [Establish(Upgrading, Content(ConditionTrue, "Cluster upgrading", "upgrading to " + v), now)]
    case SetReady => [Establish(Available, Content(ConditionTrue, "Cluster available", ""), now)]
    case ClearOnly(t) => [Remove(t)]
  }

  function Step(cs: seq<ClusterCondition>, c: Change): seq<ClusterCondition> {
    match c
    case Establish(t, content, now) => Put(cs, ClusterCondition(t, content, now, now))
    case Remove(t) => Clear(cs, t)
  }

  function Run(cs: seq<ClusterCondition>, changes: seq<Change>): seq<ClusterCondition> {
    if changes == [] then cs else Step(Run(cs, changes[..|changes| - 1]), changes[|changes| - 1])
  }

  lemma RunShort(cs: seq<ClusterCondition>, a: Change, b: Change)
    ensures Run(cs, [a]) == Step(cs, a)
    ensures Run(cs, [a, b]) == Step(Step(cs, a), b)
  {
    assert [a][..0] == [] && [a, b][..1] == [a];
  }

  class ClusterStatus {
    var conditions: seq<ClusterCondition>

    /** getClusterCondition: position of the first match, or -1. */
    method GetClusterCondition(t: ConditionType) returns (pos: int)
      ensures pos == IndexOf(conditions, t)
    {
      pos := 0;
      while pos < |conditions|
        invariant 0 <= pos <= |conditions|
        invariant forall k :: 0 <= k < pos ==> conditions[k].kind != t
      {
        if conditions[pos].kind == t {
          IndexIs(conditions, t, pos);
          return;
        }
        pos := pos + 1;
      }
      pos := -1;
      IndexIs(conditions, t, pos);
    }

    method SetClusterCondition(c: ClusterCondition)
      modifies this
      ensures conditions == Put(old(conditions), c)
    {
      PutPlace(conditions, c);
      var pos := GetClusterCondition(c.kind);
      if pos != -1 && conditions[pos].content == c.content {
        return;
      }
      if pos != -1 {
        conditions := conditions[pos := c];
      } else {
        conditions := conditions + [c];
      }
    }

    method ClearCondition(t: ConditionType)
      modifies this
      ensures conditions == Clear(old(conditions), t)
    {
      ClearSplice(conditions, t);
      var pos := GetClusterCondition(t);
      if pos == -1 {
        return;
      }
      conditions := conditions[..pos] + conditions[pos + 1..];
    }

    method SetScalingUpCondition(from: int, to: int, now: Stamp)
      modifies this
      ensures conditions == Run(old(conditions), Changes(SetScalingUp(from, to), now))
    {
      RunShort(conditions, Changes(SetScalingUp(from, to), now)[0], Remove(Available));
      SetClusterCondition(NewClusterCondition(Scaling, ConditionTrue, "Scaling up", ScalingMsg(from, to), now));
    }

    method SetScalingDownCondition(from: int, to: int, now: Stamp)
      modifies this
      ensures conditions == Run(old(conditions), Changes(SetScalingDown(from, to), now))
    {
      RunShort(conditions, Changes(SetScalingDown(from, to), now)[0], Remove(Available));
      SetClusterCondition(NewClusterCondition(Scaling, ConditionTrue, "Scaling down", ScalingMsg(from, to), now));
    }

    method SetRecoveringCondition(now: Stamp)
      modifies this
      ensures conditions == Run(old(conditions), Changes(SetRecovering, now))
    {
      RunShort(conditions, Changes(SetRecovering, now)[0], Remove(Available));
      SetClusterCondition(NewClusterCondition(Recovering, ConditionTrue,
        "Disaster recovery", "Majority is down. Recovering from backup", now));
      ClearCondition(Available);
    }

    method SetUpgradingCondition(to: string, now: Stamp)
      modifies this
      ensures conditions == Run(old(conditions), Changes(SetUpgrading(to), now))
    {
      RunShort(conditions, Changes(SetUpgrading(to), now)[0], Remove(Available));
      SetClusterCondition(NewClusterCondition(Upgrading, ConditionTrue,
        "Cluster upgrading", "upgrading to " + to, now));
    }

    method SetReadyCondition(now: Stamp)
      modifies this
      ensures conditions == Run(old(conditions), Changes(SetReady, now))
    {
      RunShort(conditions, Changes(SetReady, now)[0], Remove(Available));
      SetClusterCondition(NewClusterCondition(Available, ConditionTrue, "Cluster available", "", now));
    }
  }

  // ----- invariants over any sequence of changes -----

  /** No type occurs twice. */
  predicate Distinct(cs: seq<ClusterCondition>) {
    cs == [] || (IndexOf(cs[1..], cs[0].kind) == -1 && Distinct(cs[1..]))
  }

  lemma {:induction false} DistinctMeans(cs: seq<ClusterCondition>)
    ensures Distinct(cs) <==> forall i, j :: 0 <= i < j < |cs| ==> cs[i].kind != cs[j].kind
  {
    if cs != [] {
      DistinctMeans(cs[1..]);
      IndexIs(cs[1..], cs[0].kind, -1);
      var tail := cs[1..];
      assert forall i :: 0 <= i < |tail| ==> tail[i] == cs[i + 1];
      assert forall i :: 0 < i < |cs| ==> cs[i] == tail[i - 1];
    }
  }

  lemma ClearHead(cs: seq<ClusterCondition>, t: ConditionType)
    requires cs != [] && cs[0].kind != t
    ensures Clear(cs, t) != [] && Clear(cs, t)[0] == cs[0] && Clear(cs, t)[1..] == Clear(cs[1..], t)
  {
  }

  lemma {:induction false} ClearLookup(cs: seq<ClusterCondition>, t: ConditionType, u: ConditionType)
    requires Distinct(cs)
    ensures Lookup(Clear(cs, t), u) == if u == t then None else Lookup(cs, u)
  {
    if cs != [] && cs[0].kind != t {
      ClearLookup(cs[1..], t, u);
      assert Clear(cs, t)[1..] == Clear(cs[1..], t);
    } else if cs != [] && u == t {
      LookupIsIndexed(cs[1..], t);
    }
  }

  /** Where a type is found after another type has been cleared. */
  lemma {:induction false} ClearIndex(cs: seq<ClusterCondition>, t: ConditionType, u: ConditionType)
    requires u != t
    ensures IndexOf(Clear(cs, t), u) ==
            if IndexOf(cs, t) == -1 || IndexOf(cs, u) < IndexOf(cs, t) then IndexOf(cs, u) else IndexOf(cs, u) - 1
  {
    if cs != [] && cs[0].kind != t {
      ClearIndex(cs[1..], t, u);
      ClearHead(cs, t);
      IndexHead(cs, t);
      IndexHead(cs, u);
      IndexHead(Clear(cs, t), u);
    }
  }

  /** Removing a type takes out its entry, leaves the entries of all others as they
      were, and keeps the order of any two of them. */
  lemma ClearKeepsOrder(cs: seq<ClusterCondition>, t: ConditionType, u: ConditionType, v: ConditionType)
    requires Distinct(cs) && u != t && v != t && 0 <= IndexOf(cs, u) < IndexOf(cs, v)
    ensures Lookup(Clear(cs, t), t) == None
    ensures Lookup(Clear(cs, t), u) == Lookup(cs, u) && Lookup(Clear(cs, t), v) == Lookup(cs, v)
    ensures 0 <= IndexOf(Clear(cs, t), u) < IndexOf(Clear(cs, t), v)
  {
    ClearIndex(cs, t, u);
    ClearIndex(cs, t, v);
    ClearLookup(cs, t, t);
    ClearLookup(cs, t, u);
    ClearLookup(cs, t, v);
  }

  lemma {:induction false} PutLookup(cs: seq<ClusterCondition>, c: ClusterCondition, u: ConditionType)
    ensures Lookup(Put(cs, c), u) ==
            if u != c.kind then Lookup(cs, u)
            else if Lookup(cs, u).Some? && Lookup(cs, u).value.content == c.content then Lookup(cs, u)
            else Some(c)
  {
    if cs != [] {
      if cs[0].kind != c.kind {
        PutLookup(cs[1..], c, u);
        assert Put(cs, c)[1..] == Put(cs[1..], c);
      } else {
        assert Put(cs, c)[1..] == cs[1..];
      }
    }
  }

  lemma {:induction false} ClearDistinct(cs: seq<ClusterCondition>, t: ConditionType)
    requires Distinct(cs)
    ensures Distinct(Clear(cs, t))
  {
    if cs != [] && cs[0].kind != t {
      ClearDistinct(cs[1..], t);
      ClearIndex(cs[1..], t, cs[0].kind);
      assert Clear(cs, t)[1..] == Clear(cs[1..], t);
    }
  }

  lemma PutIndex(cs: seq<ClusterCondition>, c: ClusterCondition, u: ConditionType)
    requires u != c.kind && IndexOf(cs, u) == -1
    ensures IndexOf(Put(cs, c), u) == -1
  {
    PutLookup(cs, c, u);
    LookupIsIndexed(cs, u);
    LookupIsIndexed(Put(cs, c), u);
  }

  lemma {:induction false} PutDistinct(cs: seq<ClusterCondition>, c: ClusterCondition)
    requires Distinct(cs)
    ensures Distinct(Put(cs, c))
  {
    if cs != [] {
      if cs[0].kind != c.kind {
        PutDistinct(cs[1..], c);
        PutIndex(cs[1..], c, cs[0].kind);
        assert Put(cs, c)[1..] == Put(cs[1..], c);
      } else {
        assert Put(cs, c)[1..] == cs[1..];
      }
    }
  }

  lemma {:induction false} RunDistinct(cs: seq<ClusterCondition>, changes: seq<Change>)
    requires Distinct(cs)
    ensures Distinct(Run(cs, changes))
  {
    if changes != [] {
      var n := |changes| - 1;
      RunDistinct(cs, changes[..n]);
      match changes[n] {
        case Establish(t, content, now) => PutDistinct(Run(cs, changes[..n]), ClusterCondition(t, content, now, now));
        case Remove(t) => ClearDistinct(Run(cs, changes[..n]), t);
      }
    }
  }

  // ----- the history view -----

  /** The type has held exactly this content since change k: k established it,
      later changes to the type only repeated it, and just before k the type was
      absent or held other content. */
  ghost predicate Since(changes: seq<Change>, k: int, t: ConditionType, content: Content) {
    0 <= k < |changes| && changes[k].Establish? && changes[k].kind == t && changes[k].content == content &&
    (forall j :: k < j < |changes| && changes[j].kind == t ==>
       changes[j].Establish? && changes[j].content == content) &&
    !Holds(changes[..k], t, content)
  }

  /** The last change to the type established this content. */
  ghost predicate Holds(changes: seq<Change>, t: ConditionType, content: Content) {
    exists j :: 0 <= j < |changes| && changes[j].kind == t && changes[j].Establish? && changes[j].content == content &&
      forall i :: j < i < |changes| ==> changes[i].kind != t
  }

  /** The last change to the type, if any, removed it. */
  ghost predicate Removed(changes: seq<Change>, t: ConditionType) {
    forall j :: 0 <= j < |changes| && changes[j].kind == t && (forall i :: j < i < |changes| ==> changes[i].kind != t)
      ==> changes[j].Remove?
  }

  ghost predicate Records(changes: seq<Change>, t: ConditionType, entry: Option<ClusterCondition>) {
    match entry
    case None => Removed(changes, t)
    case Some(c) =>
      c.kind == t &&
      exists k :: Since(changes, k, t, c.content) && c.lastUpdateTime == c.lastTransitionTime == changes[k].now
  }

  lemma SinceExtends(changes: seq<Change>, c: Change, k: int, t: ConditionType, content: Content)
    requires Since(changes, k, t, content)
    requires c.kind == t ==> c.Establish? && c.content == content
    ensures Since(changes + [c], k, t, content)
  {
    assert (changes + [c])[..k] == changes[..k];
  }

  /** Setting other content, or setting an absent type, starts a new period. */
  lemma SinceStarts(changes: seq<Change>, c: Change, t: ConditionType, entry: Option<ClusterCondition>)
    requires c.Establish? && c.kind == t && Records(changes, t, entry)
    requires entry.Some? ==> entry.value.content != c.content
    ensures Since(changes + [c], |changes|, t, c.content)
  {
    assert (changes + [c])[..|changes|] == changes;
    if Holds(changes, t, c.content) {
      var j :| 0 <= j < |changes| && changes[j].kind == t && changes[j].Establish? && changes[j].content == c.content &&
        forall i :: j < i < |changes| ==> changes[i].kind != t;
      LastEstablished(changes, t, entry, j);
    }
  }

  /** A type last touched by an establishing change is present with that content. */
  lemma LastEstablished(changes: seq<Change>, t: ConditionType, entry: Option<ClusterCondition>, j: nat)
    requires Records(changes, t, entry) && j < |changes| && changes[j].kind == t && changes[j].Establish?
    requires forall i :: j < i < |changes| ==> changes[i].kind != t
    ensures entry.Some? && entry.value.content == changes[j].content
  {
    if entry.Some? {
      var k :| Since(changes, k, t, entry.value.content);
    }
  }

  lemma RecordsOther(changes: seq<Change>, c: Change, t: ConditionType, entry: Option<ClusterCondition>)
    requires c.kind != t && Records(changes, t, entry)
    ensures Records(changes + [c], t, entry)
  {
    var longer := changes + [c];
    match entry {
      case None =>
        forall j | 0 <= j < |longer| && longer[j].kind == t && (forall i :: j < i < |longer| ==> longer[i].kind != t)
          ensures longer[j].Remove?
        {
          assert changes[j] == longer[j];
          assert forall i :: j < i < |changes| ==> changes[i] == longer[i];
        }
      case Some(e) =>
        var k :| Since(changes, k, t, e.content) && e.lastUpdateTime == e.lastTransitionTime == changes[k].now;
        SinceExtends(changes, c, k, t, e.content);
    }
  }

  lemma RecordsRemove(changes: seq<Change>, c: Change, t: ConditionType)
    requires c == Remove(t)
    ensures Records(changes + [c], t, None)
  {
    assert (changes + [c])[|changes|] == c;
  }

  lemma RecordsEstablish(changes: seq<Change>, c: Change, t: ConditionType,
                         entry: Option<ClusterCondition>, after: ClusterCondition)
    requires c.Establish? && c.kind == t && Records(changes, t, entry)
    requires after == if entry.Some? && entry.value.content == c.content then entry.value
                      else ClusterCondition(t, c.content, c.now, c.now)
    ensures Records(changes + [c], t, Some(after))
  {
    if entry.Some? && entry.value.content == c.content {
      var k :| Since(changes, k, t, c.content) &&
        entry.value.lastUpdateTime == entry.value.lastTransitionTime == changes[k].now;
      SinceExtends(changes, c, k, t, c.content);
    } else {
      SinceStarts(changes, c, t, entry);
      assert (changes + [c])[|changes|] == c;
    }
  }

  /** From an empty list, after any changes: an absent type was last removed or never
      set, and a present one carries the time of the change that first established
      its present status, reason and message. */
  lemma {:induction false} ListRefinesHistory(changes: seq<Change>, t: ConditionType)
    ensures Records(changes, t, Lookup(Run([], changes), t))
  {
    if changes != [] {
      var n := |changes| - 1;
      RunDistinct([], changes[..n]);
      var c, cs := changes[n], Run([], changes[..n]);
      assert changes == changes[..n] + [c];
      ListRefinesHistory(changes[..n], t);
      StepLookup(cs, c, t);
      if c.kind != t {
        RecordsOther(changes[..n], c, t, Lookup(cs, t));
      } else if c.Remove? {
        RecordsRemove(changes[..n], c, t);
      } else {
        RecordsEstablish(changes[..n], c, t, Lookup(cs, t), Lookup(Step(cs, c), t).value);
      }
    }
  }

  /** The effect of one change on one type. */
  lemma StepLookup(cs: seq<ClusterCondition>, c: Change, t: ConditionType)
    requires Distinct(cs)
    ensures Lookup(Step(cs, c), t) ==
            if c.kind != t then Lookup(cs, t)
            else if c.Remove? then None
            else if Lookup(cs, t).Some? && Lookup(cs, t).value.content == c.content then Lookup(cs, t)
            else Some(ClusterCondition(t, c.content, c.now, c.now))
  {
    if c.Remove? {
      ClearLookup(cs, c.kind, t);
    } else {
      PutLookup(cs, ClusterCondition(c.kind, c.content, c.now, c.now), t);
    }
  }

  // ----- recovery -----

  function History(ops: seq<(Operation, Stamp)>): seq<Change> {
    if ops == [] then [] else History(ops[..|ops| - 1]) + Changes(ops[|ops| - 1].0, ops[|ops| - 1].1)
  }

  function RunOps(cs: seq<ClusterCondition>, ops: seq<(Operation, Stamp)>): seq<ClusterCondition> {
    if ops == [] then cs
    else Run(RunOps(cs, ops[..|ops| - 1]), Changes(ops[|ops| - 1].0, ops[|ops| - 1].1))
  }

  lemma {:induction false} RunConcat(cs: seq<ClusterCondition>, a: seq<Change>, b: seq<Change>)
    ensures Run(cs, a + b) == Run(Run(cs, a), b)
  {
    if b == [] {
      assert a + b == a;
    } else {
      var n := |b| - 1;
      assert (a + b)[..|a + b| - 1] == a + b[..n];
      RunConcat(cs, a, b[..n]);
    }
  }

  /** Running operations one by one is running the history of their changes. */
  lemma {:induction false} RunOpsHistory(cs: seq<ClusterCondition>, ops: seq<(Operation, Stamp)>)
    ensures RunOps(cs, ops) == Run(cs, History(ops))
  {
    if ops != [] {
      var n := |ops| - 1;
      RunOpsHistory(cs, ops[..n]);
      RunConcat(cs, History(ops[..n]), Changes(ops[n].0, ops[n].1));
    }
  }

  lemma {:induction false} AbsentRun(cs: seq<ClusterCondition>, ops: seq<(Operation, Stamp)>)
    requires Distinct(cs) && Lookup(cs, Available) == None && forall i :: 0 <= i < |ops| ==> !ops[i].0.SetReady?
    ensures Distinct(RunOps(cs, ops)) && Lookup(RunOps(cs, ops), Available) == None
  {
    if ops != [] {
      var n := |ops| - 1;
      AbsentRun(cs, ops[..n]);
      StaysAbsent(RunOps(cs, ops[..n]), ops[n].0, ops[n].1);
    }
  }

  /** Available stays absent from SetRecoveringCondition until SetReadyCondition. */
  lemma AbsentUntilReady(cs: seq<ClusterCondition>, now: Stamp, ops: seq<(Operation, Stamp)>)
    requires Distinct(cs) && forall i :: 0 <= i < |ops| ==> !ops[i].0.SetReady?
    ensures Lookup(RunOps(Run(cs, Changes(SetRecovering, now)), ops), Available) == None
  {
    RecoveringClears(cs, now);
    AbsentRun(Run(cs, Changes(SetRecovering, now)), ops);
  }

  lemma RecoveringClears(cs: seq<ClusterCondition>, now: Stamp)
    requires Distinct(cs)
    ensures var after := Run(cs, Changes(SetRecovering, now)); Distinct(after) && Lookup(after, Available) == None
  {
    var recovering := Changes(SetRecovering, now)[0];
    RunShort(cs, recovering, Remove(Available));
    RunDistinct(cs, [recovering]);
    RunDistinct(cs, Changes(SetRecovering, now));
    StepLookup(Step(cs, recovering), Remove(Available), Available);
  }

  lemma StaysAbsent(cs: seq<ClusterCondition>, op: Operation, now: Stamp)
    requires Distinct(cs) && Lookup(cs, Available) == None && !op.SetReady?
    ensures var after := Run(cs, Changes(op, now)); Distinct(after) && Lookup(after, Available) == None
  {
    var changes := Changes(op, now);
    RunDistinct(cs, changes);
    RunShort(cs, changes[0], Remove(Available));
    RunDistinct(cs, [changes[0]]);
    StepLookup(cs, changes[0], Available);
    StepLookup(Step(cs, changes[0]), Remove(Available), Available);
  }
}
