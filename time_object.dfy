/**
 * The IPSO Time object (object id 3333) of the Send tutorial client.
 *
 * Each instance carries a Current Time resource that is computed from the
 * clock whenever it is read, an Application Type string that the server may
 * write, a backup of that string used by transactions, and the timestamp of
 * the last change notification sent for it. The instances live in a list
 * kept in ascending instance-id order.
 */
module TimeObject {
  import opened Dm

  /** Current Time: read-write integer, computed from the clock on read. */
  const RID_CURRENT_TIME: Id16 := 5506
  /** Application Type: read-write string. */
  const RID_APPLICATION_TYPE: Id16 := 5750

  /** Size of the application_type buffer, terminator included. */
  const APPLICATION_TYPE_SIZE: nat := 64

  /** What time_object_create stores in the instance it creates. */
  const FIRST_APPLICATION_TYPE: string := "Clock 0"

  datatype TimeInstance = TimeInstance(
    iid: Id16,
    applicationType: string,
    applicationTypeBackup: string,
    lastNotifyTimestamp: int)

  /** The instance ids in list order. */
  function Iids(s: seq<TimeInstance>): seq<Id16>
  {
    seq(|s|, k requires 0 <= k < |s| => s[k].iid)
  }

  /** A string that fits the 64-byte buffer together with its terminator. */
  ghost predicate Fits(text: string)
  {
    |text| < APPLICATION_TYPE_SIZE
  }

  /** The invariant of the instance list. */
  ghost predicate ValidInstances(s: seq<TimeInstance>)
  {
    && StrictlyAscending(Iids(s))
    && forall k :: 0 <= k < |s| ==>
         && s[k].iid != ID_INVALID
         && Fits(s[k].applicationType)
         && Fits(s[k].applicationTypeBackup)
  }

  /** A zero-allocated list element after init_instance: empty strings, timestamp 0. */
  function NewInstance(iid: Id16): TimeInstance
  {
    TimeInstance(iid, "", "", 0)
  }

  /** The list after add_instance: the new element before the first greater id. */
  function Inserted(s: seq<TimeInstance>, iid: Id16): seq<TimeInstance>
  {
    var p := FirstGreater(Iids(s), iid);
    s[..p] + [NewInstance(iid)] + s[p..]
  }

  /** The list after instance_remove unlinks the element holding iid. */
  function Removed(s: seq<TimeInstance>, iid: Id16): seq<TimeInstance>
    requires iid in Iids(s)
  {
    var k := IndexOf(Iids(s), iid);
    s[..k] + s[k + 1..]
  }

  /** The list with the application type of instance iid replaced by text. */
  function WithApplicationType(s: seq<TimeInstance>, iid: Id16, text: string): seq<TimeInstance>
  {
    seq(|s|, k requires 0 <= k < |s| =>
      if s[k].iid == iid then s[k].(applicationType := text) else s[k])
  }

  /** The application type that a read of instance iid reports. */
  function ApplicationTypeOf(s: seq<TimeInstance>, iid: Id16): string
    requires iid in Iids(s)
  {
    s[IndexOf(Iids(s), iid)].applicationType
  }

  /** transaction_begin: every live string copied into its backup. */
  function BackedUp(s: seq<TimeInstance>): seq<TimeInstance>
  {
    seq(|s|, k requires 0 <= k < |s| =>
      s[k].(applicationTypeBackup := s[k].applicationType))
  }

  /** transaction_rollback: every backup copied back over the live string. */
  function RolledBack(s: seq<TimeInstance>): seq<TimeInstance>
  {
    seq(|s|, k requires 0 <= k < |s| =>
      s[k].(applicationType := s[k].applicationTypeBackup))
  }

  /** The ids time_object_notify reports as changed, in list order. */
  function NotifyTargets(s: seq<TimeInstance>, now: int): seq<Id16>
  {
    if s == [] then []
    else
      var last := s[|s| - 1];
      NotifyTargets(s[..|s| - 1], now) + (if last.lastNotifyTimestamp != now then [last.iid] else [])
  }

  /**
   * The list after time_object_notify at time now, where delivered(iid)
   * says whether anjay_notify_changed succeeded for instance iid.
   */
  function Notified(s: seq<TimeInstance>, now: int, delivered: Id16 -> bool): seq<TimeInstance>
  {
    seq(|s|, k requires 0 <= k < |s| =>
      if s[k].lastNotifyTimestamp != now && delivered(s[k].iid)
      then s[k].(lastNotifyTimestamp := now)
      else s[k])
  }

  /** A server-driven change to an existing instance inside a transaction. */
  datatype Edit =
    | WriteApplicationType(iid: Id16, text: string)  // resource_write on Application Type
    | ResetInstance(iid: Id16)                        // instance_reset

  function Apply(s: seq<TimeInstance>, e: Edit): seq<TimeInstance>
  {
    match e
    case WriteApplicationType(iid, text) => WithApplicationType(s, iid, text)
    case ResetInstance(iid) => WithApplicationType(s, iid, "")
  }

  function ApplyAll(s: seq<TimeInstance>, es: seq<Edit>): seq<TimeInstance>
    decreases |es|
  {
    if es == [] then s else ApplyAll(Apply(s, es[0]), es[1..])
  }

  lemma IidsAppend(a: seq<TimeInstance>, b: seq<TimeInstance>)
    ensures Iids(a + b) == Iids(a) + Iids(b)
  {
  }

  /** The ids of a slice are the slice of the ids. */
  lemma IidsSlice(s: seq<TimeInstance>, i: nat, j: nat)
    requires i <= j <= |s|
    ensures Iids(s[i..j]) == Iids(s)[i..j]
  {
  }

  /**
   * add_instance keeps the list valid, and the new list of ids is the old
   * one with exactly iid spliced in at its place.
   */
  lemma InsertedValid(s: seq<TimeInstance>, iid: Id16)
    requires ValidInstances(s) && iid != ID_INVALID && iid !in Iids(s)
    ensures ValidInstances(Inserted(s, iid))
    ensures Iids(Inserted(s, iid)) == InsertSorted(Iids(s), iid)
    ensures forall j :: j in Iids(Inserted(s, iid)) <==> j in Iids(s) || j == iid
  {
    var p := FirstGreater(Iids(s), iid);
    var t := Inserted(s, iid);
    IidsAppend(s[..p] + [NewInstance(iid)], s[p..]);
    IidsAppend(s[..p], [NewInstance(iid)]);
    IidsSlice(s, 0, p);
    IidsSlice(s, p, |s|);
    assert s[0..p] == s[..p] && s[p..|s|] == s[p..];
    assert Iids(t) == InsertSorted(Iids(s), iid);
    InsertSortedAscending(Iids(s), iid);
    InsertSortedMembers(Iids(s), iid);
    forall m | 0 <= m < |t|
      ensures t[m].iid != ID_INVALID && Fits(t[m].applicationType) && Fits(t[m].applicationTypeBackup)
    {
      if m < p { assert t[m] == s[m]; } else if m > p { assert t[m] == s[m - 1]; }
    }
  }

  /**
   * instance_remove keeps the list valid and in order, and removes exactly
   * the id it was given.
   */
  lemma RemovedValid(s: seq<TimeInstance>, iid: Id16)
    requires ValidInstances(s) && iid in Iids(s)
    ensures ValidInstances(Removed(s, iid))
    ensures var k := IndexOf(Iids(s), iid); Iids(Removed(s, iid)) == Iids(s)[..k] + Iids(s)[k + 1..]
    ensures forall j :: j in Iids(Removed(s, iid)) <==> j in Iids(s) && j != iid
  {
    var k := IndexOf(Iids(s), iid);
    var t := Removed(s, iid);
    IidsAppend(s[..k], s[k + 1..]);
    IidsSlice(s, 0, k);
    IidsSlice(s, k + 1, |s|);
    assert s[0..k] == s[..k] && s[k + 1..|s|] == s[k + 1..];
    assert Iids(t) == Iids(s)[..k] + Iids(s)[k + 1..];
    RemoveAscending(Iids(s), k);
    RemoveMembers(Iids(s), k);
    forall m | 0 <= m < |t|
      ensures t[m].iid != ID_INVALID && Fits(t[m].applicationType) && Fits(t[m].applicationTypeBackup)
    {
      if m < k { assert t[m] == s[m]; } else { assert t[m] == s[m + 1]; }
    }
  }

  /** Changing one application type keeps the ids, order and all other fields. */
  lemma WithApplicationTypeValid(s: seq<TimeInstance>, iid: Id16, text: string)
    requires ValidInstances(s) && Fits(text)
    ensures ValidInstances(WithApplicationType(s, iid, text))
    ensures Iids(WithApplicationType(s, iid, text)) == Iids(s)
  {
    assert Iids(WithApplicationType(s, iid, text)) == Iids(s);
  }

  /**
   * Writing Application Type and reading it back gives the written string;
   * the application type of every other instance is unchanged.
   */
  lemma WriteThenRead(s: seq<TimeInstance>, iid: Id16, text: string)
    requires iid in Iids(s)
    ensures iid in Iids(WithApplicationType(s, iid, text))
    ensures ApplicationTypeOf(WithApplicationType(s, iid, text), iid) == text
    ensures forall j :: j in Iids(s) && j != iid ==>
              j in Iids(WithApplicationType(s, iid, text)) &&
              ApplicationTypeOf(WithApplicationType(s, iid, text), j) == ApplicationTypeOf(s, j)
  {
    assert Iids(WithApplicationType(s, iid, text)) == Iids(s);
  }

  /** Server edits touch only application types: ids, backups and timestamps stay. */
  lemma {:induction false} EditsTouchOnlyApplicationTypes(s: seq<TimeInstance>, es: seq<Edit>)
    ensures |ApplyAll(s, es)| == |s|
    ensures forall k :: 0 <= k < |s| ==>
              ApplyAll(s, es)[k] == s[k].(applicationType := ApplyAll(s, es)[k].applicationType)
    decreases |es|
  {
    if es != [] {
      EditsTouchOnlyApplicationTypes(Apply(s, es[0]), es[1..]);
    }
  }

  /**
   * The rollback law: after transaction_begin, any sequence of writes and
   * resets followed by transaction_rollback leaves the list exactly as begin
   * left it, so every application type is back at its value at begin.
   */
  lemma {:induction false} RollbackRestores(s: seq<TimeInstance>, es: seq<Edit>)
    ensures RolledBack(ApplyAll(BackedUp(s), es)) == BackedUp(s)
    ensures |RolledBack(ApplyAll(BackedUp(s), es))| == |s|
    ensures forall k :: 0 <= k < |s| ==>
              && RolledBack(ApplyAll(BackedUp(s), es))[k].iid == s[k].iid
              && RolledBack(ApplyAll(BackedUp(s), es))[k].applicationType == s[k].applicationType
  {
    EditsTouchOnlyApplicationTypes(BackedUp(s), es);
  }

  /**
   * Commit does nothing, so begin followed by commit leaves every
   * application type, id and timestamp as it was.
   */
  lemma BeginKeepsValues(s: seq<TimeInstance>)
    ensures |BackedUp(s)| == |s|
    ensures forall k :: 0 <= k < |s| ==>
              BackedUp(s)[k].(applicationTypeBackup := s[k].applicationTypeBackup) == s[k]
  {
  }

  /** The notified ids are exactly the ids of instances not yet notified at now. */
  lemma {:induction false} NotifyTargetsExactly(s: seq<TimeInstance>, now: int)
    ensures forall j :: j in NotifyTargets(s, now) <==>
              exists k :: 0 <= k < |s| && s[k].iid == j && s[k].lastNotifyTimestamp != now
  {
    if s != [] {
      var n := |s| - 1;
      NotifyTargetsExactly(s[..n], now);
      forall j ensures j in NotifyTargets(s, now) <==>
                 exists k :: 0 <= k < |s| && s[k].iid == j && s[k].lastNotifyTimestamp != now
      {
        if exists k :: 0 <= k < |s| && s[k].iid == j && s[k].lastNotifyTimestamp != now {
          var k :| 0 <= k < |s| && s[k].iid == j && s[k].lastNotifyTimestamp != now;
          if k < n { assert s[..n][k] == s[k]; }
        }
      }
    }
  }

  /**
   * A failed notification is retried: a second notify in the same second
   * reports exactly the ids whose first notification failed, so when every
   * notification was delivered it reports nothing.
   */
  lemma {:induction false} NotifyRetriesFailures(s: seq<TimeInstance>, now: int, delivered: Id16 -> bool)
    ensures forall j :: j in NotifyTargets(Notified(s, now, delivered), now) <==>
              j in NotifyTargets(s, now) && !delivered(j)
    ensures (forall j :: delivered(j)) ==> NotifyTargets(Notified(s, now, delivered), now) == []
  {
    if s != [] {
      var n := |s| - 1;
      assert Notified(s, now, delivered)[..n] == Notified(s[..n], now, delivered);
      NotifyRetriesFailures(s[..n], now, delivered);
    }
  }

  class Time {
    var instances: seq<TimeInstance>

    ghost predicate Valid()
      reads this
    {
      ValidInstances(instances)
    }

    /** time_object_create: instance 0 holding "Clock 0". */
    constructor ()
      ensures Valid()
      ensures instances == [NewInstance(0).(applicationType := FIRST_APPLICATION_TYPE)]
    {
      instances := [];
      new;
      var pos := AddInstance(0);
      instances := instances[pos := instances[pos].(applicationType := FIRST_APPLICATION_TYPE)];
    }

    /**
     * find_instance: walks the list and gives up at the first greater id.
     * On a valid list it finds iid exactly when iid is present.
     */
    method FindInstance(iid: Id16) returns (r: Option<nat>)
      requires Valid()
      ensures r.Some? <==> iid in Iids(instances)
      ensures r.Some? ==> r.value < |instances| && instances[r.value].iid == iid
      ensures r.Some? ==> r.value == IndexOf(Iids(instances), iid)
    {
      var i := 0;
      while i < |instances|
        invariant 0 <= i <= |instances|
        invariant forall k :: 0 <= k < i ==> instances[k].iid < iid
      {
        if instances[i].iid == iid {
          assert Iids(instances)[i] == iid;
          return Some(i);
        } else if instances[i].iid > iid {
          AscendingPast(Iids(instances), i, iid);
          break;
        }
        i := i + 1;
      }
      assert forall k :: 0 <= k < |instances| ==> Iids(instances)[k] != iid;
      return None;
    }

    /** list_instances: the ids in list order, which is strictly ascending. */
    method ListInstances() returns (out: seq<Id16>)
      requires Valid()
      ensures out == Iids(instances)
      ensures StrictlyAscending(out)
    {
      out := [];
      for i := 0 to |instances|
        invariant out == Iids(instances[..i])
      {
        out := out + [instances[i].iid];
      }
      assert instances[..|instances|] == instances;
    }

    /**
     * add_instance (and instance_create, which only adds the allocation
     * failure code): splices a fresh element in before the first greater id.
     */
    method AddInstance(iid: Id16) returns (pos: nat)
      requires Valid()
      requires iid != ID_INVALID && iid !in Iids(instances)
      modifies this
      ensures Valid()
      ensures instances == Inserted(old(instances), iid)
      ensures pos < |instances| && instances[pos] == NewInstance(iid)
    {
      var created := NewInstance(iid);
      var i := 0;
      while i < |instances|
        invariant 0 <= i <= |instances|
        invariant forall k :: 0 <= k < i ==> instances[k].iid <= created.iid
      {
        if instances[i].iid > created.iid {
          break;
        }
        i := i + 1;
      }
      assert i < |instances| ==> Iids(instances)[i] > iid;
      assert forall k :: 0 <= k < i ==> Iids(instances)[k] <= iid;
      assert i == FirstGreater(Iids(instances), iid);
      InsertedValid(instances, iid);
      instances := instances[..i] + [created] + instances[i..];
      pos := i;
    }

    /** instance_remove: unlinks the element holding iid, which must be present. */
    method InstanceRemove(iid: Id16)
      requires Valid() && iid in Iids(instances)
      modifies this
      ensures Valid()
      ensures instances == Removed(old(instances), iid)
    {
      RemovedValid(instances, iid);
      var i := 0;
      while i < |instances|
        invariant 0 <= i <= IndexOf(Iids(instances), iid) < |instances|
        invariant instances == old(instances)
      {
        assert Iids(instances)[i] == instances[i].iid;
        if instances[i].iid == iid {
          instances := instances[..i] + instances[i + 1..];
          return;
        } else if instances[i].iid > iid {
          break;
        }
        i := i + 1;
      }
      assert false;
    }

    /** instance_reset: empties the application type of instance iid. */
    method InstanceReset(iid: Id16)
      requires Valid() && iid in Iids(instances)
      modifies this
      ensures Valid()
      ensures instances == WithApplicationType(old(instances), iid, "")
    {
      WithApplicationTypeValid(instances, iid, "");
      var r := FindInstance(iid);
      var k := r.value;
      instances := instances[k := instances[k].(applicationType := "")];
      forall m | 0 <= m < |instances| && m != k ensures instances[m].iid != iid {
        AscendingDistinct(Iids(old(instances)), m, k);
      }
      assert instances == WithApplicationType(old(instances), iid, "");
    }

    /**
     * resource_read: Current Time reports the clock (now is None when the
     * clock cannot be read, which the handler reports as -1), Application
     * Type reports the stored string, anything else is not allowed.
     */
    method ResourceRead(iid: Id16, rid: Id16, riid: Id16, now: Option<int>) returns (r: ReadResult)
      requires Valid() && iid in Iids(instances)
      requires rid == RID_CURRENT_TIME || rid == RID_APPLICATION_TYPE ==> riid == ID_INVALID
      ensures rid == RID_CURRENT_TIME ==>
                r == (if now.Some? then Read(IntValue(now.value)) else ReadError(-1))
      ensures rid == RID_APPLICATION_TYPE ==>
                r == Read(StringValue(ApplicationTypeOf(instances, iid)))
      ensures rid != RID_CURRENT_TIME && rid != RID_APPLICATION_TYPE ==>
                r == ReadError(ERR_METHOD_NOT_ALLOWED)
    {
      var found := FindInstance(iid);
      var inst := instances[found.value];
      if rid == RID_CURRENT_TIME {
        if now.None? {
          return ReadError(-1);
        }
        return Read(IntValue(now.value));
      } else if rid == RID_APPLICATION_TYPE {
        return Read(StringValue(inst.applicationType));
      } else {
        return ReadError(ERR_METHOD_NOT_ALLOWED);
      }
    }

    /**
     * resource_write: only Application Type is writable. The string reader
     * writes straight into the live buffer and its status is returned as is;
     * every other resource, Current Time included, is not allowed.
     */
    method ResourceWrite(iid: Id16, rid: Id16, riid: Id16, input: StringInput) returns (code: int)
      requires Valid() && iid in Iids(instances)
      requires rid == RID_APPLICATION_TYPE ==> riid == ID_INVALID && Fits(input.text)
      modifies this
      ensures Valid()
      ensures rid == RID_APPLICATION_TYPE ==>
                code == input.code && instances == WithApplicationType(old(instances), iid, input.text)
      ensures rid != RID_APPLICATION_TYPE ==>
                code == ERR_METHOD_NOT_ALLOWED && instances == old(instances)
    {
      var found := FindInstance(iid);
      var k := found.value;
      if rid == RID_APPLICATION_TYPE {
        WithApplicationTypeValid(instances, iid, input.text);
        instances := instances[k := instances[k].(applicationType := input.text)];
        forall m | 0 <= m < |instances| && m != k ensures instances[m].iid != iid {
          AscendingDistinct(Iids(old(instances)), m, k);
        }
        assert instances == WithApplicationType(old(instances), iid, input.text);
        return input.code;
      } else {
        return ERR_METHOD_NOT_ALLOWED;
      }
    }

    /** transaction_begin: copies every live string into its backup. */
    method TransactionBegin()
      requires Valid()
      modifies this
      ensures Valid()
      ensures instances == BackedUp(old(instances))
    {
      var i := 0;
      while i < |instances|
        invariant 0 <= i <= |instances| == |old(instances)|
        invariant forall k :: 0 <= k < i ==> instances[k] == BackedUp(old(instances))[k]
        invariant forall k :: i <= k < |instances| ==> instances[k] == old(instances)[k]
      {
        instances := instances[i := instances[i].(applicationTypeBackup := instances[i].applicationType)];
        i := i + 1;
      }
      assert Iids(instances) == Iids(old(instances));
    }

    /** The commit handler is the library's no-op. */
    method TransactionCommit()
      ensures instances == old(instances)
    {
    }

    /** transaction_rollback: copies every backup back over its live string. */
    method TransactionRollback()
      requires Valid()
      modifies this
      ensures Valid()
      ensures instances == RolledBack(old(instances))
    {
      var i := 0;
      while i < |instances|
        invariant 0 <= i <= |instances| == |old(instances)|
        invariant forall k :: 0 <= k < i ==> instances[k] == RolledBack(old(instances))[k]
        invariant forall k :: i <= k < |instances| ==> instances[k] == old(instances)[k]
      {
        instances := instances[i := instances[i].(applicationType := instances[i].applicationTypeBackup)];
        i := i + 1;
      }
      assert Iids(instances) == Iids(old(instances));
    }

    /**
     * time_object_notify: reads the clock once (None when it cannot be
     * read: then nothing happens), reports a change of Current Time for each
     * instance whose last notification is not from this second, and records
     * the second only for the instances whose notification was delivered.
     * Returns the ids reported, in order.
     */
    method Notify(now: Option<int>, delivered: Id16 -> bool) returns (notified: seq<Id16>)
      requires Valid()
      modifies this
      ensures Valid()
      ensures now.None? ==> notified == [] && instances == old(instances)
      ensures now.Some? ==>
                && notified == NotifyTargets(old(instances), now.value)
                && instances == Notified(old(instances), now.value, delivered)
    {
      notified := [];
      if now.None? {
        return;
      }
      var current := now.value;
      var i := 0;
      while i < |instances|
        invariant 0 <= i <= |instances| == |old(instances)|
        invariant forall k :: 0 <= k < i ==> instances[k] == Notified(old(instances), current, delivered)[k]
        invariant forall k :: i <= k < |instances| ==> instances[k] == old(instances)[k]
        invariant notified == NotifyTargets(old(instances)[..i], current)
      {
        assert old(instances)[..i + 1][..i] == old(instances)[..i];
        if instances[i].lastNotifyTimestamp != current {
          notified := notified + [instances[i].iid];
          if delivered(instances[i].iid) {
            instances := instances[i := instances[i].(lastNotifyTimestamp := current)];
          }
        }
        i := i + 1;
      }
      assert old(instances)[..|instances|] == old(instances);
      assert Iids(instances) == Iids(old(instances));
    }
  }
}
