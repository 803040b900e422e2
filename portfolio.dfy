/**
 * The Portfolio object (LwM2M object 16) of the demo client.
 *
 * Each instance holds one multi-instance string resource, Identity, with a
 * fixed set of four slots (host device id, manufacturer, model, software
 * version): a presence flag and a value per slot. Instances live in a list
 * kept in ascending instance-id order; a transaction takes a full copy of
 * that list and puts it back on rollback, so creations and removals are
 * undone as well.
 */
module Portfolio {
  import opened Dm

  /** Identity: read-write, multiple instances. */
  const RID_IDENTITY: Id16 := 0

  /** _MAX_IDENTITY_TYPE: the number of Identity slots. */
  const IDENTITY_SLOTS: nat := 4

  /** MAX_IDENTITY_VALUE_SIZE: the size of a slot's buffer, terminator included. */
  const MAX_IDENTITY_VALUE_SIZE: nat := 256

  datatype PortfolioInstance = PortfolioInstance(
    iid: Id16,
    hasIdentity: seq<bool>,
    identityValue: seq<string>)

  /** Four slots, each value fitting its buffer. */
  ghost predicate WellFormed(inst: PortfolioInstance)
  {
    && |inst.hasIdentity| == IDENTITY_SLOTS
    && |inst.identityValue| == IDENTITY_SLOTS
    && forall j :: 0 <= j < IDENTITY_SLOTS ==> |inst.identityValue[j]| < MAX_IDENTITY_VALUE_SIZE
  }

  /** The instance ids in list order. */
  function Iids(s: seq<PortfolioInstance>): seq<Id16>
  {
    seq(|s|, k requires 0 <= k < |s| => s[k].iid)
  }

  /** The invariant of an instance list: ids strictly ascending, slots well formed. */
  ghost predicate ValidInstances(s: seq<PortfolioInstance>)
  {
    && StrictlyAscending(Iids(s))
    && forall k :: 0 <= k < |s| ==> WellFormed(s[k])
  }

  /** A zero-allocated element: every slot absent and empty. */
  function NewInstance(iid: Id16): PortfolioInstance
  {
    PortfolioInstance(iid, [false, false, false, false], ["", "", "", ""])
  }

  /** instance_reset: both arrays zeroed. */
  function Cleared(inst: PortfolioInstance): PortfolioInstance
  {
    inst.(hasIdentity := [false, false, false, false], identityValue := ["", "", "", ""])
  }

  /** resource_reset: only the presence flags zeroed; the values stay behind. */
  function IdentityReset(inst: PortfolioInstance): PortfolioInstance
  {
    inst.(hasIdentity := [false, false, false, false])
  }

  /** A successful write of slot riid. */
  function WithIdentity(inst: PortfolioInstance, riid: nat, text: string): PortfolioInstance
    requires riid < |inst.hasIdentity| && riid < |inst.identityValue|
  {
    inst.(hasIdentity := inst.hasIdentity[riid := true], identityValue := inst.identityValue[riid := text])
  }

  /** The instance holding iid. */
  function InstanceOf(s: seq<PortfolioInstance>, iid: Id16): PortfolioInstance
    requires iid in Iids(s)
  {
    s[IndexOf(Iids(s), iid)]
  }

  /** The list with the element holding iid replaced by inst. */
  function WithInstance(s: seq<PortfolioInstance>, iid: Id16, inst: PortfolioInstance): seq<PortfolioInstance>
  {
    seq(|s|, k requires 0 <= k < |s| => if s[k].iid == iid then inst else s[k])
  }

  /** The list after instance_create: a fresh element before the first greater id. */
  function Created(s: seq<PortfolioInstance>, iid: Id16): seq<PortfolioInstance>
  {
    var p := FirstGreater(Iids(s), iid);
    s[..p] + [NewInstance(iid)] + s[p..]
  }

  /** The list after instance_remove unlinks the element holding iid. */
  function Removed(s: seq<PortfolioInstance>, iid: Id16): seq<PortfolioInstance>
    requires iid in Iids(s)
  {
    var k := IndexOf(Iids(s), iid);
    s[..k] + s[k + 1..]
  }

  /** The live list and the backup list; an empty backup is the null list head. */
  datatype ObjectState = ObjectState(instances: seq<PortfolioInstance>, backup: seq<PortfolioInstance>)

  /** transaction_begin: the backup becomes a copy of the live list. */
  function Begin(st: ObjectState): ObjectState
  {
    st.(backup := st.instances)
  }

  /** transaction_commit: the backup is freed. */
  function Commit(st: ObjectState): ObjectState
  {
    st.(backup := [])
  }

  /** transaction_rollback: the live list is freed and the backup takes its place. */
  function Rollback(st: ObjectState): ObjectState
  {
    ObjectState(st.backup, [])
  }

  /** A server-driven change inside a transaction. */
  datatype Mutation =
    | Create(iid: Id16)
    | Remove(iid: Id16)
    | ResetInstance(iid: Id16)
    | ResetResource(iid: Id16)
    | WriteIdentity(iid: Id16, riid: Id16, input: StringInput)

  /** What the data-model layer guarantees before calling each handler. */
  ghost predicate Allowed(s: seq<PortfolioInstance>, m: Mutation)
  {
    match m
    case Create(iid) => iid !in Iids(s)
    case WriteIdentity(iid, riid, input) =>
      iid in Iids(s) && (riid < IDENTITY_SLOTS ==> |input.text| < MAX_IDENTITY_VALUE_SIZE)
    case _ => m.iid in Iids(s)
  }

  /** The effect of one handler on the live list. */
  function Mutate(s: seq<PortfolioInstance>, m: Mutation): seq<PortfolioInstance>
    requires ValidInstances(s) && Allowed(s, m)
  {
    match m
    case Create(iid) => Created(s, iid)
    case Remove(iid) => Removed(s, iid)
    case ResetInstance(iid) => WithInstance(s, iid, Cleared(InstanceOf(s, iid)))
    case ResetResource(iid) => WithInstance(s, iid, IdentityReset(InstanceOf(s, iid)))
    case WriteIdentity(iid, riid, input) =>
      if riid < IDENTITY_SLOTS && input.code == 0
      then WithInstance(s, iid, WithIdentity(InstanceOf(s, iid), riid, input.text))
      else s
  }

  lemma IidsAppend(a: seq<PortfolioInstance>, b: seq<PortfolioInstance>)
    ensures Iids(a + b) == Iids(a) + Iids(b)
  {
  }

  /** The ids of a slice are the slice of the ids. */
  lemma IidsSlice(s: seq<PortfolioInstance>, i: nat, j: nat)
    requires i <= j <= |s|
    ensures Iids(s[i..j]) == Iids(s)[i..j]
  {
  }

  /**
   * instance_create has no duplicate check: the new list is strictly
   * ascending exactly when iid was absent, and its ids are the old ones with
   * iid spliced in before the first greater id.
   */
  lemma CreatedValid(s: seq<PortfolioInstance>, iid: Id16)
    requires ValidInstances(s)
    ensures ValidInstances(Created(s, iid)) <==> iid !in Iids(s)
    ensures Iids(Created(s, iid)) == InsertSorted(Iids(s), iid)
    ensures forall j :: j in Iids(Created(s, iid)) <==> j in Iids(s) || j == iid
  {
    var p := FirstGreater(Iids(s), iid);
    var t := Created(s, iid);
    IidsAppend(s[..p] + [NewInstance(iid)], s[p..]);
    IidsAppend(s[..p], [NewInstance(iid)]);
    IidsSlice(s, 0, p);
    IidsSlice(s, p, |s|);
    assert s[0..p] == s[..p] && s[p..|s|] == s[p..];
    assert Iids(t) == InsertSorted(Iids(s), iid);
    InsertSortedAscending(Iids(s), iid);
    InsertSortedMembers(Iids(s), iid);
    CreatedWellFormed(s, iid);
  }

  /** The created element and every old one are well formed. */
  lemma CreatedWellFormed(s: seq<PortfolioInstance>, iid: Id16)
    requires forall k :: 0 <= k < |s| ==> WellFormed(s[k])
    ensures forall m :: 0 <= m < |Created(s, iid)| ==> WellFormed(Created(s, iid)[m])
  {
    var p := FirstGreater(Iids(s), iid);
    var t := Created(s, iid);
    forall m | 0 <= m < |t| ensures WellFormed(t[m]) {
      if m < p { assert t[m] == s[m]; } else if m > p { assert t[m] == s[m - 1]; }
      else { assert t[m] == NewInstance(iid); }
    }
  }

  /** instance_remove keeps the list valid and removes exactly the id it was given. */
  lemma RemovedValid(s: seq<PortfolioInstance>, iid: Id16)
    requires ValidInstances(s) && iid in Iids(s)
    ensures ValidInstances(Removed(s, iid))
    ensures var k := IndexOf(Iids(s), iid); Iids(Removed(s, iid)) == Iids(s)[..k] + Iids(s)[k + 1..]
    ensures forall j :: j in Iids(Removed(s, iid)) <==> j in Iids(s) && j != iid
  {
    var k := IndexOf(Iids(s), iid);
    var t := Removed(s, iid);
    IidsAppend(s[..k], s[k + 1..]);
    IidsSlice(s, 0, k);
    IidsSlice(s, k + 1, |s|);
    assert s[0..k] == s[..k] && s[k + 1..|s|] == s[k + 1..];
    assert Iids(t) == Iids(s)[..k] + Iids(s)[k + 1..];
    RemoveAscending(Iids(s), k);
    RemoveMembers(Iids(s), k);
    forall m | 0 <= m < |t| ensures WellFormed(t[m]) {
      if m < k { assert t[m] == s[m]; } else { assert t[m] == s[m + 1]; }
    }
  }

  /** Replacing one instance by a well-formed one with the same id keeps the list valid. */
  lemma WithInstanceValid(s: seq<PortfolioInstance>, iid: Id16, inst: PortfolioInstance)
    requires ValidInstances(s) && WellFormed(inst) && inst.iid == iid
    ensures ValidInstances(WithInstance(s, iid, inst))
    ensures Iids(WithInstance(s, iid, inst)) == Iids(s)
  {
    assert Iids(WithInstance(s, iid, inst)) == Iids(s);
  }

  /** The replaced instance is the one a later lookup finds. */
  lemma WithInstanceFound(s: seq<PortfolioInstance>, iid: Id16, inst: PortfolioInstance)
    requires iid in Iids(s) && inst.iid == iid
    ensures Iids(WithInstance(s, iid, inst)) == Iids(s)
    ensures InstanceOf(WithInstance(s, iid, inst), iid) == inst
    ensures forall j :: j in Iids(s) && j != iid ==> InstanceOf(WithInstance(s, iid, inst), j) == InstanceOf(s, j)
  {
    assert Iids(WithInstance(s, iid, inst)) == Iids(s);
  }

  /**
   * A successful write of slot riid marks it present and a later read of
   * that slot returns the written string; the other slots are untouched.
   */
  lemma WriteThenRead(inst: PortfolioInstance, riid: nat, text: string)
    requires WellFormed(inst) && riid < IDENTITY_SLOTS
    ensures WithIdentity(inst, riid, text).hasIdentity[riid]
    ensures WithIdentity(inst, riid, text).identityValue[riid] == text
    ensures forall j :: 0 <= j < IDENTITY_SLOTS && j != riid ==>
              && WithIdentity(inst, riid, text).hasIdentity[j] == inst.hasIdentity[j]
              && WithIdentity(inst, riid, text).identityValue[j] == inst.identityValue[j]
  {
  }

  /** Every handler the data-model layer may call keeps the list valid. */
  lemma MutateValid(s: seq<PortfolioInstance>, m: Mutation)
    requires ValidInstances(s) && Allowed(s, m)
    ensures ValidInstances(Mutate(s, m))
  {
    match m
    case Create(iid) => CreatedValid(s, iid);
    case Remove(iid) => RemovedValid(s, iid);
    case ResetInstance(iid) => WithInstanceValid(s, iid, Cleared(InstanceOf(s, iid)));
    case ResetResource(iid) => WithInstanceValid(s, iid, IdentityReset(InstanceOf(s, iid)));
    case WriteIdentity(iid, riid, input) =>
      if riid < IDENTITY_SLOTS && input.code == 0 {
        WithInstanceValid(s, iid, WithIdentity(InstanceOf(s, iid), riid, input.text));
      }
  }

  /** A run of handlers, each called as the data-model layer calls it. */
  ghost predicate AllAllowed(s: seq<PortfolioInstance>, ms: seq<Mutation>)
    decreases |ms|
  {
    ms != [] ==>
      && ValidInstances(s)
      && Allowed(s, ms[0])
      && AllAllowed(Mutate(s, ms[0]), ms[1..])
  }

  ghost function MutateAll(st: ObjectState, ms: seq<Mutation>): ObjectState
    requires AllAllowed(st.instances, ms)
    decreases |ms|
  {
    if ms == [] then st
    else MutateAll(st.(instances := Mutate(st.instances, ms[0])), ms[1..])
  }

  /**
   * Any run of creations, removals, resets and writes keeps the instance
   * list strictly ascending, and none of them touches the backup.
   */
  lemma {:induction false} MutateAllValid(st: ObjectState, ms: seq<Mutation>)
    requires ValidInstances(st.instances) && AllAllowed(st.instances, ms)
    ensures ValidInstances(MutateAll(st, ms).instances)
    ensures MutateAll(st, ms).backup == st.backup
    decreases |ms|
  {
    if ms != [] {
      MutateValid(st.instances, ms[0]);
      MutateAllValid(st.(instances := Mutate(st.instances, ms[0])), ms[1..]);
    }
  }

  /**
   * The rollback law: begin, any run of handlers, rollback gives back the
   * state before begin, instance existence and slot flags included; begin,
   * the run, commit keeps the run's effect and frees the backup.
   */
  lemma RollbackLaw(st: ObjectState, ms: seq<Mutation>)
    requires st.backup == [] && ValidInstances(st.instances)
    requires AllAllowed(st.instances, ms)
    ensures Rollback(MutateAll(Begin(st), ms)) == st
    ensures Commit(MutateAll(Begin(st), ms)) == ObjectState(MutateAll(st, ms).instances, [])
  {
    MutateAllValid(Begin(st), ms);
    MutateAllSameInstances(Begin(st), st, ms);
  }

  /** The live list after a run does not depend on what the backup holds. */
  lemma {:induction false} MutateAllSameInstances(a: ObjectState, b: ObjectState, ms: seq<Mutation>)
    requires a.instances == b.instances && AllAllowed(a.instances, ms)
    ensures MutateAll(a, ms).instances == MutateAll(b, ms).instances
    decreases |ms|
  {
    if ms != [] {
      MutateAllSameInstances(
        a.(instances := Mutate(a.instances, ms[0])),
        b.(instances := Mutate(b.instances, ms[0])),
        ms[1..]);
    }
  }

  class Portfolio {
    var instances: seq<PortfolioInstance>
    var backup: seq<PortfolioInstance>

    ghost predicate Valid()
      reads this
    {
      ValidInstances(instances) && ValidInstances(backup)
    }

    function State(): ObjectState
      reads this
    {
      ObjectState(instances, backup)
    }

    /** portfolio_object_create: a zeroed object, no instances and no backup. */
    constructor ()
      ensures Valid()
      ensures instances == [] && backup == []
    {
      instances := [];
      backup := [];
    }

    /**
     * find_instance: walks the list and gives up at the first greater id.
     * On a valid list it finds iid exactly when iid is present.
     */
    method FindInstance(iid: Id16) returns (r: Option<nat>)
      requires Valid()
      ensures r.Some? <==> iid in Iids(instances)
      ensures r.Some? ==> r.value < |instances| && instances[r.value].iid == iid
      ensures r.Some? ==> r.value == IndexOf(Iids(instances), iid)
    {
      var i := 0;
      while i < |instances|
        invariant 0 <= i <= |instances|
        invariant forall k :: 0 <= k < i ==> instances[k].iid < iid
      {
        if instances[i].iid == iid {
          assert Iids(instances)[i] == iid;
          return Some(i);
        } else if instances[i].iid > iid {
          AscendingPast(Iids(instances), i, iid);
          break;
        }
        i := i + 1;
      }
      assert forall k :: 0 <= k < |instances| ==> Iids(instances)[k] != iid;
      return None;
    }

    /**
     * instance_create: splices a fresh element in before the first greater
     * id, without looking for a duplicate. The list stays valid exactly
     * when iid was absent, which the data-model layer checks beforehand.
     */
    method InstanceCreate(iid: Id16)
      requires Valid()
      modifies this
      ensures instances == Created(old(instances), iid) && backup == old(backup)
      ensures Valid() <==> iid !in Iids(old(instances))
    {
      var created := NewInstance(iid);
      var i := 0;
      while i < |instances|
        invariant 0 <= i <= |instances|
        invariant forall k :: 0 <= k < i ==> instances[k].iid <= created.iid
      {
        if instances[i].iid > created.iid {
          break;
        }
        i := i + 1;
      }
      assert i < |instances| ==> Iids(instances)[i] > iid;
      assert forall k :: 0 <= k < i ==> Iids(instances)[k] <= iid;
      assert i == FirstGreater(Iids(instances), iid);
      CreatedValid(instances, iid);
      instances := instances[..i] + [created] + instances[i..];
    }

    /** instance_remove: unlinks the element holding iid, which must be present. */
    method InstanceRemove(iid: Id16)
      requires Valid() && iid in Iids(instances)
      modifies this
      ensures Valid() && backup == old(backup)
      ensures instances == Removed(old(instances), iid)
    {
      RemovedValid(instances, iid);
      var i := 0;
      while i < |instances|
        invariant 0 <= i <= IndexOf(Iids(instances), iid) < |instances|
        invariant instances == old(instances)
      {
        assert Iids(instances)[i] == instances[i].iid;
        if instances[i].iid == iid {
          instances := instances[..i] + instances[i + 1..];
          return;
        } else if instances[i].iid > iid {
          break;
        }
        i := i + 1;
      }
      assert false;
    }

    /** Replaces the element holding iid, found at index k. */
    method Replace(k: nat, iid: Id16, inst: PortfolioInstance)
      requires Valid() && k < |instances| && instances[k].iid == iid
      requires inst.iid == iid && WellFormed(inst)
      modifies this
      ensures Valid() && backup == old(backup)
      ensures instances == WithInstance(old(instances), iid, inst)
    {
      WithInstanceValid(instances, iid, inst);
      forall m | 0 <= m < |instances| && m != k ensures instances[m].iid != iid {
        AscendingDistinct(Iids(instances), m, k);
      }
      instances := instances[k := inst];
      assert instances == WithInstance(old(instances), iid, inst);
    }

    /** instance_reset: clears every flag and every value of instance iid. */
    method InstanceReset(iid: Id16)
      requires Valid() && iid in Iids(instances)
      modifies this
      ensures Valid() && backup == old(backup)
      ensures instances == WithInstance(old(instances), iid, Cleared(InstanceOf(old(instances), iid)))
    {
      var found := FindInstance(iid);
      var k := found.value;
      Replace(k, iid, Cleared(instances[k]));
    }

    /**
     * resource_read: a present Identity slot reports its value. Reading an
     * out-of-range or absent slot is a caller error; any other resource
     * reports Method Not Allowed.
     */
    method ResourceRead(iid: Id16, rid: Id16, riid: Id16) returns (r: ReadResult)
      requires Valid() && iid in Iids(instances)
      requires rid == RID_IDENTITY ==>
                 riid < IDENTITY_SLOTS && InstanceOf(instances, iid).hasIdentity[riid]
      ensures rid == RID_IDENTITY ==>
                r == Read(StringValue(InstanceOf(instances, iid).identityValue[riid]))
      ensures rid != RID_IDENTITY ==> r == ReadError(ERR_METHOD_NOT_ALLOWED)
    {
      var found := FindInstance(iid);
      var inst := instances[found.value];
      if rid == RID_IDENTITY {
        return Read(StringValue(inst.identityValue[riid]));
      } else {
        return ReadError(ERR_METHOD_NOT_ALLOWED);
      }
    }

    /**
     * resource_write: a slot outside the four is Not Found. Otherwise the
     * string is read into a local buffer and stored, and the slot marked
     * present, only when the read succeeded; its status is returned as is.
     */
    method ResourceWrite(iid: Id16, rid: Id16, riid: Id16, input: StringInput) returns (code: int)
      requires Valid() && iid in Iids(instances)
      requires rid == RID_IDENTITY && riid < IDENTITY_SLOTS ==> |input.text| < MAX_IDENTITY_VALUE_SIZE
      modifies this
      ensures Valid() && backup == old(backup)
      ensures rid != RID_IDENTITY ==> code == ERR_METHOD_NOT_ALLOWED && instances == old(instances)
      ensures rid == RID_IDENTITY && riid >= IDENTITY_SLOTS ==>
                code == ERR_NOT_FOUND && instances == old(instances)
      ensures rid == RID_IDENTITY && riid < IDENTITY_SLOTS ==>
                && code == input.code
                && instances == (if input.code == 0
                                 then WithInstance(old(instances), iid,
                                        WithIdentity(InstanceOf(old(instances), iid), riid, input.text))
                                 else old(instances))
    {
      var found := FindInstance(iid);
      var k := found.value;
      if rid != RID_IDENTITY {
        return ERR_METHOD_NOT_ALLOWED;
      }
      if riid >= IDENTITY_SLOTS {
        return ERR_NOT_FOUND;
      }
      var value := input.text;
      code := input.code;
      if code == 0 {
        Replace(k, iid, WithIdentity(instances[k], riid, value));
      }
    }

    /** resource_reset: clears the Identity presence flags of instance iid, values left behind. */
    method ResourceReset(iid: Id16, rid: Id16)
      requires Valid() && iid in Iids(instances) && rid == RID_IDENTITY
      modifies this
      ensures Valid() && backup == old(backup)
      ensures instances == WithInstance(old(instances), iid, IdentityReset(InstanceOf(old(instances), iid)))
    {
      var found := FindInstance(iid);
      var k := found.value;
      Replace(k, iid, IdentityReset(instances[k]));
    }

    /**
     * list_resource_instances: the present Identity slots, each once, in
     * ascending order; asking for any other resource is Internal.
     */
    method ListResourceInstances(iid: Id16, rid: Id16) returns (code: int, riids: seq<Id16>)
      requires Valid() && iid in Iids(instances)
      ensures rid != RID_IDENTITY ==> code == ERR_INTERNAL && riids == []
      ensures rid == RID_IDENTITY ==> code == 0
      ensures StrictlyAscending(riids)
      ensures forall j :: j in riids <==>
                rid == RID_IDENTITY && 0 <= j < IDENTITY_SLOTS && InstanceOf(instances, iid).hasIdentity[j]
    {
      var found := FindInstance(iid);
      var inst := instances[found.value];
      riids := [];
      if rid != RID_IDENTITY {
        return ERR_INTERNAL, [];
      }
      for i := 0 to IDENTITY_SLOTS
        invariant StrictlyAscending(riids)
        invariant forall j :: j in riids <==> 0 <= j < i && inst.hasIdentity[j]
        invariant forall k :: 0 <= k < |riids| ==> riids[k] < i
      {
        if inst.hasIdentity[i] {
          riids := riids + [i];
        }
      }
      return 0, riids;
    }

    /** transaction_begin: requires no outstanding backup and copies the live list. */
    method TransactionBegin()
      requires Valid() && backup == []
      modifies this
      ensures Valid()
      ensures State() == Begin(old(State()))
    {
      backup := instances;
    }

    /** transaction_commit: frees the backup. */
    method TransactionCommit()
      requires Valid()
      modifies this
      ensures Valid()
      ensures State() == Commit(old(State()))
    {
      backup := [];
    }

    /** transaction_rollback: frees the live list and puts the backup in its place. */
    method TransactionRollback()
      requires Valid()
      modifies this
      ensures Valid()
      ensures State() == Rollback(old(State()))
    {
      instances := backup;
      backup := [];
    }

    /**
     * portfolio_get_instances: appends every live id, in list order, to an
     * initially empty output list; the result is strictly ascending.
     */
    method GetInstances() returns (out: seq<Id16>)
      requires Valid()
      ensures out == Iids(instances)
      ensures StrictlyAscending(out)
    {
      out := [];
      for i := 0 to |instances|
        invariant out == Iids(instances[..i])
      {
        out := out + [instances[i].iid];
      }
      assert instances[..|instances|] == instances;
    }
  }
}
