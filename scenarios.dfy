/**
 * Worked runs of the three components, driven through the modelled
 * handlers as the data-model layer and the connection layer would call
 * them, with the outcome of each checked statically.
 */
module Scenarios {
  import opened Dm
  import TimeObject
  import Portfolio
  import SecurityGeneric

  /**
   * A portfolio instance is created and written, then a transaction
   * overwrites the slot and creates a second instance; rollback brings
   * back the single instance and its first value.
   */
  method RollbackUndoesWriteAndCreate()
  {
    var p := new Portfolio.Portfolio();
    p.InstanceCreate(1);
    assert p.instances == [Portfolio.NewInstance(1)];
    assert Portfolio.Iids(p.instances) == [1];
    var code := p.ResourceWrite(1, Portfolio.RID_IDENTITY, 0, StringInput(0, "X"));
    assert code == 0;
    var x := Portfolio.WithIdentity(Portfolio.NewInstance(1), 0, "X");
    assert p.instances == [x];
    assert Portfolio.Iids(p.instances) == [1];
    p.TransactionBegin();
    code := p.ResourceWrite(1, Portfolio.RID_IDENTITY, 0, StringInput(0, "Y"));
    assert Portfolio.Iids(p.instances) == [1];
    p.InstanceCreate(2);
    p.TransactionRollback();
    assert p.instances == [x] && p.backup == [];
    assert Portfolio.Iids(p.instances) == [1];
    var ids := p.GetInstances();
    assert ids == [1];
    var r := p.ResourceRead(1, Portfolio.RID_IDENTITY, 0);
    assert r == Read(StringValue("X"));
  }

  /** A write to Identity slot 5, outside the four slots, is Not Found and changes nothing. */
  method SlotOutOfRangeNotFound()
  {
    var p := new Portfolio.Portfolio();
    p.InstanceCreate(7);
    assert Portfolio.Iids(p.instances) == [7];
    var before := p.instances;
    var code := p.ResourceWrite(7, Portfolio.RID_IDENTITY, 5, StringInput(0, "Z"));
    assert code == ERR_NOT_FOUND;
    assert p.instances == before;
  }

  /** The Time object starts with instance 0 named "Clock 0"; a reset empties the name. */
  method TimeObjectResetsApplicationType()
  {
    var t := new TimeObject.Time();
    assert TimeObject.Iids(t.instances) == [0];
    var r := t.ResourceRead(0, TimeObject.RID_APPLICATION_TYPE, ID_INVALID, None);
    assert r == Read(StringValue("Clock 0"));
    t.InstanceReset(0);
    assert TimeObject.Iids(t.instances) == [0];
    r := t.ResourceRead(0, TimeObject.RID_APPLICATION_TYPE, ID_INVALID, None);
    assert r == Read(StringValue(""));
  }

  /** A Time object write to Current Time is refused. */
  method TimeObjectCurrentTimeReadOnly()
  {
    var t := new TimeObject.Time();
    assert TimeObject.Iids(t.instances) == [0];
    var before := t.instances;
    var code := t.ResourceWrite(0, TimeObject.RID_CURRENT_TIME, ID_INVALID, StringInput(0, "1"));
    assert code == ERR_METHOD_NOT_ALLOWED && t.instances == before;
  }

  /**
   * PSK mode with no server key resource: the optional read fails, the
   * keys are still extracted and the descriptor is the PSK pair alone.
   */
  method PskWithoutServerKey()
  {
    var info := SecurityGeneric.ConnectionInfo(1, 1, Some(SecurityGeneric.TransportInfo("coaps", SecurityGeneric.Encrypted)), false);
    var inst := SecurityGeneric.SecurityInstance(Some(0), map[3 := [1, 2], 5 := [9]]);
    var caps := SecurityGeneric.KeyCapacities(16, 16, 16);
    var config, outInfo, keyReads := SecurityGeneric.GetConfig(info, inst, caps, [], k => true);
    assert SecurityGeneric.KeysReadable(SecurityGeneric.Psk, inst, caps);
    SecurityGeneric.ResolveConfigSucceeds(info, inst, caps, [], k => true);
    SecurityGeneric.ResolveConfigDescriptor(info, inst, caps, [], k => true);
    assert config.Some?;
    assert config.value.securityInfo == SecurityGeneric.PskInfo([1, 2], [9]);
    assert config.value.daneTlsaRecord == None;
    assert outInfo.isEncrypted;
  }

  /** Certificate mode over a plain coap scheme: refused before any key resource is read. */
  method CertificateOverPlainTransport()
  {
    var info := SecurityGeneric.ConnectionInfo(1, 1, Some(SecurityGeneric.TransportInfo("coap", SecurityGeneric.Unencrypted)), false);
    var inst := SecurityGeneric.SecurityInstance(Some(2), map[3 := [1], 4 := [2], 5 := [3]]);
    var caps := SecurityGeneric.KeyCapacities(16, 16, 16);
    var config, outInfo, keyReads := SecurityGeneric.GetConfig(info, inst, caps, [], k => true);
    assert config.None? && keyReads == [] && outInfo == info;
  }

  /** The raw-public-key mode code is refused before the transport or any key is looked at. */
  method RawPublicKeyRefused()
  {
    var info := SecurityGeneric.ConnectionInfo(1, 1, None, false);
    var inst := SecurityGeneric.SecurityInstance(Some(1), map[3 := [1], 4 := [2], 5 := [3]]);
    var caps := SecurityGeneric.KeyCapacities(16, 16, 16);
    var config, outInfo, keyReads := SecurityGeneric.GetConfig(info, inst, caps, [], k => true);
    assert config.None? && keyReads == [];
  }
}
