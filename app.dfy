/**
 * The event handler of app.c as it runs: the globals `advertising_set_handle`,
 * `conn` and `address`, the two static buffers `legacyMain` and `legacyScan`,
 * and the stack commands issued so far. Each event is one method whose
 * contract says which commands it appends and which fields change, and ties
 * the new state to `Lifecycle.Step`.
 */
module App {
  import opened Wrappers
  import opened Bytes
  import opened Encoder
  import opened Lifecycle

  class Device {
    const gatt: Gatt
    const legacyMain: LegacyAdv
    const legacyScan: LegacyAdv
    var advertisingSet: u8
    var conn: u8
    var address: u8  // the response slot
    var log: seq<Command>
    var halted: bool

    /**
     * Both buffers are well formed and distinct. The methods whose frames
     * leave the buffers and their arrays alone keep this without saying so.
     */
    ghost predicate Valid()
      reads this, legacyMain, legacyScan
    {
      legacyMain.Valid() && legacyScan.Valid() &&
      legacyMain != legacyScan && legacyMain.payload != legacyScan.payload
    }

    /** The device as a `Lifecycle.State` value. */
    ghost function Abstract(): Lifecycle.State
      reads this, legacyMain, legacyMain.payload, legacyScan, legacyScan.payload
      requires Valid()
    {
      Lifecycle.State(advertisingSet, conn, address,
                      legacyMain.Contents(), legacyScan.Contents(), log, halted)
    }

    /** The program's static state before the stack delivers any event. */
    constructor (gatt: Gatt)
      ensures Valid() && fresh(legacyMain) && fresh(legacyScan)
      ensures fresh(legacyMain.payload) && fresh(legacyScan.payload)
      ensures this.gatt == gatt && Abstract() == Initial()
    {
      this.gatt := gatt;
      legacyMain := new LegacyAdv();
      legacyScan := new LegacyAdv();
      advertisingSet, conn, address := 0xff, 0xff, 0;
      log, halted := [], false;
    }

    /** A stack call whose status `app_assert_status` checks: a failure halts the device. */
    method Issue(cmd: Command, accepted: bool)
      modifies this`log, this`halted
      ensures log == old(log) + [cmd] && halted == !accepted
    {
      log := log + [cmd];
      halted := !accepted;
    }

    /** start_advertising: connectable legacy advertising on the stored set. */
    method StartAdvertising(accepted: bool)
      modifies this`log, this`halted
      ensures log == old(log) + [Command.StartAdvertising(advertisingSet, Connectable)]
      ensures halted == !accepted
    {
      Issue(Command.StartAdvertising(advertisingSet, Connectable), accepted);
    }

    /**
     * The part of the boot event that builds the buffers: reset both, Flags
     * and the device name into the main one (the name read is a checked
     * call), then the manufacturer data into the scan response.
     */
    method BuildPayloads(nameRead: Option<seq<u8>>)
      requires Valid() && !halted
      requires nameRead.Some? ==> |nameRead.value| <= NameRoom
      modifies this`log, this`halted, legacyMain, legacyMain.payload, legacyScan, legacyScan.payload
      ensures Valid()
      ensures log == old(log) + [ReadAttributeValue(gatt.deviceName, 0, NameRoom)]
      ensures halted == nameRead.None?
      ensures legacyMain.Contents() == if halted then FlagsElement(BootFlags) else MainPayload(nameRead.value)
      ensures legacyScan.Contents() == if halted then [] else ScanPayload(gatt.address, gatt.deviceName)
    {
      legacyMain.Init();
      legacyScan.Init();
      legacyMain.AddFlags(BootFlags);
      var maxLength, ok := legacyMain.AddName(nameRead);
      Issue(ReadAttributeValue(gatt.deviceName, 0, maxLength), ok);
      if halted { return; }
      legacyScan.AddManufacturerData(CompanyId, gatt.address, gatt.deviceName, DemoMarker);
    }

    /**
     * sl_bt_evt_system_boot_id: configure sync reception, create the set,
     * build both buffers from scratch, hand them to the stack, set the
     * timing and start advertising.
     */
    method OnSystemBoot(failing: Option<nat>, created: u8, deviceName: seq<u8>)
      requires Valid() && !halted && |deviceName| <= NameRoom
      modifies this, legacyMain, legacyMain.payload, legacyScan, legacyScan.payload
      ensures Valid()
      ensures Abstract() == Boot(gatt, old(Abstract()), failing, created, deviceName)
      ensures conn == old(conn) && address == old(address)
      ensures failing.None? ==>
                !halted && advertisingSet == created &&
                log == old(log) + BootCommands(gatt, created, deviceName) &&
                legacyMain.Contents() == MainPayload(deviceName) &&
                legacyScan.Contents() == ScanPayload(gatt.address, gatt.deviceName)
    {
      ghost var s0 := Abstract();
      ghost var cmds := BootCommands(gatt, created, deviceName);
      Issue(SetDefaultSyncReceiveParameters(Synchronize, 0, SyncTimeout, ReportAll), failing != Some(0));
      if halted {
        assert log == s0.log + cmds[..1];
        return;
      }
      Issue(CreateSet, failing != Some(1));
      if halted {
        assert log == s0.log + cmds[..2];
        return;
      }
      advertisingSet := created;
      assert log == s0.log + cmds[..2];
      BootAfterCreate(failing, deviceName, s0);
    }

    /** The boot event from the buffers on, once the set exists. */
    method BootAfterCreate(failing: Option<nat>, deviceName: seq<u8>, ghost s0: Lifecycle.State)
      requires Valid() && !halted && |deviceName| <= NameRoom
      requires failing != Some(0) && failing != Some(1)
      requires Abstract() == s0.(advertisingSet := advertisingSet,
                              log := s0.log + BootCommands(gatt, advertisingSet, deviceName)[..2])
      modifies this`log, this`halted, legacyMain, legacyMain.payload, legacyScan, legacyScan.payload
      ensures Valid()
      ensures Abstract() == Boot(gatt, s0, failing, advertisingSet, deviceName)
    {
      ghost var cmds := BootCommands(gatt, advertisingSet, deviceName);
      BuildPayloads(if failing == Some(2) then None else Some(deviceName));
      assert log == s0.log + cmds[..3];
      if halted { return; }
      Publish(failing, deviceName, s0);
    }

    /** The boot event from handing the buffers to the stack on. */
    method Publish(failing: Option<nat>, deviceName: seq<u8>, ghost s0: Lifecycle.State)
      requires Valid() && !halted && |deviceName| <= NameRoom
      requires failing != Some(0) && failing != Some(1) && failing != Some(2)
      requires Abstract() == s0.(advertisingSet := advertisingSet,
                              main := MainPayload(deviceName),
                              scan := ScanPayload(gatt.address, gatt.deviceName),
                              log := s0.log + BootCommands(gatt, advertisingSet, deviceName)[..3])
      modifies this`log, this`halted
      ensures Abstract() == Boot(gatt, s0, failing, advertisingSet, deviceName)
    {
      ghost var cmds := BootCommands(gatt, advertisingSet, deviceName);
      BootPastNameRead(gatt, s0, failing, advertisingSet, deviceName);
      Issue(SetData(advertisingSet, 0, legacyMain.Contents()), failing != Some(3));
      assert log == s0.log + cmds[..4];
      if halted { return; }
      Issue(SetData(advertisingSet, 1, legacyScan.Contents()), failing != Some(4));
      assert log == s0.log + cmds[..5];
      if halted { return; }
      Issue(SetTiming(advertisingSet, AdvInterval, AdvInterval, 0, 0), failing != Some(5));
      assert log == s0.log + cmds[..6];
      if halted { return; }
      StartAdvertising(failing != Some(6));
      assert log == s0.log + cmds[..7] == s0.log + cmds;
    }

    /** sl_bt_evt_connection_opened_id: remember the connection; no command. */
    method OnConnectionOpened(connection: u8)
      modifies this`conn
      ensures conn == connection
    {
      conn := connection;
    }

    /** sl_bt_evt_connection_closed_id: nothing changes (`conn` keeps the closed handle). */
    method OnConnectionClosed()
      requires Valid()
      ensures Abstract() == old(Abstract())
    {
    }

    /** sl_bt_evt_pawr_sync_transfer_received_id: close the stored connection. */
    method OnPawrSyncTransferReceived(accepted: bool)
      modifies this`log, this`halted
      ensures log == old(log) + [CloseConnection(conn)] && halted == !accepted
    {
      Issue(CloseConnection(conn), accepted);
    }

    /**
     * sl_bt_evt_pawr_sync_subevent_report_id: answer in the stored slot with
     * the four bytes of the tick counter; the status is not checked.
     */
    method OnPawrSyncSubeventReport(sync: u16, eventCounter: u16, subevent: u8, tick: u32)
      modifies this`log
      ensures log == old(log) + [SetResponseData(sync, eventCounter, subevent, subevent, address, Le32(tick))]
    {
      var uptime := tick;
      log := log + [SetResponseData(sync, eventCounter, subevent, subevent, address, Le32(uptime))];
    }

    /** sl_bt_evt_sync_closed_id: advertise again on the existing set and buffers. */
    method OnSyncClosed(accepted: bool)
      modifies this`log, this`halted
      ensures log == old(log) + [Command.StartAdvertising(advertisingSet, Connectable)]
      ensures halted == !accepted
    {
      StartAdvertising(accepted);
    }

    /** sl_bt_evt_gatt_server_user_write_request_id: store the slot and acknowledge with status 0. */
    method OnUserWriteRequest(connection: u8, characteristic: u16, firstByte: u8, accepted: bool)
      modifies this`address, this`log, this`halted
      ensures address == firstByte
      ensures log == old(log) + [SendUserWriteResponse(connection, characteristic, 0)]
      ensures halted == !accepted
    {
      address := firstByte;
      Issue(SendUserWriteResponse(connection, characteristic, 0), accepted);
    }

    /** sl_bt_on_event: the switch over the event's identifier. */
    method OnEvent(e: Event, r: Replies)
      requires Valid() && !halted && Admissible(e, r)
      modifies this, legacyMain, legacyMain.payload, legacyScan, legacyScan.payload
      ensures Valid()
      ensures Abstract() == Step(gatt, old(Abstract()), e, r)
    {
      var accepted := r.failing != Some(0);
      match e
      case SystemBoot =>
        OnSystemBoot(r.failing, r.createdSet, r.deviceName);
      case ConnectionOpened(c) =>
        OnConnectionOpened(c);
      case ConnectionClosed =>
        OnConnectionClosed();
      case PawrSyncTransferReceived =>
        OnPawrSyncTransferReceived(accepted);
      case PawrSyncSubeventReport(sync, counter, subevent) =>
        OnPawrSyncSubeventReport(sync, counter, subevent, r.tick);
      case SyncClosed =>
        OnSyncClosed(accepted);
      case UserWriteRequest(c, characteristic, b) =>
        OnUserWriteRequest(c, characteristic, b, accepted);
      case Unhandled(_) =>
    }
  }
}
