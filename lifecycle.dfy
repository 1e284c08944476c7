/**
 * The lifecycle of the device as `sl_bt_on_event` in app.c drives it,
 * stated on values: the state the handler keeps in its globals, the stack
 * commands it issues (an append-only log), and one `Step` per event.
 *
 * The wireless stack and the clock are not modelled; what they give back
 * while an event is handled is an input (`Replies`). `app_assert_status`
 * stops the device at the first checked call whose status is not success:
 * the state then records `halted`, and no further event is handled.
 */
module Lifecycle {
  import opened Wrappers
  import opened Bytes
  import opened Encoder

  /** Handles of the GATT database (generated in gatt_db.h, which is not part of this model). */
  datatype Gatt = Gatt(deviceName: u16, address: u16)

  /** sl_bt_past_receiver_mode_synchronize */
  datatype PastMode = Synchronize
  /** sl_bt_sync_report_all */
  datatype SyncReporting = ReportAll
  /** sl_bt_legacy_advertiser_connectable */
  datatype AdvertiserMode = Connectable

  /** A command issued to the stack, with the arguments the handler passes. */
  datatype Command =
    | SetDefaultSyncReceiveParameters(pastMode: PastMode, skip: nat, timeout: nat, reporting: SyncReporting)
    | CreateSet
    | ReadAttributeValue(attribute: u16, offset: nat, maxLength: nat)
    | SetData(handle: u8, packet: nat, data: seq<u8>)
    | SetTiming(handle: u8, intervalMin: nat, intervalMax: nat, duration: nat, maxEvents: nat)
    | StartAdvertising(handle: u8, connectMode: AdvertiserMode)
    | CloseConnection(connection: u8)
    | SetResponseData(sync: u16, eventCounter: u16, requestSubevent: u8, responseSubevent: u8,
                      responseSlot: u8, data: seq<u8>)
    | SendUserWriteResponse(connection: u8, characteristic: u16, status: u8)

  /** The stack events, with the fields the handler reads. */
  datatype Event =
    | SystemBoot
    | ConnectionOpened(connection: u8)
    | ConnectionClosed
    | PawrSyncTransferReceived
    | PawrSyncSubeventReport(sync: u16, eventCounter: u16, subevent: u8)
    | SyncClosed
      /** `firstByte` is what the event holds at `value.data[0]`; the handler never looks at the length. */
    | UserWriteRequest(connection: u8, characteristic: u16, firstByte: u8)
    | Unhandled(id: u32)

  /** What the stack and the clock give back while one event is handled. */
  datatype Replies = Replies(
    /** Among the calls whose status the handler checks, the position of the first one that fails. */
    failing: Option<nat>,
    /** The handle `sl_bt_advertiser_create_set` hands back. */
    createdSet: u8,
    /** The device name the attribute read returns. */
    deviceName: seq<u8>,
    /** `sl_sleeptimer_get_tick_count()` at the subevent report. */
    tick: u32)

  /** The globals of app.c, the two buffers' contents, the command log and whether the device halted. */
  datatype State = State(advertisingSet: u8, conn: u8, address: u8,
                         main: seq<u8>, scan: seq<u8>, log: seq<Command>, halted: bool)

  /**
   * The static initialisers: both handles 0xff (no set, no connection),
   * `address` and the buffer cursors zero, nothing issued yet.
   */
  function Initial(): (s: State)
    ensures s.advertisingSet == 0xff && s.conn == 0xff && s.address == 0
    ensures s.main == [] && s.scan == [] && s.log == [] && !s.halted
  {
    State(0xff, 0xff, 0, [], [], [], false)
  }

  const SyncTimeout: nat := 1000
  /** 100 ms in units of 0.625 ms. */
  const AdvInterval: nat := 160

  /** The commands of a boot that nothing rejects, in the order the handler issues them. */
  function BootCommands(g: Gatt, created: u8, name: seq<u8>): (cs: seq<Command>)
    requires |name| <= NameRoom
    ensures |cs| == CheckedCalls(SystemBoot)
    ensures cs[0].SetDefaultSyncReceiveParameters? && cs[1] == CreateSet && cs[2].ReadAttributeValue?
    ensures cs[3].SetData? && cs[3].packet == 0 && cs[4].SetData? && cs[4].packet == 1
    ensures cs[5].SetTiming? && cs[6].StartAdvertising?
    ensures forall i :: 3 <= i < |cs| ==> cs[i].handle == created
  {
    [ SetDefaultSyncReceiveParameters(Synchronize, 0, SyncTimeout, ReportAll),
      CreateSet,
      ReadAttributeValue(g.deviceName, 0, NameRoom),
      SetData(created, 0, MainPayload(name)),
      SetData(created, 1, ScanPayload(g.address, g.deviceName)),
      SetTiming(created, AdvInterval, AdvInterval, 0, 0),
      StartAdvertising(created, Connectable) ]
  }

  /** How many calls each event makes whose status is checked. */
  function CheckedCalls(e: Event): nat
  {
    match e
    case SystemBoot => 7
    case PawrSyncTransferReceived => 1
    case SyncClosed => 1
    case UserWriteRequest(_, _, _) => 1
    case _ => 0
  }

  /** The stack never returns more name bytes than the read requests. */
  predicate Admissible(e: Event, r: Replies)
  {
    e.SystemBoot? ==> |r.deviceName| <= NameRoom
  }

  /** Checked calls `cmds`: issued up to and including the first that fails, which halts the device. */
  function Issue(s: State, cmds: seq<Command>, failing: Option<nat>): (t: State)
    ensures s.log <= t.log && t.log[|s.log|..] <= cmds
    ensures t.halted <==> s.halted || (failing.Some? && failing.value < |cmds|)
    ensures failing.Some? && failing.value < |cmds| ==> |t.log| == |s.log| + failing.value + 1
    ensures !(failing.Some? && failing.value < |cmds|) ==> t.log == s.log + cmds
    ensures t.(log := s.log, halted := s.halted) == s
  {
    if failing.Some? && failing.value < |cmds| then
      s.(log := s.log + cmds[..failing.value + 1], halted := true)
    else
      s.(log := s.log + cmds)
  }

  /**
   * The boot event. A failure at position k leaves the effects of the steps
   * before it: the set handle once the set is created (k > 1), the reset
   * buffers and the Flags structure once the name is being read (k == 2),
   * both finished buffers after that.
   */
  function Boot(g: Gatt, s: State, failing: Option<nat>, created: u8, name: seq<u8>): (t: State)
    requires |name| <= NameRoom
    ensures s.log <= t.log && t.log[|s.log|..] <= BootCommands(g, created, name)
    ensures t.halted <==> s.halted || (failing.Some? && failing.value < 7)
    ensures t.conn == s.conn && t.address == s.address
    ensures failing.Some? && failing.value < 2 ==> t.advertisingSet == s.advertisingSet && t.main == s.main && t.scan == s.scan
    ensures (failing.None? || failing.value >= 2) ==> t.advertisingSet == created
  {
    var k := if failing.Some? && failing.value < 7 then failing.value else 7;
    var t := Issue(s, BootCommands(g, created, name), failing);
    t.(advertisingSet := if k < 2 then s.advertisingSet else created,
       main := if k < 2 then s.main else if k == 2 then FlagsElement(BootFlags) else MainPayload(name),
       scan := if k < 2 then s.scan else if k == 2 then [] else ScanPayload(g.address, g.deviceName))
  }

  /** Once the name has been read, a boot leaves the created set and both finished buffers. */
  lemma BootPastNameRead(g: Gatt, s: State, failing: Option<nat>, created: u8, name: seq<u8>)
    requires |name| <= NameRoom && failing != Some(0) && failing != Some(1) && failing != Some(2)
    ensures Boot(g, s, failing, created, name) ==
            Issue(s, BootCommands(g, created, name), failing).(advertisingSet := created, main := MainPayload(name),
                                                               scan := ScanPayload(g.address, g.deviceName))
  {
  }

  /** A boot that nothing rejects issues all seven commands and leaves the created set and both buffers. */
  lemma BootSucceeds(g: Gatt, s: State, r: Replies)
    requires !s.halted && Admissible(SystemBoot, r) && r.failing.None?
    ensures Step(g, s, SystemBoot, r) ==
            s.(advertisingSet := r.createdSet, main := MainPayload(r.deviceName),
               scan := ScanPayload(g.address, g.deviceName), log := s.log + BootCommands(g, r.createdSet, r.deviceName))
  {
  }

  /**
   * Whatever position fails, every set-data command a boot issues hands the
   * stack the bytes its buffer holds afterwards: slot 0 the main buffer,
   * slot 1 the scan response.
   */
  lemma BootPublishesItsBuffers(g: Gatt, s: State, failing: Option<nat>, created: u8, name: seq<u8>)
    requires |name| <= NameRoom
    ensures var t := Boot(g, s, failing, created, name);
            forall i :: |s.log| <= i < |t.log| && t.log[i].SetData? ==>
              t.log[i].data == if t.log[i].packet == 0 then t.main else t.scan
  {
  }

  /**
   * One event. The log only grows, and the device halts exactly when one of
   * the event's checked calls fails, having issued that call and no later one.
   */
  function Step(g: Gatt, s: State, e: Event, r: Replies): (t: State)
    requires !s.halted && Admissible(e, r)
    ensures s.log <= t.log
    ensures t.halted <==> r.failing.Some? && r.failing.value < CheckedCalls(e)
    ensures t.halted ==> |t.log| == |s.log| + r.failing.value + 1
  {
    match e
    case SystemBoot => Boot(g, s, r.failing, r.createdSet, r.deviceName)
    case ConnectionOpened(c) => s.(conn := c)
    case ConnectionClosed => s
    case PawrSyncTransferReceived => Issue(s, [CloseConnection(s.conn)], r.failing)
    case PawrSyncSubeventReport(sync, counter, subevent) =>
      // the status of this call is not checked
      s.(log := s.log + [SetResponseData(sync, counter, subevent, subevent, s.address, Le32(r.tick))])
    case SyncClosed => Issue(s, [StartAdvertising(s.advertisingSet, Connectable)], r.failing)
    case UserWriteRequest(c, characteristic, b) =>
      Issue(s.(address := b), [SendUserWriteResponse(c, characteristic, 0)], r.failing)
    case Unhandled(_) => s
  }

  predicate AllAdmissible(es: seq<Event>, rs: seq<Replies>)
  {
    |es| == |rs| && forall i :: 0 <= i < |es| ==> Admissible(es[i], rs[i])
  }

  /** The external dispatcher: events in order, until the device halts. */
  ghost function Run(g: Gatt, s: State, es: seq<Event>, rs: seq<Replies>): State
    requires AllAdmissible(es, rs)
    decreases |es|
  {
    if es == [] || s.halted then s
    else Run(g, Step(g, s, es[0], rs[0]), es[1..], rs[1..])
  }

  /** The address a run leaves behind: the first byte of the last write request, if any. */
  function LastWritten(a: u8, es: seq<Event>): u8
    decreases |es|
  {
    if es == [] then a
    else LastWritten(if es[0].UserWriteRequest? then es[0].firstByte else a, es[1..])
  }

  predicate NoBoot(es: seq<Event>)
  {
    forall i :: 0 <= i < |es| ==> !es[i].SystemBoot?
  }

  predicate NoFailures(rs: seq<Replies>)
  {
    forall i :: 0 <= i < |rs| ==> rs[i].failing.None?
  }

  /** Running two stretches of events one after the other is running them together. */
  lemma {:induction false} RunConcat(g: Gatt, s: State, es1: seq<Event>, rs1: seq<Replies>,
                                     es2: seq<Event>, rs2: seq<Replies>)
    requires AllAdmissible(es1, rs1) && AllAdmissible(es2, rs2)
    ensures AllAdmissible(es1 + es2, rs1 + rs2)
    ensures Run(g, s, es1 + es2, rs1 + rs2) == Run(g, Run(g, s, es1, rs1), es2, rs2)
    decreases |es1|
  {
    assert AllAdmissible(es1 + es2, rs1 + rs2) by {
      forall i | 0 <= i < |es1| + |es2|
        ensures Admissible((es1 + es2)[i], (rs1 + rs2)[i])
      {
        if i >= |es1| {
          assert Admissible(es2[i - |es1|], rs2[i - |es1|]);
        }
      }
    }
    if s.halted {
    } else if es1 == [] {
      assert es1 + es2 == es2 && rs1 + rs2 == rs2;
    } else {
      assert (es1 + es2)[0] == es1[0] && (rs1 + rs2)[0] == rs1[0];
      assert (es1 + es2)[1..] == es1[1..] + es2;
      assert (rs1 + rs2)[1..] == rs1[1..] + rs2;
      RunConcat(g, Step(g, s, es1[0], rs1[0]), es1[1..], rs1[1..], es2, rs2);
    }
  }

  /** The command log is append-only over any run. */
  lemma {:induction false} RunExtendsLog(g: Gatt, s: State, es: seq<Event>, rs: seq<Replies>)
    requires AllAdmissible(es, rs)
    ensures s.log <= Run(g, s, es, rs).log
    decreases |es|
  {
    if es != [] && !s.halted {
      RunExtendsLog(g, Step(g, s, es[0], rs[0]), es[1..], rs[1..]);
    }
  }

  /**
   * After boot, no event changes the advertising set handle or either
   * buffer: re-advertising reuses the set and the bytes built at boot.
   */
  lemma {:induction false} RunKeepsSetAndBuffers(g: Gatt, s: State, es: seq<Event>, rs: seq<Replies>)
    requires AllAdmissible(es, rs) && NoBoot(es)
    ensures var t := Run(g, s, es, rs);
            t.advertisingSet == s.advertisingSet && t.main == s.main && t.scan == s.scan
    decreases |es|
  {
    if es != [] && !s.halted {
      RunKeepsSetAndBuffers(g, Step(g, s, es[0], rs[0]), es[1..], rs[1..]);
    }
  }

  /** When the stack accepts every call, the response slot is the last byte written to it. */
  lemma {:induction false} RunAddress(g: Gatt, s: State, es: seq<Event>, rs: seq<Replies>)
    requires AllAdmissible(es, rs) && NoFailures(rs) && !s.halted
    ensures var t := Run(g, s, es, rs);
            !t.halted && t.address == LastWritten(s.address, es)
    decreases |es|
  {
    if es != [] {
      assert rs[0].failing.None?;
      RunAddress(g, Step(g, s, es[0], rs[0]), es[1..], rs[1..]);
    }
  }

  /** The first command of a device that boots first configures sync reception. */
  lemma BootConfiguresSyncFirst(g: Gatt, es: seq<Event>, rs: seq<Replies>)
    requires AllAdmissible(es, rs) && es != [] && es[0] == SystemBoot
    ensures var log := Run(g, Initial(), es, rs).log;
            |log| > 0 && log[0] == SetDefaultSyncReceiveParameters(Synchronize, 0, SyncTimeout, ReportAll)
  {
    var s1 := Step(g, Initial(), es[0], rs[0]);
    assert s1.log[0] == SetDefaultSyncReceiveParameters(Synchronize, 0, SyncTimeout, ReportAll);
    RunExtendsLog(g, s1, es[1..], rs[1..]);
  }

  /**
   * A boot that succeeds, any events that are not boots, then the loss of
   * sync: the device advertises again, connectably, on the set created at
   * boot, with the buffers built at boot.
   */
  lemma ReadvertiseAfterSyncLoss(g: Gatt, mid: seq<Event>, rs: seq<Replies>, r: Replies)
    requires |rs| == |mid| + 1 && AllAdmissible([SystemBoot] + mid, rs) && NoBoot(mid)
    requires NoFailures(rs) && r.failing.None?
    ensures var t := Run(g, Initial(), [SystemBoot] + mid + [SyncClosed], rs + [r]);
            var name := rs[0].deviceName;
            |name| <= NameRoom && !t.halted && |t.log| > 0 &&
            t.log[|t.log| - 1] == StartAdvertising(rs[0].createdSet, Connectable) &&
            t.main == MainPayload(name) && t.scan == ScanPayload(g.address, g.deviceName)
  {
    var es := [SystemBoot] + mid;
    assert Admissible(es[0], rs[0]);
    var s1 := Step(g, Initial(), SystemBoot, rs[0]);
    BootSucceeds(g, Initial(), rs[0]);
    assert AllAdmissible(mid, rs[1..]) by {
      forall i | 0 <= i < |mid| ensures Admissible(mid[i], rs[1..][i]) {
        assert Admissible(es[i + 1], rs[i + 1]);
      }
    }
    assert es[1..] == mid;
    assert Run(g, Initial(), es, rs) == Run(g, s1, mid, rs[1..]);
    RunKeepsSetAndBuffers(g, s1, mid, rs[1..]);
    RunAddress(g, s1, mid, rs[1..]);
    RunConcat(g, Initial(), es, rs, [SyncClosed], [r]);
  }

  /**
   * A subevent report answered after any run that the stack accepted: one
   * response, for the reported subevent in both roles, in the slot last
   * written (0 if none), carrying the four bytes of the tick.
   */
  lemma ResponseUsesLastWrittenSlot(g: Gatt, es: seq<Event>, rs: seq<Replies>,
                                    sync: u16, counter: u16, subevent: u8, r: Replies)
    requires AllAdmissible(es, rs) && NoFailures(rs)
    ensures var s := Run(g, Initial(), es, rs);
            var t := Run(g, Initial(), es + [PawrSyncSubeventReport(sync, counter, subevent)], rs + [r]);
            t.log == s.log + [SetResponseData(sync, counter, subevent, subevent, LastWritten(0, es), Le32(r.tick))]
  {
    RunAddress(g, Initial(), es, rs);
    RunConcat(g, Initial(), es, rs, [PawrSyncSubeventReport(sync, counter, subevent)], [r]);
  }

  /**
   * Rebuilding the buffers at boot gives the same bytes, whatever they held
   * before. On values this follows from `Boot`'s definition; that the real
   * 31-byte arrays, which may keep old bytes past the cursor, hand the same
   * bytes to the stack comes from `App.Device.BuildPayloads` stating the
   * buffer contents and `App.Device.OnEvent` implementing `Step`.
   */
  lemma BootRebuildsSameBytes(g: Gatt, s1: State, s2: State, r: Replies)
    requires !s1.halted && !s2.halted && Admissible(SystemBoot, r) && r.failing.None?
    ensures var t1, t2 := Step(g, s1, SystemBoot, r), Step(g, s2, SystemBoot, r);
            t1.main == t2.main == MainPayload(r.deviceName) && |t1.main| == 5 + |r.deviceName| <= Capacity &&
            t1.scan == t2.scan == ScanPayload(g.address, g.deviceName) && |t1.scan| == 22
  {
  }
}
