# PAwR responder core, modelled in Dafny

This project models the application core of a Bluetooth LE beacon/responder (`app.c`).
The core has two parts:

- **The legacy advertising-payload encoder.** `struct legacyAdv_s` is a 31-byte buffer with a `length` cursor. `adv_init` resets the cursor. `adv_add_flags`, `adv_add_name` and `adv_add_manufacturer_data` each append one AD structure.
- **The stack event handler** `sl_bt_on_event`. It updates the globals `advertising_set_handle`, `conn` and `address`, builds both buffers at boot, and issues stack commands in a fixed order.

## Files

- `wrappers.dfy`: `Option`.
- `bytes.dfy`: `uint8_t`/`uint16_t`/`uint32_t` as newtypes, truncation to eight bits, and the little-endian layout of 16- and 32-bit values.
- `ad_format.dfy`: the AD-structure format of the Bluetooth Core Specification, Volume 3, Part C, section 11. It holds an encoder and a parser, plus the lemma that parsing undoes encoding. The application contains no parser. This module is the independent reference that the application's bytes are compared against.
- `encoder.dfy`: the bytes each `adv_add_*` writes, as functions. It also holds the boot-time main and scan-response payloads, and the class `LegacyAdv`. The class keeps the `payload` array and the cursor, and its methods write in place as the C code does.
- `lifecycle.dfy`: the handler on values. It defines stack commands, events, the state (globals, buffer contents, an append-only command log, and a halted flag) and one `Step` per event. `Run` is the dispatcher feeding events in order. The module also holds lemmas over runs.
- `app.dfy`: the class `Device`. It has the globals as fields, the two `LegacyAdv` buffers, and one method per event. Each method's contract lists the commands it appends and the fields it changes. `OnEvent` is proved to implement `Lifecycle.Step`.

## What the code writes, against the standard

The model keeps the bytes the code writes:

- **Flags.** `adv_add_flags` writes `2, 1, flags`. This is exactly the standard's structure.
- **Name.** `adv_add_name` writes Length octet `2 + L` for an L-byte name. The structure occupies `2 + L` bytes. The standard's Length octet counts the bytes after itself, which gives `1 + L`.
- **Manufacturer data.** `adv_add_manufacturer_data` writes Length octet `len + 5` but writes `len + 8` bytes. The standard would give `len + 7`.

As a consequence, neither boot-time payload parses as AD structures (`MainPayloadOverruns`, `ScanPayloadOverruns`).

Two further facts about the code that the model keeps:

- `address` is a static without an initialiser, so it is zero before the first write request, and the model starts it at 0.
- The code keeps no lifecycle state of its own: every event is handled the same way whatever happened before it, and the model does the same.

Failures of stack calls are modelled explicitly. Each event is handled with `Replies`:

- `failing` is the position, among the calls whose status the handler checks, of the first call the stack rejects.
- The other fields are the handle the stack creates, the device-name bytes the attribute read returns, and the tick counter.

`app_assert_status` halts at the first failure. So the model logs the failing call, sets `halted`, and issues nothing after it. `Run` delivers no event to a halted device.

The checked calls at boot, in order, are:

0. sync-receive parameters
1. create set
2. device-name read
3. set data, main buffer
4. set data, scan-response buffer
5. timing
6. start

The status of the subevent response is not checked, so that call never halts the device.

## Model

| member | source | states |
|---|---|---|
| `Bytes.Trunc8` | app.c:67 | storing a value below 256 into a `uint8_t` keeps it unchanged |
| `Bytes.Le16` | app.c:75-80 | `memcpy` of a `uint16_t` gives two bytes whose little-endian value is the input |
| `Bytes.Le32` | app.c:192-200 | the response payload is four bytes whose little-endian value is the sampled tick |
| `Encoder.FlagsElement` | app.c:55-59 | the three bytes written are exactly the Core Specification's Flags structure |
| `Encoder.NameElement` | app.c:61-70 | the name structure is `2 + L` bytes; its Length octet equals its whole size and is one more than the standard's; every later byte matches the standard's |
| `Encoder.ManufacturerElement` | app.c:72-83 | the structure is `len + 8` bytes; its Length octet is the size minus 3, two less than the standard's; every later byte matches the standard's encoding of the company id, the two handles (little-endian) and the data |
| `Encoder.MainPayload` | app.c:141-144 | the main buffer is `2, 1, 6, 2 + L, 0x09`, then the name, so `5 + L <= 31` bytes for any name the read can return |
| `Encoder.ScanPayload` | app.c:145-149 | the scan response is `19, 0xff, 0xff, 0x02`, the address and name handles little-endian, then the 14 marker bytes: 22 bytes |
| `Encoder.MainPayloadOverruns` | app.c:67 | the main payload does not parse as AD structures: the name's Length octet claims a byte past the end |
| `Encoder.ScanPayloadOverruns` | app.c:73 | the scan response does not parse: its structure ends two bytes early and the trailing "mo" claims 0x6d bytes |
| `Encoder.LegacyAdv.constructor` | app.c:46-49 | a static buffer: cursor 0, all 31 payload bytes 0 |
| `Encoder.LegacyAdv.Contents` | app.c:152-155 | the bytes handed to the stack are the payload up to the cursor |
| `Encoder.LegacyAdv.Put` | app.c:56-58 | `payload[length++] = b`: the byte at the old cursor becomes `b`, every other byte is unchanged, and the cursor advances by one |
| `Encoder.LegacyAdv.CopyAt` | app.c:75-81 | a `memcpy` into `payload` at a position: those bytes are replaced by the source bytes, every other byte and the cursor are unchanged |
| `Encoder.LegacyAdv.Append` | app.c:75-82 | a `memcpy` at the cursor followed by advancing it by the copied length: the bytes land at the old cursor and nothing else changes |
| `Encoder.LegacyAdv.Init` | app.c:51-53 | the cursor becomes 0 and the payload bytes are untouched |
| `Encoder.LegacyAdv.AddFlags` | app.c:55-59 | writes `2, 1, flags` at the old cursor, advances it by exactly 3, and leaves every other byte unchanged |
| `Encoder.LegacyAdv.AddName` | app.c:61-70 | requests `31 - length - 2` bytes; on success it writes Length `2 + L`, type 0x09 and the name at the old cursor (the name from old cursor + 2), advances by exactly `2 + L`, stays within 31 and leaves other bytes unchanged; on a failed read nothing changes |
| `Encoder.LegacyAdv.AddManufacturerData` | app.c:72-83 | writes `len + 5`, 0xff, the id and both handles little-endian, then the data at the old cursor, advances by exactly `len + 8`, and leaves other bytes unchanged |
| `Lifecycle.Initial` | app.c:41-49 | the static initial state: no set and no connection (both handles 0xff), slot 0, empty buffers, nothing issued, not halted |
| `Lifecycle.BootCommands` | app.c:126-166 | the seven checked boot calls in order: sync-receive parameters, create set, name read, set data for slot 0 then slot 1, timing, start; every call after the name read is on the created set |
| `Lifecycle.Issue` | app.c:134 | `app_assert_status` after each checked call: the calls are logged up to and including the first that fails, or all of them when none fails; the device halts exactly when one fails, and nothing but the log and the halted flag changes |
| `Lifecycle.Boot` | app.c:126-167 | the boot event: it only appends a prefix of the boot commands; it halts exactly when one of its seven calls fails; `conn` and `address` are untouched; a failure at the first two calls leaves the set handle and both buffers as they were, and otherwise the created handle is stored |
| `Lifecycle.BootSucceeds` | app.c:126-167 | a boot that nothing rejects issues all seven boot commands, stores the created handle, leaves the main and scan payloads, and changes nothing else |
| `Lifecycle.BootPublishesItsBuffers` | app.c:152-155 | wherever a boot stops, every set-data command it issued carries the bytes its buffer then holds: slot 0 the main buffer, slot 1 the scan response |
| `Lifecycle.Step` | app.c:118-231 | one event: the log only grows; the device halts exactly when one of the event's checked calls fails, after issuing that call and no later one |
| `Lifecycle.RunExtendsLog` | app.c:118-231 | over any sequence of events the command log is append-only |
| `Lifecycle.RunKeepsSetAndBuffers` | app.c:171-229 | no event other than boot changes the advertising set handle or either buffer |
| `Lifecycle.RunAddress` | app.c:209-215 | when the stack accepts every call, the response slot after a run is the first byte of the last write request (the old slot if none) |
| `Lifecycle.BootConfiguresSyncFirst` | app.c:124-134 | on a device whose first event is boot, the first command is the sync-receive configuration (synchronize, skip 0, timeout 1000, report all) |
| `Lifecycle.ReadvertiseAfterSyncLoss` | app.c:204-207 | after a successful boot and any non-boot events, sync loss issues a connectable start on the set created at boot, with the buffers built at boot |
| `Lifecycle.ResponseUsesLastWrittenSlot` | app.c:191-201 | a subevent report appends exactly one response: the reported sync and counter, the reported subevent as both request and response subevent, the last written slot (0 if none), and the four tick bytes |
| `Lifecycle.BootRebuildsSameBytes` | app.c:140-149 | a successful boot builds the same buffers whatever they held before: main `5 + L <= 31` bytes, scan response 22 bytes |
| `App.Device.constructor` | app.c:41-49 | the static initial state: both handles 0xff, slot 0, empty buffers, nothing issued |
| `App.Device.Issue` | app.c:134 | a checked stack call is logged, and the device halts exactly when it fails |
| `App.Device.StartAdvertising` | app.c:85-91 | issues one connectable start on the stored set handle |
| `App.Device.BuildPayloads` | app.c:140-149 | resets both buffers, then builds them. If the name read fails, the main buffer holds only Flags and the scan response is empty |
| `App.Device.OnSystemBoot` | app.c:126-167 | implements the boot step. When nothing fails, it issues the seven boot commands in order, stores the created handle, and leaves the two finished buffers; `conn` and `address` are untouched |
| `App.Device.BootAfterCreate` | app.c:140-167 | the boot step from the buffers on, once the set exists |
| `App.Device.Publish` | app.c:151-167 | the boot step from handing the buffers to the stack on: set data for slots 0 and 1, timing 160/160/0/0, start |
| `App.Device.OnConnectionOpened` | app.c:171-175 | stores the event's connection handle and issues nothing |
| `App.Device.OnConnectionClosed` | app.c:180-182 | nothing changes: `conn` keeps the closed handle |
| `App.Device.OnPawrSyncTransferReceived` | app.c:184-188 | issues exactly one close, on the stored `conn` |
| `App.Device.OnPawrSyncSubeventReport` | app.c:191-202 | issues exactly one response with the reported sync, counter and subevent (twice), slot `address` and the four tick bytes; it never halts |
| `App.Device.OnSyncClosed` | app.c:204-207 | issues exactly one connectable start on the unchanged set handle and touches neither buffer |
| `App.Device.OnUserWriteRequest` | app.c:209-215 | `address` becomes the written first byte, and one acknowledgement with status 0 is issued |
| `App.Device.OnEvent` | app.c:118-231 | the class implements `Lifecycle.Step` for every event |

## Left out

- Logging (`app_log` and the hex dump of unhandled events) is diagnostic output only. An unhandled event is modelled as changing nothing.
- `app_init` and `app_process_action` are empty hooks.
- The internals of every `sl_bt_*` call and of `sl_sleeptimer_get_tick_count` are foreign stack and clock code. They appear only as log entries and as `Replies` inputs.
- `gatt_db.h` is not part of this model. The GATT handles of the device name and the address are the `Gatt` parameters.
- The `uint8_t` width of the cursor is not modelled. Within the 31-byte capacity it never wraps.
- The appends require the caller to stay within capacity. The C code does not check this, and a larger cursor writes past the array or makes `max_length` wrap.
- The model writes nothing on a failed name read. The stack may already have written bytes behind the cursor, but the device halts at once.
- A failed `sl_bt_advertiser_create_set` is modelled as leaving the set handle as it was. Whether the stack writes the handle on failure is stack behaviour.
- Write-request events carry only the byte at `value.data[0]`. The handler never reads the value's length, so an empty write stores whatever that byte holds.
- Other event fields the handler never reads (for example the close reason) are not modelled.
- Native-endian layout is fixed as little-endian, which is the target's byte order.
- Radio timing and synchronisation behaviour are out of reach.
- The dispatcher loop is modelled only as the ghost function `Run`, used to state properties over sequences of events.
