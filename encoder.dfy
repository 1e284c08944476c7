/**
 * The legacy advertising-payload encoder of app.c: a 31-byte buffer with a
 * cursor (`struct legacyAdv_s`), reset by `adv_init` and filled by three
 * append operations, each writing one AD structure at the cursor.
 *
 * The bytes are those the code writes. The Flags structure matches the
 * Bluetooth Core Specification's layout (see module AdFormat); the name and
 * manufacturer structures carry Length octets one and two larger than the
 * standard's, which the lemmas at the end of this module make precise.
 */
module Encoder {
  import opened Wrappers
  import opened Bytes
  import AdFormat

  /** sizeof(payload): the capacity of a legacy advertising PDU's data. */
  const Capacity: nat := 31

  /** AD types, Core Specification Supplement, Part A, sections 1.3, 1.2 and 1.4. */
  const FlagsType: u8 := 0x01
  const CompleteNameType: u8 := 0x09
  const ManufacturerType: u8 := 0xff

  /** The flags the boot sequence advertises: LE General Discoverable, BR/EDR not supported. */
  const BootFlags: u8 := 6
  /** Silicon Labs' company identifier. */
  const CompanyId: u16 := 0x2ff
  /** The 14-byte marker "WWSJ PAwR Demo" that identifies devices of this demo. */
  const DemoMarker: seq<u8> := Ascii("WWSJ PAwR Demo")

  /** The room `adv_add_name` leaves for the name after the boot Flags structure. */
  const NameRoom: nat := Capacity - 3 - 2

  function Ascii(s: string): (b: seq<u8>)
    requires forall i :: 0 <= i < |s| ==> s[i] as int < 0x100
    ensures |b| == |s| && forall i :: 0 <= i < |s| ==> b[i] as int == s[i] as int
  {
    seq(|s|, i requires 0 <= i < |s| => s[i] as int as u8)
  }

  /** `s` with `bytes` written over it from offset `at` on. */
  function Splice(s: seq<u8>, at: nat, bytes: seq<u8>): (r: seq<u8>)
    requires at + |bytes| <= |s|
    ensures |r| == |s|
  {
    s[..at] + bytes + s[at + |bytes|..]
  }

  /** Each byte of a spliced sequence comes from the write or from the original. */
  lemma SpliceAt(s: seq<u8>, at: nat, bytes: seq<u8>)
    requires at + |bytes| <= |s|
    ensures forall i :: 0 <= i < |s| ==>
              Splice(s, at, bytes)[i] == if at <= i < at + |bytes| then bytes[i - at] else s[i]
  {
  }

  /** Two writes at adjacent offsets are one write of the concatenation. */
  lemma SpliceAdjacent(s: seq<u8>, at: nat, x: seq<u8>, y: seq<u8>)
    requires at + |x| + |y| <= |s|
    ensures Splice(Splice(s, at, x), at + |x|, y) == Splice(s, at, x + y)
  {
    var l, r := Splice(Splice(s, at, x), at + |x|, y), Splice(s, at, x + y);
    SpliceAt(s, at, x);
    SpliceAt(Splice(s, at, x), at + |x|, y);
    SpliceAt(s, at, x + y);
    assert forall i :: 0 <= i < |s| ==> l[i] == r[i];
  }

  /** Writing `y` behind a gap and then `x` into the gap is one write of `x + y`. */
  lemma SpliceBehind(s: seq<u8>, at: nat, x: seq<u8>, y: seq<u8>)
    requires at + |x| + |y| <= |s|
    ensures Splice(Splice(s, at + |x|, y), at, x) == Splice(s, at, x + y)
  {
    var l, r := Splice(Splice(s, at + |x|, y), at, x), Splice(s, at, x + y);
    SpliceAt(s, at + |x|, y);
    SpliceAt(Splice(s, at + |x|, y), at, x);
    SpliceAt(s, at, x + y);
    assert forall i :: 0 <= i < |s| ==> l[i] == r[i];
  }

  /** A one-byte write is an update of that byte. */
  lemma SpliceOne(s: seq<u8>, at: nat, b: u8)
    requires at < |s|
    ensures Splice(s, at, [b]) == s[at := b]
  {
    var l, r := Splice(s, at, [b]), s[at := b];
    SpliceAt(s, at, [b]);
    assert forall i :: 0 <= i < |s| ==> l[i] == r[i];
  }

  /** Reading up to the end of a write gives the old prefix followed by what was written. */
  lemma SplicePrefix(s: seq<u8>, at: nat, x: seq<u8>)
    requires at + |x| <= |s|
    ensures Splice(s, at, x)[..at + |x|] == s[..at] + x
  {
  }

  /** What `adv_add_flags` writes: the one self-consistent structure. */
  function FlagsElement(flags: u8): (b: seq<u8>)
    ensures b == AdFormat.Encode(AdFormat.AdStructure(FlagsType, [flags]))
  {
    [2, FlagsType, flags]
  }

  /**
   * What `adv_add_name` writes for a name of L bytes: Length octet 2 + L
   * (kept to eight bits) and type 0x09. The structure occupies 2 + L bytes,
   * so its Length octet equals its whole size instead of the bytes after it.
   */
  function NameElement(name: seq<u8>): (b: seq<u8>)
    ensures |b| == 2 + |name|
    ensures |name| < 0xfe ==> b[0] as int == |b|
    ensures |name| < 0xfe ==>
              var std := AdFormat.Encode(AdFormat.AdStructure(CompleteNameType, name));
              b[1..] == std[1..] && b[0] as int == std[0] as int + 1
  {
    [Trunc8(2 + |name|), CompleteNameType] + name
  }

  /**
   * What `adv_add_manufacturer_data` writes: Length octet `length + 5`, type
   * 0xff, the three 16-bit values little-endian, then the data. The
   * structure occupies `length + 8` bytes, so the standard's Length octet
   * would be `length + 7`.
   */
  function ManufacturerElement(id: u16, addressHandle: u16, nameHandle: u16, data: seq<u8>): (b: seq<u8>)
    requires |data| < 0x100
    ensures |b| == |data| + 8
    ensures |data| < 0xf9 ==> b[0] as int + 3 == |b|
    ensures |data| < 0xf9 ==>
              var std := AdFormat.Encode(AdFormat.AdStructure(ManufacturerType,
                                                               Le16(id) + Le16(addressHandle) + Le16(nameHandle) + data));
              b[1..] == std[1..] && b[0] as int + 2 == std[0] as int
  {
    [Trunc8(|data| + 5), ManufacturerType] + Le16(id) + Le16(addressHandle) + Le16(nameHandle) + data
  }

  /** The main advertisement the boot event builds, for a name of at most NameRoom bytes. */
  function MainPayload(name: seq<u8>): (p: seq<u8>)
    requires |name| <= NameRoom
    ensures |p| == 5 + |name| <= Capacity
    ensures p[..3] == [2, 1, 6] && p[3] as int == 2 + |name| && p[4] == 0x09 && p[5..] == name
  {
    FlagsElement(BootFlags) + NameElement(name)
  }

  /** The scan response the boot event builds, from the GATT handles of the address and the name. */
  function ScanPayload(addressHandle: u16, nameHandle: u16): (p: seq<u8>)
    ensures |p| == 22 <= Capacity
    ensures p[..4] == [19, 0xff, 0xff, 0x02]
    ensures p[4..6] == Le16(addressHandle) && p[6..8] == Le16(nameHandle) && p[8..] == DemoMarker
  {
    var header, a, n := [19 as u8, ManufacturerType] + Le16(CompanyId), Le16(addressHandle), Le16(nameHandle);
    var p := ManufacturerElement(CompanyId, addressHandle, nameHandle, DemoMarker);
    assert p == header + a + n + DemoMarker;
    assert p[4..6] == a && p[6..8] == n && p[8..] == DemoMarker;
    p
  }

  /**
   * The main advertisement does not parse as AD structures: its name
   * structure claims one byte more than the payload holds.
   */
  lemma MainPayloadOverruns(name: seq<u8>)
    requires |name| <= NameRoom
    ensures AdFormat.Parse(MainPayload(name)) == None
  {
    var flags := AdFormat.AdStructure(FlagsType, [BootFlags]);
    assert MainPayload(name) == AdFormat.EncodeAll([flags]) + NameElement(name);
    AdFormat.ParseOverrun([flags], NameElement(name));
  }

  /**
   * The scan response does not parse either: its manufacturer structure
   * ends two bytes early, and the last two marker bytes ("mo") are then
   * read as a structure claiming 0x6d bytes.
   */
  lemma ScanPayloadOverruns(addressHandle: u16, nameHandle: u16)
    ensures AdFormat.Parse(ScanPayload(addressHandle, nameHandle)) == None
  {
    var p := ScanPayload(addressHandle, nameHandle);
    var first := AdFormat.AdStructure(ManufacturerType, p[2..20]);
    assert p == AdFormat.EncodeAll([first]) + p[20..];
    assert p[20..][0] == 0x6d;
    AdFormat.ParseOverrun([first], p[20..]);
  }

  /** One `struct legacyAdv_s`: the payload array and the cursor `length`. */
  class LegacyAdv {
    const payload: array<u8>
    var length: nat

    ghost predicate Valid()
      reads this
    {
      payload.Length == Capacity && length <= Capacity
    }

    /** The bytes handed to the stack: the payload up to the cursor. */
    function Contents(): (c: seq<u8>)
      reads this, payload
      requires Valid()
      ensures |c| == length
    {
      payload[..length]
    }

    /** A static buffer: zero-initialised. */
    constructor ()
      ensures Valid() && fresh(payload)
      ensures length == 0 && payload[..] == seq(Capacity, _ => 0)
    {
      payload := new u8[Capacity](_ => 0);
      length := 0;
    }

    /** adv_init: resets the cursor; the payload bytes stay as they were. */
    method Init()
      requires Valid()
      modifies this
      ensures Valid() && length == 0 && Contents() == []
      ensures payload[..] == old(payload[..])
    {
      length := 0;
    }

    /** `payload[length++] = b`. */
    method Put(b: u8)
      requires Valid() && length < Capacity
      modifies this, payload
      ensures Valid() && length == old(length) + 1
      ensures payload[..] == old(payload[..])[old(length) := b]
    {
      payload[length] := b;
      length := length + 1;
    }

    /** `memcpy(&payload[at], bytes, |bytes|)`; the cursor does not move. */
    method CopyAt(at: nat, bytes: seq<u8>)
      requires Valid() && at + |bytes| <= Capacity
      modifies payload
      ensures payload[..] == Splice(old(payload[..]), at, bytes)
    {
      forall i | 0 <= i < |bytes| {
        payload[at + i] := bytes[i];
      }
      SpliceAt(old(payload[..]), at, bytes);
    }

    /** `memcpy(&payload[length], bytes, |bytes|); length += |bytes|`. */
    method Append(bytes: seq<u8>)
      requires Valid() && length + |bytes| <= Capacity
      modifies this, payload
      ensures Valid() && length == old(length) + |bytes|
      ensures payload[..] == Splice(old(payload[..]), old(length), bytes)
    {
      CopyAt(length, bytes);
      length := length + |bytes|;
    }

    /** adv_add_flags: writes 2, 1, flags at the cursor and advances it by 3. */
    method AddFlags(flags: u8)
      requires Valid() && length + 3 <= Capacity
      modifies this, payload
      ensures Valid() && length == old(length) + 3
      ensures payload[..] == Splice(old(payload[..]), old(length), FlagsElement(flags))
      ensures Contents() == old(Contents()) + FlagsElement(flags)
    {
      ghost var s0, at := payload[..], length;
      Put(2);
      Put(FlagsType);
      Put(flags);
      assert payload[..] == Splice(s0, at, FlagsElement(flags)) by {
        var l, r := payload[..], Splice(s0, at, FlagsElement(flags));
        assert l == s0[at := 2][at + 1 := FlagsType][at + 2 := flags];
        SpliceAt(s0, at, FlagsElement(flags));
        assert forall i :: 0 <= i < Capacity ==> l[i] == r[i];
      }
      SplicePrefix(s0, at, FlagsElement(flags));
    }

    /**
     * adv_add_name. `read` is what the stack's attribute read of the device
     * name gives back: the value (at most the `maxLength` bytes requested),
     * or None for a non-success status, on which the caller halts.
     */
    method AddName(read: Option<seq<u8>>) returns (maxLength: nat, ok: bool)
      requires Valid() && length + 2 <= Capacity
      requires read.Some? ==> |read.value| <= Capacity - length - 2
      modifies this, payload
      ensures Valid()
      ensures maxLength == Capacity - old(length) - 2
      ensures ok == read.Some?
      ensures !ok ==> length == old(length) && payload[..] == old(payload[..])
      ensures ok ==> length == old(length) + 2 + |read.value|
      ensures ok ==> payload[..] == Splice(old(payload[..]), old(length), NameElement(read.value))
      ensures ok ==> Contents() == old(Contents()) + NameElement(read.value)
    {
      maxLength := Capacity - length - 2;
      if read.None? {
        return maxLength, false;
      }
      var name := read.value;
      ghost var s0, at := payload[..], length;
      CopyAt(length + 2, name);  // the stack writes the value behind the two header bytes
      ghost var s1 := payload[..];
      var header := [Trunc8(2 + |name|), CompleteNameType];
      Put(header[0]);
      SpliceOne(s1, at, header[0]);
      Put(header[1]);
      SpliceOne(Splice(s1, at, [header[0]]), at + 1, header[1]);
      SpliceAdjacent(s1, at, [header[0]], [header[1]]);
      assert payload[..] == Splice(Splice(s0, at + 2, name), at, header);
      SpliceBehind(s0, at, header, name);
      assert header + name == NameElement(name);
      length := length + |name|;
      SplicePrefix(s0, at, NameElement(name));
      ok := true;
    }

    /**
     * adv_add_manufacturer_data: Length octet, type, the three 16-bit values
     * and the data, advancing the cursor by `|data| + 8`.
     */
    method AddManufacturerData(id: u16, addressHandle: u16, nameHandle: u16, data: seq<u8>)
      requires Valid() && |data| < 0x100 && length + |data| + 8 <= Capacity
      modifies this, payload
      ensures Valid() && length == old(length) + |data| + 8
      ensures payload[..] == Splice(old(payload[..]), old(length),
                                    ManufacturerElement(id, addressHandle, nameHandle, data))
      ensures Contents() == old(Contents()) + ManufacturerElement(id, addressHandle, nameHandle, data)
    {
      ghost var s0, at := payload[..], length;
      var header := [Trunc8(|data| + 5), ManufacturerType];
      ghost var w0 := header;
      ghost var w1 := w0 + Le16(id);
      ghost var w2 := w1 + Le16(addressHandle);
      ghost var w3 := w2 + Le16(nameHandle);
      ghost var w4 := w3 + data;
      assert w4 == ManufacturerElement(id, addressHandle, nameHandle, data);
      Put(header[0]);
      SpliceOne(s0, at, header[0]);
      Put(header[1]);
      SpliceOne(Splice(s0, at, [header[0]]), at + 1, header[1]);
      SpliceAdjacent(s0, at, [header[0]], [header[1]]);
      assert payload[..] == Splice(s0, at, w0) && length == at + |w0|;
      Append(Le16(id));
      SpliceAdjacent(s0, at, w0, Le16(id));
      Append(Le16(addressHandle));
      SpliceAdjacent(s0, at, w1, Le16(addressHandle));
      Append(Le16(nameHandle));
      SpliceAdjacent(s0, at, w2, Le16(nameHandle));
      Append(data);
      SpliceAdjacent(s0, at, w3, data);
      SplicePrefix(s0, at, ManufacturerElement(id, addressHandle, nameHandle, data));
    }
  }
}
