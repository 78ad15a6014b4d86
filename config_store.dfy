/** The configuration store: values kept in EEPROM, each in a slot that
    starts with a sentinel byte. A sentinel of 0xff (the erased state) means
    the slot has never been written and a read returns the caller's default;
    the first write sets it to 0. The value follows the sentinel in the
    target's little-endian byte order: one byte for a byte, two for a short
    (16-bit two's complement) and four for an int (32-bit two's complement). */
module ConfigStore {

  type byte = b: int | 0 <= b < 256

  /** The value of an erased EEPROM cell, and so of an unwritten sentinel. */
  const Erased: byte := 0xff

  // ---------------------------------------------------------------------------
  // Little-endian two's complement
  // ---------------------------------------------------------------------------

  function Pow256(k: nat): (p: nat)
    ensures p >= 1
  {
    if k == 0 then 1 else 256 * Pow256(k - 1)
  }

  /** The number of non-negative k-byte signed values: half of Pow256(k). */
  function HalfRange(k: nat): (h: int)
    requires k >= 1
    ensures Pow256(k) == 2 * h
  {
    128 * Pow256(k - 1)
  }

  /** The unsigned number a little-endian byte string stands for. */
  function FromLittleEndian(bs: seq<byte>): (u: nat)
    ensures u < Pow256(|bs|)
  {
    if |bs| == 0 then 0 else bs[0] + 256 * FromLittleEndian(bs[1..])
  }

  /** The k low-order bytes of u, least significant first. */
  function ToLittleEndian(u: nat, k: nat): (bs: seq<byte>)
    ensures |bs| == k
  {
    if k == 0 then [] else [u % 256] + ToLittleEndian(u / 256, k - 1)
  }

  lemma {:induction false} DecodeEncode(u: nat, k: nat)
    requires u < Pow256(k)
    ensures FromLittleEndian(ToLittleEndian(u, k)) == u
  {
    if k > 0 {
      DecodeEncode(u / 256, k - 1);
      var bs := ToLittleEndian(u, k);
      assert bs[1..] == ToLittleEndian(u / 256, k - 1);
    }
  }

  lemma {:induction false} EncodeDecode(bs: seq<byte>)
    ensures ToLittleEndian(FromLittleEndian(bs), |bs|) == bs
  {
    if |bs| > 0 {
      EncodeDecode(bs[1..]);
      var u := FromLittleEndian(bs);
      assert u % 256 == bs[0] && u / 256 == FromLittleEndian(bs[1..]);
      assert bs == [bs[0]] + bs[1..];
    }
  }

  /** The two's complement bit pattern of a k-byte signed integer, and back. */
  function Unsigned(v: int, k: nat): (u: nat)
    requires k >= 1 && -HalfRange(k) <= v < HalfRange(k)
    ensures u < Pow256(k)
  {
    if v >= 0 then v else v + Pow256(k)
  }

  function Signed(u: nat, k: nat): (v: int)
    requires k >= 1 && u < Pow256(k)
    ensures -HalfRange(k) <= v < HalfRange(k)
    ensures Unsigned(v, k) == u
  {
    if u < HalfRange(k) then u else u - Pow256(k)
  }

  /** The bytes a k-byte signed value occupies in memory, lowest address first. */
  function SignedBytes(v: int, k: nat): (bs: seq<byte>)
    requires k >= 1 && -HalfRange(k) <= v < HalfRange(k)
    ensures |bs| == k
    ensures Signed(FromLittleEndian(bs), k) == v
  {
    var u := Unsigned(v, k);
    DecodeEncode(u, k);
    ToLittleEndian(u, k)
  }

  /** Any k bytes are the image of exactly one k-byte value. */
  lemma SignedBytesCoverEveryPattern(bs: seq<byte>)
    requires |bs| >= 1
    ensures SignedBytes(Signed(FromLittleEndian(bs), |bs|), |bs|) == bs
  {
    EncodeDecode(bs);
  }

  // ---------------------------------------------------------------------------
  // The slots
  // ---------------------------------------------------------------------------

  predicate IsShort(v: int) { -32768 <= v < 32768 }

  predicate IsInt(v: int) { -0x8000_0000 <= v < 0x8000_0000 }

  /** A slot at `addr` with a k-byte value fits in the EEPROM. */
  predicate SlotFits(mem: seq<byte>, addr: int, k: nat) {
    0 <= addr && addr + k < |mem|
  }

  /** The sentinel after a write: 0 if the slot was unwritten, else unchanged. */
  function MarkWritten(sentinel: byte): (s: byte)
    ensures s != Erased
    ensures sentinel != Erased ==> s == sentinel
  {
    if sentinel == Erased then 0 else sentinel
  }

  /** The EEPROM contents after writing the bytes `payload` to the slot at
      `addr`. */
  function Written(mem: seq<byte>, addr: int, payload: seq<byte>): (m: seq<byte>)
    requires SlotFits(mem, addr, |payload|)
    ensures |m| == |mem|
    ensures m[addr] == MarkWritten(mem[addr])
    ensures m[addr + 1..addr + 1 + |payload|] == payload
    ensures forall i :: 0 <= i < |mem| && !(addr <= i <= addr + |payload|) ==> m[i] == mem[i]
  {
    mem[..addr] + [MarkWritten(mem[addr])] + payload + mem[addr + 1 + |payload|..]
  }

  /** The payload bytes of the slot at `addr`, whether or not it was written. */
  function Stored(mem: seq<byte>, addr: int, k: nat): (r: seq<byte>)
    requires SlotFits(mem, addr, k)
    ensures |r| == k
  {
    mem[addr + 1..addr + 1 + k]
  }

  function ReadConfigurationByte(mem: seq<byte>, addr: int, defaultValue: byte): (v: byte)
    requires SlotFits(mem, addr, 1)
    ensures mem[addr] == Erased ==> v == defaultValue
    ensures mem[addr] != Erased ==> [v] == Stored(mem, addr, 1)
  {
    if mem[addr] == Erased then defaultValue else mem[addr + 1]
  }

  function ReadConfigurationShort(mem: seq<byte>, addr: int, defaultValue: int): (v: int)
    requires SlotFits(mem, addr, 2) && IsShort(defaultValue)
    ensures IsShort(v)
    ensures mem[addr] == Erased ==> v == defaultValue
    ensures mem[addr] != Erased ==> SignedBytes(v, 2) == Stored(mem, addr, 2)
  {
    if mem[addr] == Erased then defaultValue
    else
      SignedBytesCoverEveryPattern(Stored(mem, addr, 2));
      Signed(FromLittleEndian(Stored(mem, addr, 2)), 2)
  }

  function ReadConfigurationInt(mem: seq<byte>, addr: int, defaultValue: int): (v: int)
    requires SlotFits(mem, addr, 4) && IsInt(defaultValue)
    ensures IsInt(v)
    ensures mem[addr] == Erased ==> v == defaultValue
    ensures mem[addr] != Erased ==> SignedBytes(v, 4) == Stored(mem, addr, 4)
  {
    if mem[addr] == Erased then defaultValue
    else
      SignedBytesCoverEveryPattern(Stored(mem, addr, 4));
      Signed(FromLittleEndian(Stored(mem, addr, 4)), 4)
  }

  // ---------------------------------------------------------------------------
  // Writes, in place on the EEPROM
  // ---------------------------------------------------------------------------

  method WriteConfigurationByte(eeprom: array<byte>, addr: int, value: byte)
    requires SlotFits(eeprom[..], addr, 1)
    modifies eeprom
    ensures eeprom[..] == Written(old(eeprom[..]), addr, [value])
  {
    if eeprom[addr] == Erased {
      eeprom[addr] := 0;
    }
    eeprom[addr + 1] := value;
  }

  method WriteConfigurationShort(eeprom: array<byte>, addr: int, value: int)
    requires SlotFits(eeprom[..], addr, 2) && IsShort(value)
    modifies eeprom
    ensures eeprom[..] == Written(old(eeprom[..]), addr, SignedBytes(value, 2))
  {
    if eeprom[addr] == Erased {
      eeprom[addr] := 0;
    }
    var data := SignedBytes(value, 2);
    eeprom[addr + 1] := data[0];
    eeprom[addr + 2] := data[1];
  }

  method WriteConfigurationInt(eeprom: array<byte>, addr: int, value: int)
    requires SlotFits(eeprom[..], addr, 4) && IsInt(value)
    modifies eeprom
    ensures eeprom[..] == Written(old(eeprom[..]), addr, SignedBytes(value, 4))
  {
    if eeprom[addr] == Erased {
      eeprom[addr] := 0;
    }
    var data := SignedBytes(value, 4);
    eeprom[addr + 1] := data[0];
    eeprom[addr + 2] := data[1];
    eeprom[addr + 3] := data[2];
    eeprom[addr + 4] := data[3];
  }

  // ---------------------------------------------------------------------------
  // Reading back
  // ---------------------------------------------------------------------------

  /** A written value reads back, whatever the default. */
  lemma ByteReadsBack(mem: seq<byte>, addr: int, value: byte, defaultValue: byte)
    requires SlotFits(mem, addr, 1)
    ensures ReadConfigurationByte(Written(mem, addr, [value]), addr, defaultValue) == value
  {
  }

  lemma ShortReadsBack(mem: seq<byte>, addr: int, value: int, defaultValue: int)
    requires SlotFits(mem, addr, 2) && IsShort(value) && IsShort(defaultValue)
    ensures ReadConfigurationShort(Written(mem, addr, SignedBytes(value, 2)), addr, defaultValue) == value
  {
    var m := Written(mem, addr, SignedBytes(value, 2));
    assert Stored(m, addr, 2) == SignedBytes(value, 2);
  }

  lemma IntReadsBack(mem: seq<byte>, addr: int, value: int, defaultValue: int)
    requires SlotFits(mem, addr, 4) && IsInt(value) && IsInt(defaultValue)
    ensures ReadConfigurationInt(Written(mem, addr, SignedBytes(value, 4)), addr, defaultValue) == value
  {
    var m := Written(mem, addr, SignedBytes(value, 4));
    assert Stored(m, addr, 4) == SignedBytes(value, 4);
  }

  /** A read returns the default exactly when the slot is unwritten, provided
      the stored value is not itself the default. */
  lemma DefaultOnlyWhenUnwritten(mem: seq<byte>, addr: int, defaultValue: int)
    requires SlotFits(mem, addr, 2) && IsShort(defaultValue)
    requires mem[addr] != Erased ==> Stored(mem, addr, 2) != SignedBytes(defaultValue, 2)
    ensures ReadConfigurationShort(mem, addr, defaultValue) == defaultValue <==> mem[addr] == Erased
  {
  }

  /** The same for a byte slot. */
  lemma ByteDefaultOnlyWhenUnwritten(mem: seq<byte>, addr: int, defaultValue: byte)
    requires SlotFits(mem, addr, 1)
    requires mem[addr] != Erased ==> Stored(mem, addr, 1) != [defaultValue]
    ensures ReadConfigurationByte(mem, addr, defaultValue) == defaultValue <==> mem[addr] == Erased
  {
  }

  /** The same for an int slot. */
  lemma IntDefaultOnlyWhenUnwritten(mem: seq<byte>, addr: int, defaultValue: int)
    requires SlotFits(mem, addr, 4) && IsInt(defaultValue)
    requires mem[addr] != Erased ==> Stored(mem, addr, 4) != SignedBytes(defaultValue, 4)
    ensures ReadConfigurationInt(mem, addr, defaultValue) == defaultValue <==> mem[addr] == Erased
  {
  }

  /** The byte layout of a short is the target's: low byte first. */
  lemma ShortIsLowByteFirst(value: int)
    requires IsShort(value)
    ensures SignedBytes(value, 2) == [Unsigned(value, 2) % 256, Unsigned(value, 2) / 256]
  {
    var u := Unsigned(value, 2);
    assert ToLittleEndian(u / 256, 1) == [u / 256 % 256] + ToLittleEndian(u / 256 / 256, 0);
  }

  /** Writing one slot leaves a slot that ends before it unchanged. */
  lemma WriteKeepsEarlierSlots(mem: seq<byte>, addr: int, payload: seq<byte>, other: int, k: nat)
    requires SlotFits(mem, addr, |payload|) && SlotFits(mem, other, k)
    requires other + k < addr
    ensures Stored(Written(mem, addr, payload), other, k) == Stored(mem, other, k)
    ensures Written(mem, addr, payload)[other] == mem[other]
  {
    var m := Written(mem, addr, payload);
    assert forall i :: other + 1 <= i < other + 1 + k ==> m[i] == mem[i];
  }
}
