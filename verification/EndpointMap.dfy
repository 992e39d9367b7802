/** The body of an ENDPOINTS record: a count and four bytes per endpoint. */
module EndpointMap {
  import opened Common
  import opened Wire

  datatype Entry = Entry(address: byte, transferType: byte, maxPacket: u16)

  function EntryBytes(e: Entry): (b: seq<byte>)
    ensures |b| == 4
  {
    [e.address, e.transferType] + ToBe16(e.maxPacket)
  }

  function ToEntry(b: seq<byte>): Entry
    requires |b| == 4
  {
    Entry(b[0], b[1], Be16(b[2..4]))
  }

  function EntriesBytes(es: seq<Entry>): (b: seq<byte>)
    ensures |b| == 4 * |es|
  {
    if es == [] then [] else EntriesBytes(es[..|es| - 1]) + EntryBytes(es[|es| - 1])
  }

  function Encode(es: seq<Entry>): seq<byte>
    requires |es| < 0x1_0000
  {
    ToBe16(|es|) + EntriesBytes(es)
  }

  /** The length checks both `install` functions make before touching anything. */
  predicate Measures(body: seq<byte>, fdCount: nat) {
    |body| >= 2 && |body| == 2 + Be16(body[..2]) * 4 && fdCount == Be16(body[..2])
  }

  /** The i-th entry as the loops read it. */
  function EntryAt(body: seq<byte>, i: nat): Entry
    requires 2 + 4 * i + 4 <= |body|
  {
    ToEntry(body[2 + 4 * i..2 + 4 * i + 4])
  }

  function Entries(body: seq<byte>, count: nat): (es: seq<Entry>)
    requires 2 + 4 * count <= |body|
    ensures |es| == count
    ensures forall i :: 0 <= i < count ==> es[i] == EntryAt(body, i)
  {
    seq(count, i requires 0 <= i < count => EntryAt(body, i))
  }

  lemma EntryBytesInverse(b: seq<byte>)
    requires |b| == 4
    ensures EntryBytes(ToEntry(b)) == b
  {
    Be16Injective(b[2..4]);
  }

  lemma {:induction false} EntriesInverse(body: seq<byte>, count: nat)
    requires 2 + 4 * count <= |body|
    ensures EntriesBytes(Entries(body, count)) == body[2..2 + 4 * count]
  {
    if count > 0 {
      var es := Entries(body, count);
      EntriesInverse(body, count - 1);
      assert es[..count - 1] == Entries(body, count - 1);
      EntryBytesInverse(body[2 + 4 * (count - 1)..2 + 4 * count]);
      assert body[2..2 + 4 * count] == body[2..2 + 4 * (count - 1)] + body[2 + 4 * (count - 1)..2 + 4 * count];
    }
  }

  lemma {:induction false} EntriesBytesAt(es: seq<Entry>, i: nat)
    requires i < |es|
    ensures EntriesBytes(es)[4 * i..4 * i + 4] == EntryBytes(es[i])
  {
    var front := EntriesBytes(es[..|es| - 1]);
    if i < |es| - 1 {
      EntriesBytesAt(es[..|es| - 1], i);
      assert EntriesBytes(es)[4 * i..4 * i + 4] == front[4 * i..4 * i + 4];
    }
  }

  lemma EncodeDecodes(es: seq<Entry>)
    requires |es| < 0x1_0000
    ensures var body := Encode(es);
      Measures(body, |es|) && Entries(body, |es|) == es
  {
    var body := Encode(es);
    assert body[..2] == ToBe16(|es|);
    forall i | 0 <= i < |es| ensures EntryAt(body, i) == es[i] {
      EntriesBytesAt(es, i);
      assert body[2 + 4 * i..2 + 4 * i + 4] == EntriesBytes(es)[4 * i..4 * i + 4];
      assert EntryBytes(es[i])[2..4] == ToBe16(es[i].maxPacket);
    }
  }

  /** The length checks pass exactly for encodings of as many entries as there are
      descriptors, and the loop then reads those entries: the whole body, in order. */
  lemma MeasuresIffEncoding(body: seq<byte>, fdCount: nat, es: seq<Entry>)
    ensures Measures(body, fdCount) && Entries(body, fdCount) == es <==>
      |es| == fdCount && |es| < 0x1_0000 && body == Encode(es)
  {
    if Measures(body, fdCount) && Entries(body, fdCount) == es {
      EntriesInverse(body, fdCount);
      Be16Injective(body[..2]);
      assert body == body[..2] + body[2..];
    }
    if |es| == fdCount && |es| < 0x1_0000 && body == Encode(es) {
      EncodeDecodes(es);
    }
  }

  // ----------------------------------------------------------------- addresses

  /** endpoint_for: an address names a number 1..maxNumber and a direction. */
  predicate ValidAddress(address: byte, maxNumber: nat) {
    1 <= address % 128 <= maxNumber
  }

  /** The position of an endpoint in the table walked by number, then direction. */
  function SlotOf(address: byte): nat
    requires address % 128 >= 1
  {
    2 * (address % 128 - 1) + address / 128
  }

  function AddressOf(slot: nat): (a: byte)
    requires slot < 254
  {
    128 * (slot % 2) + slot / 2 + 1
  }

  lemma AddressesAndSlots(maxNumber: nat)
    requires maxNumber <= 127
    ensures forall a: byte :: ValidAddress(a, maxNumber) ==> SlotOf(a) < 2 * maxNumber && AddressOf(SlotOf(a)) == a
    ensures forall k: nat :: k < 2 * maxNumber ==> ValidAddress(AddressOf(k), maxNumber) && SlotOf(AddressOf(k)) == k
  {}

  /** The entry that fills slot `k`, if any. */
  function Lookup(es: seq<Entry>, k: nat): (i: Option<nat>)
    requires forall e :: e in es ==> e.address % 128 >= 1
    ensures i.Some? ==> i.value < |es| && SlotOf(es[i.value].address) == k
    ensures i.None? ==> forall j :: 0 <= j < |es| ==> SlotOf(es[j].address) != k
  {
    if es == [] then None
    else if SlotOf(es[|es| - 1].address) == k then Some(|es| - 1)
    else Lookup(es[..|es| - 1], k)
  }

  predicate Placeable(es: seq<Entry>, maxNumber: nat) {
    && (forall i :: 0 <= i < |es| ==> ValidAddress(es[i].address, maxNumber))
    && (forall i, j :: 0 <= i < j < |es| ==> es[i].address != es[j].address)
  }

  /** Where the fields of each entry stand: address, transfer type and the big-endian packet
      size, four bytes per endpoint behind the count. */
  lemma EntriesByteByByte(body: seq<byte>, fdCount: nat, i: nat)
    requires Measures(body, fdCount) && i < fdCount
    ensures |body| == 2 + 4 * fdCount && fdCount == Word(0, 0, body[0], body[1])
    ensures var e, at := Entries(body, fdCount)[i], 2 + 4 * i;
      e.address == body[at] && e.transferType == body[at + 1] && e.maxPacket == Word(0, 0, body[at + 2], body[at + 3])
  {
    WordsAreBigEndian(body[..2]);
    var entry := body[2 + 4 * i..2 + 4 * i + 4];
    WordsAreBigEndian(entry[2..4]);
    assert entry[2..4][0] == body[2 + 4 * i + 2] && entry[2..4][1] == body[2 + 4 * i + 3];
  }
}
