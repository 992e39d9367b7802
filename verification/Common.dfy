/** Vocabulary shared by every model: bytes, packets, optional values and the
    lock word of one endpoint. */
module Common {

  type byte = x: int | 0 <= x < 256

  type Packet = seq<byte>

  datatype Option<+T> = None | Some(value: T)

  /** Who holds an endpoint's mutex. */
  datatype Owner = Free | Helper | Core

  /** `Died` is the process-wide `exit`; `Fault` marks a touch of memory or of a
      descriptor that is not live, which the proofs show cannot happen. */
  datatype Status = Running | Died | Fault

  /** The one-packet slot of a Safe 3 endpoint: its buffer (None once freed),
      `packet_length` and `occupied`. */
  datatype Slot = Slot(buffer: Option<seq<byte>>, length: nat, occupied: bool)

  function Bytes(slot: Slot): seq<byte> {
    if slot.buffer.Some? then slot.buffer.value else []
  }

  /** The two firmware workers. */
  datatype Worker = Legacy | Safe3

  const EVENTFD_MAX := 0xFFFF_FFFF_FFFF_FFFE

  function Min(a: nat, b: nat): nat {
    if a < b then a else b
  }

  /** The first `cap` bytes of `p`, or all of it when it is shorter. */
  function Cut(p: Packet, cap: nat): Packet {
    p[..Min(|p|, cap)]
  }

  /** One more byte of a memcpy. */
  lemma CopyOneMore(to: seq<byte>, from: seq<byte>, k: nat)
    requires k < |to| && k < |from| && to[..k] == from[..k]
    ensures to[k := from[k]][..k + 1] == from[..k + 1]
  {
    var more := to[k := from[k]];
    assert more[..k + 1] == to[..k] + [from[k]];
    assert from[..k + 1] == from[..k] + [from[k]];
  }
}
