/**
 * x86 port I/O as seen by the model. Reads come from oracles supplied by the
 * caller (the hardware is outside the model); writes are recorded, in order,
 * as a trace of events.
 */
module PortIo {
  /** One access to an I/O port, as issued by outb, insw, outsw or insl. */
  datatype Event =
    | OutB(port: nat, value: nat)     // outb(port, value); value is a byte, below 256
    | InWords(port: nat, count: nat)  // insw(port, buf, count): count 16-bit reads
    | OutWords(port: nat, count: nat) // outsw(port, buf, count): count 16-bit writes
    | InLongs(port: nat, count: nat)  // insl(port, buf, count): count 32-bit reads

  /** The k-th value read from a status port; supplied by the hardware. */
  type StatusOracle = nat -> bv8
}
