/**
 * The parts of the lwIP TCP API the callbacks use, reduced to their effect
 * on one connection (a `tcp_pcb`).
 */
module Lwip {
  /** err_t ERR_OK */
  const ErrOk: int := 0

  /**
   * A received packet buffer chain: `payload` is the first segment
   * (`p->payload`, `p->len` bytes), `rest` the segments chained after it.
   */
  datatype Pbuf = Pbuf(id: nat, payload: string, rest: seq<string>)

  class Pcb {
    var open: bool
    /** Whether `tcp_server_recv` is installed as the receive callback. */
    var recvRegistered: bool
    /** Every byte handed to `tcp_write`, in order. */
    var sent: string
    var writes: nat
    var flushes: nat

    /** A freshly accepted connection. */
    constructor ()
      ensures open && !recvRegistered && sent == [] && writes == 0 && flushes == 0
    {
      open := true;
      recvRegistered := false;
      sent := [];
      writes := 0;
      flushes := 0;
    }

    /** `tcp_write(pcb, data, len, TCP_WRITE_FLAG_COPY)`: the stack takes its own copy of the bytes. */
    method Write(data: string)
      modifies this`sent, this`writes
      ensures sent == old(sent) + data && writes == old(writes) + 1
    {
      sent := sent + data;
      writes := writes + 1;
    }

    /** `tcp_output(pcb)`: ask the stack to transmit what is queued. */
    method Output()
      modifies this`flushes
      ensures flushes == old(flushes) + 1
    {
      flushes := flushes + 1;
    }

    /** `tcp_close(pcb)`. */
    method Close()
      modifies this`open
      ensures !open
    {
      open := false;
    }

    /** `tcp_recv(pcb, cb)`: install (`tcp_server_recv`) or remove (NULL) the receive callback. */
    method SetRecv(registered: bool)
      modifies this`recvRegistered
      ensures recvRegistered == registered
    {
      recvRegistered := registered;
    }
  }
}
