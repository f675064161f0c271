/**
 * The two lwIP callbacks of the web server: `tcp_server_recv`, run once per
 * receive event on a connection, and `tcp_server_accept`, which installs it
 * on every accepted connection (button_web_server.c:26-104).
 */
module WebServer {
  import opened Wrappers
  import opened CString
  import opened Command
  import opened Render
  import opened Memory
  import opened Hardware
  import opened Lwip

  /**
   * Step 1 (button_web_server.c:35-37): a heap copy of the first segment of
   * the pbuf, `p->len + 1` bytes of which the last is the NUL terminator.
   */
  method CopyRequest(heap: Heap, p: Pbuf) returns (addr: nat, request: array<char>)
    modifies heap
    ensures fresh(request)
    ensures request[..] == p.payload + [NUL]
    ensures addr == old(heap.next) && heap.next == old(heap.next) + 1
    ensures heap.ledger == old(heap.ledger) + [Event.Malloc(addr, |p.payload| + 1)]
  {
    addr, request := heap.Malloc(|p.payload| + 1);
    Memcpy(request, p.payload);
    request[|p.payload|] := NUL;
    assert request[..] == request[..|p.payload|] + [request[|p.payload|]];
  }

  /**
   * Step 2 (button_web_server.c:42-49): `strstr` for "GET /on", and only when
   * that fails for "GET /off", on the NUL-terminated request; the LED is
   * written only when one of them matches.
   */
  method ApplyCommand(board: Board, request: array<char>)
    requires NUL in request[..]
    modifies board`led
    ensures board.led == Interpret(old(board.led), CView(request[..]))
  {
    var on := StrStr(request, GetOn);
    if on.Some? {
      board.GpioPut(true);
    } else {
      var off := StrStr(request, GetOff);
      if off.Some? {
        board.GpioPut(false);
      }
    }
  }

  /**
   * Step 4 (button_web_server.c:60-65, 88): `snprintf` of the formatted `text`
   * into the 1024-byte `html` buffer, then the `strlen(html)` bytes that
   * `tcp_write` is given.
   */
  method RenderPage(text: string) returns (page: string)
    ensures page == CView(Bounded(text, HtmlSize))
  {
    var html := new char[HtmlSize];
    var _ := SnPrintf(html, text);
    ghost var b := Bounded(text, HtmlSize);
    assert html[..] == b + [NUL] + html[|b| + 1..];
    var n := StrLen(html);
    CViewStopsAtNul(b, html[|b| + 1..]);
    page := html[..n];
  }

  /** The bytes the callback sends for a board whose inputs read as in `levels` and `temperature`. */
  function Page(levels: seq<bool>, temperature: string): string
    requires ButtonAPin < |levels| && ButtonBPin < |levels|
  {
    Response(IsPressed(levels[ButtonAPin]), IsPressed(levels[ButtonBPin]), temperature)
  }

  /**
   * `tcp_server_recv`. A NULL pbuf (the peer closed) closes the connection and
   * removes the callback, touching nothing else (`Hangup`); any other pbuf is
   * served (`Serve`).
   */
  method Recv(board: Board, heap: Heap, pcb: Pcb, p: Option<Pbuf>) returns (err: int)
    requires heap.Valid()
    requires p.Some? ==> PbufFrees(heap.ledger, p.value.id) == 0
    requires ButtonAPin < |board.levels| && ButtonBPin < |board.levels|
    modifies board, heap, pcb
    ensures err == ErrOk
    ensures heap.Valid()
    ensures board.levels == old(board.levels) && board.temperatureText == old(board.temperatureText)
    // peer closed
    ensures p.None? ==> !pcb.open && !pcb.recvRegistered
    ensures p.None? ==> pcb.sent == old(pcb.sent) && pcb.writes == old(pcb.writes) && pcb.flushes == old(pcb.flushes)
    ensures p.None? ==> unchanged(board, heap)
    // data received
    ensures p.Some? ==> board.led == Interpret(old(board.led), CView(p.value.payload + [NUL]))
    ensures p.Some? ==> board.samples == old(board.samples) + 3
    ensures p.Some? ==> pcb.sent == old(pcb.sent) + Page(board.levels, board.temperatureText)
    ensures p.Some? ==> pcb.writes == old(pcb.writes) + 1 && pcb.flushes == old(pcb.flushes) + 1
    ensures p.Some? ==> pcb.open == old(pcb.open) && pcb.recvRegistered == old(pcb.recvRegistered)
    ensures p.Some? ==> heap.next == old(heap.next) + 1
    ensures p.Some? ==>
      heap.ledger == old(heap.ledger) + [Event.Malloc(old(heap.next), |p.value.payload| + 1)] + [Event.Free(old(heap.next))] + [Event.PbufFree(p.value.id)]
  {
    if p.None? {
      err := Hangup(pcb);
    } else {
      err := Serve(board, heap, pcb, p.value);
    }
  }

  /** The NULL-pbuf path of `tcp_server_recv` (button_web_server.c:28-33). */
  method Hangup(pcb: Pcb) returns (err: int)
    modifies pcb`open, pcb`recvRegistered
    ensures err == ErrOk && !pcb.open && !pcb.recvRegistered
  {
    pcb.Close();
    pcb.SetRecv(false);
    return ErrOk;
  }

  /**
   * The data path of `tcp_server_recv` (button_web_server.c:35-96): copy the
   * request and act on it (`TakeRequest`), then answer it (`Respond`).
   */
  method Serve(board: Board, heap: Heap, pcb: Pcb, q: Pbuf) returns (err: int)
    requires heap.Valid()
    requires PbufFrees(heap.ledger, q.id) == 0
    requires ButtonAPin < |board.levels| && ButtonBPin < |board.levels|
    modifies board`led, board`samples, heap, pcb`sent, pcb`writes, pcb`flushes
    ensures err == ErrOk
    ensures heap.Valid()
    ensures board.led == Interpret(old(board.led), CView(q.payload + [NUL]))
    ensures board.samples == old(board.samples) + 3
    ensures pcb.sent == old(pcb.sent) + Page(board.levels, board.temperatureText)
    ensures pcb.writes == old(pcb.writes) + 1 && pcb.flushes == old(pcb.flushes) + 1
    ensures heap.next == old(heap.next) + 1
    ensures heap.ledger == old(heap.ledger) + [Event.Malloc(old(heap.next), |q.payload| + 1)] + [Event.Free(old(heap.next))] + [Event.PbufFree(q.id)]
  {
    var addr := TakeRequest(board, heap, q);
    err := Respond(board, heap, pcb, addr, q.id);
  }

  /**
   * Steps 1 and 2 of the data path (button_web_server.c:35-49): copy the
   * request out of the pbuf and act on it. The copy is the only block
   * allocated and not yet freed, and the pbuf is still held.
   */
  method TakeRequest(board: Board, heap: Heap, q: Pbuf) returns (addr: nat)
    requires heap.Valid()
    requires PbufFrees(heap.ledger, q.id) == 0
    modifies board`led, heap
    ensures board.led == Interpret(old(board.led), CView(q.payload + [NUL]))
    ensures addr == old(heap.next) && heap.next == old(heap.next) + 1
    ensures heap.ledger == old(heap.ledger) + [Event.Malloc(addr, |q.payload| + 1)]
    ensures Mallocs(heap.ledger, addr) == 1 && Frees(heap.ledger, addr) == 0
    ensures PbufFrees(heap.ledger + [Event.Free(addr)], q.id) == 0
    ensures Balanced(heap.ledger + [Event.Free(addr)] + [Event.PbufFree(q.id)], heap.next)
  {
    ghost var ledger0, next0 := heap.ledger, heap.next;
    var request;
    addr, request := CopyRequest(heap, q);
    ApplyCommand(board, request);
    DataEventBalanced(ledger0, next0, |q.payload| + 1, q.id);
  }

  /**
   * The answer to a request (button_web_server.c:51-96): sample both buttons
   * and the temperature, render, write once and flush once, then free the
   * request copy `addr` and the pbuf `id`.
   */
  method Respond(board: Board, heap: Heap, pcb: Pcb, addr: nat, id: nat) returns (err: int)
    requires Mallocs(heap.ledger, addr) == 1 && Frees(heap.ledger, addr) == 0
    requires PbufFrees(heap.ledger + [Event.Free(addr)], id) == 0
    requires ButtonAPin < |board.levels| && ButtonBPin < |board.levels|
    modifies board`samples, heap, pcb`sent, pcb`writes, pcb`flushes
    ensures err == ErrOk
    ensures board.samples == old(board.samples) + 3
    ensures pcb.sent == old(pcb.sent) + Page(board.levels, board.temperatureText)
    ensures pcb.writes == old(pcb.writes) + 1 && pcb.flushes == old(pcb.flushes) + 1
    ensures heap.next == old(heap.next)
    ensures heap.ledger == old(heap.ledger) + [Event.Free(addr)] + [Event.PbufFree(id)]
  {
    var levelA := board.GpioGet(ButtonAPin);
    var levelB := board.GpioGet(ButtonBPin);
    var temperature := board.ReadTemperature();
    var page := RenderPage(Format(IsPressed(levelA), IsPressed(levelB), temperature));

    pcb.Write(page);
    pcb.Output();

    heap.Free(addr);
    heap.PbufFree(id);
    return ErrOk;
  }

  /** `tcp_server_accept`: install the receive callback on the new connection. */
  method Accept(newpcb: Pcb) returns (err: int)
    modifies newpcb
    ensures err == ErrOk && newpcb.recvRegistered
    ensures newpcb.open == old(newpcb.open) && newpcb.sent == old(newpcb.sent)
    ensures newpcb.writes == old(newpcb.writes) && newpcb.flushes == old(newpcb.flushes)
  {
    newpcb.SetRecv(true);
    return ErrOk;
  }

  /** The request the interpreter reads is the payload up to its first NUL byte (all of it when there is none). */
  lemma RequestView(payload: string)
    ensures CView(payload + [NUL]) == CView(payload)
    ensures NUL !in payload ==> CView(payload + [NUL]) == payload
  {
    CViewStopsAtNul(payload, []);
    assert payload + [NUL] + [] == payload + [NUL];
    if NUL !in payload {
      CViewOfPlain(payload);
    }
  }

  /**
   * Each button's paragraph reports "Pressionado" when its pin reads low and
   * "Solto" when it reads high.
   */
  lemma ButtonsReported(levels: seq<bool>, temperature: string)
    requires ButtonAPin < |levels| && ButtonBPin < |levels|
    requires NUL !in temperature && |temperature| <= HtmlSize - 1 - FixedLength - 2 * |Pressed|
    ensures Occurs(Page(levels, temperature), LabelA + (if levels[ButtonAPin] then Released else Pressed))
    ensures Occurs(Page(levels, temperature), LabelB + (if levels[ButtonBPin] then Released else Pressed))
  {
    var pa, pb := IsPressed(levels[ButtonAPin]), IsPressed(levels[ButtonBPin]);
    FieldsReported(pa, pb, temperature);
    OccursParts(Page(levels, temperature), ClassA, LabelA, ButtonText(pa), FieldEnd);
    OccursParts(Page(levels, temperature), ClassB, LabelB, ButtonText(pb), FieldEnd);
  }

  /**
   * A connection is accepted and receives a request starting with "GET /on"
   * (such as "GET /on HTTP/1.1\r\nHost: x\r\n\r\n"): the LED goes on, one
   * page is written and flushed, the connection stays open and the
   * request copy and the pbuf are freed.
   */
  method OnRequest(rest: string, levels: seq<bool>, temperature: string)
    requires NUL !in rest
    requires ButtonAPin < |levels| && ButtonBPin < |levels|
  {
    var board := new Board(false, levels, temperature);
    var heap := new Heap();
    var pcb := new Pcb();
    var _ := Accept(pcb);

    var payload := GetOn + rest;
    assert NUL !in GetOn;
    RequestView(payload);
    OnAnywhere(false, [], rest);
    assert [] + GetOn + rest == payload;
    var err := Recv(board, heap, pcb, Some(Pbuf(0, payload, [])));
    assert err == ErrOk && board.led;
    assert pcb.open && pcb.recvRegistered && pcb.writes == 1 && pcb.flushes == 1;
    assert pcb.sent == Page(levels, temperature);
    assert |heap.ledger| == 3;
  }

  /** A connection is accepted and the peer closes it at once: nothing is sent and nothing allocated. */
  method PeerCloses(levels: seq<bool>, temperature: string)
    requires ButtonAPin < |levels| && ButtonBPin < |levels|
  {
    var board := new Board(true, levels, temperature);
    var heap := new Heap();
    var pcb := new Pcb();
    var _ := Accept(pcb);
    assert pcb.open && pcb.recvRegistered;

    var err := Recv(board, heap, pcb, None);
    assert err == ErrOk && !pcb.open && !pcb.recvRegistered;
    assert pcb.sent == [] && pcb.writes == 0 && board.led && heap.ledger == [];
  }
}
