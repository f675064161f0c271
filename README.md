# Button web server: the lwIP receive callback, modelled and verified

The firmware in `button_web_server.c` runs a small HTTP server on a Pico W.
The model covers the two lwIP callbacks at its core:

- `tcp_server_accept` installs the receive callback on every accepted connection.
- `tcp_server_recv` runs once per receive event. A NULL pbuf means the peer has closed, so the callback closes the connection and removes itself. Any other pbuf goes through these steps:
  1. copy the first segment into a heap buffer of `p->len + 1` bytes and NUL-terminate it;
  2. switch the Wi-Fi chip's LED on when the request contains "GET /on", otherwise off when it contains "GET /off";
  3. sample the two active-low buttons (GPIO 5 and 6) and the temperature sensor;
  4. render a fixed HTML page with `snprintf` into a 1024-byte buffer;
  5. send `strlen` bytes of that buffer with one `tcp_write` and one `tcp_output`;
  6. free the request copy and the pbuf, and return `ERR_OK`.

The model keeps the program's own structure, one module per concern:

| module | contents |
|---|---|
| `CString` | The NUL-terminated view `CView` of a buffer, with `memcpy`, `strlen` and `strstr` as loops over arrays (ISO C11 sections 7.24.2.1, 7.24.6.3 and 7.24.5.7). |
| `Command` | `Interpret`, the if / else-if over the two `strstr` tests, and lemmas about it. |
| `Render` | The format string as directives. There are literal runs and three conversions, the two `%s` and the `%.2f`. `Expand` is the untruncated output, `Bounded` is what `snprintf` keeps in the 1024-byte buffer (ISO C11 section 7.21.6.5), and `Response` is the `strlen` view that is sent. |
| `Memory` | A `Heap` class whose ledger records every `malloc`, `free` and `pbuf_free`. Its invariant `Valid` says: no leak, no double free, no free of an unallocated block, no pbuf released twice. |
| `Hardware` | A `Board` class with the LED output, the input level of each GPIO pin, the temperature text the sensor yields, and a count of hardware reads. |
| `Lwip` | The `Pbuf` value, plus a `Pcb` class for one connection: open or closed, callback installed or not, every byte written, and the write and flush counts. |
| `WebServer` | The callbacks `Recv` and `Accept`, and the steps of the data path. |

`Recv` is proved against this specification:

- **NULL pbuf:** the callback closes the connection and deregisters itself. The LED, the board, the heap, the bytes sent and the write and flush counts are all unchanged.
- **Data:**
  - The LED becomes `Interpret(old LED, CView(payload + [NUL]))`.
  - Exactly the rendered page `Page(levels, temperature)` is appended to the connection, with one write and one flush.
  - The connection stays open with its callback installed.
  - Three hardware reads happen.
  - The ledger gains exactly `Malloc(a, |payload| + 1)`, `Free(a)` and `PbufFree(id)`.
- **Every path:** the result is `ERR_OK`, and the heap stays `Valid`.

Lemmas about `Interpret`, `CView` and `Response` state what this means: which command takes effect, what the NUL hides, and what the page contains and how long it can be.

Two scenario methods walk through whole sequences: `WebServer.OnRequest` (accept, then a "GET /on" request) and `WebServer.PeerCloses` (accept, then close).

C characters are Dafny `char`s. Each UTF-8 letter of the template ('ã', 'õ') is written as its two bytes, so a string's length is its size in bytes: the template outside its conversions is exactly 600 bytes.

The command match is as permissive as the code's `strstr`. "GET /on" anywhere in the request turns the LED on. That includes a header line and a longer path such as "GET /online", and it also wins when "GET /off" is present.

## Model

| member | source | states |
|---|---|---|
| CString.CView | button_web_server.c:37 | The view is a prefix of the buffer without NUL, and it stops only at a NUL. |
| CString.CViewAtFirstNul | button_web_server.c:37 | The view is exactly the bytes before the first NUL. |
| CString.CViewStopsAtNul | button_web_server.c:37 | Bytes after a NUL never reach the view. |
| CString.CViewOfPlain | button_web_server.c:37 | A NUL-free buffer is its own view. |
| CString.Memcpy | button_web_server.c:36 | The destination begins with `src`, and the rest of the block is untouched. |
| CString.StrLen | button_web_server.c:88 | `strlen` returns the index of the first NUL, and the bytes before it are the view. |
| CString.StrStr | button_web_server.c:42-46 | `strstr` returns a match exactly when the needle occurs in the view, and the match it returns is the first one. |
| Command.OnAnywhere | button_web_server.c:42-45 | "GET /on" anywhere in the view turns the LED on, whatever surrounds it, "GET /off" included. |
| Command.OffAnywhere | button_web_server.c:46-49 | "GET /off" turns the LED off when "GET /on" occurs nowhere. |
| Command.NoCommandKeepsLed | button_web_server.c:42-49 | With neither command the LED keeps its previous value. |
| Command.NoCommandWithoutG | button_web_server.c:42-49 | A request without a 'G' contains neither command. |
| Command.OffRequestLine | button_web_server.c:42-49 | For a request starting with "GET /off", "GET /on" occurs in it exactly when it occurs in the rest. The two commands cannot overlap. The LED goes off unless the rest says "GET /on". |
| Command.NulHidesRest | button_web_server.c:37-46 | The command decision depends only on the bytes before the first NUL. |
| Command.CommandAfterNulIgnored | button_web_server.c:37-46 | A "GET /on" after a NUL leaves the LED unchanged. |
| Render.ButtonText | button_web_server.c:82-83 | The button text is "Pressionado" exactly when pressed and "Solto" exactly when released. |
| Render.ExpandShape | button_web_server.c:62-85 | Each conversion of a format prints its own argument, in order, between the literal runs around it. |
| Render.FormatSpelledOut | button_web_server.c:62-85 | The untruncated output is the preamble, button A's paragraph, button B's paragraph, the temperature paragraph and the closing tags, in that order. |
| Render.FormatLength | button_web_server.c:62-85 | The untruncated output has 600 fixed bytes plus the lengths of the three substituted texts. |
| Render.TemplateHasNoNul | button_web_server.c:62-80 | No literal run of the template contains a NUL byte. |
| Render.FormatHasNoNul | button_web_server.c:62-85 | The formatted text contains a NUL only if the temperature text does. |
| Render.Bounded | button_web_server.c:60-62 | `snprintf` keeps a prefix of fewer than `size` bytes: all of the text when it fits, otherwise exactly `size - 1` bytes. |
| Render.SnPrintf | button_web_server.c:62-85 | The buffer holds the bounded prefix followed by a NUL, and the return value is the full length. |
| Render.CViewPrefixFree | button_web_server.c:88 | A NUL-free prefix survives into the `strlen` view. |
| Render.ResponseShape | button_web_server.c:62-88 | Every response starts with the status line, the text/html header and the blank line, and it is at most 1023 bytes. |
| Render.NoTruncation | button_web_server.c:60-88 | The sent bytes equal the full rendering exactly when it is shorter than 1024 bytes. This always holds when the temperature text is at most 401 bytes. |
| Render.FieldsReported | button_web_server.c:62-84 | An untruncated page carries the reload script, both button paragraphs and the temperature paragraph. |
| Render.ExamplePage | button_web_server.c:76-84 | With A pressed, B released and "36.55", the page says "Estado botão A: Pressionado", "Estado botão B: Solto" and "36.55". |
| Memory.CountsSnoc | button_web_server.c:35-94 | Recording one event changes only that event's count, by one. |
| Memory.DataEventBalanced | button_web_server.c:35-94 | On a balanced heap, allocating, freeing the new block and releasing an unreleased pbuf is legal at each step. The heap is balanced again afterwards. |
| Memory.Heap.constructor | button_web_server.c:35 | The heap starts empty and balanced. |
| Memory.Heap.Malloc | button_web_server.c:35 | `malloc` returns a fresh block of the requested size and records it. |
| Memory.Heap.Free | button_web_server.c:93 | `free` requires a live block and records its release. |
| Memory.Heap.PbufFree | button_web_server.c:94 | `pbuf_free` requires an unreleased pbuf and records its release. |
| Hardware.Board.GpioPut | button_web_server.c:44-48 | The LED takes the written level, and nothing else changes. |
| Hardware.Board.GpioGet | button_web_server.c:51-52 | `gpio_get` returns the pin's level and counts one read. |
| Hardware.Board.ReadTemperature | button_web_server.c:54-57 | The sensor read yields the current temperature text and counts one read. |
| Lwip.Pcb.Write | button_web_server.c:88 | `tcp_write` appends the given bytes and counts one write. |
| Lwip.Pcb.Output | button_web_server.c:90 | `tcp_output` counts one flush. |
| Lwip.Pcb.Close | button_web_server.c:30 | `tcp_close` marks the connection closed. |
| Lwip.Pcb.SetRecv | button_web_server.c:31 | `tcp_recv` installs or removes the receive callback. |
| WebServer.CopyRequest | button_web_server.c:35-37 | The copy is a fresh block of `p->len + 1` bytes: the first segment, then a NUL. The segments chained after it are ignored. One allocation is recorded. |
| WebServer.ApplyCommand | button_web_server.c:42-49 | The LED becomes `Interpret` of its old value and the view of the request. |
| WebServer.TakeRequest | button_web_server.c:35-49 | Copy and command together. The new block is the only live block, the pbuf is still held, and freeing both rebalances the heap. |
| WebServer.RenderPage | button_web_server.c:60-88 | The bytes taken from the `html` buffer are the `strlen` view of the bounded rendering. |
| WebServer.Respond | button_web_server.c:51-96 | Sample both buttons and the temperature, append exactly the page for them, write once, flush once, free the copy, then free the pbuf. |
| WebServer.Serve | button_web_server.c:35-96 | The whole data path, with the ledger gaining exactly one malloc, one free and one pbuf release. |
| WebServer.Hangup | button_web_server.c:28-33 | The NULL-pbuf path closes the connection and deregisters the callback. |
| WebServer.Recv | button_web_server.c:26-97 | `tcp_server_recv` against its full specification: the close path changes nothing else, the data path does what `Serve` states, and the result is always `ERR_OK` with the heap balanced. |
| WebServer.Accept | button_web_server.c:100-104 | The accepted connection gets the receive callback installed, and nothing else about it changes. |
| WebServer.RequestView | button_web_server.c:35-42 | The interpreter reads the payload up to its first NUL, so a NUL-free payload is read whole. |
| WebServer.ButtonsReported | button_web_server.c:51-84 | Each button's paragraph says "Pressionado" when its pin reads low and "Solto" when it reads high. |

## Left out

- `main` (button_web_server.c:107-182) is not modelled: GPIO and ADC set-up, Wi-Fi association, bind and listen, and the polling loop are start-up and I/O.
- The `printf` of the request (button_web_server.c:39) is console output with no effect on the state that is modelled.
- The ADC read and the float formula (button_web_server.c:54-57) are left out, and so is the `%.2f` formatting. The temperature enters as the text `%.2f` would print, held by `Board.temperatureText`.
- The lwIP internals behind `tcp_write`, `tcp_output`, `tcp_close`, `tcp_recv` and `pbuf_free` belong to a foreign networking stack. Only each call's effect on the connection or the ledger is modelled.
- The ordering between connection events and heap events is not kept in one trace. The connection and the ledger each record their own order.
- Callback dispatch across several connections and the event loop that drives it belong to the stack, not to this code.
- `arg` and `err` are unused by both callbacks, so they are not parameters of the model.
- Lwip.Pcb.Write: the return value of `tcp_write` is ignored by the code, so the model has `tcp_write` always succeed. An `ERR_MEM` refusal is not modelled.
- Memory.Heap.Malloc: always succeeds. The code never checks for NULL, and a failed allocation would be undefined behaviour.
- Lwip.Pbuf: `p->len` is a 16-bit field. The model takes the payload as it comes and does not bound its length.
- Render.Expand: a conversion that finds no argument left prints nothing. In C that case is undefined, but the template has exactly three conversions for its three arguments.
- WebServer.ButtonsReported: states that the page reports the right text for each button. It does not state that the opposite text is absent from the page. That direction is carried by `Render.ButtonText`'s if-and-only-if.
- Determinism of the rendering is not stated as a separate lemma. `Response` is a function of the two button states and the temperature text, and `Recv` sends exactly `Page(levels, temperature)`.
