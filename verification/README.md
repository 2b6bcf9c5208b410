# A verified model of the TCP proxy

`proxies/proxy.py` is a small man-in-the-middle TCP proxy. It accepts a
client, connects to a fixed remote host, and relays buffers in both
directions until one side has nothing more to say. Each buffer passes
through an interception hook, and the proxy logs every buffer as a hex
dump. This project models the core of that program in Dafny and proves
properties of the model:

- **`HEX_FILTER` and `hexdump`** (`hex_format.dfy`, `hex_filter.dfy`,
  `hex_dump.dfy`, `utf8.dfy`). The translation table is built the way the
  source builds it: from the length of Python's `repr` of each character
  below 256. A lemma shows that this keeps exactly 0x20–0x7E without the
  backslash, plus 0xA1–0xFF without the soft hyphen.
  - A `bytes` argument is first decoded with `src.decode()`, which is
    strict UTF-8 (section 4 of RFC 3629). `utf8.dfy` defines the
    well-formed byte strings and the decoder. It proves that decoding
    succeeds exactly on well-formed input, and that decoding and encoding
    are inverse in both directions. Malformed bytes make `hexdump` raise,
    and the model returns that as `Err(DecodeFailure)`.
  - The dump is the `range(0, len(src), length)` loop over the text.
  - Each line is the zero-padded lowercase offset, the space-joined uppercase
    pairs left-aligned in `3 * length` columns, and the translated slice.
  - The number of lines, the layout of each line, and the covering of the
    input by the slices are proved.
  - A reader for the format shows that the dump of text below U+0100 can be
    read back to the input, offsets included.
- **`receive_from`** (`drain.dfy`). A socket is a script of read outcomes:
  data, an empty read, or an exception. The drain returns the bytes delivered
  before the first read that delivers nothing, and never fails.
  `DrainAll` splits a whole script into successive drains, and no delivered
  byte is lost between them.
- **`request_handler`, `response_handler` and `proxy_handler`**
  (`relay.dfy`). Each peer is a script of drain results, which is what
  `DrainAll` produces. The session is a state machine
  CONNECTING → RELAYING → CLOSED that records a trace of receives, sends and
  closes. The hooks are a parameter. They are the two handlers and `logs`,
  which says whether the `hexdump` call on a drain returns. `SourceHooks`
  is what the source ships: the identity handlers, and `hexdump` with its
  default width, which returns exactly when the drain is UTF-8.
  - With `receive_first`, the initial remote drain is only logged.
  - Each pass drains the client, logs it and forwards it when it is
    non-empty. It then always drains the remote, and logs and forwards that
    drain when it is non-empty.
  - The session closes both sockets after the first pass in which either
    buffer is empty.
  - When a `hexdump` call raises, the thread ends at once. The buffer is
    not sent, and neither socket is closed. The model records this as the
    ABORTED phase, whose trace ends on the drain that could not be logged.
  - With the shipped hooks, each side is sent exactly the non-empty drains
    of the other, in order, up to the first drain that is not UTF-8.

`results.dfy` holds the `Option`/`Result` wrappers; `chunks.dfy` holds bytes
and `b"".join`.

Two points of the code that are easy to misread:

- In `receive_first` mode, the first remote buffer is never sent to the
  client. Lines 151-155 only print and dump it. Inside the loop, line 167
  assigns `remote_buffer` a fresh drain, after the client drain at line
  158, before the greeting could be forwarded.
- The termination test at line 176 looks at `local_buffer` and
  `remote_buffer` after the hooks have been applied. `Continues` therefore
  tests the hooks' outputs, which matters only for hooks that can return an
  empty buffer.

`hexdump` on text (`string`) is modelled for every Unicode scalar value.

- `translate` leaves a character at or above U+0100 unchanged, because the
  lookup in a 256-entry table fails.
- `:02X` of such a character is wider than two digits.
- The layout and read-back lemmas are stated for text below U+0100. That
  covers ASCII payloads, and UTF-8 text whose characters are all below
  U+0100. For such text the offsets count characters, not bytes.

`length` is an integer. A zero step makes `range` raise `ValueError`, which
the model returns as `Err(ZeroStep)`. A negative step gives no lines. The
source's default is 16. For a `bytes` argument the decode comes first, so
malformed bytes raise even when the step is zero.

## Model

| member | source | states |
|---|---|---|
| `HexFormat.ToHexRoundTrip` | proxies/proxy.py:47-49 | reading the hex digits of a number back gives the number |
| `HexFormat.ToHexLength` | proxies/proxy.py:49 | a number below 16^w needs at most w hex digits |
| `HexFormat.ToHexLower` | proxies/proxy.py:49 | a number at or above 16^w needs more than w hex digits |
| `HexFormat.FormatRoundTrip` | proxies/proxy.py:47-49 | a zero-padded hex field (`:02X`, `:04x`) reads back as the number it formats |
| `HexFormat.FormatWidth` | proxies/proxy.py:49 | a number below 16^w formats to exactly w digits |
| `HexFormat.FormatExactWidth` | proxies/proxy.py:49 | a field wider than its minimum has no leading zero: the number needs every digit |
| `HexFilter.Repr` | proxies/proxy.py:8 | `repr(chr(i))` is at least three characters and quoted with `"` only for the apostrophe |
| `HexFilter.ReprKept` | proxies/proxy.py:7-9 | `len(repr(chr(i))) == 3` holds exactly for 0x20-0x7E without the backslash and 0xA1-0xFF without the soft hyphen |
| `HexFilter.TableEntries` | proxies/proxy.py:7-9 | HEX_FILTER has 256 entries; entry i is chr(i) when kept, "." otherwise |
| `HexFilter.Translate` | proxies/proxy.py:46 | the printable column has the slice's length; each character is kept or replaced by "."; characters past the table stay as they are |
| `HexFilter.TranslateIdempotent` | proxies/proxy.py:46 | translating the printable column again changes nothing |
| `Utf8Codec.LeadLength` | proxies/proxy.py:42 | a UTF-8 character takes at most four bytes, and never more than remain |
| `Utf8Codec.CodeValue` | proxies/proxy.py:42 | the leading character decodes to a Unicode scalar value, and its byte length is the shortest one for that value |
| `Utf8Codec.Decode` | proxies/proxy.py:41-42 | `src.decode()` succeeds exactly on well-formed UTF-8, with at most one character per byte |
| `Utf8Codec.EncodeChar` | proxies/proxy.py:42 | a character encodes to one to four bytes |
| `Utf8Codec.DecodeEncode` | proxies/proxy.py:42 | the encoding of any text is well formed and decodes back to the text |
| `Utf8Codec.CodeValueEncodes` | proxies/proxy.py:42 | a leading character's bytes are the encoding of the code point it decodes to |
| `Utf8Codec.EncodeDecode` | proxies/proxy.py:42 | what decoding returns encodes back to the input bytes: no byte is dropped or replaced |
| `Utf8Codec.DecodeAscii` | proxies/proxy.py:42 | ASCII bytes decode one character per byte, with the same codes |
| `Utf8Codec.HighByteInvalid` | proxies/proxy.py:42 | a lone byte at or above 0x80 is not UTF-8, so decoding it raises |
| `HexDump.LoopCount` | proxies/proxy.py:44 | a `range(start, stop, step)` loop with a positive step runs once per started block of `step` |
| `HexDump.LoopAt` | proxies/proxy.py:44 | iteration k of the loop runs its body at `start + k * step` |
| `HexDump.HexPairLatin1` | proxies/proxy.py:47 | `:02X` of a character below 256 is two uppercase digits that read back as its code |
| `HexDump.JoinHexPairs` | proxies/proxy.py:47 | the joined pairs are 3n-1 wide; pair j sits at columns 3j..3j+2, followed by a space between pairs |
| `HexDump.PadRight` | proxies/proxy.py:49 | left alignment keeps the text and fills the rest of the width with spaces |
| `HexDump.HexFieldLayout` | proxies/proxy.py:47-49 | the hex column is exactly 3·length wide: the pairs, their separators, then padding spaces |
| `HexDump.DecodeHexFieldRoundTrip` | proxies/proxy.py:47-48 | the slice can be recovered from its hex column |
| `HexDump.OffsetWidth` | proxies/proxy.py:49 | `:04x` of an offset is four digits exactly below 0x10000, and wider ones have no leading zero |
| `HexDump.LineLayout` | proxies/proxy.py:49 | a line is the offset in lowercase hex (4 digits below 0x10000, more above), a space, the hex column, a space, the printable column |
| `HexDump.HexDumpOf` | proxies/proxy.py:43-53 | on text, a zero length is an error and the only one; a negative length or empty input gives no lines |
| `HexDump.HexDumpCount` | proxies/proxy.py:44 | with length ≥ 1 there are ceil(n / length) lines, and none exactly when the input is empty |
| `HexDump.HexDumpLine` | proxies/proxy.py:44-49 | line k formats slice k (1 to length characters) at offset k·length |
| `HexDump.JoinSlicesPrefix` | proxies/proxy.py:45 | the first n slices join to the first n·length characters, clamped at the end |
| `HexDump.HexDumpSlicesCover` | proxies/proxy.py:44-45 | the slices of all lines join back to the input |
| `HexDump.ParseFormatLine` | proxies/proxy.py:49 | a formatted line parses back to its offset and slice |
| `HexDump.UndumpHexDump` | proxies/proxy.py:43-53 | reading the whole dump back, with each offset checked, recovers the input |
| `HexDump.HexDumpBytes` | proxies/proxy.py:41-53 | on bytes, the dump fails to decode exactly when the bytes are not UTF-8, fails on the step exactly when they are UTF-8 and the step is zero, and succeeds otherwise |
| `HexDump.UndumpBytes` | proxies/proxy.py:41-53 | the dump of UTF-8 bytes whose characters are below U+0100 reads back to the decoded text, and that text encodes back to the bytes |
| `Chunks.BytesAsText` | proxies/proxy.py:41-42 | (corrected log, see ## Findings) reading bytes as Latin-1 gives one character per byte, whose code is that byte |
| `HexDump.HexDumpAscii` | proxies/proxy.py:41-53 | the dump of ASCII bytes is the dump of the text with the same codes, one line per started block of `length` bytes |
| `HexDump.HexDumpRaw` | proxies/proxy.py:41-53 | (corrected log, see ## Findings) dumping the bytes themselves fails only on a zero step |
| `HexDump.UndumpRaw` | proxies/proxy.py:43-53 | (corrected log, see ## Findings) the dump of the bytes themselves reads back to one character per byte, with that byte's code |
| `Chunks.FlattenAppend` | proxies/proxy.py:76 | joining chunks distributes over concatenation |
| `Drain.StopAt` | proxies/proxy.py:71-74 | the drain stops at the first read that does not deliver data |
| `Drain.ReceiveFrom` | proxies/proxy.py:56-81 | the buffer is the bytes delivered before the first empty or failing read; that read is consumed; the buffer is empty exactly when the first read delivers nothing |
| `Drain.PayloadAppend` | proxies/proxy.py:76 | the bytes of two runs of reads are the bytes of each, in order |
| `Drain.PayloadSkip` | proxies/proxy.py:73-74 | a read that delivers nothing adds no bytes |
| `Drain.PayloadSplit` | proxies/proxy.py:71-76 | the bytes of one drain and of the reads after it are the bytes of the whole script |
| `Drain.DrainAllPayload` | proxies/proxy.py:56-81 | successive drains together deliver every byte of the script, in order, once |
| `Relay.RequestHandler` | proxies/proxy.py:84-99 | the request hook returns its buffer unchanged |
| `Relay.ResponseHandler` | proxies/proxy.py:102-117 | the response hook returns its buffer unchanged |
| `Relay.Dumps` | proxies/proxy.py:155 | the `hexdump(buffer)` call on a drain returns exactly when the drain is UTF-8 |
| `Relay.DumpsRaw` | proxies/proxy.py:41-42 | (corrected log, see ## Findings) with the decode replaced by reading the bytes as they are, logging a drain always returns |
| `Relay.Step` | proxies/proxy.py:151-180 | a transition leaves an ended session alone; otherwise it leaves CONNECTING, shrinks the measure and only appends to the trace; a transition that raises ends the trace on the drain that could not be logged |
| `Relay.Run` | proxies/proxy.py:157-180 | the loop always ends, closed or aborted, with its trace extending the one before |
| `Relay.Iterations` | proxies/proxy.py:157-180 | the number of passes is one more than the number of leading passes in which both drains are logged and both hooked buffers are non-empty |
| `Relay.ForwardTraffic` | proxies/proxy.py:159-174 | a buffer is sent, after its hook, only when something was drained, and only to the opposite peer |
| `Relay.ClientHalfTraffic` | proxies/proxy.py:158-167 | draining and forwarding the client, then draining the remote, sends only the hooked client drain, and only when it is non-empty |
| `Relay.IterationTraffic` | proxies/proxy.py:158-174 | a whole pass sends the hooked client drain to the remote if it is non-empty, and the hooked remote drain to the client if that is non-empty, whatever the client drained; it closes nothing |
| `Relay.PassTraffic` | proxies/proxy.py:158-180 | a pass that raises on the client drain sends nothing; one that raises on the remote drain only forwards the client drain; neither closes anything; a pass that raises on neither forwards both, and closes each socket once when it ends the loop |
| `Relay.FullPassTraffic` | proxies/proxy.py:158-180 | a pass that raises on neither drain forwards both and closes each socket once exactly when it ends the loop |
| `Relay.StepTraffic` | proxies/proxy.py:157-180 | what one pass adds to each peer's sends and closes |
| `Relay.CountsStep` | proxies/proxy.py:157-180 | after a pass that goes on, the rest of the loop runs one pass fewer and ends the same way |
| `Relay.RelayTraffic` | proxies/proxy.py:157-180 | over the whole loop each peer is sent the hooked non-empty drains of the other from the passes that reach that send, and is closed once, or not at all when logging raised |
| `Relay.RelayEnd` | proxies/proxy.py:157-180 | the loop takes one client drain per pass and one remote drain per pass that reaches it; it closes, with the two closes last, or aborts, with the failing drain last |
| `Relay.RunIgnoresFlag` | proxies/proxy.py:151-155 | `receive_first` matters only before the loop |
| `Relay.ReceiveFirstOnlyLogs` | proxies/proxy.py:151-155 | with `receive_first`, a greeting that cannot be logged ends the session; otherwise the session is the one without the flag on the remote script minus its first drain, with that drain only recorded as received |
| `Relay.ConnectedTraffic` | proxies/proxy.py:151-155 | nothing is sent or closed before the loop |
| `Relay.ProxyTraffic` | proxies/proxy.py:120-180 | the whole session: the greeting is never sent; the sends to each peer are the hooked non-empty drains of the other that reach their send; each socket is closed exactly once, at the end, unless a log raised, in which case neither is and the trace ends on that drain; the drains taken are counted |
| `Relay.HookedIdentity` | proxies/proxy.py:84-117 | with the shipped handlers, the forwarded buffers are exactly the non-empty drains |
| `Relay.FlattenNonEmpty` | proxies/proxy.py:159-174 | skipping empty drains loses no bytes |
| `Relay.SourceRaises` | proxies/proxy.py:153-155 | as shipped, logging a drain raises exactly when the drain is not UTF-8 |
| `Relay.SourceClean` | proxies/proxy.py:157-180 | as shipped, a pass goes on exactly when both drains are non-empty UTF-8 |
| `Relay.SourcePasses` | proxies/proxy.py:157-180 | as shipped, the loop goes on while both peers drain non-empty UTF-8; its last pass aborts exactly when one of its drains is not UTF-8, and otherwise has an empty drain |
| `Relay.SourceGreeting` | proxies/proxy.py:151-155 | as shipped, a greeting that is not UTF-8 ends the session before the loop, with nothing sent or closed |
| `Relay.SourceSession` | proxies/proxy.py:120-180 | as shipped, past the greeting, the sends are the non-empty drains that reach their send, and the session closes exactly when no log raised |
| `Relay.IdentitySends` | proxies/proxy.py:157-180 | the sends and phase of the shipped loop, stated through the drains |
| `Relay.IdentityRelay` | proxies/proxy.py:120-180 | as shipped, each peer receives the non-empty drains, and so the bytes, of the other up to the first drain that is not UTF-8; the session closes exactly when the last pass's drains are UTF-8, and then one of them is empty |
| `Relay.BinaryKillsSession` | proxies/proxy.py:158-164 | as shipped, a first client drain that is not UTF-8 ends the session with nothing sent and no socket closed |
| `Relay.BinaryKillsSessionExample` | proxies/proxy.py:158-164 | one byte 0xFF from the client ends the session after that drain, with the remote's data never read |
| `Relay.FixedClean` | proxies/proxy.py:157-180 | with a log that never raises, no pass aborts, and a pass goes on exactly when both drains are non-empty |
| `Relay.TransparentRelay` | proxies/proxy.py:157-180 | with a log of the bytes themselves, the session always closes both sockets once, and each peer receives exactly the non-empty drains, and so the bytes, of the other |
| `Relay.ClientIdle` | proxies/proxy.py:157-180 | an empty client drain still lets the remote be drained; it is answered before both sockets close, or, when it cannot be logged, ends the session |
| `Relay.ExhaustedScripts` | proxies/proxy.py:176-180 | used-up scripts end the loop, at most one pass past the shorter script |

## Findings

| source | as written | input that shows it | evidently intended | confidence | as-written member | corrected member |
|---|---|---|---|---|---|---|
| proxies/proxy.py:41-42 | `hexdump` decodes every buffer with strict UTF-8, and `proxy_handler` calls it on each drain before sending (lines 155, 161, 170); a drain that is not UTF-8 raises `UnicodeDecodeError`, the session's thread dies before the send, and neither socket is closed | the client sends the single byte 0xFF | the proxy relays any bytes and only logs them, so binary traffic is forwarded like text | not executed; high | `Relay.BinaryKillsSession` | `Relay.TransparentRelay` |

The relay is stated once, for any hooks. `SourceHooks` instantiates it
with the source's `hexdump` (`Relay.Dumps`), and `FixedHooks` with a dump of
the bytes themselves (`HexDump.HexDumpRaw`, through `Relay.DumpsRaw`), which
never raises. `Relay.IdentityRelay` states what the source does;
`Relay.TransparentRelay` states the intended transparency for the
corrected log.

## Left out

- Printing: `show=True`, the `[<==]`/`[==>]` messages and the exception message in `receive_from` are output only. The `hexdump` model returns the lines.
- Real sockets: `settimeout(10)` and `recv(4096)` appear only as read outcomes, where a timeout is one kind of `Error`. The 4096-byte read size is not modelled.
- Relay.ProxyTraffic: `send` is modelled as delivering the whole buffer. A short write is not modelled, because the source does not check what `send` returns. A failing `send` or `connect` ends the source's thread with an exception; the model has no such path. The only exception it models is the one `hexdump` raises.
- Relay.Step: an ABORTED session stands for the end of the thread. What the uncaught exception does after that (the traceback the thread prints, the sockets left to the garbage collector) is not modelled.
- `server_loop`: binding, `listen(5)`, the accept loop and the one thread per client are left out. Concurrency is not modelled. Sessions share no state, so each one is `ProxyHandler` on its own scripts. Failure to bind prints a message and calls `exit(0)`.
- `main`: argument parsing is left out. Note that `bool(argv[5])` is true for every non-empty string, `"False"` included.
- `hexdump` on a `str` holding a lone surrogate: a Dafny `char` is a Unicode scalar value, so such text cannot be written down. Decoded bytes never contain one, because strict UTF-8 rejects encoded surrogates.
- `HexDump.HexFieldLayout`, `HexDump.LineLayout`, `HexDump.UndumpHexDump`: these are stated for text below U+0100. Above that, the definitions still follow the source (wider pairs, untranslated characters), but no layout lemma is proved there.
- The other programs of the repository (the netcat tool and the TCP/UDP client and server scripts) are not part of this model.
