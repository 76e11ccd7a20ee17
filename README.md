# IApplicationDisplayService, modelled in Dafny

This project models `IApplicationDisplayService`, the `vi:` display service of the Ryujinx
emulator's OS layer. The model covers:

- the command table, which maps nine IPC command codes to their handlers;
- the handlers for opening a display, opening or creating a layer, setting a layer's
  scaling mode and fetching the display's VSync event;
- the display-name reader that several handlers share;
- the 0x28-byte Android `flat_binder_object` record that describes the
  IGraphicBufferProducer handed back to the guest.

Modules, in dependency order:

| module | file | what it holds |
|---|---|---|
| `Wrappers` | `wrappers.dfy` | `Option` and `Result` |
| `LittleEndian` | `little_endian.dfy` | the bytes that .NET `BinaryWriter.Write(int/long)` produces and that `BinaryReader.ReadInt32/ReadInt64` reads back; the unchecked `(int)` cast; the split of a `long` into its low and high `int` words; `Datum`, one typed write, and `Serialize`, the bytes a sequence of writes leaves in a stream |
| `FlatBinder` | `flat_binder.dfy` | the record as a pure function (`Encode`), the `BinaryWriter` calls that produce it (`FlatBinderWrites`), a symmetric decoder and the layout lemmas |
| `Streams` | `streams.dfy` | `ByteReader`, the request cursor; `ByteWriter`, the response stream, which records its writes (its bytes are `Serialize` of them) |
| `Os` | `os.dfy` | `Display`, `HEvent` and `Registry<T>`, the id pools behind `Displays` and `Handles` |
| `ServiceContext` | `service_context.dfy` | `ServiceCtx`: request, response, receive buffers, the two pools, the response's handle descriptor and a log of guest-memory writes |
| `DisplayName` | `display_name.dfy` | the printable-byte filter that specifies `GetDisplayName`, with its lemmas |
| `ViDisplayService` | `display_service.dfy` | the command table, `ApplicationDisplayService` with its handlers, and `Dispatch` |

The service is a class whose handlers are methods. Each handler changes the context in place
and returns `Ok(0)`, the C# `return 0`. A .NET exception that aborts the call becomes an
`Err`:

- `UnexpectedEndOfRequest` when a typed read runs past the request bytes;
- `BufferIndexOutOfRange` when `ReceiveBuff[0]` does not exist;
- `UnknownCommand` when no handler exists for the code.

In every handler all reads come before the first write. A call that fails therefore leaves the
response and guest memory untouched. Each handler's whole effect is stated as a two-state
predicate (`OpenDisplayEffect`, `ProducerCallEffect`, `SetLayerScalingModeEffect`,
`GetDisplayVSyncEventEffect`). `Dispatch` promises the effect of the handler that the table
names for the code.

`MakeParcel` belongs to the Android parcel code and is not part of this model. The service
takes it as a function-valued parameter, `makeParcel`, whose result is a .NET `byte[]` (fewer
than 2^31 bytes). The `BasePtr` argument of `MakeIGraphicsBufferProducer` is unused in the
source, and in the model too.

The model follows the code in these places:

- `CreateStrayLayer` looks up the display (line 96) but never checks or uses the result. An
  unknown display id therefore does not fail the call, and the model has no
  display-not-found error.
- `OpenDisplay` does not reject an empty name.
- Two opens of the same name register two displays.
- The token slot of the record is the 8 bytes `"dispdrv\0"`, exactly as written.

## Model

| member | source | states |
|---|---|---|
| ViDisplayService.CommandTableCodes | Ryujinx/OsHle/Objects/Vi/IApplicationDisplayService.cs:20-31 | the table has exactly the codes 100, 101, 102, 103, 1010, 2020, 2030, 2101 and 5202 |
| ViDisplayService.CommandTableBijective | Ryujinx/OsHle/Objects/Vi/IApplicationDisplayService.cs:20-31 | every handler is registered, under exactly one code, and each code maps back to its handler |
| ViDisplayService.ApplicationDisplayService.Dispatch | Ryujinx/OsHle/Objects/Vi/IApplicationDisplayService.cs:14-60 | an unknown code fails with UnknownCommand and changes nothing; a known code has the effect of the handler the read-only table names; each of the four getters returns 0 and leaves the request, the displays and guest memory unchanged; how they hand the new object to the guest is not modelled |
| ViDisplayService.ApplicationDisplayService.GetDisplayName | Ryujinx/OsHle/Objects/Vi/IApplicationDisplayService.cs:157-174 | the cursor advances by min(8, remaining) and never past the end; the name is the printable bytes among those consumed, in order; it has at most 8 characters, all in 0x20..0x7E |
| DisplayName.NameBytesConsumed | Ryujinx/OsHle/Objects/Vi/IApplicationDisplayService.cs:161-163 | the loop consumes at most 8 bytes and no more than remain; it stops at 8 or at the end of the stream |
| DisplayName.PrintableOfBounds | Ryujinx/OsHle/Objects/Vi/IApplicationDisplayService.cs:159-173 | the name is no longer than its bytes and every character is printable ASCII |
| DisplayName.PrintableOfConcat | Ryujinx/OsHle/Objects/Vi/IApplicationDisplayService.cs:165-170 | the filter keeps byte order: filtering a + b is filtering a, then b |
| DisplayName.PrintableOfSkips | Ryujinx/OsHle/Objects/Vi/IApplicationDisplayService.cs:167-170 | a non-printable byte (NUL included) is dropped and does not end the name |
| DisplayName.PrintableOfAllPrintable | Ryujinx/OsHle/Objects/Vi/IApplicationDisplayService.cs:167-170 | bytes that are all printable come through unchanged, character for character |
| DisplayName.PrintableOfCounts | Ryujinx/OsHle/Objects/Vi/IApplicationDisplayService.cs:165-170 | each printable byte appears in the name exactly as often as in the bytes; no non-printable character appears |
| DisplayName.NulIsSkipped | Ryujinx/OsHle/Objects/Vi/IApplicationDisplayService.cs:167-170 | the bytes 'A', NUL, 'B' give the name "AB" |
| ViDisplayService.ApplicationDisplayService.OpenDisplay | Ryujinx/OsHle/Objects/Vi/IApplicationDisplayService.cs:62-71 | reads the name as GetDisplayName does, registers a Display with it under a fresh id, appends exactly that id as one long and returns 0; handles and guest memory are unchanged |
| ViDisplayService.ApplicationDisplayService.OpenLayer | Ryujinx/OsHle/Objects/Vi/IApplicationDisplayService.cs:73-87 | consumes two longs, writes the producer parcel at receive buffer 0 and appends only its length; a short request or a missing buffer fails before anything is written |
| ViDisplayService.ApplicationDisplayService.CreateStrayLayer | Ryujinx/OsHle/Objects/Vi/IApplicationDisplayService.cs:89-106 | consumes two longs, writes the producer parcel at receive buffer 0 and appends exactly long 0, then the parcel's length; errors as for OpenLayer; the display lookup does not affect the result |
| ViDisplayService.ApplicationDisplayService.PlaceProducerParcel | Ryujinx/OsHle/Objects/Vi/IApplicationDisplayService.cs:78-82 | the parcel from MakeIGraphicsBufferProducer is written at the address of receive buffer 0, and its length is returned |
| ViDisplayService.StrayLayerResponseReadsBack | Ryujinx/OsHle/Objects/Vi/IApplicationDisplayService.cs:101-102 | CreateStrayLayer's 16 response bytes read back as layer id 0 and the parcel length |
| ViDisplayService.ApplicationDisplayService.SetLayerScalingMode | Ryujinx/OsHle/Objects/Vi/IApplicationDisplayService.cs:108-114 | consumes one int and one long (12 bytes), writes nothing and returns 0; a short request fails with the cursor at the end |
| ViDisplayService.ApplicationDisplayService.GetDisplayVSyncEvent | Ryujinx/OsHle/Objects/Vi/IApplicationDisplayService.cs:116-125 | reads a display name, registers an event under a fresh handle and sets the response's handle descriptor to a copy of that handle; the response bytes are unchanged |
| ViDisplayService.ApplicationDisplayService.MakeIGraphicsBufferProducer | Ryujinx/OsHle/Objects/Vi/IApplicationDisplayService.cs:127-155 | the parcel is MakeParcel applied to exactly the encoded producer record and the four-byte zero payload |
| ViDisplayService.ApplicationDisplayService.WriteFlatBinderObject | Ryujinx/OsHle/Objects/Vi/IApplicationDisplayService.cs:136-151 | the writer receives exactly the record's writes, in order: type, flags, binder low and high, cookie low and high, eight token bytes, a zero long |
| ViDisplayService.ApplicationDisplayService.WriteLongAsWords | Ryujinx/OsHle/Objects/Vi/IApplicationDisplayService.cs:139-142 | a long is written as the int `(int)(v >> 0)`, then the int `(int)(v >> 32)` |
| ViDisplayService.ApplicationDisplayService.WriteToken | Ryujinx/OsHle/Objects/Vi/IApplicationDisplayService.cs:143-150 | the token goes out one byte write per byte, in order |
| FlatBinder.SerializeFlatBinderWrites | Ryujinx/OsHle/Objects/Vi/IApplicationDisplayService.cs:136-153 | the stream those writes fill holds exactly the encoded record |
| FlatBinder.Encode | Ryujinx/OsHle/Objects/Vi/IApplicationDisplayService.cs:136-151 | the record is always exactly 0x28 bytes |
| FlatBinder.EncodeFields | Ryujinx/OsHle/Objects/Vi/IApplicationDisplayService.cs:136-151 | where each field sits: six 4-byte ints at 0..24, the token at 24..32, the zero pad at 32..40 |
| FlatBinder.EncodeBinderBytes | Ryujinx/OsHle/Objects/Vi/IApplicationDisplayService.cs:139-140 | bytes 8..16 are the binder id as one little-endian long |
| FlatBinder.EncodeCookieBytes | Ryujinx/OsHle/Objects/Vi/IApplicationDisplayService.cs:141-142 | bytes 16..24 are the cookie as one little-endian long |
| FlatBinder.Decode | Ryujinx/OsHle/Objects/Vi/IApplicationDisplayService.cs:136-151 | a symmetric reader succeeds exactly on inputs of at least 0x28 bytes and takes the token from bytes 24..32 |
| FlatBinder.EncodeDecode | Ryujinx/OsHle/Objects/Vi/IApplicationDisplayService.cs:136-151 | decoding an encoded record gives back type, flags, id, cookie and token |
| FlatBinder.DecodeEncode | Ryujinx/OsHle/Objects/Vi/IApplicationDisplayService.cs:136-151 | every 0x28-byte record with a zero pad is the encoding of what it decodes to |
| FlatBinder.ProducerRecordLayout | Ryujinx/OsHle/Objects/Vi/IApplicationDisplayService.cs:129-151 | the producer record byte for byte: type 2, flags 0, id low 0x20 and high 0, cookie 0, "dispdrv\0", eight zero bytes |
| LittleEndian.ToInt32 | Ryujinx/OsHle/Objects/Vi/IApplicationDisplayService.cs:139-142 | the unchecked `(int)` cast keeps the value modulo 2^32 and leaves an in-range value unchanged |
| LittleEndian.SplitJoin | Ryujinx/OsHle/Objects/Vi/IApplicationDisplayService.cs:139-142 | recombining `(uint)low + ((long)high << 32)` gives back the original long |
| LittleEndian.JoinSplit | Ryujinx/OsHle/Objects/Vi/IApplicationDisplayService.cs:139-142 | splitting a recombined long gives back its two words |
| LittleEndian.SplitWordsBytes | Ryujinx/OsHle/Objects/Vi/IApplicationDisplayService.cs:139-142 | writing the low word and then the high word writes the same 8 bytes as writing the long |
| LittleEndian.SerializeLongAsWords | Ryujinx/OsHle/Objects/Vi/IApplicationDisplayService.cs:139-142 | the two int writes of a long's halves leave the bytes of one long write |
| LittleEndian.SerializeByteWrites | Ryujinx/OsHle/Objects/Vi/IApplicationDisplayService.cs:143-150 | writing bytes one at a time leaves exactly those bytes |
| LittleEndian.SerializeAppend | Ryujinx/OsHle/Objects/Vi/IApplicationDisplayService.cs:134-151 | successive writes to one stream concatenate |
| LittleEndian.LeValueOfLeBytes | Ryujinx/OsHle/Objects/Vi/IApplicationDisplayService.cs:137-151 | the n little-endian bytes written for a value read back as that value modulo 256^n |
| LittleEndian.LeBytesOfLeValue | Ryujinx/OsHle/Objects/Vi/IApplicationDisplayService.cs:137-151 | any byte string is the encoding of its own value |
| LittleEndian.Int32RoundTrip | Ryujinx/OsHle/Objects/Vi/IApplicationDisplayService.cs:110 | ReadInt32 of the bytes Write(int) produces gives the int back |
| LittleEndian.Int32BytesRoundTrip | Ryujinx/OsHle/Objects/Vi/IApplicationDisplayService.cs:110 | Write(int) of what ReadInt32 reads reproduces the four bytes |
| LittleEndian.Int64RoundTrip | Ryujinx/OsHle/Objects/Vi/IApplicationDisplayService.cs:75-76 | ReadInt64 of the bytes Write(long) produces gives the long back |
| LittleEndian.Int64BytesRoundTrip | Ryujinx/OsHle/Objects/Vi/IApplicationDisplayService.cs:75-76 | Write(long) of what ReadInt64 reads reproduces the eight bytes |
| LittleEndian.Int64OfValue | Ryujinx/OsHle/Objects/Vi/IApplicationDisplayService.cs:75-76 | ReadInt64 reads the little-endian value of its bytes as a two's-complement long |
| Streams.ByteReader.ReadByte | Ryujinx/OsHle/Objects/Vi/IApplicationDisplayService.cs:165 | the next byte and a one-byte advance, or nothing at the end of the stream |
| Streams.ByteReader.ReadInt32 | Ryujinx/OsHle/Objects/Vi/IApplicationDisplayService.cs:110 | the int in the next four bytes and a four-byte advance; a short stream fails and leaves the cursor at its end |
| Streams.ByteReader.ReadInt64 | Ryujinx/OsHle/Objects/Vi/IApplicationDisplayService.cs:75-76 | the long in the next eight bytes and an eight-byte advance; a short stream fails and leaves the cursor at its end |
| Streams.ByteWriter.WriteByte | Ryujinx/OsHle/Objects/Vi/IApplicationDisplayService.cs:143-150 | appends one byte write and nothing else |
| Streams.ByteWriter.WriteInt32 | Ryujinx/OsHle/Objects/Vi/IApplicationDisplayService.cs:137-142 | appends one int write and nothing else |
| Streams.ByteWriter.WriteInt64 | Ryujinx/OsHle/Objects/Vi/IApplicationDisplayService.cs:68 | appends one long write and nothing else |
| Os.Registry.GenerateId | Ryujinx/OsHle/Objects/Vi/IApplicationDisplayService.cs:66 | the new id was free before and now resolves (GetData) to the object; every other id resolves as before; the new id is above every id bound earlier, so the ids a pool hands out are pairwise distinct; the pool stays well formed |
| ServiceContext.ServiceCtx.WriteBytes | Ryujinx/OsHle/Objects/Vi/IApplicationDisplayService.cs:82 | one (address, bytes) entry is appended to the guest-memory write log |

## Left out

- `MakeObject` and the services it creates (`IHOSBinderDriver`, `ISystemDisplayService`, `IManagerDisplayService`) are not part of this model. The four getters (lines 34-60) return 0; how they hand the new object to the guest is not modelled, so the model says nothing about the response writes, the handle pool or the response's handle descriptor after them.
- `MakeParcel` is not part of this model. Its framing is not modelled: it is an arbitrary function whose result has fewer than 2^31 bytes.
- Os.Registry.GenerateId: requires a free id below `int.MaxValue`. How the `Displays` and `Handles` pools behave when exhausted is not shown, so the model does not cover it.
- ViDisplayService.ApplicationDisplayService.OpenDisplay: requires that the display pool can still issue an id, for the reason above.
- ViDisplayService.ApplicationDisplayService.GetDisplayVSyncEvent: requires that the handle pool can still issue an id, for the reason above.
- ViDisplayService.ApplicationDisplayService.Dispatch: passes the two pool requirements above through, for codes 1010 and 5202.
- Guest memory (`AMemoryHelper.WriteBytes`, `Context.Memory`) is a log of (address, bytes) writes. The receive buffer's size is not checked, matching the code.
- `HEvent` carries no state. Signalling it on VSync, and the kernel's handle table, are not modelled.
- Concurrent use of the shared pools is not modelled. The model is sequential.
- .NET exceptions are modelled only as the three `IpcError` values that abort a call. The IPC layer that turns them into a result code is not part of this model.
