/**
 * IApplicationDisplayService of the vi: services: its command table, the
 * handlers it dispatches to, the display-name reader they share and the
 * IGraphicBufferProducer parcel they hand back to the guest.
 */
module ViDisplayService {
  import opened LittleEndian
  import opened Wrappers
  import opened Streams
  import opened Os
  import opened ServiceContext
  import opened FlatBinder
  import opened DisplayName

  /** The handlers of the service, one per command code. */
  datatype Command =
    | GetRelayService
    | GetSystemDisplayService
    | GetManagerDisplayService
    | GetIndirectDisplayTransactionService
    | OpenDisplay
    | OpenLayer
    | CreateStrayLayer
    | SetLayerScalingMode
    | GetDisplayVSyncEvent

  /** The table the constructor builds, from command code to handler. */
  const COMMANDS: map<int, Command> := map[
     100 := GetRelayService,
     101 := GetSystemDisplayService,
     102 := GetManagerDisplayService,
     103 := GetIndirectDisplayTransactionService,
    1010 := OpenDisplay,
    2020 := OpenLayer,
    2030 := CreateStrayLayer,
    2101 := SetLayerScalingMode,
    5202 := GetDisplayVSyncEvent
  ]

  /** The code each handler is registered under. */
  function CommandCode(c: Command): int
  {
    match c
    case GetRelayService => 100
    case GetSystemDisplayService => 101
    case GetManagerDisplayService => 102
    case GetIndirectDisplayTransactionService => 103
    case OpenDisplay => 1010
    case OpenLayer => 2020
    case CreateStrayLayer => 2030
    case SetLayerScalingMode => 2101
    case GetDisplayVSyncEvent => 5202
  }

  /** Exactly nine codes have a handler. */
  lemma CommandTableCodes()
    ensures COMMANDS.Keys == {100, 101, 102, 103, 1010, 2020, 2030, 2101, 5202}
  {
  }

  /** Every handler is reachable, under exactly one code. */
  lemma CommandTableBijective(c: Command, code: int)
    ensures CommandCode(c) in COMMANDS && COMMANDS[CommandCode(c)] == c
    ensures code in COMMANDS ==> CommandCode(COMMANDS[code]) == code
  {
  }

  /** A .NET byte[]: its Length is an int. */
  type ByteArray = s: seq<byte> | |s| < 0x8000_0000

  /** MakeParcel from the Android parcel code, which is not part of this model. */
  type ParcelMaker = (seq<byte>, seq<byte>) -> ByteArray

  /** The four zero bytes of data that follow the producer record in its parcel. */
  const PRODUCER_PAYLOAD: seq<byte> := [0, 0, 0, 0]

  /** What CreateStrayLayer writes to the response: the layer id (always 0), then the parcel's length. */
  function StrayLayerResponse(parcelLength: int64): (w: seq<Datum>)
  {
    [Long(0), Long(parcelLength)]
  }

  /** Read back as two longs, CreateStrayLayer's response gives layer 0 and the parcel's length. */
  lemma StrayLayerResponseReadsBack(parcelLength: int64)
    ensures |Serialize(StrayLayerResponse(parcelLength))| == 16
    ensures Int64Of(Serialize(StrayLayerResponse(parcelLength))[..8]) == 0
    ensures Int64Of(Serialize(StrayLayerResponse(parcelLength))[8..]) == parcelLength
  {
    SerializePair(Long(0), Long(parcelLength));
    Int64RoundTrip(0);
    Int64RoundTrip(parcelLength);
  }

  /** A handler's answer: its result code, or the exception that aborts the call. */
  type HandlerResult = Result<int64, IpcError>

  class ApplicationDisplayService {
    /** Built once and never changed afterwards. */
    const commands: map<int, Command> := COMMANDS
    const makeParcel: ParcelMaker

    constructor (makeParcel: ParcelMaker)
      ensures this.makeParcel == makeParcel
    {
      this.makeParcel := makeParcel;
    }

    /** The parcel OpenLayer and CreateStrayLayer place in the guest's receive buffer. */
    function ProducerParcel(): (p: seq<byte>)
    {
      makeParcel(Encode(ProducerObject()), PRODUCER_PAYLOAD)
    }

    /**
     * The BinaryWriter calls that lay out a flat_binder_object: six ints
     * (each long as its low then its high word), the token byte by byte and
     * a zero long of padding.
     */
    static method WriteFlatBinderObject(writer: ByteWriter, o: FlatBinderObject)
      requires |o.token| == TOKEN_SIZE
      modifies writer
      ensures writer.written == old(writer.written) + FlatBinderWrites(o)
    {
      writer.WriteInt32(o.kind);
      writer.WriteInt32(o.flags);
      WriteLongAsWords(writer, o.binder);
      WriteLongAsWords(writer, o.cookie);
      WriteToken(writer, o.token);
      writer.WriteInt64(0);
    }

    /** A long written as two ints: its low word (`v >> 0`), then its high word (`v >> 32`). */
    static method WriteLongAsWords(writer: ByteWriter, v: int64)
      modifies writer
      ensures writer.written == old(writer.written) + LongAsWords(v)
    {
      writer.WriteInt32(ToInt32(v));
      writer.WriteInt32(ToInt32(v / WORD32));
    }

    /** The eight token bytes, one Write(byte) each. */
    static method WriteToken(writer: ByteWriter, token: seq<byte>)
      requires |token| == TOKEN_SIZE
      modifies writer
      ensures writer.written == old(writer.written) + ByteWrites(token)
    {
      writer.WriteByte(token[0]);
      writer.WriteByte(token[1]);
      writer.WriteByte(token[2]);
      writer.WriteByte(token[3]);
      writer.WriteByte(token[4]);
      writer.WriteByte(token[5]);
      writer.WriteByte(token[6]);
      writer.WriteByte(token[7]);
      assert ByteWrites(token) == [Byte(token[0]), Byte(token[1]), Byte(token[2]), Byte(token[3]),
                                   Byte(token[4]), Byte(token[5]), Byte(token[6]), Byte(token[7])];
    }

    /** Writes the producer's flat_binder_object and wraps it in a parcel. */
    method MakeIGraphicsBufferProducer(basePtr: int64) returns (parcel: seq<byte>)
      ensures parcel == makeParcel(Encode(ProducerObject()), PRODUCER_PAYLOAD)
    {
      var writer := new ByteWriter();
      WriteFlatBinderObject(writer, ProducerObject());
      assert writer.written == FlatBinderWrites(ProducerObject());
      SerializeFlatBinderWrites(ProducerObject());
      parcel := makeParcel(writer.Bytes(), PRODUCER_PAYLOAD);
    }

    /** Reads up to eight request bytes and keeps the printable ones. */
    method GetDisplayName(ctx: ServiceCtx) returns (name: string)
      requires ctx.requestData.Valid()
      modifies ctx.requestData
      ensures ctx.requestData.Valid()
      ensures ctx.requestData.position
        == old(ctx.requestData.position) + NameBytesConsumed(old(ctx.requestData.Remaining()))
      ensures name == PrintableOf(ctx.requestData.data[old(ctx.requestData.position)..ctx.requestData.position])
      ensures |name| <= NAME_BYTES
      ensures forall i :: 0 <= i < |name| ==> 0x20 <= name[i] as int < 0x7F
    {
      var reader := ctx.requestData;
      ghost var start := reader.position;
      name := [];
      var index := 0;
      while index < NAME_BYTES && reader.position < |reader.data|
        invariant reader.Valid()
        invariant 0 <= index <= NAME_BYTES
        invariant reader.position == start + index
        invariant name == PrintableOf(reader.data[start..reader.position])
      {
        var chr := reader.ReadByte();
        assert reader.data[start..reader.position][..index] == reader.data[start..reader.position - 1];
        if chr.Some? && IsPrintable(chr.value) {
          name := name + [chr.value as char];
        }
        index := index + 1;
      }
      PrintableOfBounds(reader.data[start..reader.position]);
    }

    twostate predicate OpenDisplayEffect(ctx: ServiceCtx, new r: HandlerResult)
      reads ctx, ctx.requestData, ctx.responseData, ctx.displays, ctx.handles
    {
      var start := old(ctx.requestData.position);
      var id := old(ctx.displays.nextId);
      && start <= ctx.requestData.position <= |ctx.requestData.data|
      && r == Ok(0)
      && ctx.requestData.position - start == NameBytesConsumed(|ctx.requestData.data| - start)
      && ctx.displays.objects
         == old(ctx.displays.objects)[id := Display(PrintableOf(ctx.requestData.data[start..ctx.requestData.position]))]
      && ctx.displays.nextId == id + 1
      && id < 0x8000_0000
      && ctx.responseData.written == old(ctx.responseData.written) + [Long(id)]
      && unchanged(ctx.handles)
      && ctx.handleDesc == old(ctx.handleDesc) && ctx.memoryWrites == old(ctx.memoryWrites)
    }

    /** OpenDisplay: register a display under the name in the request and answer its id. */
    method OpenDisplay(ctx: ServiceCtx) returns (r: HandlerResult)
      requires ctx.Valid() && ctx.displays.CanGenerate()
      modifies ctx.requestData, ctx.responseData, ctx.displays
      ensures ctx.Valid() && OpenDisplayEffect(ctx, r)
    {
      var name := GetDisplayName(ctx);
      var displayId := ctx.displays.GenerateId(Display(name));
      ctx.responseData.WriteInt64(displayId);
      r := Ok(0);
    }

    /**
     * The effect shared by OpenLayer and CreateStrayLayer: two longs read,
     * the producer parcel written to receive buffer 0 and `response`
     * appended to the response writes.
     */
    twostate predicate ProducerCallEffect(ctx: ServiceCtx, new r: HandlerResult, response: seq<Datum>)
      reads ctx, ctx.requestData, ctx.responseData, ctx.displays, ctx.handles
    {
      var start := old(ctx.requestData.position);
      && start <= |ctx.requestData.data|
      && unchanged(ctx.displays) && unchanged(ctx.handles)
      && ctx.handleDesc == old(ctx.handleDesc)
      && if |ctx.requestData.data| - start < 16 then
           && r == Err(UnexpectedEndOfRequest)
           && ctx.requestData.position == |ctx.requestData.data|
           && ctx.responseData.written == old(ctx.responseData.written)
           && ctx.memoryWrites == old(ctx.memoryWrites)
         else if ctx.receiveBuff == [] then
           && r == Err(BufferIndexOutOfRange)
           && ctx.requestData.position == start + 16
           && ctx.responseData.written == old(ctx.responseData.written)
           && ctx.memoryWrites == old(ctx.memoryWrites)
         else
           && r == Ok(0)
           && ctx.requestData.position == start + 16
           && ctx.responseData.written == old(ctx.responseData.written) + response
           && ctx.memoryWrites == old(ctx.memoryWrites) + [MemoryWrite(ctx.receiveBuff[0].position, ProducerParcel())]
    }

    /**
     * The steps OpenLayer and CreateStrayLayer share once their arguments are
     * read: build the producer parcel, write it at the address of receive
     * buffer 0 and report its length.
     */
    method PlaceProducerParcel(ctx: ServiceCtx) returns (parcelLength: int64)
      requires |ctx.receiveBuff| > 0
      modifies ctx
      ensures parcelLength == |ProducerParcel()|
      ensures ctx.memoryWrites == old(ctx.memoryWrites) + [MemoryWrite(ctx.receiveBuff[0].position, ProducerParcel())]
      ensures ctx.handleDesc == old(ctx.handleDesc)
    {
      var parcelPtr := ctx.receiveBuff[0].position;
      var parcel := MakeIGraphicsBufferProducer(parcelPtr);
      ctx.WriteBytes(parcelPtr, parcel);
      parcelLength := |parcel|;
    }

    /** OpenLayer: read the layer and user ids, answer the parcel's length. */
    method OpenLayer(ctx: ServiceCtx) returns (r: HandlerResult)
      requires ctx.Valid()
      modifies ctx, ctx.requestData, ctx.responseData
      ensures ctx.Valid()
      ensures ProducerCallEffect(ctx, r, [Long(|ProducerParcel()|)])
    {
      var layerId := ctx.requestData.ReadInt64();
      if layerId.None? {
        return Err(UnexpectedEndOfRequest);
      }
      var userId := ctx.requestData.ReadInt64();
      if userId.None? {
        return Err(UnexpectedEndOfRequest);
      }
      if |ctx.receiveBuff| == 0 {
        return Err(BufferIndexOutOfRange);
      }
      var parcelLength := PlaceProducerParcel(ctx);
      ctx.responseData.WriteInt64(parcelLength);
      r := Ok(0);
    }

    /**
     * CreateStrayLayer: read the layer flags and display id, answer a zero
     * layer id and the parcel's length. The display is looked up but the
     * answer does not depend on it.
     */
    method CreateStrayLayer(ctx: ServiceCtx) returns (r: HandlerResult)
      requires ctx.Valid()
      modifies ctx, ctx.requestData, ctx.responseData
      ensures ctx.Valid()
      ensures ProducerCallEffect(ctx, r, StrayLayerResponse(|ProducerParcel()|))
    {
      var layerFlags := ctx.requestData.ReadInt64();
      if layerFlags.None? {
        return Err(UnexpectedEndOfRequest);
      }
      var displayId := ctx.requestData.ReadInt64();
      if displayId.None? {
        return Err(UnexpectedEndOfRequest);
      }
      if |ctx.receiveBuff| == 0 {
        return Err(BufferIndexOutOfRange);
      }
      var disp := ctx.displays.GetData(ToInt32(displayId.value));
      var parcelLength := PlaceProducerParcel(ctx);
      ctx.responseData.WriteInt64(0);
      ctx.responseData.WriteInt64(parcelLength);
      r := Ok(0);
    }

    twostate predicate SetLayerScalingModeEffect(ctx: ServiceCtx, new r: HandlerResult)
      reads ctx, ctx.requestData, ctx.responseData, ctx.displays, ctx.handles
    {
      var start := old(ctx.requestData.position);
      && start <= |ctx.requestData.data|
      && unchanged(ctx, ctx.responseData, ctx.displays, ctx.handles)
      && if |ctx.requestData.data| - start < 12 then
           r == Err(UnexpectedEndOfRequest) && ctx.requestData.position == |ctx.requestData.data|
         else
           r == Ok(0) && ctx.requestData.position == start + 12
    }

    /** SetLayerScalingMode: read the mode (an int) and a long, answer nothing. */
    method SetLayerScalingMode(ctx: ServiceCtx) returns (r: HandlerResult)
      requires ctx.Valid()
      modifies ctx.requestData
      ensures ctx.Valid() && SetLayerScalingModeEffect(ctx, r)
    {
      var scalingMode := ctx.requestData.ReadInt32();
      if scalingMode.None? {
        return Err(UnexpectedEndOfRequest);
      }
      var unknown := ctx.requestData.ReadInt64();
      if unknown.None? {
        return Err(UnexpectedEndOfRequest);
      }
      r := Ok(0);
    }

    twostate predicate GetDisplayVSyncEventEffect(ctx: ServiceCtx, new r: HandlerResult)
      reads ctx, ctx.requestData, ctx.responseData, ctx.displays, ctx.handles
    {
      var start := old(ctx.requestData.position);
      var handle := old(ctx.handles.nextId);
      && start <= ctx.requestData.position <= |ctx.requestData.data|
      && r == Ok(0)
      && ctx.requestData.position - start == NameBytesConsumed(|ctx.requestData.data| - start)
      && ctx.handles.objects == old(ctx.handles.objects)[handle := HEvent]
      && ctx.handles.nextId == handle + 1
      && handle < 0x8000_0000
      && ctx.handleDesc == Some(MakeCopy(handle))
      && unchanged(ctx.responseData, ctx.displays)
      && ctx.memoryWrites == old(ctx.memoryWrites)
    }

    /** GetDisplayVSyncEvent: read a display name, register an event and hand the guest a copy of its handle. */
    method GetDisplayVSyncEvent(ctx: ServiceCtx) returns (r: HandlerResult)
      requires ctx.Valid() && ctx.handles.CanGenerate()
      modifies ctx, ctx.requestData, ctx.handles
      ensures ctx.Valid() && GetDisplayVSyncEventEffect(ctx, r)
    {
      var name := GetDisplayName(ctx);
      var handle := ctx.handles.GenerateId(HEvent);
      ctx.handleDesc := Some(MakeCopy(handle));
      r := Ok(0);
    }

    /** What the handler registered for a command does to the context. */
    twostate predicate HandlerEffect(c: Command, ctx: ServiceCtx, new r: HandlerResult)
      reads ctx, ctx.requestData, ctx.responseData, ctx.displays, ctx.handles
    {
      match c
      case OpenDisplay => OpenDisplayEffect(ctx, r)
      case OpenLayer => ProducerCallEffect(ctx, r, [Long(|ProducerParcel()|)])
      case CreateStrayLayer => ProducerCallEffect(ctx, r, StrayLayerResponse(|ProducerParcel()|))
      case SetLayerScalingMode => SetLayerScalingModeEffect(ctx, r)
      case GetDisplayVSyncEvent => GetDisplayVSyncEventEffect(ctx, r)
      case _ =>
        // The getters return 0. How MakeObject hands the new service to the
        // guest (response writes, handle pool, handle descriptor) is not
        // modelled, so those are left unconstrained here.
        && r == Ok(0)
        && unchanged(ctx.requestData, ctx.displays)
        && ctx.memoryWrites == old(ctx.memoryWrites)
    }

    /** Look the command code up and run its handler; an unknown code runs nothing. */
    method Dispatch(code: int, ctx: ServiceCtx) returns (r: HandlerResult)
      requires ctx.Valid()
      requires code == 1010 ==> ctx.displays.CanGenerate()
      requires code == 5202 ==> ctx.handles.CanGenerate()
      modifies ctx, ctx.requestData, ctx.responseData, ctx.displays, ctx.handles
      ensures ctx.Valid()
      ensures code !in commands ==>
        r == Err(UnknownCommand) && unchanged(ctx, ctx.requestData, ctx.responseData, ctx.displays, ctx.handles)
      ensures code in commands ==> HandlerEffect(commands[code], ctx, r)
    {
      if code !in commands {
        return Err(UnknownCommand);
      }
      match commands[code]
      case GetRelayService =>
        r := Ok(0);
      case GetSystemDisplayService =>
        r := Ok(0);
      case GetManagerDisplayService =>
        r := Ok(0);
      case GetIndirectDisplayTransactionService =>
        r := Ok(0);
      case OpenDisplay =>
        r := OpenDisplay(ctx);
      case OpenLayer =>
        r := OpenLayer(ctx);
      case CreateStrayLayer =>
        r := CreateStrayLayer(ctx);
      case SetLayerScalingMode =>
        r := SetLayerScalingMode(ctx);
      case GetDisplayVSyncEvent =>
        r := GetDisplayVSyncEvent(ctx);
    }
  }
}
