/**
 * The per-call context (ServiceCtx) a handler receives: the request
 * reader, the response writer, the receive-buffer descriptors of the IPC
 * request, the OS-wide id pools, the handle descriptor of the response and
 * the writes the call makes into guest memory.
 */
module ServiceContext {
  import opened LittleEndian
  import opened Wrappers
  import opened Streams
  import opened Os

  /** Why a call fails instead of returning a result code. */
  datatype IpcError =
    | UnknownCommand          // no handler for the command code
    | UnexpectedEndOfRequest  // a typed read ran past the request bytes
    | BufferIndexOutOfRange   // the request carries no receive buffer at that index

  /** A receive buffer the guest supplied with the request: where it is and how large. */
  datatype BuffDesc = BuffDesc(position: int64, size: int64)

  datatype HandleMode = Copy | Move

  /** The handle a response hands to the guest, and how ownership moves with it. */
  datatype HandleDesc = HandleDesc(handle: int32, mode: HandleMode)

  /** IpcHandleDesc.MakeCopy: the guest gets a copy, the host keeps the object. */
  function MakeCopy(handle: int32): (d: HandleDesc)
    ensures d.handle == handle && d.mode == Copy
  {
    HandleDesc(handle, Copy)
  }

  /** One AMemoryHelper.WriteBytes call: bytes placed at a guest address. */
  datatype MemoryWrite = MemoryWrite(address: int64, bytes: seq<byte>)

  class ServiceCtx {
    const requestData: ByteReader
    const responseData: ByteWriter
    const receiveBuff: seq<BuffDesc>
    const displays: Registry<Display>
    const handles: Registry<HEvent>
    var handleDesc: Option<HandleDesc>
    var memoryWrites: seq<MemoryWrite>

    ghost predicate Valid()
      reads requestData, displays, handles
    {
      requestData.Valid() && displays.Valid() && handles.Valid()
    }

    constructor (request: seq<byte>, receiveBuff: seq<BuffDesc>, displays: Registry<Display>, handles: Registry<HEvent>)
      requires displays.Valid() && handles.Valid()
      ensures Valid()
      ensures fresh(requestData) && fresh(responseData)
      ensures requestData.data == request && requestData.position == 0 && responseData.written == []
      ensures this.receiveBuff == receiveBuff && this.displays == displays && this.handles == handles
      ensures handleDesc == None && memoryWrites == []
    {
      requestData := new ByteReader(request);
      responseData := new ByteWriter();
      this.receiveBuff := receiveBuff;
      this.displays := displays;
      this.handles := handles;
      handleDesc := None;
      memoryWrites := [];
    }

    /** AMemoryHelper.WriteBytes into the guest memory of the calling process. */
    method WriteBytes(address: int64, bytes: seq<byte>)
      modifies this
      ensures memoryWrites == old(memoryWrites) + [MemoryWrite(address, bytes)]
      ensures handleDesc == old(handleDesc)
    {
      memoryWrites := memoryWrites + [MemoryWrite(address, bytes)];
    }
  }
}
