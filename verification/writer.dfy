/** The two memory writers of ezh.h: `writeToRawMemory`, which copies a pack of
    arguments to a raw pointer, and `writeToBuffer`, which checks the capacity of a
    `std::vector<char>` from an offset and then delegates to it. */
module Writer {
  import opened Layout
  import opened Capacity

  /** The failures the writers throw as `std::runtime_error`. */
  datatype Error = NullBufferPointer | BufferTooSmall

  datatype Result<T> = Ok(value: T) | Err(error: Error)

  /** A `char*`: null, or the address of byte `pos` of a block of memory. Pointing
      one past the last byte is allowed, as in C++. */
  datatype Ptr = Null | Addr(mem: array<byte>, pos: nat)
  {
    /** The memory a write through this pointer may change. */
    function Footprint(): set<object>
    {
      if Null? then {} else {mem}
    }

    /** `ptr += n` */
    function Advance(n: nat): Ptr
      requires Addr?
    {
      Addr(mem, pos + n)
    }
  }

  /** `std::memcpy(dst + at, src, |src|)`. */
  method MemCpy(dst: array<byte>, at: nat, src: seq<byte>)
    requires at + |src| <= dst.Length
    modifies dst
    ensures dst[..] == Splice(old(dst[..]), at, src)
  {
    var j := 0;
    while j < |src|
      invariant 0 <= j <= |src|
      invariant forall i :: 0 <= i < dst.Length && !(at <= i < at + j) ==> dst[i] == old(dst[i])
      invariant forall i :: at <= i < at + j ==> dst[i] == src[i - at]
    {
      dst[at + j] := src[j];
      j := j + 1;
    }
    assert dst[..] == Splice(old(dst[..]), at, src) by {
      var r := Splice(old(dst[..]), at, src);
      forall i | 0 <= i < dst.Length
        ensures dst[i] == r[i]
      {
        if at <= i < at + |src| {
          assert r[at..at + |src|][i - at] == src[i - at];
        }
      }
    }
  }

  /** `writeToRawMemory(buffer, args...)`: rejects a null pointer before copying
      anything; otherwise copies each argument's bytes in order, advancing a cursor
      by each argument's width, and returns the cursor. The caller guarantees the
      room; the source does not check it. */
  method WriteToRawMemory(buffer: Ptr, args: seq<Value>) returns (r: Result<Ptr>)
    requires buffer.Addr? ==> buffer.pos + TotalSize(args) <= buffer.mem.Length
    modifies buffer.Footprint()
    ensures buffer.Null? ==> r == Err(NullBufferPointer)
    ensures buffer.Addr? ==> r == Ok(buffer.Advance(TotalSize(args)))
    ensures buffer.Addr? && args == [] ==> r == Ok(buffer)
    ensures buffer.Addr? ==> buffer.mem[..] == Splice(old(buffer.mem[..]), buffer.pos, Flatten(args))
  {
    if buffer.Null? {
      return Err(NullBufferPointer);
    }
    var mem := buffer.mem;
    ghost var before := mem[..];
    var ptr := buffer;
    var k := 0;
    while k < |args|
      invariant 0 <= k <= |args|
      invariant ptr.Addr? && ptr.mem == mem && ptr.pos == buffer.pos + TotalSize(args[..k])
      invariant TotalSize(args[..k]) <= TotalSize(args)
      invariant mem[..] == Splice(before, buffer.pos, Flatten(args[..k]))
      modifies mem
    {
      assert TotalSize(args[..k]) + |args[k]| == TotalSize(args[..k + 1]) <= TotalSize(args) by {
        FlattenPrefixStep(args, k);
      }
      ghost var done := mem[..];
      MemCpy(mem, ptr.pos, args[k]);
      ghost var written := Flatten(args[..k + 1]);
      assert mem[..] == Splice(before, buffer.pos, written) by {
        SplicePrefixStep(before, buffer.pos, args, k, done, mem[..]);
      }
      ghost var cursor := ptr.pos;
      ptr := ptr.Advance(|args[k]|);
      assert ptr.Addr? && ptr.mem == mem && ptr.pos == cursor + |args[k]|;
      k := k + 1;
      assert Flatten(args[..k]) == written;
    }
    assert args[..k] == args;
    assert ptr == buffer.Advance(TotalSize(args));
    assert args == [] ==> ptr == buffer;
    return Ok(ptr);
  }

  /** `writeToBuffer(buffer, offset, args...)`: throws, leaving the buffer as it was,
      when the payload does not fit from `offset`; otherwise writes the pack at
      `offset` through `writeToRawMemory` and returns the offset just past it. */
  method WriteToBuffer(buffer: array<byte>, offset: SizeT, args: seq<Value>) returns (r: Result<SizeT>)
    requires args != []
    requires buffer.Length <= SIZE_MAX
    requires TotalSize(args) <= SIZE_MAX
    modifies buffer
    ensures r.Ok? <==> offset + TotalSize(args) <= buffer.Length
    ensures r.Err? ==> r.error == BufferTooSmall && buffer[..] == old(buffer[..])
    ensures r.Ok? ==> r.value == offset + TotalSize(args) && r.value <= buffer.Length
    ensures r.Ok? ==> buffer[..] == Splice(old(buffer[..]), offset, Flatten(args))
  {
    var requiredSize: SizeT := TotalSize(args);
    if TooSmall(offset, requiredSize, buffer.Length) {
      return Err(BufferTooSmall);
    }
    var ptr := Addr(buffer, offset);
    var _ := WriteToRawMemory(ptr, args);
    return Ok(offset + requiredSize);
  }

  /** The chained usage the header documents: write pack `a` at `offset`, then pack
      `b` at the offset returned. Both calls succeed exactly when `a + b` fits from
      `offset`, and then the buffer and the final offset are those of one call
      with `a + b`. Unlike one call, the chain is not atomic: when only `a` fits,
      its bytes stay written although the second call throws. When the first call
      throws, the second is never made; `second` is then `Err(BufferTooSmall)`,
      the exception that leaves the chain, and not the result of a second call. */
  method WriteChained(buffer: array<byte>, offset: SizeT, a: seq<Value>, b: seq<Value>)
    returns (first: Result<SizeT>, second: Result<SizeT>)
    requires a != [] && b != []
    requires buffer.Length <= SIZE_MAX
    requires TotalSize(a) <= SIZE_MAX && TotalSize(b) <= SIZE_MAX
    modifies buffer
    ensures first.Ok? <==> offset + TotalSize(a) <= buffer.Length
    ensures first.Ok? ==> first.value == offset + TotalSize(a)
    ensures first.Err? ==> first.error == BufferTooSmall && second == Err(BufferTooSmall)
                           && buffer[..] == old(buffer[..])
    ensures first.Ok? && second.Err? ==>
              second.error == BufferTooSmall && buffer[..] == Splice(old(buffer[..]), offset, Flatten(a))
    ensures second.Ok? <==> offset + TotalSize(a + b) <= buffer.Length
    ensures second.Ok? ==> first.Ok? && second.value == offset + TotalSize(a + b)
    ensures second.Ok? ==> buffer[..] == Splice(old(buffer[..]), offset, Flatten(a + b))
  {
    ghost var before := buffer[..];
    TotalSizeAppend(a, b);
    first := WriteToBuffer(buffer, offset, a);
    if first.Err? {
      second := Err(BufferTooSmall);
      return;
    }
    ghost var middle := buffer[..];
    second := WriteToBuffer(buffer, first.value, b);
    if second.Ok? {
      PackChain(before, offset, a, b, middle, buffer[..]);
    }
  }

  /** Chained writes into a 10-byte buffer: a 4-byte value at offset 0 and another
      at the offset returned; a third 4-byte value at offset 8 no longer fits
      (8 + 4 > 10). */
  method BufferScenario(x: Value, y: Value, z: Value)
    returns (first: Result<SizeT>, second: Result<SizeT>, third: Result<SizeT>, bytes: seq<byte>)
    requires |x| == 4 && |y| == 4 && |z| == 4
    ensures first == Ok(4) && second == Ok(8) && third == Err(BufferTooSmall)
    ensures |bytes| == 10 && bytes[..4] == x && bytes[4..8] == y
  {
    var buffer := new byte[10];
    assert Flatten([x]) == x + Flatten([]);
    assert Flatten([y]) == y + Flatten([]);
    assert Flatten([z]) == z + Flatten([]);
    first := WriteToBuffer(buffer, 0, [x]);
    second := WriteToBuffer(buffer, 4, [y]);
    third := WriteToBuffer(buffer, 8, [z]);
    bytes := buffer[..];
  }
}
