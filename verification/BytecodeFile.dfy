/** The writer and the reader as they are written: a buffer that grows, and a cursor that advances. */
module BytecodeFile {
  import opened Values
  import opened Serializer

  class BytecodeWriter {
    var buffer: seq<byte>

    constructor ()
      ensures buffer == []
    {
      buffer := [];
    }

    method WriteU8(v: byte)
      modifies this
      ensures buffer == old(buffer) + [v]
    {
      buffer := buffer + [v];
    }

    method WriteU32(v: uint32)
      modifies this
      ensures buffer == old(buffer) + U32Bytes(v)
    {
      WriteU8(v % 0x100);
      WriteU8(v / 0x100 % 0x100);
      WriteU8(v / 0x1_0000 % 0x100);
      WriteU8(v / 0x100_0000 % 0x100);
      U32BytesAre(v);
    }

    /** The bytes of the number in memory, in order. */
    method WriteI64(v: int)
      modifies this
      ensures buffer == old(buffer) + I64Bytes(v)
    {
      var bytes := EightBytes(v);
      EightBytesAre(v);
      WriteBytes(bytes);
    }

    method WriteBytes(bytes: seq<byte>)
      modifies this
      ensures buffer == old(buffer) + bytes
    {
      var i := 0;
      while i < |bytes|
        invariant 0 <= i <= |bytes| && buffer == old(buffer) + bytes[..i]
      {
        WriteU8(bytes[i]);
        assert bytes[..i + 1] == bytes[..i] + [bytes[i]];
        i := i + 1;
      }
      assert bytes[..i] == bytes;
    }

    method WriteString(s: seq<byte>)
      modifies this
      ensures buffer == old(buffer) + StringBytes(s)
    {
      WriteU32(U32(|s|));
      WriteBytes(s);
      assert buffer == old(buffer) + (U32Bytes(U32(|s|)) + s);
    }

    method WriteInstruction(i: Instruction)
      modifies this
      ensures buffer == old(buffer) + InstructionBytes(i)
    {
      WriteU8(i.op);
      WriteU32(i.operand);
      assert buffer == old(buffer) + ([i.op] + U32Bytes(i.operand));
    }

    method WriteUpvalue(u: Upvalue)
      modifies this
      ensures buffer == old(buffer) + UpvalueBytes(u)
    {
      WriteU32(u.index);
      WriteU8(if u.isLocal then 1 else 0);
      assert buffer == old(buffer) + (U32Bytes(u.index) + [if u.isLocal then 1 else 0]);
    }

    method WriteHandler(h: Handler)
      modifies this
      ensures buffer == old(buffer) + HandlerBytes(h)
    {
      WriteU32(h.startIp);
      WriteU32(h.endIp);
      WriteU32(h.catchIp);
      WriteI64(h.catchVar);
      assert buffer == old(buffer) + (U32Bytes(h.startIp) + U32Bytes(h.endIp) + U32Bytes(h.catchIp) + I64Bytes(h.catchVar));
    }

    method WriteConst(c: Const)
      modifies this
      ensures buffer == old(buffer) + ConstBytes(c)
    {
      match c
      case Bare(tag) => WriteU8(tag);
      case BoolC(b) =>
        WriteU8(BOOL_TAG);
        WriteU8(if b then 1 else 0);
        assert buffer == old(buffer) + [BOOL_TAG, if b then 1 else 0];
      case I64C(n) =>
        WriteU8(I64_TAG);
        WriteI64(n);
        assert buffer == old(buffer) + ([I64_TAG] + I64Bytes(n));
      case F64C(bits) =>
        WriteU8(F64_TAG);
        WriteBytes(bits);
        assert buffer == old(buffer) + ([F64_TAG] + bits);
      case StringC(s) =>
        WriteU8(STRING_TAG);
        WriteString(s);
        assert buffer == old(buffer) + ([STRING_TAG] + StringBytes(s));
    }

    method WriteConstantPool(values: seq<Const>)
      modifies this
      ensures buffer == old(buffer) + Counted(values, ConstBytes)
    {
      WriteU32(U32(|values|));
      var i := 0;
      while i < |values|
        invariant 0 <= i <= |values|
        invariant buffer == old(buffer) + U32Bytes(U32(|values|)) + Each(values[..i], ConstBytes)
      {
        EachMore(values, i, ConstBytes);
        WriteConst(values[i]);
        i := i + 1;
      }
      CountedDone(old(buffer), values, ConstBytes);
    }

    method WriteNames(names: seq<seq<byte>>)
      modifies this
      ensures buffer == old(buffer) + Counted(names, StringBytes)
    {
      WriteU32(U32(|names|));
      var i := 0;
      while i < |names|
        invariant 0 <= i <= |names|
        invariant buffer == old(buffer) + U32Bytes(U32(|names|)) + Each(names[..i], StringBytes)
      {
        EachMore(names, i, StringBytes);
        WriteString(names[i]);
        i := i + 1;
      }
      CountedDone(old(buffer), names, StringBytes);
    }

    method WriteUpvalues(upvalues: seq<Upvalue>)
      modifies this
      ensures buffer == old(buffer) + Counted(upvalues, UpvalueBytes)
    {
      WriteU32(U32(|upvalues|));
      var i := 0;
      while i < |upvalues|
        invariant 0 <= i <= |upvalues|
        invariant buffer == old(buffer) + U32Bytes(U32(|upvalues|)) + Each(upvalues[..i], UpvalueBytes)
      {
        EachMore(upvalues, i, UpvalueBytes);
        WriteUpvalue(upvalues[i]);
        i := i + 1;
      }
      CountedDone(old(buffer), upvalues, UpvalueBytes);
    }

    method WriteCode(code: seq<Instruction>)
      modifies this
      ensures buffer == old(buffer) + Counted(code, InstructionBytes)
    {
      WriteU32(U32(|code|));
      var i := 0;
      while i < |code|
        invariant 0 <= i <= |code|
        invariant buffer == old(buffer) + U32Bytes(U32(|code|)) + Each(code[..i], InstructionBytes)
      {
        EachMore(code, i, InstructionBytes);
        WriteInstruction(code[i]);
        i := i + 1;
      }
      CountedDone(old(buffer), code, InstructionBytes);
    }

    method WriteHandlers(handlers: seq<Handler>)
      modifies this
      ensures buffer == old(buffer) + Counted(handlers, HandlerBytes)
    {
      WriteU32(U32(|handlers|));
      var i := 0;
      while i < |handlers|
        invariant 0 <= i <= |handlers|
        invariant buffer == old(buffer) + U32Bytes(U32(|handlers|)) + Each(handlers[..i], HandlerBytes)
      {
        EachMore(handlers, i, HandlerBytes);
        WriteHandler(handlers[i]);
        i := i + 1;
      }
      CountedDone(old(buffer), handlers, HandlerBytes);
    }

    method WriteFunction(f: Function)
      modifies this
      ensures buffer == old(buffer) + FunctionBytes(f)
    {
      WriteU32(f.id);
      WriteString(f.name);
      WriteU32(f.arity);
      WriteU32(f.localCount);
      WriteUpvalues(f.upvalues);
      WriteCode(f.code);
      WriteNames(f.localNames);
      WriteHandlers(f.handlers);
      FunctionWritten(old(buffer), f);
    }

    /** Function number i behind those before it. */
    method WriteNextFunction(functions: seq<Function>, i: nat, ghost head: seq<byte>)
      requires i < |functions| && buffer == head + Each(functions[..i], FunctionBytes)
      modifies this
      ensures buffer == head + Each(functions[..i + 1], FunctionBytes)
    {
      EachMore(functions, i, FunctionBytes);
      WriteFunction(functions[i]);
    }

    method WriteFunctions(functions: seq<Function>)
      modifies this
      ensures buffer == old(buffer) + Counted(functions, FunctionBytes)
    {
      WriteU32(U32(|functions|));
      var i := 0;
      while i < |functions|
        invariant 0 <= i <= |functions|
        invariant buffer == old(buffer) + U32Bytes(U32(|functions|)) + Each(functions[..i], FunctionBytes)
      {
        WriteNextFunction(functions, i, old(buffer) + U32Bytes(U32(|functions|)));
        i := i + 1;
      }
      CountedDone(old(buffer), functions, FunctionBytes);
    }

    method WriteModule(m: Module)
      modifies this
      ensures buffer == ModuleBytes(m)
    {
      buffer := [];
      WriteU32(MAGIC);
      WriteU32(VERSION);
      WriteString(m.name);
      WriteConstantPool(m.values);
      WriteNames(m.globalNames);
      WriteFunctions(m.functions);
      WriteU32(0);
      ModuleWritten(m);
    }
  }

  // ----- what the writer has appended -----

  function EightBytes(n: int): (r: seq<byte>)
    ensures |r| == 8
  {
    var u := Unsigned(Wrap(n));
    FourBytes(u % TWO_32) + FourBytes(u / TWO_32)
  }

  lemma EightBytesAre(n: int)
    ensures I64Bytes(n) == EightBytes(n)
  {
    var u := Unsigned(Wrap(n));
    U32BytesAre(u % TWO_32);
    U32BytesAre(u / TWO_32);
  }

  lemma EachMore<T(!new)>(xs: seq<T>, i: nat, f: T -> seq<byte>)
    requires i < |xs|
    ensures Each(xs[..i + 1], f) == Each(xs[..i], f) + f(xs[i])
  {
    assert xs[..i + 1][..i] == xs[..i];
  }

  lemma CountedDone<T(!new)>(before: seq<byte>, xs: seq<T>, f: T -> seq<byte>)
    ensures before + U32Bytes(U32(|xs|)) + Each(xs[..|xs|], f) == before + Counted(xs, f)
  {
    assert xs[..|xs|] == xs;
    CountedIs(xs, f);
  }

  lemma Nest(a: seq<byte>, b: seq<byte>, c: seq<byte>)
    ensures a + b + c == a + (b + c)
  {
  }

  lemma FunctionWritten(before: seq<byte>, f: Function)
    ensures before + U32Bytes(f.id) + StringBytes(f.name) + U32Bytes(f.arity) + U32Bytes(f.localCount)
            + Counted(f.upvalues, UpvalueBytes) + Counted(f.code, InstructionBytes) + Counted(f.localNames, StringBytes)
            + Counted(f.handlers, HandlerBytes)
         == before + FunctionBytes(f)
  {
    EightInARow(before, U32Bytes(f.id), StringBytes(f.name), U32Bytes(f.arity), U32Bytes(f.localCount),
                Counted(f.upvalues, UpvalueBytes), Counted(f.code, InstructionBytes), Counted(f.localNames, StringBytes),
                Counted(f.handlers, HandlerBytes));
  }

  lemma EightInARow(s: seq<byte>, a: seq<byte>, b: seq<byte>, c: seq<byte>, d: seq<byte>, e: seq<byte>, f: seq<byte>,
                    g: seq<byte>, h: seq<byte>)
    ensures s + a + b + c + d + e + f + g + h == s + (a + (b + (c + (d + (e + (f + (g + h)))))))
  {
    Nest(s + a + b + c + d + e + f, g, h);
    Nest(s + a + b + c + d + e, f, g + h);
    Nest(s + a + b + c + d, e, f + (g + h));
    Nest(s + a + b + c, d, e + (f + (g + h)));
    Nest(s + a + b, c, d + (e + (f + (g + h))));
    Nest(s + a, b, c + (d + (e + (f + (g + h)))));
    Nest(s, a, b + (c + (d + (e + (f + (g + h))))));
  }

  lemma ModuleWritten(m: Module)
    ensures [] + U32Bytes(MAGIC) + U32Bytes(VERSION) + StringBytes(m.name) + Counted(m.values, ConstBytes)
            + Counted(m.globalNames, StringBytes) + Counted(m.functions, FunctionBytes) + U32Bytes(0)
         == ModuleBytes(m)
  {
    SixMore(U32Bytes(MAGIC), U32Bytes(VERSION), StringBytes(m.name), Counted(m.values, ConstBytes),
            Counted(m.globalNames, StringBytes), Counted(m.functions, FunctionBytes), U32Bytes(0));
  }

  lemma SixMore(a: seq<byte>, b: seq<byte>, c: seq<byte>, d: seq<byte>, e: seq<byte>, f: seq<byte>, g: seq<byte>)
    ensures [] + a + b + c + d + e + f + g == a + (b + (c + (d + (e + (f + g)))))
  {
    Nest(a + b + c + d + e, f, g);
    Nest(a + b + c + d, e, f + g);
    Nest(a + b + c, d, e + (f + g));
    Nest(a + b, c, d + (e + (f + g)));
    Nest(a, b, c + (d + (e + (f + g))));
    assert [] + a == a;
  }

  // ----- the reader -----

  class BytecodeReader {
    var buffer: seq<byte>
    var position: nat
    var failed: bool   // an error message has been set

    constructor ()
      ensures position == 0 && !failed && buffer == []
    {
      buffer, position, failed := [], 0, false;
    }

    /** The cursor and the error after a read that started with the error `was`. */
    predicate Took(pos: nat, ok: bool, was: bool)
      reads this
    {
      position == pos && failed == (was || !ok)
    }

    method ReadU8() returns (v: byte)
      modifies `position, `failed
      ensures var r := ReadByte(buffer, old(position)); v == r.value && Took(r.pos, r.ok, old(failed))
    {
      if position >= |buffer| {
        failed := true;
        return 0;
      }
      v := buffer[position];
      position := position + 1;
    }

    method ReadUInt32() returns (v: uint32)
      modifies `position, `failed
      ensures var r := ReadU32(buffer, old(position)); v == r.value && Took(r.pos, r.ok, old(failed))
    {
      ReadU32Is(buffer, position);
      var a := ReadU8();
      var b := ReadU8();
      var c := ReadU8();
      var d := ReadU8();
      var b0: int, b1: int, b2: int, b3: int := a, b, c, d;
      v := b0 + 0x100 * b1 + 0x1_0000 * b2 + 0x100_0000 * b3;
    }

    /** n bytes at once, or none. */
    method ReadRaw(n: nat) returns (bytes: seq<byte>)
      modifies `position, `failed
      ensures var r := ReadBytes(n, buffer, old(position)); bytes == r.value && Took(r.pos, r.ok, old(failed))
    {
      if position + n > |buffer| {
        failed := true;
        return [];
      }
      bytes := buffer[position..position + n];
      ChunkIs(buffer, position, n);
      position := position + n;
    }

    method ReadInt64() returns (v: int)
      modifies `position, `failed
      ensures var r := ReadI64(buffer, old(position)); v == r.value && Took(r.pos, r.ok, old(failed))
    {
      var bytes := ReadRaw(8);
      v := if |bytes| == 8 then Signed(WeighEight(bytes)) else 0;
    }

    method ReadDouble() returns (bits: seq<byte>)
      modifies `position, `failed
      ensures var r := ReadF64(buffer, old(position)); bits == r.value && Took(r.pos, r.ok, old(failed))
    {
      bits := ReadRaw(8);
      if |bits| != 8 {
        bits := [0, 0, 0, 0, 0, 0, 0, 0];
      }
    }

    method ReadText() returns (s: seq<byte>)
      modifies `position, `failed
      ensures var r := ReadString(buffer, old(position)); s == r.value && Took(r.pos, r.ok, old(failed))
    {
      var len := ReadUInt32();
      s := ReadRaw(len);
    }

    method ReadConstant() returns (c: Const)
      modifies `position, `failed
      ensures var r := ReadConst(buffer, old(position)); c == r.value && Took(r.pos, r.ok, old(failed))
    {
      var tag := ReadU8();
      if tag == I64_TAG {
        var n := ReadInt64();
        c := I64C(n);
      } else if tag == F64_TAG {
        var bits := ReadDouble();
        c := F64C(bits);
      } else if tag == STRING_TAG {
        var s := ReadText();
        c := StringC(s);
      } else if tag == BOOL_TAG {
        var b := ReadU8();
        c := BoolC(b != 0);
      } else {
        c := Bare(tag);
      }
    }

    method ReadConstantPool() returns (xs: seq<Const>)
      modifies `position, `failed
      ensures var r := ReadCounted(ReadConst, buffer, old(position)); xs == r.value && Took(r.pos, r.ok, old(failed))
    {
      ReadCountedIs(ReadConst, buffer, position);
      var n := ReadUInt32();
      ghost var start, was := position, failed;
      xs := [];
      var i := 0;
      while i < n
        invariant 0 <= i <= n && buffer == old(buffer)
        invariant var r := ReadMany(i, ReadConst, buffer, start); xs == r.value && Took(r.pos, r.ok, was)
      {
        var x := ReadConstant();
        xs := xs + [x];
        i := i + 1;
      }
    }

    method ReadNames() returns (xs: seq<seq<byte>>)
      modifies `position, `failed
      ensures var r := ReadCounted(ReadString, buffer, old(position)); xs == r.value && Took(r.pos, r.ok, old(failed))
    {
      ReadCountedIs(ReadString, buffer, position);
      var n := ReadUInt32();
      ghost var start, was := position, failed;
      xs := [];
      var i := 0;
      while i < n
        invariant 0 <= i <= n && buffer == old(buffer)
        invariant var r := ReadMany(i, ReadString, buffer, start); xs == r.value && Took(r.pos, r.ok, was)
      {
        var x := ReadText();
        xs := xs + [x];
        i := i + 1;
      }
    }

    method ReadUpvalues() returns (xs: seq<Upvalue>)
      modifies `position, `failed
      ensures var r := ReadCounted(ReadUpvalue, buffer, old(position)); xs == r.value && Took(r.pos, r.ok, old(failed))
    {
      ReadCountedIs(ReadUpvalue, buffer, position);
      var n := ReadUInt32();
      ghost var start, was := position, failed;
      xs := [];
      var i := 0;
      while i < n
        invariant 0 <= i <= n && buffer == old(buffer)
        invariant var r := ReadMany(i, ReadUpvalue, buffer, start); xs == r.value && Took(r.pos, r.ok, was)
      {
        var index := ReadUInt32();
        var local := ReadU8();
        xs := xs + [Upvalue(index, local != 0)];
        i := i + 1;
      }
    }

    method ReadCode() returns (xs: seq<Instruction>)
      modifies `position, `failed
      ensures var r := ReadCounted(ReadInstruction, buffer, old(position)); xs == r.value && Took(r.pos, r.ok, old(failed))
    {
      ReadCountedIs(ReadInstruction, buffer, position);
      var n := ReadUInt32();
      ghost var start, was := position, failed;
      xs := [];
      var i := 0;
      while i < n
        invariant 0 <= i <= n && buffer == old(buffer)
        invariant var r := ReadMany(i, ReadInstruction, buffer, start); xs == r.value && Took(r.pos, r.ok, was)
      {
        var op := ReadU8();
        var operand := ReadUInt32();
        xs := xs + [Instruction(op, operand)];
        i := i + 1;
      }
    }

    method ReadHandlerRecord() returns (h: Handler)
      modifies `position, `failed
      ensures var r := ReadHandler(buffer, old(position)); h == r.value && Took(r.pos, r.ok, old(failed))
    {
      var startIp := ReadUInt32();
      var endIp := ReadUInt32();
      var catchIp := ReadUInt32();
      var catchVar := ReadInt64();
      h := Handler(startIp, endIp, catchIp, I32(U32(catchVar)));
    }

    /** One more handler behind the i already read from `start` on. */
    method ReadNextHandler(xs: seq<Handler>, ghost i: nat, ghost start: nat, ghost was: bool) returns (ys: seq<Handler>)
      requires var r := ReadMany(i, ReadHandler, buffer, start); xs == r.value && Took(r.pos, r.ok, was)
      modifies `position, `failed
      ensures var r := ReadMany(i + 1, ReadHandler, buffer, start); ys == r.value && Took(r.pos, r.ok, was)
    {
      var x := ReadHandlerRecord();
      ys := xs + [x];
    }

    method ReadHandlers() returns (xs: seq<Handler>)
      modifies `position, `failed
      ensures var r := ReadCounted(ReadHandler, buffer, old(position)); xs == r.value && Took(r.pos, r.ok, old(failed))
    {
      ReadCountedIs(ReadHandler, buffer, position);
      var n := ReadUInt32();
      xs := ReadHandlersUpTo(n);
    }

    method ReadHandlersUpTo(n: nat) returns (xs: seq<Handler>)
      modifies `position, `failed
      ensures var r := ReadMany(n, ReadHandler, buffer, old(position)); xs == r.value && Took(r.pos, r.ok, old(failed))
    {
      xs := [];
      var i := 0;
      while i < n
        invariant 0 <= i <= n && buffer == old(buffer)
        invariant var r := ReadMany(i, ReadHandler, buffer, old(position)); xs == r.value && Took(r.pos, r.ok, old(failed))
      {
        xs := ReadNextHandler(xs, i, old(position), old(failed));
        i := i + 1;
      }
    }

    method ReadFunctionRecord() returns (f: Function)
      modifies `position, `failed
      ensures var r := ReadFunction(buffer, old(position)); f == r.value && Took(r.pos, r.ok, old(failed))
    {
      var id := ReadUInt32();
      var name := ReadText();
      var arity := ReadUInt32();
      var localCount := ReadUInt32();
      var upvalues := ReadUpvalues();
      var code := ReadCode();
      var localNames := ReadNames();
      var handlers := ReadHandlers();
      f := Function(id, name, arity, localCount, upvalues, code, localNames, handlers);
    }

    method ReadFunctions() returns (xs: seq<Function>)
      modifies `position, `failed
      ensures var r := ReadCounted(ReadFunction, buffer, old(position)); xs == r.value && Took(r.pos, r.ok, old(failed))
    {
      ReadCountedIs(ReadFunction, buffer, position);
      var n := ReadUInt32();
      ghost var start, was := position, failed;
      xs := [];
      var i := 0;
      while i < n
        invariant 0 <= i <= n && buffer == old(buffer)
        invariant var r := ReadMany(i, ReadFunction, buffer, start); xs == r.value && Took(r.pos, r.ok, was)
      {
        var x := ReadFunctionRecord();
        xs := xs + [x];
        i := i + 1;
      }
    }

    /** None only for a wrong magic number; running out of bytes is reported by the error alone. */
    method ReadModuleFile(bytes: seq<byte>) returns (m: Option<Module>)
      modifies this
      ensures var r := ReadModule(bytes); m == r.value && Took(r.pos, r.ok, old(failed))
    {
      buffer, position := bytes, 0;
      var magic := ReadUInt32();
      if magic != MAGIC {
        failed := true;
        return None;
      }
      var version := ReadUInt32();
      var name := ReadText();
      var values := ReadConstantPool();
      var names := ReadNames();
      var functions := ReadFunctions();
      var debug := ReadUInt32();
      m := Some(Module(name, values, names, Nils(|names|), functions));
    }
  }
}
