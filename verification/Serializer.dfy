/** The bytecode file format: what the writer emits, what the reader makes of any bytes, and that they fit. */
module Serializer {
  import opened Values

  type byte = n: int | 0 <= n < 256

  // ----- modules, as far as they are written (sources, types and line numbers are not) -----

  /** Pool values. Types without a payload in the file are their tag alone; NIL is tag 0. */
  datatype Const = Bare(tag: byte) | BoolC(b: bool) | I64C(n: int) | F64C(bits: seq<byte>) | StringC(s: seq<byte>)

  datatype Upvalue = Upvalue(index: uint32, isLocal: bool)
  datatype Instruction = Instruction(op: byte, operand: uint32)
  datatype Handler = Handler(startIp: uint32, endIp: uint32, catchIp: uint32, catchVar: int)
  datatype Function = Function(id: uint32, name: seq<byte>, arity: uint32, localCount: uint32, upvalues: seq<Upvalue>,
                               code: seq<Instruction>, localNames: seq<seq<byte>>, handlers: seq<Handler>)
  datatype Module = Module(name: seq<byte>, values: seq<Const>, globalNames: seq<seq<byte>>, globalValues: seq<Const>,
                           functions: seq<Function>)

  const MAGIC: uint32 := 0x434C4157
  const VERSION: uint32 := 1
  const BOOL_TAG: byte := 1
  const I64_TAG: byte := 5
  const F64_TAG: byte := 11
  const STRING_TAG: byte := 12
  const NIL: Const := Bare(0)

  // ----- numbers as bytes, least significant first -----

  /** What four bytes are worth. */
  function Weigh(bs: seq<byte>): nat
    requires |bs| == 4
  {
    var a: int, b: int, c: int, d: int := bs[0], bs[1], bs[2], bs[3];
    a + 0x100 * b + 0x1_0000 * c + 0x100_0000 * d
  }

  ghost predicate AreU32(bs: seq<byte>, v: nat) {
    |bs| == 4 && Weigh(bs) == v
  }

  /** The bytes of a number, least significant first. */
  function FourBytes(v: uint32): (r: seq<byte>)
    ensures |r| == 4
  {
    [v % 256, v / 0x100 % 256, v / 0x1_0000 % 256, v / 0x100_0000 % 256]
  }

  lemma FourBytesAre(v: uint32)
    ensures AreU32(FourBytes(v), v)
  {
    var rest := v / 0x100;
    var high := rest / 0x100;
    assert v == v % 256 + 0x100 * rest && rest == rest % 256 + 0x100 * high && high == high % 256 + 0x100 * (high / 0x100);
    assert high == v / 0x1_0000 && high / 0x100 == v / 0x100_0000;
  }

  /** What eight bytes are worth. */
  function WeighEight(bs: seq<byte>): nat
    requires |bs| == 8
  {
    Weigh(bs[..4]) + TWO_32 * Weigh(bs[4..])
  }

  /** An int64_t as its eight bytes, and back. */
  function Unsigned(n: int): nat
    requires -TWO_63 <= n < TWO_63
  {
    if n < 0 then n + TWO_64 else n
  }

  function Signed(u: nat): int {
    if u < TWO_63 then u else u - TWO_64
  }

  // ----- what is written -----

  ghost predicate IsU32Writer(f: uint32 -> seq<byte>) {
    && (forall v: uint32 {:trigger FourBytes(v)} :: f(v) == FourBytes(v))
    && (forall v: uint32 {:trigger f(v)} :: |f(v)| == 4)
  }

  ghost function U32Writer(): (f: uint32 -> seq<byte>)
    ensures IsU32Writer(f)
  {
    var g := (v: uint32) => FourBytes(v);
    assert IsU32Writer(g);
    var f: uint32 -> seq<byte> :| IsU32Writer(f);
    f
  }

  /** FourBytes as a value, so that proofs about records do not look inside numbers. */
  ghost function U32Bytes(v: uint32): (r: seq<byte>)
    ensures |r| == 4
  {
    U32Writer()(v)
  }

  lemma U32BytesAre(v: uint32)
    ensures U32Bytes(v) == FourBytes(v) && AreU32(U32Bytes(v), v)
  {
    FourBytesAre(v);
  }

  ghost function I64Bytes(n: int): (r: seq<byte>)
    ensures |r| == 8
  {
    var u := Unsigned(Wrap(n));
    U32Bytes(u % TWO_32) + U32Bytes(u / TWO_32)
  }

  lemma I64BytesWeigh(n: int)
    ensures WeighEight(I64Bytes(n)) == Unsigned(Wrap(n))
  {
    var u := Unsigned(Wrap(n));
    U32BytesAre(u % TWO_32);
    U32BytesAre(u / TWO_32);
    assert I64Bytes(n)[..4] == U32Bytes(u % TWO_32) && I64Bytes(n)[4..] == U32Bytes(u / TWO_32);
  }

  /** The int64_t an integer field holds. */
  function Wrap(n: int): (r: int)
    ensures -TWO_63 <= r < TWO_63
  {
    WrapIsModulo(n);
    Wrap64(n)
  }

  /** A length is cut to 32 bits; the bytes all follow. */
  ghost function StringBytes(s: seq<byte>): seq<byte> {
    U32Bytes(U32(|s|)) + s
  }

  ghost function ConstBytes(c: Const): seq<byte> {
    match c
    case Bare(tag) => [tag]
    case BoolC(b) => [BOOL_TAG, if b then 1 else 0]
    case I64C(n) => [I64_TAG] + I64Bytes(n)
    case F64C(bits) => [F64_TAG] + bits
    case StringC(s) => [STRING_TAG] + StringBytes(s)
  }

  ghost function UpvalueBytes(u: Upvalue): seq<byte> {
    U32Bytes(u.index) + [if u.isLocal then 1 else 0]
  }

  ghost function InstructionBytes(i: Instruction): seq<byte> {
    [i.op] + U32Bytes(i.operand)
  }

  ghost function HandlerBytes(h: Handler): seq<byte> {
    U32Bytes(h.startIp) + U32Bytes(h.endIp) + U32Bytes(h.catchIp) + I64Bytes(h.catchVar)
  }

  ghost function Each<T>(xs: seq<T>, f: T -> seq<byte>): seq<byte> {
    if xs == [] then [] else Each(xs[..|xs| - 1], f) + f(xs[|xs| - 1])
  }

  /** A vector: its length, cut to 32 bits, then its elements. */
  ghost function CountedBytes<T>(xs: seq<T>, f: T -> seq<byte>): seq<byte> {
    U32Bytes(U32(|xs|)) + Each(xs, f)
  }

  ghost predicate IsVectorWriter<T(!new)>(g: seq<T> -> seq<byte>, f: T -> seq<byte>) {
    forall xs: seq<T> {:trigger CountedBytes(xs, f)} :: g(xs) == CountedBytes(xs, f)
  }

  ghost function VectorWriter<T(!new)>(f: T -> seq<byte>): (g: seq<T> -> seq<byte>)
    ensures IsVectorWriter(g, f)
  {
    var h := (xs: seq<T>) => CountedBytes(xs, f);
    assert IsVectorWriter(h, f);
    var g: seq<T> -> seq<byte> :| IsVectorWriter(g, f);
    g
  }

  /** CountedBytes as a value, so that proofs about records do not look inside vectors. */
  ghost function Counted<T(!new)>(xs: seq<T>, f: T -> seq<byte>): seq<byte> {
    VectorWriter(f)(xs)
  }

  lemma CountedIs<T(!new)>(xs: seq<T>, f: T -> seq<byte>)
    ensures Counted(xs, f) == CountedBytes(xs, f)
  {
  }

  /** The bytes after the four fields at the front. */
  ghost function VectorBytes(f: Function): seq<byte> {
    Counted(f.upvalues, UpvalueBytes) + (Counted(f.code, InstructionBytes)
      + (Counted(f.localNames, StringBytes) + Counted(f.handlers, HandlerBytes)))
  }

  ghost function FunctionBytes(f: Function): seq<byte> {
    U32Bytes(f.id) + (StringBytes(f.name) + (U32Bytes(f.arity) + (U32Bytes(f.localCount) + VectorBytes(f))))
  }

  /** The bytes after the magic number. */
  ghost function RestBytes(m: Module): seq<byte> {
    U32Bytes(VERSION) + (StringBytes(m.name) + (Counted(m.values, ConstBytes)
      + (Counted(m.globalNames, StringBytes) + (Counted(m.functions, FunctionBytes) + U32Bytes(0)))))
  }

  ghost function ModuleBytes(m: Module): seq<byte> {
    U32Bytes(MAGIC) + RestBytes(m)
  }

  // ----- what is read: a value, the new position, and whether the bytes sufficed -----

  datatype Read<T> = Read(value: T, pos: nat, ok: bool)

  function ReadByte(buf: seq<byte>, pos: nat): Read<byte> {
    if pos < |buf| then Read(buf[pos], pos + 1, true) else Read(0, pos, false)
  }

  /** Four bytes, one at a time; missing ones read as 0. */
  function FourRead(buf: seq<byte>, pos: nat): Read<uint32> {
    var a := ReadByte(buf, pos);
    var b := ReadByte(buf, a.pos);
    var c := ReadByte(buf, b.pos);
    var d := ReadByte(buf, c.pos);
    Read(a.value + 0x100 * b.value + 0x1_0000 * c.value + 0x100_0000 * d.value, d.pos, a.ok && b.ok && c.ok && d.ok)
  }

  ghost predicate IsU32Reader(f: (seq<byte>, nat) -> Read<uint32>) {
    forall buf: seq<byte>, pos: nat {:trigger FourRead(buf, pos)} :: f(buf, pos) == FourRead(buf, pos)
  }

  ghost function U32Reader(): (f: (seq<byte>, nat) -> Read<uint32>)
    ensures IsU32Reader(f)
  {
    var g := (buf: seq<byte>, pos: nat) => FourRead(buf, pos);
    assert IsU32Reader(g);
    var f: (seq<byte>, nat) -> Read<uint32> :| IsU32Reader(f);
    f
  }

  /** FourRead as a value, so that proofs about records do not look inside numbers. */
  ghost function ReadU32(buf: seq<byte>, pos: nat): Read<uint32> {
    U32Reader()(buf, pos)
  }

  lemma ReadU32Is(buf: seq<byte>, pos: nat)
    ensures ReadU32(buf, pos) == FourRead(buf, pos)
  {
  }

  /** n bytes at once; none of them, if they are not all there. */
  function ReadBytes(n: nat, buf: seq<byte>, pos: nat): Read<seq<byte>> {
    if pos + n > |buf| then Read([], pos, false) else Read(Chunk(buf, pos, n), pos + n, true)
  }

  /** buf[pos..pos + n] */
  function Chunk(buf: seq<byte>, pos: nat, n: nat): (r: seq<byte>)
    requires pos + n <= |buf|
    ensures |r| == n
  {
    if n == 0 then [] else Chunk(buf, pos, n - 1) + [buf[pos + n - 1]]
  }

  lemma {:induction false} ChunkIs(buf: seq<byte>, pos: nat, n: nat)
    requires pos + n <= |buf|
    ensures Chunk(buf, pos, n) == buf[pos..pos + n]
    decreases n
  {
    if n > 0 {
      ChunkIs(buf, pos, n - 1);
    }
  }

  function ReadI64(buf: seq<byte>, pos: nat): Read<int> {
    var r := ReadBytes(8, buf, pos);
    Read(if r.ok then Signed(WeighEight(r.value)) else 0, r.pos, r.ok)
  }

  function ReadF64(buf: seq<byte>, pos: nat): Read<seq<byte>> {
    var r := ReadBytes(8, buf, pos);
    if r.ok then r else r.(value := [0, 0, 0, 0, 0, 0, 0, 0])
  }

  ghost function ReadString(buf: seq<byte>, pos: nat): Read<seq<byte>> {
    var len := ReadU32(buf, pos);
    var r := ReadBytes(len.value, buf, len.pos);
    r.(ok := len.ok && r.ok)
  }

  ghost function ReadConst(buf: seq<byte>, pos: nat): Read<Const> {
    var tag := ReadByte(buf, pos);
    if tag.value == I64_TAG then
      var r := ReadI64(buf, tag.pos);
      Read(I64C(r.value), r.pos, tag.ok && r.ok)
    else if tag.value == F64_TAG then
      var r := ReadF64(buf, tag.pos);
      Read(F64C(r.value), r.pos, tag.ok && r.ok)
    else if tag.value == STRING_TAG then
      var r := ReadString(buf, tag.pos);
      Read(StringC(r.value), r.pos, tag.ok && r.ok)
    else if tag.value == BOOL_TAG then
      var r := ReadByte(buf, tag.pos);
      Read(BoolC(r.value != 0), r.pos, tag.ok && r.ok)
    else Read(Bare(tag.value), tag.pos, tag.ok)
  }

  ghost function ReadUpvalue(buf: seq<byte>, pos: nat): Read<Upvalue> {
    var index := ReadU32(buf, pos);
    var local := ReadByte(buf, index.pos);
    Read(Upvalue(index.value, local.value != 0), local.pos, index.ok && local.ok)
  }

  ghost function ReadInstruction(buf: seq<byte>, pos: nat): Read<Instruction> {
    var op := ReadByte(buf, pos);
    var operand := ReadU32(buf, op.pos);
    Read(Instruction(op.value, operand.value), operand.pos, op.ok && operand.ok)
  }

  ghost function ReadHandler(buf: seq<byte>, pos: nat): Read<Handler> {
    var a := ReadU32(buf, pos);
    var b := ReadU32(buf, a.pos);
    var c := ReadU32(buf, b.pos);
    var v := ReadI64(buf, c.pos);
    Read(Handler(a.value, b.value, c.value, I32(U32(v.value))), v.pos, a.ok && b.ok && c.ok && v.ok)
  }

  type Reader<T> = (seq<byte>, nat) -> Read<T>

  ghost function ReadMany<T>(n: nat, dec: Reader<T>, buf: seq<byte>, pos: nat): Read<seq<T>> {
    if n == 0 then Read([], pos, true)
    else
      var most := ReadMany(n - 1, dec, buf, pos);
      var last := dec(buf, most.pos);
      Read(most.value + [last.value], last.pos, most.ok && last.ok)
  }

  ghost function CountedRead<T>(dec: Reader<T>, buf: seq<byte>, pos: nat): Read<seq<T>> {
    var n := ReadU32(buf, pos);
    var r := ReadMany(n.value, dec, buf, n.pos);
    r.(ok := n.ok && r.ok)
  }

  ghost predicate IsVectorReader<T(!new)>(g: Reader<seq<T>>, dec: Reader<T>) {
    forall buf: seq<byte>, pos: nat {:trigger CountedRead(dec, buf, pos)} :: g(buf, pos) == CountedRead(dec, buf, pos)
  }

  ghost function VectorReader<T(!new)>(dec: Reader<T>): (g: Reader<seq<T>>)
    ensures IsVectorReader(g, dec)
  {
    var h := (buf: seq<byte>, pos: nat) => CountedRead(dec, buf, pos);
    assert IsVectorReader(h, dec);
    var g: Reader<seq<T>> :| IsVectorReader(g, dec);
    g
  }

  /** CountedRead as a value, so that proofs about records do not look inside vectors. */
  ghost function ReadCounted<T(!new)>(dec: Reader<T>, buf: seq<byte>, pos: nat): Read<seq<T>> {
    VectorReader(dec)(buf, pos)
  }

  lemma ReadCountedIs<T(!new)>(dec: Reader<T>, buf: seq<byte>, pos: nat)
    ensures ReadCounted(dec, buf, pos) == CountedRead(dec, buf, pos)
  {
  }

  ghost function ReadFunction(buf: seq<byte>, pos: nat): Read<Function> {
    var id := ReadU32(buf, pos);
    var name := ReadString(buf, id.pos);
    var arity := ReadU32(buf, name.pos);
    var locals := ReadU32(buf, arity.pos);
    var upvalues := ReadCounted(ReadUpvalue, buf, locals.pos);
    var code := ReadCounted(ReadInstruction, buf, upvalues.pos);
    var names := ReadCounted(ReadString, buf, code.pos);
    var handlers := ReadCounted(ReadHandler, buf, names.pos);
    Read(Function(id.value, name.value, arity.value, locals.value, upvalues.value, code.value, names.value, handlers.value),
         handlers.pos,
         id.ok && name.ok && arity.ok && locals.ok && upvalues.ok && code.ok && names.ok && handlers.ok)
  }

  /** The part after the magic number. */
  ghost function ReadRest(buf: seq<byte>, pos: nat): Read<Module> {
    var version := ReadU32(buf, pos);
    var name := ReadString(buf, version.pos);
    var values := ReadCounted(ReadConst, buf, name.pos);
    var globals := ReadCounted(ReadString, buf, values.pos);
    var functions := ReadCounted(ReadFunction, buf, globals.pos);
    var debug := ReadU32(buf, functions.pos);
    Read(Module(name.value, values.value, globals.value, Nils(|globals.value|), functions.value), debug.pos,
         version.ok && name.ok && values.ok && globals.ok && functions.ok && debug.ok)
  }

  function Nils(n: nat): (r: seq<Const>)
    ensures |r| == n
  {
    if n == 0 then [] else Nils(n - 1) + [NIL]
  }

  /** None: the file does not start with the magic number. */
  ghost function ReadModule(buf: seq<byte>): Read<Option<Module>> {
    var magic := ReadU32(buf, 0);
    if magic.value != MAGIC then Read(None, magic.pos, false)
    else
      var r := ReadRest(buf, magic.pos);
      Read(Some(r.value), r.pos, magic.ok && r.ok)
  }

  // ----- decoding what was encoded -----

  predicate Same(buf: seq<byte>, pos: nat, bs: seq<byte>, i: int) {
    0 <= i < |bs| && pos + i < |buf| && buf[pos + i] == bs[i]
  }

  /** bs lies in buf at pos. */
  ghost predicate At(buf: seq<byte>, pos: nat, bs: seq<byte>) {
    pos + |bs| <= |buf| && forall i {:trigger Same(buf, pos, bs, i)} :: 0 <= i < |bs| ==> Same(buf, pos, bs, i)
  }

  /** Wherever bs lies, dec reads x and nothing more. */
  ghost predicate Decodes<T(!new)>(dec: Reader<T>, bs: seq<byte>, x: T) {
    forall buf: seq<byte>, pos: nat {:trigger dec(buf, pos)} :: At(buf, pos, bs) ==> dec(buf, pos) == Read(x, pos + |bs|, true)
  }

  lemma AtSplit(buf: seq<byte>, pos: nat, a: seq<byte>, b: seq<byte>)
    requires At(buf, pos, a + b)
    ensures At(buf, pos, a) && At(buf, pos + |a|, b)
  {
    forall i | 0 <= i < |a| ensures Same(buf, pos, a, i) {
      assert Same(buf, pos, a + b, i);
    }
    var mid := pos + |a|;
    forall i | 0 <= i < |b| ensures Same(buf, mid, b, i) {
      assert Same(buf, pos, a + b, |a| + i);
    }
  }

  lemma AtFour(buf: seq<byte>, p1: nat, b1: seq<byte>, b2: seq<byte>, b3: seq<byte>, b4: seq<byte>, p2: nat, p3: nat, p4: nat)
    requires At(buf, p1, b1 + (b2 + (b3 + b4)))
    requires p2 == p1 + |b1| && p3 == p2 + |b2| && p4 == p3 + |b3|
    ensures At(buf, p1, b1) && At(buf, p2, b2) && At(buf, p3, b3) && At(buf, p4, b4)
    ensures |b1 + (b2 + (b3 + b4))| == |b1| + |b2| + |b3| + |b4|
  {
    AtSplit(buf, p1, b1, b2 + (b3 + b4));
    AtSplit(buf, p2, b2, b3 + b4);
    AtSplit(buf, p3, b3, b4);
  }

  lemma AtSlice(buf: seq<byte>, pos: nat, bs: seq<byte>)
    requires At(buf, pos, bs)
    ensures Chunk(buf, pos, |bs|) == bs
  {
    forall i | 0 <= i < |bs| ensures buf[pos..pos + |bs|][i] == bs[i] {
      assert Same(buf, pos, bs, i);
    }
    ChunkIs(buf, pos, |bs|);
  }

  lemma AtStart(bs: seq<byte>, more: seq<byte>)
    ensures At(bs + more, 0, bs)
  {
  }

  lemma ByteRead(b: byte, buf: seq<byte>, pos: nat)
    requires At(buf, pos, [b])
    ensures ReadByte(buf, pos) == Read(b, pos + 1, true)
  {
    assert Same(buf, pos, [b], 0);
  }

  lemma U32Read(v: uint32, buf: seq<byte>, pos: nat)
    requires At(buf, pos, U32Bytes(v))
    ensures ReadU32(buf, pos) == Read(v, pos + 4, true)
  {
    var bs := U32Bytes(v);
    U32BytesAre(v);
    ReadU32Is(buf, pos);
    assert Same(buf, pos, bs, 0) && Same(buf, pos, bs, 1) && Same(buf, pos, bs, 2) && Same(buf, pos, bs, 3);
  }

  lemma I64Read(n: int, buf: seq<byte>, pos: nat)
    requires -TWO_63 <= n < TWO_63 && At(buf, pos, I64Bytes(n))
    ensures ReadI64(buf, pos) == Read(n, pos + 8, true)
  {
    AtSlice(buf, pos, I64Bytes(n));
    I64BytesWeigh(n);
  }

  lemma StringRead(s: seq<byte>, buf: seq<byte>, pos: nat)
    requires |s| < TWO_32 && At(buf, pos, StringBytes(s))
    ensures ReadString(buf, pos) == Read(s, pos + |StringBytes(s)|, true)
  {
    AtSplit(buf, pos, U32Bytes(|s|), s);
    U32Read(|s|, buf, pos);
    AtSlice(buf, pos + 4, s);
  }

  /** A longer string comes back cut off: the round trip holds exactly for lengths that fit 32 bits. */
  lemma StringRoundTripExact(s: seq<byte>)
    ensures ReadString(StringBytes(s), 0).value == s <==> |s| < TWO_32
  {
    var n := U32(|s|);
    var bs := StringBytes(s);
    AtStart(bs, []);
    assert bs + [] == bs;
    AtSplit(bs, 0, U32Bytes(n), s);
    U32Read(n, bs, 0);
    if |s| < TWO_32 {
      StringRead(s, bs, 0);
    }
  }

  predicate ConstFits(c: Const) {
    match c
    case Bare(tag) => tag != BOOL_TAG && tag != I64_TAG && tag != F64_TAG && tag != STRING_TAG
    case BoolC(_) => true
    case I64C(n) => -TWO_63 <= n < TWO_63
    case F64C(bits) => |bits| == 8
    case StringC(s) => |s| < TWO_32
  }

  lemma ConstRead(c: Const, buf: seq<byte>, pos: nat)
    requires ConstFits(c) && At(buf, pos, ConstBytes(c))
    ensures ReadConst(buf, pos) == Read(c, pos + |ConstBytes(c)|, true)
  {
    var bs := ConstBytes(c);
    var tag, payload := bs[0], bs[1..];
    assert bs == [tag] + payload;
    AtSplit(buf, pos, [tag], payload);
    ByteRead(tag, buf, pos);
    match c
    case Bare(_) =>
    case BoolC(_) =>
      assert payload == [bs[1]];
      ByteRead(bs[1], buf, pos + 1);
    case I64C(n) =>
      assert payload == I64Bytes(n);
      I64Read(n, buf, pos + 1);
    case F64C(bits) =>
      assert payload == bits;
      AtSlice(buf, pos + 1, bits);
    case StringC(s) =>
      assert payload == StringBytes(s);
      StringRead(s, buf, pos + 1);
  }

  lemma UpvalueRead(u: Upvalue, buf: seq<byte>, pos: nat)
    requires At(buf, pos, UpvalueBytes(u))
    ensures ReadUpvalue(buf, pos) == Read(u, pos + |UpvalueBytes(u)|, true)
  {
    var flag: byte := if u.isLocal then 1 else 0;
    AtSplit(buf, pos, U32Bytes(u.index), [flag]);
    U32Read(u.index, buf, pos);
    ByteRead(flag, buf, pos + 4);
  }

  lemma InstructionRead(i: Instruction, buf: seq<byte>, pos: nat)
    requires At(buf, pos, InstructionBytes(i))
    ensures ReadInstruction(buf, pos) == Read(i, pos + |InstructionBytes(i)|, true)
  {
    AtSplit(buf, pos, [i.op], U32Bytes(i.operand));
    ByteRead(i.op, buf, pos);
    U32Read(i.operand, buf, pos + 1);
  }

  lemma HandlerRead(h: Handler, buf: seq<byte>, pos: nat)
    requires -TWO_31 <= h.catchVar < TWO_31 && At(buf, pos, HandlerBytes(h))
    ensures ReadHandler(buf, pos) == Read(h, pos + |HandlerBytes(h)|, true)
  {
    var a, b, c, d := U32Bytes(h.startIp), U32Bytes(h.endIp), U32Bytes(h.catchIp), I64Bytes(h.catchVar);
    AtSplit(buf, pos, a + b + c, d);
    AtSplit(buf, pos, a + b, c);
    AtSplit(buf, pos, a, b);
    U32Read(h.startIp, buf, pos);
    U32Read(h.endIp, buf, pos + 4);
    U32Read(h.catchIp, buf, pos + 8);
    I64Read(h.catchVar, buf, pos + 12);
    OperandRoundTrip(h.catchVar);
  }

  // ----- vectors -----

  lemma {:induction false} ManyRead<T(!new)>(xs: seq<T>, f: T -> seq<byte>, dec: Reader<T>, buf: seq<byte>, pos: nat)
    requires forall x {:trigger f(x)} :: x in xs ==> Decodes(dec, f(x), x)
    requires At(buf, pos, Each(xs, f))
    ensures ReadMany(|xs|, dec, buf, pos) == Read(xs, pos + |Each(xs, f)|, true)
    decreases |xs|
  {
    if xs != [] {
      var k := |xs| - 1;
      AtSplit(buf, pos, Each(xs[..k], f), f(xs[k]));
      ManyRead(xs[..k], f, dec, buf, pos);
      assert Decodes(dec, f(xs[k]), xs[k]);
      assert xs[..k] + [xs[k]] == xs;
    }
  }

  lemma VectorRead<T(!new)>(xs: seq<T>, f: T -> seq<byte>, dec: Reader<T>, buf: seq<byte>, pos: nat)
    requires |xs| < TWO_32 && forall x {:trigger f(x)} :: x in xs ==> Decodes(dec, f(x), x)
    requires At(buf, pos, Counted(xs, f))
    ensures ReadCounted(dec, buf, pos) == Read(xs, pos + |Counted(xs, f)|, true)
  {
    CountedIs(xs, f);
    ReadCountedIs(dec, buf, pos);
    AtSplit(buf, pos, U32Bytes(|xs|), Each(xs, f));
    U32Read(|xs|, buf, pos);
    ManyRead(xs, f, dec, buf, pos + 4);
  }

  lemma ConstsRead(cs: seq<Const>, buf: seq<byte>, pos: nat)
    requires |cs| < TWO_32 && (forall i :: 0 <= i < |cs| ==> ConstFits(cs[i])) && At(buf, pos, Counted(cs, ConstBytes))
    ensures ReadCounted(ReadConst, buf, pos) == Read(cs, pos + |Counted(cs, ConstBytes)|, true)
  {
    forall c | c in cs ensures Decodes(ReadConst, ConstBytes(c), c) {
      forall b: seq<byte>, p: nat | At(b, p, ConstBytes(c)) ensures ReadConst(b, p) == Read(c, p + |ConstBytes(c)|, true) {
        ConstRead(c, b, p);
      }
    }
    VectorRead(cs, ConstBytes, ReadConst, buf, pos);
  }

  lemma StringsRead(ss: seq<seq<byte>>, buf: seq<byte>, pos: nat)
    requires |ss| < TWO_32 && (forall i :: 0 <= i < |ss| ==> |ss[i]| < TWO_32) && At(buf, pos, Counted(ss, StringBytes))
    ensures ReadCounted(ReadString, buf, pos) == Read(ss, pos + |Counted(ss, StringBytes)|, true)
  {
    forall s | s in ss ensures Decodes(ReadString, StringBytes(s), s) {
      forall b: seq<byte>, p: nat | At(b, p, StringBytes(s)) ensures ReadString(b, p) == Read(s, p + |StringBytes(s)|, true) {
        StringRead(s, b, p);
      }
    }
    VectorRead(ss, StringBytes, ReadString, buf, pos);
  }

  lemma UpvaluesRead(us: seq<Upvalue>, buf: seq<byte>, pos: nat)
    requires |us| < TWO_32 && At(buf, pos, Counted(us, UpvalueBytes))
    ensures ReadCounted(ReadUpvalue, buf, pos) == Read(us, pos + |Counted(us, UpvalueBytes)|, true)
  {
    forall u | u in us ensures Decodes(ReadUpvalue, UpvalueBytes(u), u) {
      forall b: seq<byte>, p: nat | At(b, p, UpvalueBytes(u)) ensures ReadUpvalue(b, p) == Read(u, p + |UpvalueBytes(u)|, true) {
        UpvalueRead(u, b, p);
      }
    }
    VectorRead(us, UpvalueBytes, ReadUpvalue, buf, pos);
  }

  lemma CodeRead(code: seq<Instruction>, buf: seq<byte>, pos: nat)
    requires |code| < TWO_32 && At(buf, pos, Counted(code, InstructionBytes))
    ensures ReadCounted(ReadInstruction, buf, pos) == Read(code, pos + |Counted(code, InstructionBytes)|, true)
  {
    forall i | i in code ensures Decodes(ReadInstruction, InstructionBytes(i), i) {
      forall b: seq<byte>, p: nat | At(b, p, InstructionBytes(i))
        ensures ReadInstruction(b, p) == Read(i, p + |InstructionBytes(i)|, true)
      {
        InstructionRead(i, b, p);
      }
    }
    VectorRead(code, InstructionBytes, ReadInstruction, buf, pos);
  }

  lemma HandlersRead(hs: seq<Handler>, buf: seq<byte>, pos: nat)
    requires |hs| < TWO_32 && (forall i :: 0 <= i < |hs| ==> -TWO_31 <= hs[i].catchVar < TWO_31)
    requires At(buf, pos, Counted(hs, HandlerBytes))
    ensures ReadCounted(ReadHandler, buf, pos) == Read(hs, pos + |Counted(hs, HandlerBytes)|, true)
  {
    forall h | h in hs ensures Decodes(ReadHandler, HandlerBytes(h), h) {
      forall b: seq<byte>, p: nat | At(b, p, HandlerBytes(h)) ensures ReadHandler(b, p) == Read(h, p + |HandlerBytes(h)|, true) {
        HandlerRead(h, b, p);
      }
    }
    VectorRead(hs, HandlerBytes, ReadHandler, buf, pos);
  }

  // ----- functions and modules -----

  predicate FunctionFits(f: Function) {
    && |f.name| < TWO_32 && |f.upvalues| < TWO_32 && |f.code| < TWO_32 && |f.localNames| < TWO_32 && |f.handlers| < TWO_32
    && (forall i :: 0 <= i < |f.localNames| ==> |f.localNames[i]| < TWO_32)
    && (forall i :: 0 <= i < |f.handlers| ==> -TWO_31 <= f.handlers[i].catchVar < TWO_31)
  }

  /** All sizes fit 32 bits, all numbers their fields, and globals have no value yet. */
  predicate Fits(m: Module) {
    && |m.name| < TWO_32 && |m.values| < TWO_32 && |m.globalNames| < TWO_32 && |m.functions| < TWO_32
    && (forall i :: 0 <= i < |m.values| ==> ConstFits(m.values[i]))
    && (forall i :: 0 <= i < |m.globalNames| ==> |m.globalNames[i]| < TWO_32)
    && (forall i :: 0 <= i < |m.functions| ==> FunctionFits(m.functions[i]))
    && m.globalValues == Nils(|m.globalNames|)
  }

  lemma FunctionRead(f: Function, buf: seq<byte>, pos: nat)
    requires FunctionFits(f) && At(buf, pos, FunctionBytes(f))
    ensures ReadFunction(buf, pos) == Read(f, pos + |FunctionBytes(f)|, true)
  {
    var p := FunctionHead(f, buf, pos);
    FunctionVectors(f, buf, p + 8);
  }

  lemma FunctionHead(f: Function, buf: seq<byte>, pos: nat) returns (p: nat)
    requires |f.name| < TWO_32 && At(buf, pos, FunctionBytes(f))
    ensures p == pos + 4 + |StringBytes(f.name)|
    ensures ReadU32(buf, pos) == Read(f.id, pos + 4, true) && ReadString(buf, pos + 4) == Read(f.name, p, true)
    ensures ReadU32(buf, p) == Read(f.arity, p + 4, true) && ReadU32(buf, p + 4) == Read(f.localCount, p + 8, true)
    ensures At(buf, p + 8, VectorBytes(f))
  {
    var b1, b2, b3, b4, rest := U32Bytes(f.id), StringBytes(f.name), U32Bytes(f.arity), U32Bytes(f.localCount), VectorBytes(f);
    p := pos + 4 + |b2|;
    AtSplit(buf, pos, b1, b2 + (b3 + (b4 + rest)));
    AtSplit(buf, pos + 4, b2, b3 + (b4 + rest));
    AtSplit(buf, p, b3, b4 + rest);
    AtSplit(buf, p + 4, b4, rest);
    U32Read(f.id, buf, pos);
    StringRead(f.name, buf, pos + 4);
    U32Read(f.arity, buf, p);
    U32Read(f.localCount, buf, p + 4);
  }

  lemma FunctionVectors(f: Function, buf: seq<byte>, pos: nat)
    requires FunctionFits(f) && At(buf, pos, VectorBytes(f))
    ensures var a := ReadCounted(ReadUpvalue, buf, pos);
            var b := ReadCounted(ReadInstruction, buf, a.pos);
            var c := ReadCounted(ReadString, buf, b.pos);
            && a.ok && a.value == f.upvalues && b.ok && b.value == f.code && c.ok && c.value == f.localNames
            && ReadCounted(ReadHandler, buf, c.pos) == Read(f.handlers, pos + |VectorBytes(f)|, true)
  {
    var p1 := pos + |Counted(f.upvalues, UpvalueBytes)|;
    var p2 := p1 + |Counted(f.code, InstructionBytes)|;
    var p3 := p2 + |Counted(f.localNames, StringBytes)|;
    AtFour(buf, pos, Counted(f.upvalues, UpvalueBytes), Counted(f.code, InstructionBytes),
           Counted(f.localNames, StringBytes), Counted(f.handlers, HandlerBytes), p1, p2, p3);
    UpvaluesRead(f.upvalues, buf, pos);
    CodeRead(f.code, buf, p1);
    StringsRead(f.localNames, buf, p2);
    HandlersRead(f.handlers, buf, p3);
  }

  lemma FunctionsRead(fs: seq<Function>, buf: seq<byte>, pos: nat)
    requires |fs| < TWO_32 && (forall i :: 0 <= i < |fs| ==> FunctionFits(fs[i])) && At(buf, pos, Counted(fs, FunctionBytes))
    ensures ReadCounted(ReadFunction, buf, pos) == Read(fs, pos + |Counted(fs, FunctionBytes)|, true)
  {
    forall f | f in fs ensures Decodes(ReadFunction, FunctionBytes(f), f) {
      forall b: seq<byte>, p: nat | At(b, p, FunctionBytes(f))
        ensures ReadFunction(b, p) == Read(f, p + |FunctionBytes(f)|, true)
      {
        FunctionRead(f, b, p);
      }
    }
    VectorRead(fs, FunctionBytes, ReadFunction, buf, pos);
  }

  lemma RestRead(m: Module, buf: seq<byte>, pos: nat)
    requires Fits(m) && At(buf, pos, RestBytes(m))
    ensures ReadRest(buf, pos) == Read(m, pos + |RestBytes(m)|, true)
  {
    RestParts(m, buf, pos);
  }

  lemma RestParts(m: Module, buf: seq<byte>, pos: nat)
    requires Fits(m) && At(buf, pos, RestBytes(m))
    ensures var name := ReadString(buf, pos + 4);
            var values := ReadCounted(ReadConst, buf, name.pos);
            var globals := ReadCounted(ReadString, buf, values.pos);
            var functions := ReadCounted(ReadFunction, buf, globals.pos);
            && ReadU32(buf, pos) == Read(VERSION, pos + 4, true) && name.ok && name.value == m.name
            && values.ok && values.value == m.values && globals.ok && globals.value == m.globalNames
            && functions.ok && functions.value == m.functions
            && ReadU32(buf, functions.pos) == Read(0, pos + |RestBytes(m)|, true)
  {
    var tables := Counted(m.globalNames, StringBytes) + (Counted(m.functions, FunctionBytes) + U32Bytes(0));
    var p2 := pos + 4;
    var p3 := p2 + |StringBytes(m.name)|;
    var p4 := p3 + |Counted(m.values, ConstBytes)|;
    AtFour(buf, pos, U32Bytes(VERSION), StringBytes(m.name), Counted(m.values, ConstBytes), tables, p2, p3, p4);
    U32Read(VERSION, buf, pos);
    StringRead(m.name, buf, p2);
    ConstsRead(m.values, buf, p3);
    TablesRead(m, buf, p4);
  }

  lemma TablesRead(m: Module, buf: seq<byte>, pos: nat)
    requires Fits(m)
    requires At(buf, pos, Counted(m.globalNames, StringBytes) + (Counted(m.functions, FunctionBytes) + U32Bytes(0)))
    ensures var a := ReadCounted(ReadString, buf, pos);
            var b := ReadCounted(ReadFunction, buf, a.pos);
            && a.ok && a.value == m.globalNames && b.ok && b.value == m.functions
            && b.pos == pos + |Counted(m.globalNames, StringBytes)| + |Counted(m.functions, FunctionBytes)|
            && ReadU32(buf, b.pos) == Read(0, b.pos + 4, true)
  {
    var p1 := pos + |Counted(m.globalNames, StringBytes)|;
    var p2 := p1 + |Counted(m.functions, FunctionBytes)|;
    AtSplit(buf, pos, Counted(m.globalNames, StringBytes), Counted(m.functions, FunctionBytes) + U32Bytes(0));
    AtSplit(buf, p1, Counted(m.functions, FunctionBytes), U32Bytes(0));
    StringsRead(m.globalNames, buf, pos);
    FunctionsRead(m.functions, buf, p1);
    U32Read(0, buf, p2);
  }

  /** Reading a written module, whatever follows it, gives the module back and stops at its end. */
  lemma ModuleRoundTrip(m: Module, trailing: seq<byte>)
    requires Fits(m)
    ensures ReadModule(ModuleBytes(m) + trailing) == Read(Some(m), |ModuleBytes(m)|, true)
  {
    var bs := ModuleBytes(m);
    var buf := bs + trailing;
    AtStart(bs, trailing);
    AtSplit(buf, 0, U32Bytes(MAGIC), RestBytes(m));
    U32Read(MAGIC, buf, 0);
    RestRead(m, buf, 4);
  }

  /** Different modules have different files. */
  lemma WritingIsInjective(m1: Module, m2: Module)
    requires Fits(m1) && Fits(m2) && ModuleBytes(m1) == ModuleBytes(m2)
    ensures m1 == m2
  {
    ModuleRoundTrip(m1, []);
    ModuleRoundTrip(m2, []);
  }

  // ----- what is read is there: a successful read does not depend on what follows -----

  /** r was read from buf at pos; s from the same place with more bytes behind. */
  ghost predicate SameRead<T>(r: Read<T>, s: Read<T>, buf: seq<byte>, pos: nat) {
    r.ok ==> s == r && pos <= r.pos <= |buf|
  }

  ghost predicate Stable<T(!new)>(dec: Reader<T>) {
    forall buf: seq<byte>, more: seq<byte>, pos: nat {:trigger dec(buf + more, pos)} ::
      pos <= |buf| ==> SameRead(dec(buf, pos), dec(buf + more, pos), buf, pos)
  }

  lemma U32Stable(buf: seq<byte>, more: seq<byte>, pos: nat)
    requires pos <= |buf|
    ensures SameRead(ReadU32(buf, pos), ReadU32(buf + more, pos), buf, pos)
  {
    ReadU32Is(buf, pos);
    ReadU32Is(buf + more, pos);
  }

  lemma BytesStable(n: nat, buf: seq<byte>, more: seq<byte>, pos: nat)
    requires pos <= |buf|
    ensures SameRead(ReadBytes(n, buf, pos), ReadBytes(n, buf + more, pos), buf, pos)
  {
    if pos + n <= |buf| {
      ChunkIs(buf, pos, n);
      ChunkIs(buf + more, pos, n);
      assert (buf + more)[pos..pos + n] == buf[pos..pos + n];
    }
  }

  lemma I64Stable(buf: seq<byte>, more: seq<byte>, pos: nat)
    requires pos <= |buf|
    ensures SameRead(ReadI64(buf, pos), ReadI64(buf + more, pos), buf, pos)
  {
    BytesStable(8, buf, more, pos);
  }

  lemma StringStable(buf: seq<byte>, more: seq<byte>, pos: nat)
    requires pos <= |buf|
    ensures SameRead(ReadString(buf, pos), ReadString(buf + more, pos), buf, pos)
  {
    U32Stable(buf, more, pos);
    var len := ReadU32(buf, pos);
    if len.ok {
      BytesStable(len.value, buf, more, len.pos);
    }
  }

  lemma ConstStable(buf: seq<byte>, more: seq<byte>, pos: nat)
    requires pos <= |buf|
    ensures SameRead(ReadConst(buf, pos), ReadConst(buf + more, pos), buf, pos)
  {
    if pos < |buf| {
      I64Stable(buf, more, pos + 1);
      BytesStable(8, buf, more, pos + 1);
      StringStable(buf, more, pos + 1);
    }
  }

  lemma UpvalueStable(buf: seq<byte>, more: seq<byte>, pos: nat)
    requires pos <= |buf|
    ensures SameRead(ReadUpvalue(buf, pos), ReadUpvalue(buf + more, pos), buf, pos)
  {
    U32Stable(buf, more, pos);
  }

  lemma InstructionStable(buf: seq<byte>, more: seq<byte>, pos: nat)
    requires pos <= |buf|
    ensures SameRead(ReadInstruction(buf, pos), ReadInstruction(buf + more, pos), buf, pos)
  {
    if pos < |buf| {
      U32Stable(buf, more, pos + 1);
    }
  }

  lemma HandlerStable(buf: seq<byte>, more: seq<byte>, pos: nat)
    requires pos <= |buf|
    ensures SameRead(ReadHandler(buf, pos), ReadHandler(buf + more, pos), buf, pos)
  {
    var a := ReadU32(buf, pos);
    U32Stable(buf, more, pos);
    if a.ok {
      var b := ReadU32(buf, a.pos);
      U32Stable(buf, more, a.pos);
      if b.ok {
        var c := ReadU32(buf, b.pos);
        U32Stable(buf, more, b.pos);
        if c.ok {
          I64Stable(buf, more, c.pos);
        }
      }
    }
  }

  lemma {:induction false} ManyStable<T(!new)>(n: nat, dec: Reader<T>, buf: seq<byte>, more: seq<byte>, pos: nat)
    requires Stable(dec) && pos <= |buf|
    ensures SameRead(ReadMany(n, dec, buf, pos), ReadMany(n, dec, buf + more, pos), buf, pos)
    decreases n
  {
    if n > 0 {
      ManyStable(n - 1, dec, buf, more, pos);
      var most := ReadMany(n - 1, dec, buf, pos);
      if most.ok {
        assert SameRead(dec(buf, most.pos), dec(buf + more, most.pos), buf, most.pos);
      }
    }
  }

  lemma CountedStable<T(!new)>(dec: Reader<T>, buf: seq<byte>, more: seq<byte>, pos: nat)
    requires Stable(dec) && pos <= |buf|
    ensures SameRead(ReadCounted(dec, buf, pos), ReadCounted(dec, buf + more, pos), buf, pos)
  {
    ReadCountedIs(dec, buf, pos);
    ReadCountedIs(dec, buf + more, pos);
    U32Stable(buf, more, pos);
    var n := ReadU32(buf, pos);
    if n.ok {
      ManyStable(n.value, dec, buf, more, n.pos);
    }
  }

  lemma ElementsStable()
    ensures Stable(ReadConst) && Stable(ReadString) && Stable(ReadUpvalue) && Stable(ReadInstruction) && Stable(ReadHandler)
  {
    forall buf: seq<byte>, more: seq<byte>, pos: nat | pos <= |buf|
      ensures SameRead(ReadConst(buf, pos), ReadConst(buf + more, pos), buf, pos)
      ensures SameRead(ReadString(buf, pos), ReadString(buf + more, pos), buf, pos)
      ensures SameRead(ReadUpvalue(buf, pos), ReadUpvalue(buf + more, pos), buf, pos)
      ensures SameRead(ReadInstruction(buf, pos), ReadInstruction(buf + more, pos), buf, pos)
      ensures SameRead(ReadHandler(buf, pos), ReadHandler(buf + more, pos), buf, pos)
    {
      ConstStable(buf, more, pos);
      StringStable(buf, more, pos);
      UpvalueStable(buf, more, pos);
      InstructionStable(buf, more, pos);
      HandlerStable(buf, more, pos);
    }
  }

  lemma FunctionStable(buf: seq<byte>, more: seq<byte>, pos: nat)
    requires pos <= |buf|
    ensures SameRead(ReadFunction(buf, pos), ReadFunction(buf + more, pos), buf, pos)
  {
    if ReadFunction(buf, pos).ok {
      var id := ReadU32(buf, pos);
      U32Stable(buf, more, pos);
      var name := ReadString(buf, id.pos);
      StringStable(buf, more, id.pos);
      var arity := ReadU32(buf, name.pos);
      U32Stable(buf, more, name.pos);
      var locals := ReadU32(buf, arity.pos);
      U32Stable(buf, more, arity.pos);
      VectorsStable(buf, more, locals.pos);
    }
  }

  lemma VectorsStable(buf: seq<byte>, more: seq<byte>, pos: nat)
    requires pos <= |buf|
    ensures var a := ReadCounted(ReadUpvalue, buf, pos);
            var b := ReadCounted(ReadInstruction, buf, a.pos);
            var c := ReadCounted(ReadString, buf, b.pos);
            var d := ReadCounted(ReadHandler, buf, c.pos);
            a.ok && b.ok && c.ok && d.ok ==>
              && ReadCounted(ReadUpvalue, buf + more, pos) == a && ReadCounted(ReadInstruction, buf + more, a.pos) == b
              && ReadCounted(ReadString, buf + more, b.pos) == c && ReadCounted(ReadHandler, buf + more, c.pos) == d
              && pos <= d.pos <= |buf|
  {
    ElementsStable();
    var a := ReadCounted(ReadUpvalue, buf, pos);
    CountedStable(ReadUpvalue, buf, more, pos);
    if a.ok {
      var b := ReadCounted(ReadInstruction, buf, a.pos);
      CountedStable(ReadInstruction, buf, more, a.pos);
      if b.ok {
        var c := ReadCounted(ReadString, buf, b.pos);
        CountedStable(ReadString, buf, more, b.pos);
        if c.ok {
          CountedStable(ReadHandler, buf, more, c.pos);
        }
      }
    }
  }

  lemma FunctionsStable()
    ensures Stable(ReadFunction)
  {
    forall buf: seq<byte>, more: seq<byte>, pos: nat | pos <= |buf|
      ensures SameRead(ReadFunction(buf, pos), ReadFunction(buf + more, pos), buf, pos)
    {
      FunctionStable(buf, more, pos);
    }
  }

  lemma RestStable(buf: seq<byte>, more: seq<byte>, pos: nat)
    requires pos <= |buf|
    ensures SameRead(ReadRest(buf, pos), ReadRest(buf + more, pos), buf, pos)
  {
    if ReadRest(buf, pos).ok {
      ElementsStable();
      FunctionsStable();
      var version := ReadU32(buf, pos);
      U32Stable(buf, more, pos);
      var name := ReadString(buf, version.pos);
      StringStable(buf, more, version.pos);
      var values := ReadCounted(ReadConst, buf, name.pos);
      CountedStable(ReadConst, buf, more, name.pos);
      var globals := ReadCounted(ReadString, buf, values.pos);
      CountedStable(ReadString, buf, more, values.pos);
      var functions := ReadCounted(ReadFunction, buf, globals.pos);
      CountedStable(ReadFunction, buf, more, globals.pos);
      U32Stable(buf, more, functions.pos);
    }
  }

  lemma ModuleStable(buf: seq<byte>, more: seq<byte>)
    ensures SameRead(ReadModule(buf), ReadModule(buf + more), buf, 0)
  {
    U32Stable(buf, more, 0);
    var magic := ReadU32(buf, 0);
    if magic.ok {
      RestStable(buf, more, magic.pos);
    }
  }

  /**
   * A file that was cut short anywhere is noticed: the reader runs out of bytes. It still answers with some
   * module, so only the error tells.
   */
  lemma TruncationIsNoticed(m: Module, k: nat)
    requires Fits(m) && k < |ModuleBytes(m)|
    ensures var r := ReadModule(ModuleBytes(m)[..k]); !r.ok && (k >= 4 ==> r.value.Some?)
  {
    var bs := ModuleBytes(m);
    if k >= 4 {
      var front := bs[..k];
      assert front == U32Bytes(MAGIC) + front[4..];
      AtStart(U32Bytes(MAGIC), front[4..]);
      U32Read(MAGIC, front, 0);
    }
    ModuleStable(bs[..k], bs[k..]);
    assert bs[..k] + bs[k..] == bs == bs + [];
    ModuleRoundTrip(m, []);
  }
}
