/** The bytecode file in numbers: which byte stands where, whatever the constants of the model are called. */
module FileLayout {
  import opened Values
  import opened Serializer

  // ----- constants: the first byte is the type's place in the enumeration -----

  datatype ValueType =
    | NilType | BoolType | I8Type | I16Type | I32Type | I64Type | U8Type | U16Type | U32Type | U64Type | F32Type | F64Type
    | StringType | ArrayType | TupleType | ObjectType | FunctionType | TensorType | PointerType | ExternType | IteratorType
    | CoroutineType | FutureType

  /** In the order of declaration. */
  const TYPES: seq<ValueType> :=
    [NilType, BoolType, I8Type, I16Type, I32Type, I64Type, U8Type, U16Type, U32Type, U64Type, F32Type, F64Type,
     StringType, ArrayType, TupleType, ObjectType, FunctionType, TensorType, PointerType, ExternType, IteratorType,
     CoroutineType, FutureType]

  /** The type a constant is of; a tag without payload may also be of no type at all. */
  predicate HasType(c: Const, t: ValueType) {
    match c
    case BoolC(_) => t == BoolType
    case I64C(_) => t == I64Type
    case F64C(_) => t == F64Type
    case StringC(_) => t == StringType
    case Bare(tag) => tag < |TYPES| && TYPES[tag] == t
  }

  /** Every constant begins with the place of its type; behind it the payload: one byte, eight, eight, or a string. */
  lemma ConstLayout(c: Const, t: ValueType)
    requires HasType(c, t)
    ensures var b := ConstBytes(c);
            && b != [] && b[0] < |TYPES| && TYPES[b[0]] == t
            && match c
               case Bare(_) => |b| == 1
               case BoolC(v) => b == [1, if v then 1 else 0]
               case I64C(n) => b[0] == 5 && |b| == 9 && WeighEight(b[1..]) == Unsigned(Wrap(n))
               case F64C(bits) => b[0] == 11 && b[1..] == bits
               case StringC(s) => b[0] == 12 && |b| == 5 + |s| && Weigh(b[1..5]) == U32(|s|) && b[5..] == s
  {
    var b := ConstBytes(c);
    match c
    case I64C(n) =>
      assert b[1..] == I64Bytes(n);
      I64BytesWeigh(n);
    case F64C(bits) => assert b[1..] == bits;
    case StringC(s) =>
      U32BytesAre(U32(|s|));
      assert b[1..5] == U32Bytes(U32(|s|)) && b[5..] == s;
    case _ =>
  }

  /** The first byte read decides what kind of constant comes back. */
  lemma ReadDispatches(buf: seq<byte>, pos: nat)
    requires pos < |buf|
    ensures var c := ReadConst(buf, pos).value;
            && (buf[pos] == 1 <==> c.BoolC?) && (buf[pos] == 5 <==> c.I64C?)
            && (buf[pos] == 11 <==> c.F64C?) && (buf[pos] == 12 <==> c.StringC?)
            && (c.Bare? ==> c.tag == buf[pos] && ReadConst(buf, pos).pos == pos + 1)
  {
  }

  // ----- the front of a file, and of a function -----

  /** Every file begins with the letters `WALC` and version 1. */
  lemma FirstEight(m: Module)
    ensures ModuleBytes(m)[..8] == [0x57, 0x41, 0x4C, 0x43, 1, 0, 0, 0]
  {
    U32BytesAre(MAGIC);
    U32BytesAre(VERSION);
    var b := ModuleBytes(m);
    assert b[..4] == U32Bytes(MAGIC) && b[4..8] == U32Bytes(VERSION);
    assert b[..8] == b[..4] + b[4..8];
  }

  /** A file that begins otherwise is refused. */
  lemma RefusedOtherwise(buf: seq<byte>)
    requires |buf| >= 4 && buf[..4] != [0x57, 0x41, 0x4C, 0x43]
    ensures ReadModule(buf).value == None
  {
    ReadU32Is(buf, 0);
    var v := FourRead(buf, 0).value;
    if v == 0x434C4157 {
      FourDigits(buf[0], buf[1], buf[2], buf[3]);
    }
  }

  lemma FourDigits(a: byte, b: byte, c: byte, d: byte)
    requires a + 0x100 * b + 0x1_0000 * c + 0x100_0000 * d == 0x434C4157
    ensures a == 0x57 && b == 0x41 && c == 0x4C && d == 0x43
  {
  }

  /** A function: its number, its name, its arity, the number of its locals, then the counts and records of its vectors. */
  lemma FunctionLayout(f: Function)
    ensures var b, n := FunctionBytes(f), |f.name|;
            && |b| >= 16 + n
            && Weigh(b[..4]) == f.id && Weigh(b[4..8]) == U32(n) && b[8..8 + n] == f.name
            && Weigh(b[8 + n..12 + n]) == f.arity && Weigh(b[12 + n..16 + n]) == f.localCount
            && b[16 + n..] == VectorBytes(f)
  {
    var b, n := FunctionBytes(f), |f.name|;
    U32BytesAre(f.id);
    U32BytesAre(U32(n));
    U32BytesAre(f.arity);
    U32BytesAre(f.localCount);
    assert b[..4] == U32Bytes(f.id) && b[4..8] == U32Bytes(U32(n)) && b[8..8 + n] == f.name;
    assert b[8 + n..12 + n] == U32Bytes(f.arity) && b[12 + n..16 + n] == U32Bytes(f.localCount);
    assert b[16 + n..] == VectorBytes(f);
  }

  // ----- a whole file -----

  const EXAMPLE: Module :=
    Module([109],
           [Bare(0), BoolC(true), I64C(-2), F64C([0, 0, 0, 0, 0, 0, 240, 63]), StringC([104, 105])],
           [[103]], [NIL],
           [Function(7, [102], 1, 2, [Upvalue(3, true)], [Instruction(9, 258)], [[120]], [Handler(10, 11, 12, -1)])])

  /** The file of one module with something in every field. */
  lemma ExampleFile()
    ensures ModuleBytes(EXAMPLE)
         == [0x57, 0x41, 0x4C, 0x43] + ([1, 0, 0, 0] + ([1, 0, 0, 0] + [109]                      // magic, version, name
            + (([5, 0, 0, 0] + ([0] + [1, 1] + [5, 254, 255, 255, 255, 255, 255, 255, 255]        // constants
                                + [11, 0, 0, 0, 0, 0, 0, 240, 63] + [12, 2, 0, 0, 0, 104, 105]))
            + (([1, 0, 0, 0] + ([1, 0, 0, 0] + [103])                                             // globals
            + (([1, 0, 0, 0] + ([7, 0, 0, 0] + (([1, 0, 0, 0] + [102]) + ([1, 0, 0, 0] + ([2, 0, 0, 0]  // functions
               + (([1, 0, 0, 0] + ([3, 0, 0, 0] + [1]))                                           // upvalues
               + (([1, 0, 0, 0] + ([9] + [2, 1, 0, 0]))                                           // code
               + (([1, 0, 0, 0] + ([1, 0, 0, 0] + [120]))                                         // names
               + ([1, 0, 0, 0] + ([10, 0, 0, 0] + [11, 0, 0, 0] + [12, 0, 0, 0]                   // handlers
                                  + [255, 255, 255, 255, 255, 255, 255, 255]))))))))))
            + [0, 0, 0, 0]))))))                                                                  // lines
  {
    SmallBytes(0);
    SmallBytes(1);
    SmallBytes(5);
    U32BytesAre(MAGIC);
    ExampleConstants();
    ExampleFunction();
    CountedIs(EXAMPLE.values, ConstBytes);
    CountedIs(EXAMPLE.globalNames, StringBytes);
    CountedIs(EXAMPLE.functions, FunctionBytes);
    OneElement(EXAMPLE.globalNames[0], StringBytes);
    OneElement(EXAMPLE.functions[0], FunctionBytes);
  }

  lemma SmallBytes(n: byte)
    ensures U32Bytes(n) == [n, 0, 0, 0]
  {
    U32BytesAre(n);
  }

  lemma OneElement<T>(x: T, f: T -> seq<byte>)
    ensures Each([x], f) == f(x)
  {
    assert [x][..0] == [];
    assert Each([x][..0], f) == [];
    assert [] + f(x) == f(x);
  }

  lemma EachMore<T>(xs: seq<T>, x: T, f: T -> seq<byte>)
    ensures Each(xs + [x], f) == Each(xs, f) + f(x)
  {
    assert (xs + [x])[..|xs|] == xs;
  }

  lemma MinusOneAndTwo()
    ensures I64Bytes(-1) == [255, 255, 255, 255, 255, 255, 255, 255]
    ensures I64Bytes(-2) == [254, 255, 255, 255, 255, 255, 255, 255]
  {
    U32BytesAre(0xFFFF_FFFF);
    U32BytesAre(0xFFFF_FFFE);
  }

  lemma ExampleConstants()
    ensures Each(EXAMPLE.values, ConstBytes)
         == [0] + [1, 1] + [5, 254, 255, 255, 255, 255, 255, 255, 255] + [11, 0, 0, 0, 0, 0, 0, 240, 63]
            + [12, 2, 0, 0, 0, 104, 105]
  {
    var a, b, c, d, e: Const := Bare(0), BoolC(true), I64C(-2), F64C([0, 0, 0, 0, 0, 0, 240, 63]), StringC([104, 105]);
    MinusOneAndTwo();
    SmallBytes(2);
    OneElement(a, ConstBytes);
    EachMore([a], b, ConstBytes);
    EachMore([a, b], c, ConstBytes);
    EachMore([a, b, c], d, ConstBytes);
    EachMore([a, b, c, d], e, ConstBytes);
    assert [a] + [b] == [a, b] && [a, b] + [c] == [a, b, c] && [a, b, c] + [d] == [a, b, c, d];
    assert [a, b, c, d] + [e] == EXAMPLE.values;
    assert ConstBytes(c) == [5, 254, 255, 255, 255, 255, 255, 255, 255];
    assert ConstBytes(d) == [11, 0, 0, 0, 0, 0, 0, 240, 63];
    assert ConstBytes(e) == [12, 2, 0, 0, 0, 104, 105];
  }

  lemma ExampleFunction()
    ensures FunctionBytes(EXAMPLE.functions[0])
         == [7, 0, 0, 0] + (([1, 0, 0, 0] + [102]) + ([1, 0, 0, 0] + ([2, 0, 0, 0]
            + (([1, 0, 0, 0] + ([3, 0, 0, 0] + [1]))
            + (([1, 0, 0, 0] + ([9] + [2, 1, 0, 0]))
            + (([1, 0, 0, 0] + ([1, 0, 0, 0] + [120]))
            + ([1, 0, 0, 0] + ([10, 0, 0, 0] + [11, 0, 0, 0] + [12, 0, 0, 0]
                               + [255, 255, 255, 255, 255, 255, 255, 255]))))))))
  {
    SmallBytes(1);
    SmallBytes(2);
    SmallBytes(7);
    ExampleVectors();
  }

  lemma ExampleVectors()
    ensures VectorBytes(EXAMPLE.functions[0])
         == ([1, 0, 0, 0] + ([3, 0, 0, 0] + [1]))
            + (([1, 0, 0, 0] + ([9] + [2, 1, 0, 0]))
            + (([1, 0, 0, 0] + ([1, 0, 0, 0] + [120]))
            + ([1, 0, 0, 0] + ([10, 0, 0, 0] + [11, 0, 0, 0] + [12, 0, 0, 0]
                               + [255, 255, 255, 255, 255, 255, 255, 255]))))
  {
    ExampleUpvalues();
    ExampleCode();
    ExampleNames();
    ExampleHandlers();
  }

  lemma OneCounted<T(!new)>(x: T, f: T -> seq<byte>)
    ensures Counted([x], f) == [1, 0, 0, 0] + f(x)
  {
    SmallBytes(1);
    CountedIs([x], f);
    OneElement(x, f);
  }

  lemma ExampleUpvalues()
    ensures Counted([Upvalue(3, true)], UpvalueBytes) == [1, 0, 0, 0] + ([3, 0, 0, 0] + [1])
  {
    SmallBytes(3);
    OneCounted(Upvalue(3, true), UpvalueBytes);
  }

  lemma ExampleCode()
    ensures Counted([Instruction(9, 258)], InstructionBytes) == [1, 0, 0, 0] + ([9] + [2, 1, 0, 0])
  {
    U32BytesAre(258);
    OneCounted(Instruction(9, 258), InstructionBytes);
  }

  lemma ExampleNames()
    ensures Counted([[120]], StringBytes) == [1, 0, 0, 0] + ([1, 0, 0, 0] + [120])
  {
    SmallBytes(1);
    OneCounted([120], StringBytes);
  }

  lemma ExampleHandlers()
    ensures Counted([Handler(10, 11, 12, -1)], HandlerBytes)
         == [1, 0, 0, 0] + ([10, 0, 0, 0] + [11, 0, 0, 0] + [12, 0, 0, 0] + [255, 255, 255, 255, 255, 255, 255, 255])
  {
    SmallBytes(10);
    SmallBytes(11);
    SmallBytes(12);
    MinusOneAndTwo();
    OneCounted(Handler(10, 11, 12, -1), HandlerBytes);
  }
}
