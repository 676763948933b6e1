/** Merging compiled functions into one text section: padding, symbols and relocations. */
module AotLayout {

  type byte = n: int | 0 <= n < 256

  const NOP: byte := 0x90

  datatype ExternalCall = ExternalCall(codeOffset: nat, symbol: string)
  datatype Compiled = Compiled(name: string, code: seq<byte>, calls: seq<ExternalCall>)
  datatype Symbol = Symbol(name: string, value: nat, global: bool)
  datatype Relocation = Relocation(offset: nat, symbol: string)
  datatype Section = Section(data: seq<byte>, symbols: seq<Symbol>, relocations: seq<Relocation>)

  /** The calls of the first n functions. */
  function CallsBefore(fs: seq<Compiled>, n: nat): nat
    requires n <= |fs|
    decreases n
  {
    if n == 0 then 0 else CallsBefore(fs, n - 1) + |fs[n - 1].calls|
  }

  /** Function k lies at its symbol: verbatim, aligned, behind the one before it, with nothing but NOPs between. */
  ghost predicate Placed(s: Section, fs: seq<Compiled>, k: nat)
    requires k < |fs| && k < |s.symbols|
  {
    var at, size := s.symbols[k].value, |fs[k].code|;
    var free := if k == 0 then 0 else s.symbols[k - 1].value + |fs[k - 1].code|;
    && s.symbols[k].name == "_" + fs[k].name && (s.symbols[k].global <==> fs[k].name == "main")
    && at % 16 == 0 && free <= at < free + 16 && at + size <= |s.data|
    && s.data[at..at + size] == fs[k].code
    && forall i :: free <= i < at ==> s.data[i] == NOP
  }

  /** Call j of function k: its relocation names the symbol, and the byte it addresses is the one the call had in its function. */
  ghost predicate Relocated(s: Section, fs: seq<Compiled>, k: nat, j: nat)
    requires k < |fs| && k < |s.symbols| && j < |fs[k].calls|
  {
    var r := CallsBefore(fs, k) + j;
    var c := fs[k].calls[j];
    && r < |s.relocations|
    && s.relocations[r] == Relocation(s.symbols[k].value + c.codeOffset, c.symbol)
    && (c.codeOffset < |fs[k].code| ==> s.relocations[r].offset < |s.data| && s.data[s.relocations[r].offset] == fs[k].code[c.codeOffset])
  }

  /** The first n functions are laid out, and nothing comes after them. */
  ghost predicate LaidOut(s: Section, fs: seq<Compiled>, n: nat)
    requires n <= |fs|
  {
    && |s.symbols| == n && |s.relocations| == CallsBefore(fs, n)
    && (forall k {:trigger Placed(s, fs, k)} :: 0 <= k < n ==> Placed(s, fs, k))
    && (forall k, j {:trigger Relocated(s, fs, k, j)} :: 0 <= k < n && 0 <= j < |fs[k].calls| ==> Relocated(s, fs, k, j))
    && |s.data| == if n == 0 then 0 else s.symbols[n - 1].value + |fs[n - 1].code|
  }

  lemma PlacedLater(s: Section, t: Section, fs: seq<Compiled>, n: nat, k: nat)
    requires n <= |fs| && LaidOut(s, fs, n) && k < n && s.data <= t.data && s.symbols <= t.symbols && s.relocations <= t.relocations
    ensures Placed(t, fs, k)
    ensures forall j {:trigger Relocated(t, fs, k, j)} :: 0 <= j < |fs[k].calls| ==> Relocated(t, fs, k, j)
  {
    assert Placed(s, fs, k);
    var at, size := s.symbols[k].value, |fs[k].code|;
    assert t.symbols[k] == s.symbols[k] && (k > 0 ==> t.symbols[k - 1] == s.symbols[k - 1]);
    assert t.data[at..at + size] == s.data[at..at + size];
    forall j | 0 <= j < |fs[k].calls| ensures Relocated(t, fs, k, j) {
      assert Relocated(s, fs, k, j);
      var r := CallsBefore(fs, k) + j;
      assert t.relocations[r] == s.relocations[r];
    }
  }

  /** The next function is appended at the first multiple of 16. */
  lemma LaidOutNext(s: Section, fs: seq<Compiled>, n: nat, padded: seq<byte>, t: Section, relocations: seq<Relocation>)
    requires n < |fs| && LaidOut(s, fs, n)
    requires s.data <= padded && |padded| % 16 == 0 && |padded| < |s.data| + 16
    requires forall i :: |s.data| <= i < |padded| ==> padded[i] == NOP
    requires |relocations| == |fs[n].calls|
    requires forall j :: 0 <= j < |relocations| ==>
               relocations[j] == Relocation(|padded| + fs[n].calls[j].codeOffset, fs[n].calls[j].symbol)
    requires t == Section(padded + fs[n].code, s.symbols + [Symbol("_" + fs[n].name, |padded|, fs[n].name == "main")],
                          s.relocations + relocations)
    ensures LaidOut(t, fs, n + 1)
  {
    var at, size := |padded|, |fs[n].code|;
    assert t.data[at..at + size] == fs[n].code;
    assert Placed(t, fs, n);
    forall k | 0 <= k < n + 1 ensures Placed(t, fs, k) {
      if k < n {
        PlacedLater(s, t, fs, n, k);
      }
    }
    forall k, j | 0 <= k < n + 1 && 0 <= j < |fs[k].calls| ensures Relocated(t, fs, k, j) {
      if k < n {
        PlacedLater(s, t, fs, n, k);
      }
    }
  }

  method MergeFunctions(fs: seq<Compiled>) returns (s: Section)
    ensures LaidOut(s, fs, |fs|)
  {
    s := Section([], [], []);
    var currentOffset := 0;
    var i := 0;
    while i < |fs|
      invariant 0 <= i <= |fs| && LaidOut(s, fs, i) && currentOffset == |s.data|
    {
      ghost var was := s;
      var data := s.data;
      while currentOffset % 16 != 0
        invariant was.data <= data && |data| == currentOffset < |was.data| + 16
        invariant forall k :: |was.data| < k < currentOffset ==> k % 16 != 0
        invariant |was.data| % 16 == 0 ==> currentOffset == |was.data|
        invariant forall k :: |was.data| <= k < |data| ==> data[k] == NOP
        decreases |was.data| + 16 - currentOffset
      {
        Aligns(|was.data|, currentOffset);
        data := data + [NOP];
        currentOffset := currentOffset + 1;
      }
      var funcOffset := currentOffset;
      var relocations: seq<Relocation> := [];
      var j := 0;
      while j < |fs[i].calls|
        invariant 0 <= j <= |fs[i].calls| && |relocations| == j
        invariant forall k :: 0 <= k < j ==>
                    relocations[k] == Relocation(funcOffset + fs[i].calls[k].codeOffset, fs[i].calls[k].symbol)
      {
        relocations := relocations + [Relocation(funcOffset + fs[i].calls[j].codeOffset, fs[i].calls[j].symbol)];
        j := j + 1;
      }
      s := Section(data + fs[i].code, s.symbols + [Symbol("_" + fs[i].name, funcOffset, fs[i].name == "main")],
                   s.relocations + relocations);
      LaidOutNext(was, fs, i, data, s, relocations);
      currentOffset := currentOffset + |fs[i].code|;
      i := i + 1;
    }
  }

  /** Among 16 numbers in a row one is a multiple of 16. */
  lemma Aligns(start: nat, at: nat)
    requires start <= at < start + 16 && at % 16 != 0 && forall k :: start < k < at ==> k % 16 != 0
    requires start % 16 == 0 ==> at == start
    ensures at + 1 < start + 16
  {
    var top := start + 15 - (start + 15) % 16;
    assert start <= top < start + 16 && top % 16 == 0;
  }

  /** The functions do not overlap and keep their order. */
  lemma {:induction false} InOrder(s: Section, fs: seq<Compiled>, j: nat, k: nat)
    requires LaidOut(s, fs, |fs|) && j < k < |fs|
    ensures s.symbols[j].value + |fs[j].code| <= s.symbols[k].value
    decreases k
  {
    assert Placed(s, fs, k) && Placed(s, fs, k - 1);
    if j < k - 1 {
      InOrder(s, fs, j, k - 1);
    }
  }
}
