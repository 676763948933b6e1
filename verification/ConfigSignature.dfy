/** The signature of a schedule configuration: the text the cache is keyed by, and when it identifies the configuration. */
module ConfigSignature {
  import opened Values

  const KINDS := 12

  /** The number of a decision's kind: Tile is 0, Inline is 11. */
  type Kind = n: nat | n < KINDS

  datatype Decision = Decision(kind: Kind, strs: seq<string>, ints: seq<int>)

  // ----- decimal numbers -----

  function Digit(n: nat): char
    requires n < 10
  {
    ('0' as int + n) as char
  }

  function Digits(n: nat): string {
    if n < 10 then [Digit(n)] else Digits(n / 10) + [Digit(n % 10)]
  }

  function Decimal(n: int): string {
    if n < 0 then ['-'] + Digits(-n) else Digits(n)
  }

  predicate IsNumeral(c: char) {
    c == '-' || '0' <= c <= '9'
  }

  lemma {:induction false} DigitsAreNumerals(n: nat)
    ensures |Digits(n)| > 0 && forall i :: 0 <= i < |Digits(n)| ==> IsNumeral(Digits(n)[i]) && Digits(n)[i] != '-'
    decreases n
  {
    if n >= 10 {
      DigitsAreNumerals(n / 10);
    }
  }

  /** The number a decimal text stands for. */
  function Number(s: string): int {
    if s == "" then 0 else 10 * Number(s[..|s| - 1]) + (s[|s| - 1] as int - '0' as int)
  }

  /** The digits of n stand for n, with no zero in front. */
  lemma {:induction false} DigitsAreDecimal(n: nat)
    ensures Number(Digits(n)) == n && Digits(n) != "" && (n > 0 ==> Digits(n)[0] != '0')
    decreases n
  {
    if n >= 10 {
      DigitsAreDecimal(n / 10);
      assert Digits(n)[..|Digits(n)| - 1] == Digits(n / 10);
    } else {
      assert Number([]) == 0;
      assert [Digit(n)][..0] == [];
    }
  }

  lemma DecimalIsNumeral(n: int)
    ensures |Decimal(n)| > 0 && forall i :: 0 <= i < |Decimal(n)| ==> IsNumeral(Decimal(n)[i])
  {
    DigitsAreNumerals(if n < 0 then -n else n);
  }

  lemma {:induction false} DigitsUnique(a: nat, b: nat)
    requires Digits(a) == Digits(b)
    ensures a == b
    decreases a
  {
    DigitsAreNumerals(a / 10);
    DigitsAreNumerals(b / 10);
    var x, y := Digits(a), Digits(b);
    assert x[|x| - 1] == y[|y| - 1];
    if a >= 10 && b >= 10 {
      assert x[..|x| - 1] == Digits(a / 10) && y[..|y| - 1] == Digits(b / 10);
      DigitsUnique(a / 10, b / 10);
    }
  }

  lemma DecimalUnique(a: int, b: int)
    requires Decimal(a) == Decimal(b)
    ensures a == b
  {
    var m, n := if a < 0 then -a else a, if b < 0 then -b else b;
    DigitsAreNumerals(m);
    DigitsAreNumerals(n);
    assert a < 0 <==> Decimal(a)[0] == '-';
    assert b < 0 <==> Decimal(b)[0] == '-';
    assert a < 0 ==> Decimal(a)[1..] == Digits(m) && Decimal(b)[1..] == Digits(n);
    DigitsUnique(m, n);
  }

  // ----- the signature -----

  /** Every item is followed by a comma. */
  function Items(xs: seq<string>): string {
    if xs == [] then "" else xs[0] + ("," + Items(xs[1..]))
  }

  function Texts(ints: seq<int>): seq<string> {
    seq(|ints|, i requires 0 <= i < |ints| => Decimal(ints[i]))
  }

  function DecisionText(d: Decision): string {
    Decimal(d.kind) + (":" + (Items(d.strs) + ("|" + (Items(Texts(d.ints)) + ";"))))
  }

  function Signature(c: seq<Decision>): string {
    if c == [] then "" else DecisionText(c[0]) + Signature(c[1..])
  }

  lemma ExampleNumbers(x: int, y: int, z: int)
    requires x == 32 && y == -5 && z == 10
    ensures Decimal(x) == "32" && Decimal(y) == "-5" && Decimal(z) == "10"
  {
    assert Digit(3) == '3' && Digit(2) == '2' && Digit(1) == '1' && Digit(0) == '0' && Digit(5) == '5';
    assert x / 10 == 3 && x % 10 == 2 && Digits(x / 10) == "3" && Digits(x) == "32";
    assert z / 10 == 1 && z % 10 == 0 && Digits(z / 10) == "1" && Digits(z) == "10";
    assert Digits(-y) == "5";
  }

  lemma ExampleItems(a: seq<string>, b: seq<string>)
    requires a == ["i", "j"] && b == ["32", "-5"]
    ensures Items(a) == "i,j," && Items(b) == "32,-5,"
  {
    assert a[1..] == ["j"] && b[1..] == ["-5"] && ["j"][1..] == [] && ["-5"][1..] == [];
    assert Items(["-5"]) == "-5," && Items(["j"]) == "j,";
  }

  lemma ExampleDecision(d: Decision)
    requires d == Decision(0, ["i", "j"], [32, -5])
    ensures DecisionText(d) == "0:i,j,|32,-5,;"
  {
    ExampleNumbers(32, -5, 10);
    assert Texts(d.ints) == ["32", "-5"];
    ExampleItems(d.strs, Texts(d.ints));
    assert Decimal(d.kind) == "0";
  }

  lemma BareDecision(d: Decision)
    requires d == Decision(10, [], [])
    ensures DecisionText(d) == "10:|;"
  {
    ExampleNumbers(32, -5, 10);
    assert Texts(d.ints) == [];
  }

  lemma SignatureOfTwo(a: Decision, b: Decision)
    ensures Signature([a, b]) == DecisionText(a) + DecisionText(b)
  {
    assert [a, b][1..] == [b] && [b][1..] == [];
    assert Signature([b]) == DecisionText(b) + "";
  }

  /** Two decisions: one of kind 0 with the strings i and j and the numbers 32 and -5, one of kind 10 with nothing. */
  lemma ExampleSignature()
    ensures Signature([Decision(0, ["i", "j"], [32, -5]), Decision(10, [], [])]) == "0:i,j,|32,-5,;10:|;"
  {
    ExampleDecision(Decision(0, ["i", "j"], [32, -5]));
    BareDecision(Decision(10, [], []));
    SignatureOfTwo(Decision(0, ["i", "j"], [32, -5]), Decision(10, [], []));
  }

  // ----- as it is written: pieces appended to a stream -----

  lemma Nest(a: string, b: string, c: string)
    ensures a + b + c == a + (b + c)
  {
  }

  lemma {:induction false} ItemsMore(xs: seq<string>, x: string)
    ensures Items(xs + [x]) == Items(xs) + x + ","
    decreases |xs|
  {
    if xs == [] {
      assert [x][1..] == [] && xs + [x] == [x];
    } else {
      assert (xs + [x])[1..] == xs[1..] + [x];
      ItemsMore(xs[1..], x);
      var rest := Items(xs[1..]);
      Nest(xs[0], "," + rest, x + ",");
      Nest(",", rest, x + ",");
      Nest(rest, x, ",");
      Nest(Items(xs), x, ",");
    }
  }

  lemma {:induction false} SignatureMore(c: seq<Decision>, d: Decision)
    ensures Signature(c + [d]) == Signature(c) + DecisionText(d)
    decreases |c|
  {
    if c == [] {
      assert [d][1..] == [] && c + [d] == [d];
    } else {
      assert (c + [d])[1..] == c[1..] + [d];
      SignatureMore(c[1..], d);
    }
  }

  method WriteSignature(c: seq<Decision>) returns (s: string)
    ensures s == Signature(c)
  {
    s := "";
    var i := 0;
    while i < |c|
      invariant 0 <= i <= |c| && s == Signature(c[..i])
    {
      var d := c[i];
      var strs := WriteItems(d.strs);
      var ints := WriteInts(d.ints);
      InOrder(s, Decimal(d.kind), ":", strs, "|", ints, ";");
      s := s + Decimal(d.kind) + ":";
      s := s + strs + "|";
      s := s + ints + ";";
      SignatureMore(c[..i], d);
      assert c[..i + 1] == c[..i] + [d];
      i := i + 1;
    }
    assert c[..i] == c;
  }

  lemma InOrder(s: string, a: string, b: string, c: string, d: string, e: string, f: string)
    ensures s + a + b + c + d + e + f == s + (a + (b + (c + (d + (e + f)))))
  {
    Nest(s + a + b + c + d, e, f);
    Nest(s + a + b + c, d, e + f);
    Nest(s + a + b, c, d + (e + f));
    Nest(s + a, b, c + (d + (e + f)));
    Nest(s, a, b + (c + (d + (e + f))));
  }

  method WriteItems(xs: seq<string>) returns (s: string)
    ensures s == Items(xs)
  {
    s := "";
    var i := 0;
    while i < |xs|
      invariant 0 <= i <= |xs| && s == Items(xs[..i])
    {
      ItemsMore(xs[..i], xs[i]);
      assert xs[..i + 1] == xs[..i] + [xs[i]];
      s := s + xs[i] + ",";
      i := i + 1;
    }
    assert xs[..i] == xs;
  }

  method WriteInts(ints: seq<int>) returns (s: string)
    ensures s == Items(Texts(ints))
  {
    s := "";
    var i := 0;
    while i < |ints|
      invariant 0 <= i <= |ints| && s == Items(Texts(ints[..i]))
    {
      ItemsMore(Texts(ints[..i]), Decimal(ints[i]));
      assert Texts(ints[..i + 1]) == Texts(ints[..i]) + [Decimal(ints[i])];
      s := s + Decimal(ints[i]) + ",";
      i := i + 1;
    }
    assert ints[..i] == ints;
  }

  // ----- reading it back -----

  function FirstAt(t: char, s: string): nat {
    if s == "" || s[0] == t then 0 else 1 + FirstAt(t, s[1..])
  }

  lemma {:induction false} FirstIs(t: char, a: string, r: string)
    requires t !in a
    ensures FirstAt(t, a + ([t] + r)) == |a|
    decreases |a|
  {
    if a != "" {
      assert (a + ([t] + r))[1..] == a[1..] + ([t] + r);
      FirstIs(t, a[1..], r);
    }
  }

  /** A stretch without t, then t: it can be cut in one way only. */
  lemma CutUnique(t: char, a: string, b: string, ra: string, rb: string)
    requires t !in a && t !in b && a + ([t] + ra) == b + ([t] + rb)
    ensures a == b && ra == rb
  {
    FirstIs(t, a, ra);
    FirstIs(t, b, rb);
    var x, y := a + ([t] + ra), b + ([t] + rb);
    assert x[..|a|] == a && y[..|b|] == b && x[|a| + 1..] == ra && y[|b| + 1..] == rb;
  }

  /** No item contains a comma or begins with the character that ends the list. */
  predicate PlainItems(xs: seq<string>, end: char) {
    forall i :: 0 <= i < |xs| ==> ',' !in xs[i] && (xs[i] == "" || xs[i][0] != end)
  }

  lemma ItemsHead(end: char, xs: seq<string>, r: string)
    requires end != ',' && PlainItems(xs, end)
    ensures var s := Items(xs) + ([end] + r); s[0] == end <==> xs == []
  {
    if xs != [] && xs[0] == "" {
      assert (Items(xs) + ([end] + r))[0] == ',';
    }
  }

  lemma {:induction false} ItemsUnique(end: char, a: seq<string>, b: seq<string>, ra: string, rb: string)
    requires end != ',' && PlainItems(a, end) && PlainItems(b, end)
    requires Items(a) + ([end] + ra) == Items(b) + ([end] + rb)
    ensures a == b && ra == rb
    decreases |a|
  {
    ItemsHead(end, a, ra);
    ItemsHead(end, b, rb);
    if a == [] {
      assert ([end] + ra)[1..] == ra && ([end] + rb)[1..] == rb;
      assert Items(a) + ([end] + ra) == [end] + ra && Items(b) + ([end] + rb) == [end] + rb;
    } else {
      var ta, tb := Items(a[1..]) + ([end] + ra), Items(b[1..]) + ([end] + rb);
      ItemsThen(a, [end] + ra);
      ItemsThen(b, [end] + rb);
      CutUnique(',', a[0], b[0], ta, tb);
      ItemsUnique(end, a[1..], b[1..], ra, rb);
      assert a == [a[0]] + a[1..] && b == [b[0]] + b[1..];
    }
  }

  lemma ItemsThen(xs: seq<string>, r: string)
    requires xs != []
    ensures Items(xs) + r == xs[0] + ([','] + (Items(xs[1..]) + r))
  {
    Nest(xs[0], "," + Items(xs[1..]), r);
    Nest(",", Items(xs[1..]), r);
  }

  /** No string parameter contains a comma or begins with a bar. */
  predicate Plain(d: Decision) {
    PlainItems(d.strs, '|')
  }

  lemma TextsPlain(ints: seq<int>)
    ensures PlainItems(Texts(ints), ';')
  {
    forall i | 0 <= i < |ints| ensures ',' !in Texts(ints)[i] && Texts(ints)[i][0] != ';' {
      DecimalIsNumeral(ints[i]);
    }
  }

  lemma TextsUnique(a: seq<int>, b: seq<int>)
    requires Texts(a) == Texts(b)
    ensures a == b
  {
    assert |a| == |Texts(a)| == |b|;
    forall i | 0 <= i < |a| ensures a[i] == b[i] {
      assert Decimal(a[i]) == Texts(a)[i] == Texts(b)[i] == Decimal(b[i]);
      DecimalUnique(a[i], b[i]);
    }
  }

  /** A decision's text in front of something, taken apart. */
  lemma DecisionPieces(d: Decision, rest: string)
    ensures DecisionText(d) + rest
         == Decimal(d.kind) + ([':'] + (Items(d.strs) + (['|'] + (Items(Texts(d.ints)) + ([';'] + rest)))))
  {
    PiecesNest(Decimal(d.kind), Items(d.strs), Items(Texts(d.ints)), rest);
  }

  lemma PiecesNest(k: string, s: string, i: string, rest: string)
    ensures k + (":" + (s + ("|" + (i + ";")))) + rest == k + ([':'] + (s + (['|'] + (i + ([';'] + rest)))))
  {
  }

  lemma DecisionUnique(a: Decision, b: Decision, ra: string, rb: string)
    requires Plain(a) && Plain(b) && DecisionText(a) + ra == DecisionText(b) + rb
    ensures a == b && ra == rb
  {
    var ia, ib := Items(Texts(a.ints)) + ([';'] + ra), Items(Texts(b.ints)) + ([';'] + rb);
    var sa, sb := Items(a.strs) + (['|'] + ia), Items(b.strs) + (['|'] + ib);
    DecisionPieces(a, ra);
    DecisionPieces(b, rb);
    DecimalIsNumeral(a.kind);
    DecimalIsNumeral(b.kind);
    CutUnique(':', Decimal(a.kind), Decimal(b.kind), sa, sb);
    DecimalUnique(a.kind, b.kind);
    ItemsUnique('|', a.strs, b.strs, ia, ib);
    TextsPlain(a.ints);
    TextsPlain(b.ints);
    ItemsUnique(';', Texts(a.ints), Texts(b.ints), ra, rb);
    TextsUnique(a.ints, b.ints);
  }

  /** Equal signatures mean equal decision lists, when every string parameter is plain. */
  lemma {:induction false} SignatureUnique(a: seq<Decision>, b: seq<Decision>)
    requires forall i :: 0 <= i < |a| ==> Plain(a[i])
    requires forall i :: 0 <= i < |b| ==> Plain(b[i])
    requires Signature(a) == Signature(b)
    ensures a == b
    decreases |a|
  {
    if a == [] || b == [] {
      assert |Signature(a)| == |Signature(b)|;
    } else {
      DecisionUnique(a[0], b[0], Signature(a[1..]), Signature(b[1..]));
      SignatureUnique(a[1..], b[1..]);
      assert a == [a[0]] + a[1..] && b == [b[0]] + b[1..];
    }
  }

  // ----- both conditions are needed -----

  lemma {:induction false} ItemsSplit(before: seq<string>, x: string, y: string, after: seq<string>)
    ensures Items(before + [x + "," + y] + after) == Items(before + [x, y] + after)
    decreases |before|
  {
    var a, b := before + [x + "," + y] + after, before + [x, y] + after;
    if before == [] {
      assert a[1..] == after && b[1..] == [y] + after && ([y] + after)[1..] == after;
      assert Items(a) == (x + "," + y) + ("," + Items(after));
      assert Items(b) == x + ("," + (y + ("," + Items(after))));
    } else {
      assert a[1..] == before[1..] + [x + "," + y] + after && b[1..] == before[1..] + [x, y] + after;
      ItemsSplit(before[1..], x, y, after);
    }
  }

  lemma {:induction false} SignatureChange(c: seq<Decision>, i: nat, d: Decision)
    requires i < |c| && DecisionText(c[i]) == DecisionText(d)
    ensures Signature(c[i := d]) == Signature(c)
    decreases i
  {
    if i == 0 {
      assert c[0 := d][1..] == c[1..];
    } else {
      assert c[i := d][1..] == c[1..][i - 1 := d];
      SignatureChange(c[1..], i - 1, d);
    }
  }

  /** Every configuration with a comma in a string parameter shares its signature with another one. */
  lemma CommaCollides(c: seq<Decision>, i: nat, j: nat, k: nat) returns (other: seq<Decision>)
    requires i < |c| && j < |c[i].strs| && k < |c[i].strs[j]| && c[i].strs[j][k] == ','
    ensures other != c && Signature(other) == Signature(c)
  {
    var d := c[i];
    var s := d.strs[j];
    var before, after := d.strs[..j], d.strs[j + 1..];
    var split := d.(strs := before + [s[..k], s[k + 1..]] + after);
    assert s == s[..k] + "," + s[k + 1..];
    assert d.strs == before + [s] + after;
    ItemsSplit(before, s[..k], s[k + 1..], after);
    assert |split.strs| == |d.strs| + 1;
    other := c[i := split];
    assert other[i] != c[i];
    SignatureChange(c, i, split);
  }
}
