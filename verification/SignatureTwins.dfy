/** Exactly which configurations share their signature with another one. */
module SignatureTwins {
  import opened ConfigSignature

  /** A string that reads like the end of one decision and the beginning of the next. */
  function Opening(kind: Kind, x: string): string {
    "|;" + (Decimal(kind) + (":" + x))
  }

  ghost predicate Opens(s: string) {
    exists kind: Kind, x :: s == Opening(kind, x)
  }

  /** At most one string, without a comma, and not one that opens a decision. */
  ghost predicate Alone(strs: seq<string>) {
    |strs| <= 1 && (strs != [] ==> ',' !in strs[0] && !Opens(strs[0]))
  }

  /** Only the first decision may have a string. */
  ghost predicate Identified(c: seq<Decision>) {
    c != [] ==> Alone(c[0].strs) && forall j :: 1 <= j < |c| ==> c[j].strs == []
  }

  // ----- those that share it -----

  lemma {:induction false} ItemsAppend(xs: seq<string>, ys: seq<string>)
    ensures Items(xs + ys) == Items(xs) + Items(ys)
    decreases |xs|
  {
    if xs == [] {
      assert xs + ys == ys;
    } else {
      assert (xs + ys)[1..] == xs[1..] + ys;
      ItemsAppend(xs[1..], ys);
      Nest(xs[0], "," + Items(xs[1..]), Items(ys));
      Nest(",", Items(xs[1..]), Items(ys));
    }
  }

  lemma {:induction false} SignatureAppend(a: seq<Decision>, b: seq<Decision>)
    ensures Signature(a + b) == Signature(a) + Signature(b)
    decreases |a|
  {
    if a == [] {
      assert a + b == b;
    } else {
      assert (a + b)[1..] == a[1..] + b;
      SignatureAppend(a[1..], b);
      Nest(DecisionText(a[0]), Signature(a[1..]), Signature(b));
    }
  }

  /** The integers of a decision, its end, and the kind and first string of the next one, as strings of one decision. */
  function Crossing(ints: seq<int>, kind: Kind, x: string): seq<string> {
    if ints == [] then [Opening(kind, x)]
    else ["|" + Decimal(ints[0])] + Texts(ints[1..]) + [";" + (Decimal(kind) + (":" + x))]
  }

  lemma CrossingItems(ints: seq<int>, kind: Kind, x: string)
    ensures Items(Crossing(ints, kind, x)) == "|" + (Items(Texts(ints)) + (";" + (Decimal(kind) + (":" + (x + ",")))))
  {
    var last := ";" + (Decimal(kind) + (":" + x));
    LastItem(last);
    assert last + "," == ";" + (Decimal(kind) + (":" + (x + ",")));
    if ints == [] {
      LastItem(Opening(kind, x));
      assert Opening(kind, x) == "|" + last;
    } else {
      var first, middle := ["|" + Decimal(ints[0])], Texts(ints[1..]);
      ItemsAppend(first + middle, [last]);
      ItemsAppend(first, middle);
      LastItem(first[0]);
      assert Texts(ints) == [Decimal(ints[0])] + middle;
      assert Texts(ints)[1..] == middle;
      BarFirst(Decimal(ints[0]), Items(middle), last + ",");
    }
  }

  lemma LastItem(x: string)
    ensures Items([x]) == x + ","
  {
    assert [x][1..] == [];
    assert "," + "" == ",";
  }

  lemma BarFirst(a: string, b: string, c: string)
    ensures "|" + a + "," + b + c == "|" + (a + ("," + b) + c)
  {
  }

  /** Two decisions, the second with a string, read like one. */
  function Merged(a: Decision, b: Decision): Decision
    requires b.strs != []
  {
    Decision(a.kind, a.strs + Crossing(a.ints, b.kind, b.strs[0]) + b.strs[1..], b.ints)
  }

  lemma MergedText(a: Decision, b: Decision)
    requires b.strs != []
    ensures DecisionText(Merged(a, b)) == DecisionText(a) + DecisionText(b)
  {
    var cross := Crossing(a.ints, b.kind, b.strs[0]);
    var more, tail := Items(b.strs[1..]), "|" + (Items(Texts(b.ints)) + ";");
    ItemsAppend(a.strs + cross, b.strs[1..]);
    ItemsAppend(a.strs, cross);
    CrossingItems(a.ints, b.kind, b.strs[0]);
    MergedPieces(Decimal(a.kind), Items(a.strs), Items(Texts(a.ints)), Decimal(b.kind), b.strs[0], more, tail);
  }

  lemma MergedPieces(k: string, strs: string, ints: string, k2: string, x: string, more: string, tail: string)
    ensures k + (":" + ((strs + ("|" + (ints + (";" + (k2 + (":" + (x + ",")))))) + more) + tail))
         == k + (":" + (strs + ("|" + (ints + ";")))) + (k2 + (":" + (x + ("," + more) + tail)))
  {
  }

  /** One decision in place of two, or two in place of one. */
  lemma Replaced(front: seq<Decision>, a: seq<Decision>, b: seq<Decision>, back: seq<Decision>)
    requires Signature(a) == Signature(b)
    ensures Signature(front + a + back) == Signature(front + b + back)
  {
    SignatureAppend(front + a, back);
    SignatureAppend(front + b, back);
    SignatureAppend(front, a);
    SignatureAppend(front, b);
  }

  lemma MergedSignature(a: Decision, b: Decision)
    requires b.strs != []
    ensures Signature([Merged(a, b)]) == Signature([a, b])
  {
    MergedText(a, b);
    assert [a, b] == [a] + [b];
    SignatureAppend([a], [b]);
    One(a);
    One(b);
    One(Merged(a, b));
  }

  lemma One(d: Decision)
    ensures Signature([d]) == DecisionText(d)
  {
    assert [d][1..] == [];
    assert DecisionText(d) + "" == DecisionText(d);
  }

  /** A string in a later decision: the decision merges with the one before. */
  lemma LaterString(c: seq<Decision>, j: nat) returns (other: seq<Decision>)
    requires 1 <= j < |c| && c[j].strs != []
    ensures other != c && Signature(other) == Signature(c)
  {
    var a, b := c[j - 1], c[j];
    MergedSignature(a, b);
    Replaced(c[..j - 1], [Merged(a, b)], [a, b], c[j + 1..]);
    PairAt(c, j);
    other := c[..j - 1] + [Merged(a, b)] + c[j + 1..];
    assert |other| == |c| - 1;
  }

  lemma PairAt(c: seq<Decision>, j: nat)
    requires 1 <= j < |c|
    ensures c == c[..j - 1] + [c[j - 1], c[j]] + c[j + 1..]
  {
  }

  /** Two strings read like one with a comma. */
  lemma TwoStrings(c: seq<Decision>) returns (other: seq<Decision>)
    requires c != [] && |c[0].strs| >= 2
    ensures other != c && Signature(other) == Signature(c)
  {
    var x, y, rest := c[0].strs[0], c[0].strs[1], c[0].strs[2..];
    var d := c[0].(strs := [] + [x + "," + y] + rest);
    ItemsSplit([], x, y, rest);
    assert c[0].strs == [] + [x, y] + rest;
    SignatureChange(c, 0, d);
    other := c[0 := d];
    assert |other[0].strs| == |c[0].strs| - 1;
  }

  /** A string that opens a decision makes two decisions of one. */
  lemma OpeningString(c: seq<Decision>, kind: Kind, x: string) returns (other: seq<Decision>)
    requires c != [] && c[0].strs == [Opening(kind, x)]
    ensures other != c && Signature(other) == Signature(c)
  {
    var a, b := Decision(c[0].kind, [], []), Decision(kind, [x], c[0].ints);
    assert Merged(a, b) == c[0];
    MergedSignature(a, b);
    Replaced([], [a, b], [c[0]], c[1..]);
    assert c == [] + [c[0]] + c[1..];
    other := [] + [a, b] + c[1..];
    assert |other| == |c| + 1;
  }

  lemma HasTwin(c: seq<Decision>) returns (other: seq<Decision>)
    requires !Identified(c)
    ensures other != c && Signature(other) == Signature(c)
  {
    if j :| 1 <= j < |c| && c[j].strs != [] {
      other := LaterString(c, j);
    } else if |c[0].strs| >= 2 {
      other := TwoStrings(c);
    } else if k :| 0 <= k < |c[0].strs[0]| && c[0].strs[0][k] == ',' {
      other := CommaCollides(c, 0, 0, k);
    } else {
      var kind: Kind, x :| c[0].strs[0] == Opening(kind, x);
      assert c[0].strs == [c[0].strs[0]];
      other := OpeningString(c, kind, x);
    }
  }

  // ----- those that do not -----

  /** No bar stands behind a comma. */
  predicate Quiet(s: string) {
    forall i :: 0 < i < |s| && s[i] == '|' ==> s[i - 1] != ','
  }

  lemma QuietAppend(x: string, y: string)
    requires x != "" && '|' !in x && x[|x| - 1] != ',' && Quiet(y)
    ensures Quiet(x + y)
  {
    forall i | 0 < i < |x + y| && (x + y)[i] == '|' ensures (x + y)[i - 1] != ',' {
      assert i >= |x| && y[i - |x|] == '|';
      assert i > |x| ==> (x + y)[i - 1] == y[i - |x| - 1];
    }
  }

  lemma {:induction false} NoBars(xs: seq<string>)
    requires forall i :: 0 <= i < |xs| ==> '|' !in xs[i]
    ensures '|' !in Items(xs)
    decreases |xs|
  {
    if xs != [] {
      NoBars(xs[1..]);
    }
  }

  lemma IntsHaveNoBars(ints: seq<int>)
    ensures '|' !in Items(Texts(ints))
  {
    forall i | 0 <= i < |ints| ensures '|' !in Texts(ints)[i] {
      DecimalIsNumeral(ints[i]);
    }
    NoBars(Texts(ints));
  }

  /** What follows the bar of the first decision. */
  function Behind(c: seq<Decision>): string
    requires c != []
  {
    Items(Texts(c[0].ints)) + ([';'] + Signature(c[1..]))
  }

  lemma FirstText(c: seq<Decision>)
    requires c != []
    ensures Signature(c) == Decimal(c[0].kind) + ([':'] + (Items(c[0].strs) + (['|'] + Behind(c))))
  {
    DecisionPieces(c[0], Signature(c[1..]));
  }

  lemma {:induction false} QuietBehind(c: seq<Decision>)
    requires c != [] && forall j :: 1 <= j < |c| ==> c[j].strs == []
    ensures Quiet(['|'] + Behind(c))
    decreases |c|, 0
  {
    QuietSignature(c[1..]);
    IntsQuiet(c[0].ints, Signature(c[1..]));
    QuietBar(Behind(c));
  }

  lemma IntsQuiet(ints: seq<int>, rest: string)
    requires Quiet(rest)
    ensures Quiet(Items(Texts(ints)) + ([';'] + rest))
  {
    var x := Items(Texts(ints)) + ";";
    IntsHaveNoBars(ints);
    QuietAppend(x, rest);
    assert Items(Texts(ints)) + ([';'] + rest) == x + rest;
  }

  lemma QuietBar(s: string)
    requires Quiet(s)
    ensures Quiet(['|'] + s)
  {
    var t := ['|'] + s;
    forall i | 0 < i < |t| && t[i] == '|' ensures t[i - 1] != ',' {
      assert t[i] == s[i - 1];
      assert i > 1 ==> t[i - 1] == s[i - 2];
    }
  }

  lemma {:induction false} QuietSignature(c: seq<Decision>)
    requires forall j :: 0 <= j < |c| ==> c[j].strs == []
    ensures Quiet(Signature(c))
    decreases |c|, 1
  {
    if c != [] {
      var k := Decimal(c[0].kind);
      DecimalIsNumeral(c[0].kind);
      QuietBehind(c);
      QuietAppend(k + ":", ['|'] + Behind(c));
      FirstText(c);
      NothingBefore(k, ['|'] + Behind(c));
    }
  }

  lemma NothingBefore(k: string, rest: string)
    ensures k + ([':'] + ("" + rest)) == k + ":" + rest
  {
  }

  /** Where a nonempty list of strings ends there is a comma and a bar. */
  lemma {:induction false} CommaBar(xs: seq<string>, r: string)
    requires xs != []
    ensures Items(xs) != "" && Items(xs)[|Items(xs)| - 1] == ','
    ensures var s := Items(xs) + (['|'] + r); s[|Items(xs)|] == '|' && s[|Items(xs)| - 1] == ','
    decreases |xs|
  {
    if |xs| > 1 {
      CommaBar(xs[1..], r);
    }
  }

  lemma OneItem(b: seq<string>, s: string)
    requires ',' !in s && b != [] && Items(b) == s + ","
    ensures b == [s]
  {
    var t := s + ",";
    assert t[|b[0]|] == ',';
    assert |b[0]| == |s|;
    assert |Items(b[1..])| == 0;
    assert b[0] == t[..|s|] == s;
  }

  /** One list of strings stands alone: the other one is the same. */
  lemma SameStrings(a: seq<string>, ra: string, b: seq<string>, ints: seq<int>, others: seq<Decision>)
    requires Alone(a) && Quiet(['|'] + ra)
    requires Items(a) + (['|'] + ra) == Items(b) + (['|'] + (Items(Texts(ints)) + ([';'] + Signature(others))))
    ensures a == b && ra == Items(Texts(ints)) + ([';'] + Signature(others))
  {
    var rb := Items(Texts(ints)) + ([';'] + Signature(others));
    if a == [] {
      assert Items(a) + (['|'] + ra) == ['|'] + ra;
      NoStrings(ra, b, rb);
    } else {
      assert a == [a[0]];
      LastItem(a[0]);
      if b == [] {
        assert Items(b) + (['|'] + rb) == ['|'] + rb;
        OneAgainstNone(a[0], ra, ints, others);
      } else {
        OneAgainstSome(a[0], ra, b, rb);
      }
    }
    SameRest(Items(a), '|', ra, rb);
  }

  lemma SameRest(head: string, c: char, ra: string, rb: string)
    requires head + ([c] + ra) == head + ([c] + rb)
    ensures ra == rb
  {
    var s := head + ([c] + ra);
    assert ra == s[|head| + 1..] && rb == (head + ([c] + rb))[|head| + 1..];
  }

  lemma OneAgainstNone(x: string, ra: string, ints: seq<int>, others: seq<Decision>)
    requires ',' !in x && (x + ",") + (['|'] + ra) == ['|'] + (Items(Texts(ints)) + ([';'] + Signature(others)))
    ensures Opens(x)
  {
    CommaNests(x, ['|'] + ra);
    NotOpened(x, ra, ints, others);
  }

  lemma CommaNests(x: string, w: string)
    ensures (x + ",") + w == x + ([','] + w)
  {
  }

  lemma OneAgainstSome(x: string, ra: string, b: seq<string>, rb: string)
    requires ',' !in x && Quiet(['|'] + ra) && b != [] && (x + ",") + (['|'] + ra) == Items(b) + (['|'] + rb)
    ensures b == [x]
  {
    var s := (x + ",") + (['|'] + ra);
    CommaBar(b, rb);
    OnlyCommaBar(x, ra, |Items(b)|);
    assert Items(b) == s[..|Items(b)|] == x + ",";
    OneItem(b, x);
  }

  lemma NoStrings(ra: string, b: seq<string>, rb: string)
    requires Quiet(['|'] + ra) && ['|'] + ra == Items(b) + (['|'] + rb)
    ensures b == []
  {
    if b != [] {
      CommaBar(b, rb);
    }
  }

  /** Behind a string without commas there is one place with a comma and a bar. */
  lemma OnlyCommaBar(x: string, ra: string, at: nat)
    requires ',' !in x && Quiet(['|'] + ra)
    requires var s := x + "," + (['|'] + ra); 1 <= at < |s| && s[at] == '|' && s[at - 1] == ','
    ensures at == |x| + 1
  {
    var s, w := x + "," + (['|'] + ra), ['|'] + ra;
    assert forall i :: 0 <= i < |x| ==> s[i] == x[i] != ',';
    assert forall i :: |x| < i < |s| ==> s[i] == w[i - |x| - 1];
  }

  /** A string that the end of a decision could be read from is one that opens the next. */
  lemma NotOpened(x: string, ra: string, ints: seq<int>, others: seq<Decision>)
    requires ',' !in x
    requires ['|'] + (Items(Texts(ints)) + ([';'] + Signature(others))) == x + ([','] + (['|'] + ra))
    ensures Opens(x)
  {
    var rb := Items(Texts(ints)) + ([';'] + Signature(others));
    var y := BarLeads(x, ['|'] + ra, rb);
    if ints != [] {
      var xs := Texts(ints);
      ItemsThen(xs, [';'] + Signature(others));
      DecimalIsNumeral(ints[0]);
      var more := Items(xs[1..]) + ([';'] + Signature(others));
      CutUnique(',', xs[0], y, more, ['|'] + ra);
      NotBar(ints, others);
    }
    assert rb == [';'] + Signature(others);
    OpensNext(y, ['|'] + ra, others);
    var kind: Kind, z :| y == ";" + (Decimal(kind) + (":" + z));
    assert x == ['|'] + y == Opening(kind, z);
  }

  /** A string in front of a comma that begins with a bar. */
  lemma BarLeads(x: string, w: string, rest: string) returns (y: string)
    requires ['|'] + rest == x + ([','] + w)
    ensures x == ['|'] + y && rest == y + ([','] + w)
  {
    var t := x + ([','] + w);
    assert t[0] == '|';
    assert x == "" ==> t == [','] + w;
    y := x[1..];
    assert rest == t[1..];
  }

  lemma NotBar(ints: seq<int>, others: seq<Decision>)
    requires ints != []
    ensures (Items(Texts(ints)[1..]) + ([';'] + Signature(others)))[0] != '|'
  {
    IntsHaveNoBars(ints);
    var xs := Texts(ints);
    assert Items(xs) == xs[0] + ("," + Items(xs[1..]));
    if Items(xs[1..]) != "" {
      var k := |xs[0]| + 1;
      assert Items(xs)[k] == Items(xs[1..])[0];
    }
  }

  lemma OpensNext(y: string, w: string, others: seq<Decision>)
    requires ',' !in y && w != "" && [';'] + Signature(others) == y + ([','] + w)
    ensures exists kind: Kind, z :: y == ";" + (Decimal(kind) + (":" + z))
  {
    assert |y + ([','] + w)| >= 2;
    var kind := others[0].kind;
    FirstText(others);
    DecimalIsNumeral(kind);
    var head := ";" + (Decimal(kind) + ":");
    var tail := Items(others[0].strs) + (['|'] + Behind(others));
    HeadFirst(Decimal(kind), tail);
    var z := CommaBehind(head, tail, y, w);
    HeadFirst(Decimal(kind), z);
  }

  /** The first comma comes after a head without commas. */
  lemma CommaBehind(head: string, tail: string, y: string, w: string) returns (z: string)
    requires ',' !in head && head + tail == y + ([','] + w)
    ensures y == head + z
  {
    var t := head + tail;
    assert t[|y|] == ',';
    assert forall i :: 0 <= i < |head| ==> t[i] == head[i];
    z := y[|head|..];
    assert head == t[..|head|] == y[..|head|];
  }

  lemma HeadFirst(k: string, z: string)
    ensures ";" + (k + ":") + z == ";" + (k + (":" + z))
    ensures [';'] + (k + ([':'] + z)) == ";" + (k + ":") + z
  {
  }

  lemma {:induction false} NoTwin(c: seq<Decision>, other: seq<Decision>)
    requires Identified(c) && Signature(other) == Signature(c)
    ensures other == c
    decreases |c|
  {
    if c == [] || other == [] {
      assert |Signature(c)| == |Signature(other)|;
    } else {
      FirstText(c);
      FirstText(other);
      DecimalIsNumeral(c[0].kind);
      DecimalIsNumeral(other[0].kind);
      CutUnique(':', Decimal(c[0].kind), Decimal(other[0].kind), Items(c[0].strs) + (['|'] + Behind(c)),
                Items(other[0].strs) + (['|'] + Behind(other)));
      DecimalUnique(c[0].kind, other[0].kind);
      QuietBehind(c);
      SameStrings(c[0].strs, Behind(c), other[0].strs, other[0].ints, other[1..]);
      TextsPlain(c[0].ints);
      TextsPlain(other[0].ints);
      ItemsUnique(';', Texts(c[0].ints), Texts(other[0].ints), Signature(c[1..]), Signature(other[1..]));
      TextsUnique(c[0].ints, other[0].ints);
      NoTwin(c[1..], other[1..]);
      assert c == [c[0]] + c[1..] && other == [other[0]] + other[1..];
    }
  }

  /**
   * A configuration is told apart from every other one exactly if no decision but the first has a string, the first
   * has at most one, and that one has no comma and does not read like the beginning of a decision.
   */
  lemma IdentifiedExactly(c: seq<Decision>)
    ensures (forall other :: Signature(other) == Signature(c) ==> other == c) <==> Identified(c)
  {
    if Identified(c) {
      forall other | Signature(other) == Signature(c) ensures other == c {
        NoTwin(c, other);
      }
    } else {
      var other := HasTwin(c);
    }
  }
}
