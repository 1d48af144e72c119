/**
 Combining ranked lists of paths, and storing embeddings as bytes (crates/wkp-core/src/embed.rs).  A score is rounded
 after each operation, as floats are, in a way that is a parameter; a 32-bit float is its bit pattern.
 */
module Fusion {

  type Scored = (string, real)

  /** The number that stands for a real one. */
  type Rounding = real -> real

  const EXACT: Rounding := (x: real) => x

  /**
   What any binary floating-point format does, far from its limits: it keeps the order, keeps its own numbers and their
   doubles, and is off by less than a thousandth.
   */
  ghost predicate IsBinary(round: Rounding) {
    && round(0.0) == 0.0
    && (forall x, y :: x <= y ==> round(x) <= round(y))
    && (forall x :: round(round(x)) == round(x))
    && (forall x :: 0.001 <= x <= 1.0 ==> round(2.0 * x) == 2.0 * round(x) && 0.999 * x <= round(x) <= 1.001 * x)
  }

  /** What the entry at index `i` of a list is worth: 1 / (60 + rank). */
  function Weight(i: nat): (w: real)
    ensures w > 0.0
  {
    1.0 / (60.0 + (i + 1) as real)
  }

  /** A score after one more entry. */
  function Plus(round: Rounding, score: real, i: nat): real { round(score + round(Weight(i))) }

  /** The score of a path after a list, when it was `before`. */
  function ListScore(round: Rounding, before: real, list: seq<string>, path: string): real
    decreases |list|
  {
    if list == [] then before
    else
      var last := |list| - 1;
      var score := ListScore(round, before, list[..last], path);
      if list[last] == path then Plus(round, score, last) else score
  }

  function Score(round: Rounding, lists: seq<seq<string>>, path: string): real
    decreases |lists|
  {
    if lists == [] then 0.0
    else ListScore(round, Score(round, lists[..|lists| - 1], path), lists[|lists| - 1], path)
  }

  predicate Listed(lists: seq<seq<string>>, path: string) {
    exists l :: l in lists && path in l
  }

  predicate Descending(fused: seq<Scored>) {
    forall i, j :: 0 <= i < j < |fused| ==> fused[i].1 >= fused[j].1
  }

  predicate Distinct(paths: seq<string>) {
    forall i, j :: 0 <= i < j < |paths| ==> paths[i] != paths[j]
  }

  function Names(fused: seq<Scored>): (names: seq<string>)
    ensures |names| == |fused| && forall i :: 0 <= i < |fused| ==> names[i] == fused[i].0
  {
    seq(|fused|, i requires 0 <= i < |fused| => fused[i].0)
  }

  // The program

  method AddList(round: Rounding, scores: map<string, real>, list: seq<string>) returns (after: map<string, real>)
    ensures forall p :: p in after <==> p in scores || p in list
    ensures forall p :: p in after ==> after[p] == ListScore(round, if p in scores then scores[p] else 0.0, list, p)
  {
    hide Weight, Plus;
    after := scores;
    for i := 0 to |list|
      invariant forall p :: p in after <==> p in scores || p in list[..i]
      invariant forall p :: p in after ==>
        after[p] == ListScore(round, if p in scores then scores[p] else 0.0, list[..i], p)
    {
      var path := list[i];
      assert list[..i + 1][..i] == list[..i] && list[..i + 1] == list[..i] + [path];
      if path !in after { NotListed(round, 0.0, list[..i], path); }
      var before := if path in after then after[path] else 0.0;
      after := after[path := Plus(round, before, i)];
    }
    assert list[..|list|] == list;
  }

  lemma {:induction false} NotListed(round: Rounding, before: real, list: seq<string>, path: string)
    requires path !in list
    ensures ListScore(round, before, list, path) == before
    decreases |list|
  {
    if list != [] { NotListed(round, before, list[..|list| - 1], path); }
  }

  method Insert(sorted: seq<Scored>, item: Scored) returns (after: seq<Scored>)
    requires Descending(sorted)
    ensures Descending(after) && multiset(after) == multiset(sorted) + multiset{item}
  {
    var i := 0;
    while i < |sorted| && sorted[i].1 >= item.1
      invariant i <= |sorted| && forall j :: 0 <= j < i ==> sorted[j].1 >= item.1
    {
      i := i + 1;
    }
    after := sorted[..i] + [item] + sorted[i..];
    assert sorted == sorted[..i] + sorted[i..];
  }

  /** `reciprocal_rank_fusion`: every listed path once, best first, with its score. */
  method Fuse(round: Rounding, lists: seq<seq<string>>) returns (fused: seq<Scored>)
    ensures Descending(fused) && Distinct(Names(fused))
    ensures forall p :: p in Names(fused) <==> Listed(lists, p)
    ensures forall i :: 0 <= i < |fused| ==> fused[i].1 == Score(round, lists, fused[i].0)
  {
    hide ListScore;
    var scores: map<string, real> := map[];
    for k := 0 to |lists|
      invariant forall p :: p in scores <==> Listed(lists[..k], p)
      invariant forall p :: p in scores ==> scores[p] == Score(round, lists[..k], p)
    {
      ghost var before := scores;
      scores := AddList(round, scores, lists[k]);
      forall p
        ensures Listed(lists[..k + 1], p) <==> Listed(lists[..k], p) || p in lists[k]
        ensures p in scores ==> scores[p] == Score(round, lists[..k + 1], p)
      {
        OneMoreList(round, lists, k, p);
      }
    }
    assert lists[..|lists|] == lists;
    fused := Collect(scores);
  }

  lemma OneMoreList(round: Rounding, lists: seq<seq<string>>, k: nat, p: string)
    requires k < |lists|
    ensures Listed(lists[..k + 1], p) <==> Listed(lists[..k], p) || p in lists[k]
    ensures Score(round, lists[..k + 1], p) == ListScore(round, Score(round, lists[..k], p), lists[k], p)
    ensures !Listed(lists[..k], p) ==> Score(round, lists[..k], p) == 0.0
  {
    hide ListScore;
    assert lists[..k + 1] == lists[..k] + [lists[k]] && lists[..k + 1][..k] == lists[..k];
    if !Listed(lists[..k], p) { NowhereListed(round, lists[..k], p); }
  }

  lemma {:induction false} NowhereListed(round: Rounding, lists: seq<seq<string>>, p: string)
    requires !Listed(lists, p)
    ensures Score(round, lists, p) == 0.0
    decreases |lists|
  {
    if lists != [] {
      var last := lists[|lists| - 1];
      assert last in lists;
      NotListed(round, 0.0, last, p);
      assert forall l :: l in lists[..|lists| - 1] ==> l in lists;
      NowhereListed(round, lists[..|lists| - 1], p);
    }
  }

  /** The entries of a map in some order, then sorted. */
  method Collect(scores: map<string, real>) returns (fused: seq<Scored>)
    ensures Descending(fused) && Distinct(Names(fused))
    ensures forall p :: p in Names(fused) <==> p in scores
    ensures forall i :: 0 <= i < |fused| ==> fused[i].0 in scores && fused[i].1 == scores[fused[i].0]
  {
    fused := [];
    var rest := scores.Keys;
    while rest != {}
      invariant rest <= scores.Keys && Descending(fused)
      invariant forall x :: x in multiset(fused) ==> x.0 in scores && x.0 !in rest && x.1 == scores[x.0]
      invariant forall p :: p in scores && p !in rest ==> multiset(fused)[(p, scores[p])] == 1
    {
      var p :| p in rest;
      ghost var before := fused;
      fused := Insert(fused, (p, scores[p]));
      rest := rest - {p};
      assert (p, scores[p]) !in multiset(before);
    }
    CollectedOnce(scores, fused);
  }

  lemma CollectedOnce(scores: map<string, real>, fused: seq<Scored>)
    requires forall x :: x in multiset(fused) ==> x.0 in scores && x.1 == scores[x.0]
    requires forall p :: p in scores ==> multiset(fused)[(p, scores[p])] == 1
    ensures Distinct(Names(fused)) && (forall p :: p in Names(fused) <==> p in scores)
    ensures forall i :: 0 <= i < |fused| ==> fused[i].0 in scores && fused[i].1 == scores[fused[i].0]
  {
    forall i | 0 <= i < |fused| ensures fused[i].0 in scores && fused[i].1 == scores[fused[i].0] {
      assert fused[i] in multiset(fused);
    }
    forall p | p in scores ensures p in Names(fused) {
      assert (p, scores[p]) in multiset(fused);
      var i :| 0 <= i < |fused| && fused[i] == (p, scores[p]);
      assert Names(fused)[i] == p;
    }
    forall i, j | 0 <= i < j < |fused| ensures fused[i].0 != fused[j].0 {
      if fused[i].0 == fused[j].0 {
        assert fused[i] == fused[j];
        TwiceInMultiset(fused, i, j);
      }
    }
  }

  lemma TwiceInMultiset(s: seq<Scored>, i: nat, j: nat)
    requires i < j < |s| && s[i] == s[j]
    ensures multiset(s)[s[i]] >= 2
  {
    assert s == s[..j] + s[j..];
    assert s[..j][i] == s[i] && s[j..][0] == s[j];
    assert s[i] in s[..j] && s[i] in s[j..];
    assert multiset(s) == multiset(s[..j]) + multiset(s[j..]);
  }

  // What is found twice comes first

  lemma {:induction false} OnceInList(round: Rounding, before: real, list: seq<string>, path: string, i: nat)
    requires i < |list| && list[i] == path && Distinct(list)
    ensures ListScore(round, before, list, path) == Plus(round, before, i)
    decreases |list|
  {
    hide Weight, Plus;
    var last := |list| - 1;
    if i == last {
      NotListed(round, before, list[..last], path);
    } else {
      OnceInList(round, before, list[..last], path, i);
    }
  }

  lemma WeightOrder(i: nat, j: nat)
    requires i <= j
    ensures Weight(i) >= Weight(j)
  {
    var a, b := 60.0 + (i + 1) as real, 60.0 + (j + 1) as real;
    SmallerReciprocal(a, b, 1.0 / a, 1.0 / b);
  }

  lemma SmallerReciprocal(a: real, b: real, x: real, y: real)
    requires 0.0 < a <= b && x * a == 1.0 && y * b == 1.0
    ensures x >= y
  {
    assert x > 0.0 && y > 0.0;
    var both, more := x * y, b - a;
    assert x == both * b && y == both * a;
    assert both * more >= 0.0;
  }

  lemma PairScore(round: Rounding, a: seq<string>, b: seq<string>, path: string)
    ensures Score(round, [a, b], path) == ListScore(round, ListScore(round, 0.0, a, path), b, path)
  {
    hide ListScore;
    assert [a, b][..1] == [a] && [a][..0] == [];
    assert Score(round, [a], path) == ListScore(round, 0.0, a, path);
  }

  /** Found once, at index `i`. */
  lemma OnceScore(round: Rounding, a: seq<string>, b: seq<string>, path: string, i: nat)
    requires Distinct(a) && Distinct(b) && IsBinary(round)
    requires (i < |a| && a[i] == path && path !in b) || (i < |b| && b[i] == path && path !in a)
    ensures Score(round, [a, b], path) == round(Weight(i))
  {
    hide Weight, Score, ListScore, Distinct;
    PairScore(round, a, b, path);
    assert Plus(round, 0.0, i) == round(Weight(i));
    if path !in b {
      OnceInList(round, 0.0, a, path, i);
      NotListed(round, Plus(round, 0.0, i), b, path);
    } else {
      NotListed(round, 0.0, a, path);
      OnceInList(round, 0.0, b, path, i);
    }
  }

  /** Found twice, at indices `i` and `j`. */
  lemma TwiceScore(round: Rounding, a: seq<string>, b: seq<string>, path: string, i: nat, j: nat)
    requires Distinct(a) && Distinct(b) && IsBinary(round)
    requires i < |a| && a[i] == path && j < |b| && b[j] == path
    ensures Score(round, [a, b], path) == round(round(Weight(i)) + round(Weight(j)))
  {
    hide Weight, Score, ListScore, Distinct;
    PairScore(round, a, b, path);
    assert Plus(round, 0.0, i) == round(Weight(i));
    OnceInList(round, 0.0, a, path, i);
    OnceInList(round, round(Weight(i)), b, path, j);
  }

  /** A path in both lists has a strictly better score than one in only one of them. */
  ghost predicate BothBeatOne(round: Rounding, a: seq<string>, b: seq<string>) {
    forall p, q :: p in a && p in b && (q in a) != (q in b) ==> Score(round, [a, b], p) > Score(round, [a, b], q)
  }

  lemma AtMost61(round: Rounding, a: seq<string>, b: seq<string>)
    requires IsBinary(round) && Distinct(a) && Distinct(b) && |a| <= 61 && |b| <= 61
    ensures BothBeatOne(round, a, b)
  {
    hide Weight, Score, Distinct;
    forall p, q | p in a && p in b && (q in a) != (q in b)
      ensures Score(round, [a, b], p) > Score(round, [a, b], q)
    {
      var i :| 0 <= i < |a| && a[i] == p;
      var j :| 0 <= j < |b| && b[j] == p;
      TwiceScore(round, a, b, p, i, j);
      var one := if q in a then a else b;
      var k :| 0 <= k < |one| && one[k] == q;
      OnceScore(round, a, b, q, k);
      TwiceOrder(round, i, j, 60, 60);
      WeightOrder(0, k);
      Worst(round);
    }
  }

  lemma TwiceOrder(round: Rounding, i: nat, j: nat, k: nat, l: nat)
    requires IsBinary(round) && i <= k && j <= l
    ensures round(round(Weight(i)) + round(Weight(j))) >= round(round(Weight(k)) + round(Weight(l)))
  {
    hide Weight;
    WeightOrder(i, k);
    WeightOrder(j, l);
  }

  /** Twice last of 61 beats once first; twice last of 62 only ties, also when rounded. */
  lemma Worst(round: Rounding)
    requires IsBinary(round)
    ensures round(round(Weight(60)) + round(Weight(60))) > round(Weight(0))
    ensures round(round(Weight(61)) + round(Weight(61))) == round(Weight(0))
  {
    hide IsBinary;
    var w, x, y := Weight(0), Weight(60), Weight(61);
    assert w == 1.0 / 61.0 && x == 1.0 / 121.0 && y == 1.0 / 122.0;
    hide Weight;
    assert 0.001 <= y <= x <= w <= 1.0 && 2.0 * y == w;
    assert 1.998 * x > 1.001 * w;
    Doubled(round, x);
    Doubled(round, y);
    Doubled(round, w);
    assert round(2.0 * y) == round(w);
  }

  lemma Doubled(round: Rounding, x: real)
    requires IsBinary(round) && 0.001 <= x <= 1.0
    ensures round(round(x) + round(x)) == round(2.0 * x)
    ensures round(2.0 * x) >= 1.998 * x && round(x) <= 1.001 * x
  {
    assert round(x) + round(x) == round(2.0 * x);
  }

  function Tally(n: nat): (s: string)
    ensures |s| == n
  {
    if n == 0 then "" else "x" + Tally(n - 1)
  }

  /** Two lists that share just their last path. */
  function FirstList(n: nat): (list: seq<string>)
    ensures |list| == n + 1
  {
    seq(n + 1, i requires 0 <= i => Tally(i))
  }

  function SecondList(n: nat): (list: seq<string>)
    ensures |list| == n + 1
  {
    seq(n, i requires 0 <= i => Tally(n + 1 + i)) + [Tally(n)]
  }

  lemma ListsShareLast(n: nat)
    ensures Distinct(FirstList(n)) && Distinct(SecondList(n))
    ensures FirstList(n)[n] == SecondList(n)[n] && (n > 0 ==> FirstList(n)[0] !in SecondList(n))
  {
    var a, b := FirstList(n), SecondList(n);
    assert forall i :: 0 <= i < n ==> |b[i]| == n + 1 + i;
    assert forall i :: 0 <= i <= n ==> |a[i]| == i;
  }

  lemma MoreThan61(round: Rounding, n: nat)
    requires IsBinary(round) && n >= 61
    ensures !BothBeatOne(round, FirstList(n), SecondList(n))
  {
    hide Weight, Score, Distinct;
    ListsShareLast(n);
    var a, b := FirstList(n), SecondList(n);
    var p, q := a[n], a[0];
    assert b[n] == p && p in a && p in b && q in a && q !in b;
    TwiceScore(round, a, b, p, n, n);
    OnceScore(round, a, b, q, 0);
    TwiceOrder(round, 61, 61, n, n);
    Worst(round);
  }

  /**
   For lists of up to `n` distinct paths, being found twice always wins, if and only if `n` is at most 61: however the
   scores are rounded.
   */
  lemma BothBeatOneIff(round: Rounding, n: nat)
    requires IsBinary(round)
    ensures (forall a, b :: Distinct(a) && Distinct(b) && |a| <= n && |b| <= n ==> BothBeatOne(round, a, b))
      <==> n <= 61
  {
    hide BothBeatOne, Distinct, IsBinary;
    if n <= 61 {
      forall a, b | Distinct(a) && Distinct(b) && |a| <= n && |b| <= n ensures BothBeatOne(round, a, b) {
        AtMost61(round, a, b);
      }
    } else {
      ListsShareLast(n - 1);
      MoreThan61(round, n - 1);
    }
  }

  /** Exact arithmetic is one such. */
  lemma ExactIsBinary()
    ensures IsBinary(EXACT)
  {
  }

  // Conservation, without rounding

  function SumOf(names: seq<string>, lists: seq<seq<string>>): real {
    if names == [] then 0.0 else SumOf(names[..|names| - 1], lists) + Score(EXACT, lists, names[|names| - 1])
  }

  function SumIn(names: seq<string>, list: seq<string>): real {
    if names == [] then 0.0 else SumIn(names[..|names| - 1], list) + ListScore(EXACT, 0.0, list, names[|names| - 1])
  }

  /** The worth of all entries of a list, and of all lists. */
  function ListWeight(list: seq<string>): real {
    if list == [] then 0.0 else ListWeight(list[..|list| - 1]) + Weight(|list| - 1)
  }

  function TotalWeight(lists: seq<seq<string>>): real {
    if lists == [] then 0.0 else TotalWeight(lists[..|lists| - 1]) + ListWeight(lists[|lists| - 1])
  }

  lemma {:induction false} OneMoreEntry(names: seq<string>, list: seq<string>, x: string)
    requires Distinct(names)
    ensures SumIn(names, list + [x]) == SumIn(names, list) + (if x in names then Weight(|list|) else 0.0)
  {
    hide Weight;
    if names != [] {
      var rest, last := names[..|names| - 1], names[|names| - 1];
      assert names == rest + [last] && last !in rest;
      OneMoreEntry(rest, list, x);
      assert (list + [x])[..|list|] == list;
    }
  }

  lemma {:induction false} NoEntries(names: seq<string>)
    ensures SumIn(names, []) == 0.0
  {
    if names != [] { NoEntries(names[..|names| - 1]); }
  }

  lemma {:induction false} ListShared(names: seq<string>, list: seq<string>)
    requires Distinct(names) && forall p :: p in list ==> p in names
    ensures SumIn(names, list) == ListWeight(list)
    decreases |list|
  {
    hide Weight, SumIn;
    if list == [] {
      NoEntries(names);
    } else {
      var rest, last := list[..|list| - 1], list[|list| - 1];
      assert list == rest + [last];
      ListShared(names, rest);
      OneMoreEntry(names, rest, last);
    }
  }

  lemma {:induction false} ExactAdds(before: real, list: seq<string>, path: string)
    ensures ListScore(EXACT, before, list, path) == before + ListScore(EXACT, 0.0, list, path)
    decreases |list|
  {
    hide Weight;
    if list != [] { ExactAdds(before, list[..|list| - 1], path); }
  }

  lemma {:induction false} SumSplits(names: seq<string>, lists: seq<seq<string>>)
    requires lists != []
    ensures SumOf(names, lists) == SumOf(names, lists[..|lists| - 1]) + SumIn(names, lists[|lists| - 1])
  {
    hide ListScore;
    if names != [] {
      SumSplits(names[..|names| - 1], lists);
      var rest, path := lists[..|lists| - 1], names[|names| - 1];
      ExactAdds(Score(EXACT, rest, path), lists[|lists| - 1], path);
    }
  }

  lemma {:induction false} NoLists(names: seq<string>)
    ensures SumOf(names, []) == 0.0
  {
    if names != [] { NoLists(names[..|names| - 1]); }
  }

  /** The scores of the fused paths together are worth exactly what all entries of all lists are: nothing is lost. */
  lemma {:induction false} NothingIsLost(names: seq<string>, lists: seq<seq<string>>)
    requires Distinct(names) && forall p :: Listed(lists, p) ==> p in names
    ensures SumOf(names, lists) == TotalWeight(lists)
    decreases |lists|
  {
    hide SumOf, SumIn, ListWeight;
    if lists == [] {
      NoLists(names);
    } else {
      var rest, last := lists[..|lists| - 1], lists[|lists| - 1];
      assert last in lists && forall l :: l in rest ==> l in lists;
      forall p | p in last ensures p in names { assert Listed(lists, p); }
      forall p | Listed(rest, p) ensures p in names { assert Listed(lists, p); }
      SumSplits(names, lists);
      ListShared(names, last);
      NothingIsLost(names, rest);
    }
  }

  // Embeddings as bytes

  type Byte = n: int | 0 <= n < 0x100

  type Float = n: int | 0 <= n < 0x1_0000_0000

  function ToBytes(v: Float): (bytes: seq<Byte>)
    ensures |bytes| == 4
  {
    [v % 0x100, v / 0x100 % 0x100, v / 0x1_0000 % 0x100, v / 0x100_0000]
  }

  function FromBytes(b: seq<Byte>): Float
    requires |b| == 4
  {
    (b[0] as int) + 0x100 * (b[1] as int) + 0x1_0000 * (b[2] as int) + 0x100_0000 * (b[3] as int)
  }

  function Serialize(vector: seq<Float>): (bytes: seq<Byte>) {
    if vector == [] then [] else ToBytes(vector[0]) + Serialize(vector[1..])
  }

  /** Bytes after the last four that make a number are dropped. */
  function Deserialize(bytes: seq<Byte>): (vector: seq<Float>)
    decreases |bytes|
  {
    if |bytes| < 4 then [] else [FromBytes(bytes[..4])] + Deserialize(bytes[4..])
  }

  method SerializeEmbedding(vector: seq<Float>) returns (out: seq<Byte>)
    ensures out == Serialize(vector)
  {
    hide ToBytes;
    out := [];
    assert vector[0..] == vector;
    for i := 0 to |vector|
      invariant out + Serialize(vector[i..]) == Serialize(vector)
    {
      assert vector[i..][1..] == vector[i + 1..];
      assert out + (ToBytes(vector[i]) + Serialize(vector[i + 1..]))
        == out + ToBytes(vector[i]) + Serialize(vector[i + 1..]);
      out := out + ToBytes(vector[i]);
    }
    assert vector[|vector|..] == [];
  }

  lemma BytesOf(v: Float)
    ensures FromBytes(ToBytes(v)) == v
  {
    var a, b, c := v / 0x100, v / 0x1_0000, v / 0x100_0000;
    assert b == a / 0x100 && c == b / 0x100;
  }

  lemma OfBytes(b: seq<Byte>)
    requires |b| == 4
    ensures ToBytes(FromBytes(b)) == b
  {
    var v := FromBytes(b);
    var b1, b2, b3 := b[1] as int, b[2] as int, b[3] as int;
    assert v / 0x100 == b1 + 0x100 * b2 + 0x1_0000 * b3;
    assert v / 0x1_0000 == b2 + 0x100 * b3;
    assert v / 0x100_0000 == b3;
  }

  /** An embedding that was stored is read back, whatever partial value follows it. */
  lemma {:induction false} StoredIsRead(vector: seq<Float>, tail: seq<Byte>)
    requires |tail| < 4
    ensures Deserialize(Serialize(vector) + tail) == vector
  {
    hide ToBytes, FromBytes;
    if vector == [] {
      assert [] + tail == tail;
    } else {
      var first, rest := ToBytes(vector[0]), Serialize(vector[1..]) + tail;
      assert Serialize(vector) + tail == first + rest;
      assert (first + rest)[..4] == first && (first + rest)[4..] == rest;
      BytesOf(vector[0]);
      StoredIsRead(vector[1..], tail);
    }
  }

  /** And every byte string is an embedding that was stored, with fewer than four bytes after it. */
  lemma {:induction false} ReadIsStored(bytes: seq<Byte>)
    ensures exists tail :: |tail| < 4 && bytes == Serialize(Deserialize(bytes)) + tail
    decreases |bytes|
  {
    hide ToBytes, FromBytes;
    if |bytes| < 4 {
      assert bytes == Serialize(Deserialize(bytes)) + bytes;
    } else {
      ReadIsStored(bytes[4..]);
      var tail :| |tail| < 4 && bytes[4..] == Serialize(Deserialize(bytes[4..])) + tail;
      OfBytes(bytes[..4]);
      var all := Deserialize(bytes);
      assert all[1..] == Deserialize(bytes[4..]);
      assert bytes == bytes[..4] + bytes[4..];
      assert bytes == Serialize(all) + tail;
    }
  }
}
