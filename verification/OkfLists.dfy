/**
 What a printed list is read back as, whatever its items are: each item is split at its commas by itself.
 */
module OkfLists {
  import opened Text
  import opened Okf
  import opened OkfRoundTrip
  import opened OkfCanonical

  /** One item of a printed list, as it is read back: several if it has commas, none if it is blank. */
  function Pieces(item: string): seq<string> { CleanItems(SplitCommas(item)) }

  function AllPieces(items: seq<string>): seq<string> {
    if items == [] then [] else Pieces(items[0]) + AllPieces(items[1..])
  }

  lemma {:induction false} CleanConcat(a: seq<string>, b: seq<string>)
    ensures CleanItems(a + b) == CleanItems(a) + CleanItems(b)
  {
    hide Unquote, Trim;
    if a == [] {
      assert a + b == b;
      NothingClean();
    } else {
      assert a + b == [a[0]] + (a[1..] + b) && a == [a[0]] + a[1..];
      CleanConcat(a[1..], b);
      CleanCons(a[0], a[1..] + b);
      CleanCons(a[0], a[1..]);
    }
  }

  lemma {:induction false} SplitConcat(a: string, b: string)
    ensures SplitCommas(a + "," + b) == SplitCommas(a) + SplitCommas(b)
    decreases |a|
  {
    if ',' in a {
      var (x, y) := SplitOnce(a, ',').value;
      assert a == x + "," + y && a + "," + b == x + "," + (y + "," + b);
      SplitConcat(y, b);
      hide SplitCommas, SplitOnce;
      SplitAtComma(x, y);
      SplitAtComma(x, y + "," + b);
    } else {
      hide SplitCommas;
      OneItem(a);
      SplitAtComma(a, b);
    }
  }

  /** A space in front of a list does not matter. */
  lemma PaddedPieces(pad: string, s: string)
    requires Gap(pad)
    ensures Pieces(pad + s) == Pieces(s)
  {
    if ',' in s {
      var (x, y) := SplitOnce(s, ',').value;
      assert s == x + "," + y && pad + s == (pad + x) + "," + y && ',' !in pad + x;
      hide SplitCommas, SplitOnce, CleanItems, Unquote, Trim;
      SplitAtComma(x, y);
      SplitAtComma(pad + x, y);
      PaddedFirst(pad, x, SplitCommas(y));
    } else {
      hide SplitCommas, CleanItems, Unquote, Trim;
      assert ',' !in pad + s;
      OneItem(s);
      OneItem(pad + s);
      assert [s] == [s] + [] && [pad + s] == [pad + s] + [];
      PaddedFirst(pad, s, []);
    }
  }

  lemma PaddedFirst(pad: string, x: string, rest: seq<string>)
    requires Gap(pad)
    ensures CleanItems([pad + x] + rest) == CleanItems([x] + rest)
  {
    hide CleanItems, Unquote, Trim;
    CleanCons(pad + x, rest);
    CleanCons(x, rest);
    CleanPadded(pad, x);
    UnquoteTrim(x);
  }

  lemma {:induction false} JoinedPieces(items: seq<string>)
    requires items != []
    ensures Pieces(Join(items)) == AllPieces(items)
  {
    hide Pieces;
    if |items| == 1 {
      assert items[1..] == [] && Pieces(items[0]) + [] == Pieces(items[0]);
    } else {
      var rest := Join(items[1..]);
      JoinedPieces(items[1..]);
      assert Join(items) == items[0] + "," + (" " + rest);
      PiecesConcat(items[0], " " + rest);
      PaddedPieces(" ", rest);
    }
  }

  lemma PiecesConcat(a: string, b: string)
    ensures Pieces(a + "," + b) == Pieces(a) + Pieces(b)
  {
    hide CleanItems, SplitCommas;
    SplitConcat(a, b);
    CleanConcat(SplitCommas(a), SplitCommas(b));
  }

  lemma BlankHasNoPieces(s: string)
    requires Trim(s) == ""
    ensures Pieces(s) == []
  {
    hide SplitCommas, CleanItems, Trim, Unquote, AllSpace;
    TrimIsBlank(s);
    BlankHasNoComma(s);
    OneItem(s);
    assert [s] == [s] + [];
    CleanCons(s, []);
    NothingClean();
    NothingUnquoted();
  }

  lemma BlankHasNoComma(s: string)
    requires AllSpace(s)
    ensures ',' !in s
  {
  }

  lemma NothingUnquoted()
    ensures Unquote("") == ""
  {
    hide Trim;
    TrimFixpoint("");
  }

  lemma {:induction false} TrimIsBlank(s: string)
    requires Trim(s) == ""
    ensures AllSpace(s)
  {
    if s != "" {
      if IsSpace(s[0]) {
        TrimIsBlank(s[1..]);
        forall i | 0 <= i < |s| ensures IsSpace(s[i]) { if i > 0 { assert s[i] == s[1..][i - 1]; } }
      } else {
        TrimEndLast(s);
      }
    }
  }

  /** Every printed list is read back as the pieces of its items, in order. */
  lemma ListIsPieces(items: seq<string>)
    ensures ReadBackList(items) == AllPieces(items)
  {
    hide ReadBackList, Join, Trim, Pieces;
    if items == [] {
      EmptyListReadBack();
    } else {
      ReadBackListOf(items);
      JoinedPieces(items);
      assert Pieces(Join(items)) == CleanItems(SplitCommas(Join(items))) by { PiecesAre(Join(items)); }
      if Trim(Join(items)) == "" { BlankHasNoPieces(Join(items)); }
    }
  }

  lemma PiecesAre(s: string)
    ensures Pieces(s) == CleanItems(SplitCommas(s))
  {
  }

  lemma {:induction false} PieceOfSome(items: seq<string>, x: string)
    ensures x in AllPieces(items) <==> exists item :: item in items && x in Pieces(item)
  {
    hide Pieces;
    if items != [] {
      PieceOfSome(items[1..], x);
      assert forall item :: item in items <==> item == items[0] || item in items[1..];
    }
  }

  /** Lists of the same items, in any order and however often, are read back as lists of the same items. */
  lemma SameItemsReadBack(a: seq<string>, b: seq<string>)
    requires Elements(a) == Elements(b)
    ensures Elements(ReadBackList(a)) == Elements(ReadBackList(b))
  {
    hide ReadBackList, Pieces, AllPieces;
    ListIsPieces(a);
    ListIsPieces(b);
    assert forall item :: item in a <==> item in Elements(a);
    assert forall item :: item in b <==> item in Elements(b);
    forall x ensures x in AllPieces(a) <==> x in AllPieces(b) {
      PieceOfSome(a, x);
      PieceOfSome(b, x);
    }
  }

  // When no item is missing

  lemma {:induction false} SplitShorter(s: string, z: string)
    requires z in SplitCommas(s)
    ensures |z| <= |s| && (|z| == |s| ==> z == s && ',' !in s)
    decreases |s|
  {
    match SplitOnce(s, ',')
    case None =>
    case Some((a, b)) =>
      if z != a { SplitShorter(b, z); }
  }

  lemma {:induction false} CleanedFrom(items: seq<string>, x: string)
    requires x in CleanItems(items)
    ensures x != "" && exists z :: z in items && x == Unquote(Trim(z))
  {
    hide Unquote, Trim;
    var item := Unquote(Trim(items[0]));
    if item == "" || x != item { CleanedFrom(items[1..], x); }
  }

  lemma UnquotedShorter(z: string)
    ensures |Unquote(Trim(z))| <= |z|
    ensures |Unquote(Trim(z))| == |z| ==> Unquote(Trim(z)) == z && Trimmed(z) && !QuoteWrapped(z)
  {
    hide Trim, Trimmed;
    UnquoteTrim(z);
    TrimFixpoint(z);
  }

  /** A piece of an item is shorter, or the item itself, which then is one that can be read back. */
  lemma PieceShorter(item: string, x: string)
    requires x in Pieces(item)
    ensures |x| <= |item| && (|x| == |item| ==> x == item && item != "" && ItemKept(item))
  {
    hide CleanItems, SplitCommas, Unquote, Trim, Trimmed, QuoteWrapped;
    CleanedFrom(SplitCommas(item), x);
    var z :| z in SplitCommas(item) && x == Unquote(Trim(z));
    SplitShorter(item, z);
    UnquotedShorter(z);
  }

  /** An item that is not read back as itself: some item is missing, since pieces only get shorter. */
  lemma {:induction false} SomeItemMissing(items: seq<string>, item: string, bound: nat)
    requires item in items && !(item != "" && ItemKept(item))
    requires forall s :: s in items ==> |s| <= bound
    ensures exists s :: s in items && s !in AllPieces(items)
    decreases bound - |item|
  {
    hide Pieces, ItemKept, AllPieces;
    if item in AllPieces(items) {
      PieceOfSome(items, item);
      var from :| from in items && item in Pieces(from);
      PieceShorter(from, item);
      if from != "" && ItemKept(from) { OwnPiece(from, item); }
      SomeItemMissing(items, from, bound);
    }
  }

  lemma OwnPiece(item: string, x: string)
    requires item != "" && ItemKept(item) && x in Pieces(item)
    ensures x == item
  {
    hide CleanItems, Unquote, Trim, SplitCommas;
    OneItem(item);
    assert [item] == [item] + [];
    CleanCons(item, []);
    NothingClean();
    UnquoteFixpoint(item);
    TrimFixpoint(item);
  }

  function Longest(items: seq<string>): (n: nat)
    ensures forall s :: s in items ==> |s| <= n
  {
    if items == [] then 0
    else
      var n := Longest(items[1..]);
      assert items == [items[0]] + items[1..];
      if |items[0]| > n then |items[0]| else n
  }

  /** No item of a list is missing when it is read back exactly if every item can be read back by itself. */
  lemma NoItemMissingIff(items: seq<string>)
    requires SingleLineItems(items)
    ensures Elements(items) <= Elements(ReadBackList(items)) <==> ListCanonical(items)
  {
    hide ReadBackList, AllPieces, ItemKept, NoNewline;
    ListIff(items);
    ListIsPieces(items);
    if !ListCanonical(items) {
      var i :| 0 <= i < |items| && !ItemCanonical(items[i]);
      assert items[i] in items;
      SomeItemMissing(items, items[i], Longest(items));
      var s :| s in items && s !in AllPieces(items);
      assert s in Elements(items) && s !in Elements(AllPieces(items));
    }
  }
}
