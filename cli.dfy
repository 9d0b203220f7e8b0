/**
 * The command line's list parser: a comma-separated flag value such as
 * "ubuntu, alpine" becomes the list of its trimmed items.
 */
module Cli {
  import opened GoStrings

  /**
   * What parseList keeps of the comma-separated pieces, in order: every
   * piece that is not the empty string, trimmed of white space. A piece of
   * white space only is kept, as the empty string.
   */
  function Kept(pieces: seq<string>): seq<string> {
    if pieces == [] then []
    else
      var last := pieces[|pieces| - 1];
      Kept(pieces[..|pieces| - 1]) + (if last != "" then [TrimSpace(last)] else [])
  }

  /** parseList: split on ',', drop the empty pieces, trim the others. */
  method ParseList(input: string) returns (arr: seq<string>)
    ensures arr == Kept(Split(input, ','))
  {
    arr := [];
    var list := Split(input, ',');
    for i := 0 to |list|
      invariant arr == Kept(list[..i])
    {
      var item := list[i];
      assert list[..i + 1][..i] == list[..i];
      if item != "" {
        arr := arr + [TrimSpace(item)];
      }
    }
    assert list[..|list|] == list;
  }

  /** The kept items are exactly the trimmed forms of the non-empty pieces. */
  lemma {:induction false} KeptMembers(pieces: seq<string>, s: string)
    ensures s in Kept(pieces) <==> exists p :: p in pieces && p != "" && s == TrimSpace(p)
  {
    if pieces != [] {
      var init, last := pieces[..|pieces| - 1], pieces[|pieces| - 1];
      assert pieces == init + [last];
      KeptMembers(init, s);
      if exists p :: p in pieces && p != "" && s == TrimSpace(p) {
        var p :| p in pieces && p != "" && s == TrimSpace(p);
        if p != last {
          assert p in init;
        }
      }
    }
  }

  /** One item per piece, less the empty pieces. */
  lemma {:induction false} KeptCount(pieces: seq<string>)
    ensures |Kept(pieces)| == |pieces| - multiset(pieces)[""]
  {
    if pieces != [] {
      var init, last := pieces[..|pieces| - 1], pieces[|pieces| - 1];
      assert pieces == init + [last];
      KeptCount(init);
    }
  }

  /** No item holds a comma, and none starts or ends with white space. */
  lemma {:induction false} KeptItems(input: string)
    ensures forall s :: s in Kept(Split(input, ',')) ==>
      ',' !in s && (s != [] ==> !IsSpace(s[0]) && !IsSpace(s[|s| - 1]))
  {
    var pieces := Split(input, ',');
    forall s | s in Kept(pieces)
      ensures ',' !in s && (s != [] ==> !IsSpace(s[0]) && !IsSpace(s[|s| - 1]))
    {
      KeptMembers(pieces, s);
      var p :| p in pieces && p != "" && s == TrimSpace(p);
      TrimmedPiece(pieces, p);
    }
  }

  lemma TrimmedPiece(pieces: seq<string>, p: string)
    requires forall k :: 0 <= k < |pieces| ==> ',' !in pieces[k]
    requires p in pieces
    ensures ',' !in TrimSpace(p)
  {
    var i, j :| 0 <= i <= j <= |p| && TrimSpace(p) == p[i..j];
    SliceLacks(p, i, j, ',');
  }

  lemma SliceLacks(p: string, i: nat, j: nat, c: char)
    requires i <= j <= |p| && c !in p
    ensures c !in p[i..j]
  {
  }

  /** An empty flag value gives an empty list, not a list holding "". */
  lemma ParseListEmpty()
    ensures Kept(Split("", ',')) == []
  {
    assert Split("", ',') == [""];
  }

  /** At most one item more than there are commas. */
  lemma ParseListBound(input: string)
    ensures |Kept(Split(input, ','))| <= CountChar(input, ',') + 1
  {
    KeptCount(Split(input, ','));
  }

  /** A piece of white space only is not dropped: it becomes an empty item. */
  lemma BlankPieceKept(input: string, k: nat)
    requires k < |Split(input, ',')|
    requires Split(input, ',')[k] != "" && AllSpace(Split(input, ',')[k])
    ensures "" in Kept(Split(input, ','))
  {
    var pieces := Split(input, ',');
    assert pieces[k] in pieces;
    KeptMembers(pieces, "");
  }
}
