// The per-depot configuration text ("DepotBuildConfig") and the name of
// the file it is written to.
module DepotConfig {
  import opened Decimal
  import opened KeyValues

  /** The glob patterns every depot excludes, in the order they are written. */
  const Exclusions: seq<string> := [
    "*.pdb",
    "**/*_BurstDebugInformation_DoNotShip*",
    "**/*_BackUpThisFolder_ButDontShipItWithYourGame*"
  ]

  /** The file a depot's configuration is written to, and which the
      manifest names for that depot. */
  function DepotFileName(depotId: int): string {
    "depot" + IntText(depotId) + ".vdf"
  }

  /** The local directory pattern a depot maps: everything below its path. */
  function LocalPath(depotPath: string): string {
    "./" + depotPath + "/*"
  }

  function ExclusionLines(): seq<string> {
    [Pair(1, "FileExclusion", Exclusions[0]),
     Pair(1, "FileExclusion", Exclusions[1]),
     Pair(1, "FileExclusion", Exclusions[2])]
  }

  /** The template, line by line: a DepotID entry, one FileMapping block,
      then one FileExclusion entry per pattern. */
  function DepotLines(depotId: int, depotPath: string): seq<string> {
    [Name(0, "DepotBuildConfig"),
     Open(0),
     Pair(1, "DepotID", IntText(depotId)),
     Name(1, "FileMapping"),
     Open(1),
     Pair(2, "LocalPath", LocalPath(depotPath)),
     Pair(2, "DepotPath", "."),
     Pair(2, "recursive", "1"),
     Close(1)]
    + ExclusionLines()
  }

  /** The configuration text of one depot. */
  function DepotText(depotId: int, depotPath: string): string {
    Document(DepotLines(depotId, depotPath))
  }

  /** Different depots are written to different files. */
  lemma DepotFileNameInjective(a: int, b: int)
    ensures DepotFileName(a) == DepotFileName(b) <==> a == b
  {
    if DepotFileName(a) == DepotFileName(b) {
      var s := DepotFileName(a);
      assert s[5..|s| - 4] == IntText(a);
      assert DepotFileName(b)[5..|s| - 4] == IntText(b);
      IntTextInjective(a, b);
    }
  }

  /** The block structure: the FileMapping block is opened once and closed
      once, it holds exactly the LocalPath, DepotPath and recursive entries,
      in that order, and it follows the DepotID entry. */
  lemma DepotLinesBlock(depotId: int, depotPath: string)
    ensures var ls := DepotLines(depotId, depotPath);
      |ls| == 12 &&
      ls[2] == Pair(1, "DepotID", IntText(depotId)) &&
      (forall i :: 0 <= i < |ls| ==> (ls[i] == Name(1, "FileMapping") <==> i == 3)) &&
      (forall i :: 0 <= i < |ls| ==> (ls[i] == Open(1) <==> i == 4)) &&
      (forall i :: 0 <= i < |ls| ==> (ls[i] == Close(1) <==> i == 8)) &&
      ls[5..8] == [Pair(2, "LocalPath", "./" + depotPath + "/*"),
                   Pair(2, "DepotPath", "."),
                   Pair(2, "recursive", "1")]
  {
    var ls := DepotLines(depotId, depotPath);
    var fm, op, cl := Name(1, "FileMapping"), Open(1), Close(1);
    assert |fm| == 15 && fm[2] == '"' && fm[3] == 'F' && fm[7] == 'M';
    assert |op| == 3 && op[2] == '{';
    assert |cl| == 3 && cl[2] == '}';
    forall i | 0 <= i < |ls|
      ensures ls[i] == fm <==> i == 3
      ensures ls[i] == op <==> i == 4
      ensures ls[i] == cl <==> i == 8
    {
      var l := ls[i];
      if i == 0 || i == 1 {
        assert l[0] != ' ';
      } else if i == 2 {
        assert l[3] == 'D';
      } else if 5 <= i <= 7 {
        assert l[2] == ' ' && |l| > 3;
      } else if i >= 9 {
        assert l[3] == 'F' && l[7] == 'E';
      }
    }
  }

  /** The depot's entries stand in the text in this order: its DepotID, then
      the LocalPath of its directory, then DepotPath "." and recursive "1". */
  lemma DepotTextFieldsInOrder(depotId: int, depotPath: string)
    ensures var t := DepotText(depotId, depotPath);
      exists p1: nat, p2: nat, p3: nat, p4: nat ::
        p1 < p2 < p3 < p4 &&
        OccursAt(t, Pair(1, "DepotID", IntText(depotId)) + "\n", p1) &&
        OccursAt(t, Pair(2, "LocalPath", "./" + depotPath + "/*") + "\n", p2) &&
        OccursAt(t, Pair(2, "DepotPath", ".") + "\n", p3) &&
        OccursAt(t, Pair(2, "recursive", "1") + "\n", p4)
  {
    var ls := DepotLines(depotId, depotPath);
    var t := DepotText(depotId, depotPath);
    LineOccursInDocument(ls, 2);
    LineOccursInDocument(ls, 5);
    LineOccursInDocument(ls, 6);
    LineOccursInDocument(ls, 7);
    LineOffsetsIncrease(ls, 2, 5);
    LineOffsetsIncrease(ls, 5, 6);
    LineOffsetsIncrease(ls, 6, 7);
    var p1, p2, p3, p4 := |Lines(ls[..2])|, |Lines(ls[..5])|, |Lines(ls[..6])|, |Lines(ls[..7])|;
    assert OccursAt(t, ls[2] + "\n", p1);
  }

  /** Every depot text ends with the same three FileExclusion entries, in
      the order of `Exclusions`, and the closing brace: nothing of the inputs
      follows the FileMapping block. */
  lemma DepotTextEndsWithExclusions(depotId: int, depotPath: string)
    ensures var t := DepotText(depotId, depotPath);
      var tail := Lines(ExclusionLines()) + Close(0);
      |tail| <= |t| && t[|t| - |tail|..] == tail
  {
    var ls := DepotLines(depotId, depotPath);
    var head := ls[..9];
    var tail := ExclusionLines();
    assert ls == head + tail;
    LinesAppend(head, tail);
    var t := DepotText(depotId, depotPath);
    assert t == Lines(head) + (Lines(tail) + Close(0));
  }
}
