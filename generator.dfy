// The generator: walks the nine depot slots, keeps the slots whose path is
// set, writes one configuration file per kept depot, and assembles the
// manifest that lists them.
module Generator {
  import opened Decimal
  import opened KeyValues
  import opened DepotConfig
  import opened Manifest

  /** The number of depot slots, `depot1Path` to `depot9Path`. */
  const SlotCount: nat := 9

  /** The IDs of the depots kept among the first `n` slots, in slot order:
      slot `i` (counted from 1, its path at `slots[i - 1]`) gets the ID
      `appId + i` and is kept when its path is non-empty. */
  function DepotIdsUpTo(appId: int, slots: seq<string>, n: nat): (ds: seq<int>)
    requires n <= |slots|
    ensures |ds| <= n
    ensures forall j :: 0 <= j < |ds| ==> appId < ds[j] <= appId + n
    ensures forall i, j :: 0 <= i < j < |ds| ==> ds[i] < ds[j]
  {
    if n == 0 then []
    else DepotIdsUpTo(appId, slots, n - 1) + (if slots[n - 1] != "" then [appId + n] else [])
  }

  /** The kept depots of all nine slots. */
  function DepotIds(appId: int, slots: seq<string>): seq<int>
    requires |slots| == SlotCount
  {
    DepotIdsUpTo(appId, slots, SlotCount)
  }

  /** The files written for the first `n` slots: for each kept slot, the
      file `nameOf` its depot ID, holding `textOf` the depot's ID and path. */
  function FilesUpTo(appId: int, slots: seq<string>, n: nat,
                     nameOf: int -> string, textOf: (int, string) -> string): map<string, string>
    requires n <= |slots|
  {
    if n == 0 then map[]
    else if slots[n - 1] != "" then
      FilesUpTo(appId, slots, n - 1, nameOf, textOf)[nameOf(appId + n) := textOf(appId + n, slots[n - 1])]
    else FilesUpTo(appId, slots, n - 1, nameOf, textOf)
  }

  /** Different depots get different names. */
  ghost predicate Injective(nameOf: int -> string) {
    forall a, b :: nameOf(a) == nameOf(b) ==> a == b
  }

  /** The configuration files of all nine slots. */
  function DepotFiles(appId: int, slots: seq<string>): map<string, string>
    requires |slots| == SlotCount
  {
    FilesUpTo(appId, slots, SlotCount, DepotFileName, DepotText)
  }

  /** A depot ID is kept exactly when it is `appId + i` for a slot `i` whose
      path is non-empty. */
  lemma {:induction false} DepotIdsMembership(appId: int, slots: seq<string>, n: nat, x: int)
    requires n <= |slots|
    ensures x in DepotIdsUpTo(appId, slots, n) <==>
      exists k :: 0 <= k < n && slots[k] != "" && x == appId + k + 1
  {
    if n > 0 {
      DepotIdsMembership(appId, slots, n - 1, x);
      var prev := DepotIdsUpTo(appId, slots, n - 1);
      if x in prev {
        var k :| 0 <= k < n - 1 && slots[k] != "" && x == appId + k + 1;
        assert 0 <= k < n && slots[k] != "" && x == appId + k + 1;
      }
      if exists k :: 0 <= k < n && slots[k] != "" && x == appId + k + 1 {
        var k :| 0 <= k < n && slots[k] != "" && x == appId + k + 1;
        if k < n - 1 {
          assert x in prev;
        }
      }
    }
  }

  /** The slot loop, over all nine slots: every kept depot is `appId + i` for
      a slot `i` whose path is set, and every such slot is kept. */
  lemma DepotIdsSpec(appId: int, slots: seq<string>)
    requires |slots| == SlotCount
    ensures forall k :: 0 <= k < SlotCount ==> (appId + k + 1 in DepotIds(appId, slots) <==> slots[k] != "")
    ensures forall x :: x in DepotIds(appId, slots) ==>
      appId < x <= appId + SlotCount && slots[x - appId - 1] != ""
  {
    var ds := DepotIds(appId, slots);
    forall k | 0 <= k < SlotCount
      ensures appId + k + 1 in ds <==> slots[k] != ""
    {
      DepotIdsMembership(appId, slots, SlotCount, appId + k + 1);
    }
    forall x | x in ds
      ensures appId < x <= appId + SlotCount && slots[x - appId - 1] != ""
    {
      DepotIdsMembership(appId, slots, SlotCount, x);
    }
  }

  /** No depot is kept exactly when no slot's path is set; the manifest's
      depots block is then empty. */
  lemma NoDepotsKept(appId: int, slots: seq<string>)
    requires |slots| == SlotCount
    ensures DepotIds(appId, slots) == [] <==> forall k :: 0 <= k < SlotCount ==> slots[k] == ""
  {
    var ds := DepotIds(appId, slots);
    DepotIdsSpec(appId, slots);
    if ds != [] {
      var k := ds[0] - appId - 1;
      assert ds[0] in ds;
      assert 0 <= k < SlotCount && slots[k] != "";
    } else {
      forall k | 0 <= k < SlotCount
        ensures slots[k] == ""
      {
        assert appId + k + 1 !in ds;
      }
    }
  }

  /** A kept depot's file is written under its name, holding `textOf` that
      depot's ID and path. */
  lemma {:induction false} KeptFileWritten(appId: int, slots: seq<string>, n: nat,
                                           nameOf: int -> string, textOf: (int, string) -> string, x: int)
    requires n <= |slots| && Injective(nameOf)
    requires x in DepotIdsUpTo(appId, slots, n)
    ensures appId < x <= appId + n
    ensures nameOf(x) in FilesUpTo(appId, slots, n, nameOf, textOf)
    ensures FilesUpTo(appId, slots, n, nameOf, textOf)[nameOf(x)] == textOf(x, slots[x - appId - 1])
  {
    var prev := DepotIdsUpTo(appId, slots, n - 1);
    var id := appId + n;
    if slots[n - 1] != "" && x == id {
      assert x - appId - 1 == n - 1;
    } else {
      assert x in prev;
      KeptFileWritten(appId, slots, n - 1, nameOf, textOf, x);
      assert nameOf(x) != nameOf(id);
    }
  }

  /** A file is written only under the name of a kept depot. */
  lemma {:induction false} WrittenFileKept(appId: int, slots: seq<string>, n: nat,
                                           nameOf: int -> string, textOf: (int, string) -> string, name: string)
    requires n <= |slots|
    requires name in FilesUpTo(appId, slots, n, nameOf, textOf)
    ensures exists x :: x in DepotIdsUpTo(appId, slots, n) && name == nameOf(x)
  {
    var ds := DepotIdsUpTo(appId, slots, n);
    var prev := DepotIdsUpTo(appId, slots, n - 1);
    var id := appId + n;
    if slots[n - 1] != "" && name == nameOf(id) {
      assert id in ds;
    } else {
      WrittenFileKept(appId, slots, n - 1, nameOf, textOf, name);
      var x :| x in prev && name == nameOf(x);
      assert x in ds;
    }
  }

  /** Depot files are named injectively. */
  lemma DepotFileNamesInjective()
    ensures Injective(DepotFileName)
  {
    forall a, b | DepotFileName(a) == DepotFileName(b)
      ensures a == b
    {
      DepotFileNameInjective(a, b);
    }
  }

  /** Each kept depot's file holds that depot's configuration text. */
  lemma DepotFilesHoldTexts(appId: int, slots: seq<string>)
    requires |slots| == SlotCount
    ensures var files := DepotFiles(appId, slots);
      forall x :: x in DepotIds(appId, slots) ==>
        DepotFileName(x) in files && files[DepotFileName(x)] == DepotText(x, slots[x - appId - 1])
  {
    DepotFileNamesInjective();
    forall x | x in DepotIds(appId, slots)
      ensures DepotFileName(x) in DepotFiles(appId, slots)
      ensures DepotFiles(appId, slots)[DepotFileName(x)] == DepotText(x, slots[x - appId - 1])
    {
      KeptFileWritten(appId, slots, SlotCount, DepotFileName, DepotText, x);
    }
  }

  /** Entry `j` of the manifest's depots block carries the ID of the `j`-th
      kept depot and the name of a file written for it. */
  lemma ManifestNamesWrittenFiles(appId: int, slots: seq<string>)
    requires |slots| == SlotCount
    ensures var ds := DepotIds(appId, slots);
      var es := DepotEntries(ds);
      forall j :: 0 <= j < |ds| ==>
        es[j] == Pair(2, IntText(ds[j]), DepotFileName(ds[j])) &&
        DepotFileName(ds[j]) in DepotFiles(appId, slots)
  {
    var ds := DepotIds(appId, slots);
    DepotEntriesAt(ds);
    DepotFileNamesInjective();
    forall j | 0 <= j < |ds|
      ensures DepotFileName(ds[j]) in DepotFiles(appId, slots)
    {
      assert ds[j] in ds;
      KeptFileWritten(appId, slots, SlotCount, DepotFileName, DepotText, ds[j]);
    }
  }

  /** Every file written is named by an entry of the manifest's depots
      block. */
  lemma ManifestNamesOnlyWrittenFiles(appId: int, slots: seq<string>)
    requires |slots| == SlotCount
    ensures var ds := DepotIds(appId, slots);
      var es := DepotEntries(ds);
      forall name :: name in DepotFiles(appId, slots) ==>
        exists j :: 0 <= j < |es| && es[j] == Pair(2, IntText(ds[j]), name)
  {
    var ds := DepotIds(appId, slots);
    var es := DepotEntries(ds);
    DepotEntriesAt(ds);
    forall name | name in DepotFiles(appId, slots)
      ensures exists j :: 0 <= j < |es| && es[j] == Pair(2, IntText(ds[j]), name)
    {
      WrittenFileKept(appId, slots, SlotCount, DepotFileName, DepotText, name);
      var x :| x in ds && name == DepotFileName(x);
      var j :| 0 <= j < |ds| && ds[j] == x;
      assert es[j] == Pair(2, IntText(ds[j]), name);
    }
  }

  /** The generator as the action runs it: the slot loop collects the kept
      depots and writes their configuration files, then the manifest text is
      appended to piece by piece. */
  method Generate(appId: int, slots: seq<string>, buildDescription: string, rootPath: string,
                  releaseBranch: string)
    returns (depots: seq<int>, files: map<string, string>, manifestText: string)
    requires |slots| == SlotCount
    ensures depots == DepotIds(appId, slots)
    ensures files == DepotFiles(appId, slots)
    ensures manifestText == ManifestText(appId, buildDescription, rootPath, releaseBranch, depots)
  {
    depots, files := WriteDepots(appId, slots);
    manifestText := WriteManifest(appId, buildDescription, rootPath, releaseBranch, depots);
  }

  /** The slot loop: visits slots 1 to 9, keeps each slot whose path is set
      and writes that depot's configuration file. */
  method WriteDepots(appId: int, slots: seq<string>) returns (depots: seq<int>, files: map<string, string>)
    requires |slots| == SlotCount
    ensures depots == DepotIds(appId, slots)
    ensures files == DepotFiles(appId, slots)
  {
    depots := [];
    files := map[];
    for i := 1 to SlotCount + 1
      invariant depots == DepotIdsUpTo(appId, slots, i - 1)
      invariant files == FilesUpTo(appId, slots, i - 1, DepotFileName, DepotText)
    {
      var depotId := appId + i;
      var depotPath := slots[i - 1];
      if depotPath != "" {
        depots := depots + [depotId];
        var depotText := DepotText(depotId, depotPath);
        files := files[DepotFileName(depotId) := depotText];
      }
      assert depots == DepotIdsUpTo(appId, slots, i);
      assert files == FilesUpTo(appId, slots, i, DepotFileName, DepotText);
    }
  }

  /** The manifest text, appended to piece by piece: the scalar entries, the
      depots block with one entry per depot in the order of `depots`, then
      the closing braces. */
  method WriteManifest(appId: int, buildDescription: string, rootPath: string, releaseBranch: string,
                       depots: seq<int>)
    returns (manifestText: string)
    ensures manifestText == ManifestText(appId, buildDescription, rootPath, releaseBranch, depots)
  {
    manifestText := WriteHeader(appId, buildDescription, rootPath, releaseBranch);
    manifestText := manifestText + "  \"depots\"\n  {\n";
    manifestText := AppendDepotEntries(manifestText, depots);
    manifestText := manifestText + "  }\n";
    manifestText := manifestText + "}";
    ManifestDepotsBlock(appId, buildDescription, rootPath, releaseBranch, depots);
  }

  /** The depots loop: one entry per depot, in the order of `depots`. */
  method AppendDepotEntries(text: string, depots: seq<int>) returns (text': string)
    ensures text' == text + Lines(DepotEntries(depots))
  {
    text' := text;
    for k := 0 to |depots|
      invariant text' == text + Lines(DepotEntries(depots[..k]))
    {
      var depot := depots[k];
      EntriesTextSnoc(depots, k);
      AppendRegroup(text, Lines(DepotEntries(depots[..k])), DepotEntry(depot), "\n");
      text' := text' + DepotEntry(depot) + "\n";
    }
    assert depots[..|depots|] == depots;
  }

  /** Appending piece by piece or all at once gives the same text. */
  lemma AppendRegroup(a: string, b: string, c: string, d: string)
    ensures a + b + c + d == a + (b + c + d)
  {
  }

  /** One more depot adds its entry line at the end of the block. */
  lemma EntriesTextSnoc(depots: seq<int>, k: nat)
    requires k < |depots|
    ensures Lines(DepotEntries(depots[..k + 1])) == Lines(DepotEntries(depots[..k])) + DepotEntry(depots[k]) + "\n"
  {
    assert depots[..k + 1][..k] == depots[..k];
    LinesSnoc(DepotEntries(depots[..k]), DepotEntry(depots[k]));
  }

  /** The scalar entries: the appbuild block is opened and its appid written,
      the description only when it is set, the build output and content
      root always, and the live branch only when it is set. */
  method WriteHeader(appId: int, buildDescription: string, rootPath: string, releaseBranch: string)
    returns (text: string)
    ensures text == Lines(HeaderLines(appId, buildDescription, rootPath, releaseBranch))
  {
    ghost var written: seq<string> := [Name(0, "appbuild"), Open(0), Pair(1, "appid", IntText(appId))];
    text := Name(0, "appbuild") + "\n" + Open(0) + "\n" + Pair(1, "appid", IntText(appId)) + "\n";
    LinesThree(Name(0, "appbuild"), Open(0), Pair(1, "appid", IntText(appId)));
    if buildDescription != "" {
      written, text := AppendLine(written, text, Pair(1, "desc", buildDescription));
    }
    written, text := AppendLine(written, text, Pair(1, "buildoutput", "BuildOutput"));
    written, text := AppendLine(written, text, Pair(1, "contentroot", rootPath));
    if releaseBranch != "" {
      written, text := AppendLine(written, text, Pair(1, "setlive", releaseBranch));
    }
    assert written == HeaderLines(appId, buildDescription, rootPath, releaseBranch);
  }

  /** Appends a line and its line break to the text of the lines so far. */
  method AppendLine(ghost ls: seq<string>, text: string, line: string)
    returns (ghost ls': seq<string>, text': string)
    requires text == Lines(ls)
    ensures ls' == ls + [line]
    ensures text' == text + line + "\n" && text' == Lines(ls')
  {
    LinesSnoc(ls, line);
    ls', text' := ls + [line], text + line + "\n";
  }
}
