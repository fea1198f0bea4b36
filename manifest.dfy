// The app build manifest ("appbuild"): the app's ID, optional description,
// the fixed build output directory, the content root, an optional branch to
// set live, and the block that names each depot's configuration file.
module Manifest {
  import opened Decimal
  import opened KeyValues
  import opened DepotConfig

  /** The entry of the depots block for one depot: its ID as key, the name
      of its configuration file as value. */
  function DepotEntry(depotId: int): string {
    Pair(2, IntText(depotId), DepotFileName(depotId))
  }

  /** One entry per depot, in the order of `depots`. */
  function DepotEntries(depots: seq<int>): (es: seq<string>)
    ensures |es| == |depots|
    decreases |depots|
  {
    if depots == [] then []
    else DepotEntries(depots[..|depots| - 1]) + [DepotEntry(depots[|depots| - 1])]
  }

  /** Entry `j` of the depots block is that of the `j`-th depot. */
  lemma {:induction false} DepotEntriesAt(depots: seq<int>)
    ensures forall j :: 0 <= j < |depots| ==> DepotEntries(depots)[j] == DepotEntry(depots[j])
    decreases |depots|
  {
    if depots != [] {
      var init := depots[..|depots| - 1];
      var es := DepotEntries(depots);
      var last := DepotEntry(depots[|depots| - 1]);
      DepotEntriesAt(init);
      assert es == DepotEntries(init) + [last];
      forall j | 0 <= j < |depots|
        ensures es[j] == DepotEntry(depots[j])
      {
        if j < |init| {
          assert es[j] == DepotEntries(init)[j] && depots[j] == init[j];
        } else {
          assert es[j] == last;
        }
      }
    }
  }

  /** The scalar entries before the depots block; `desc` and `setlive` only
      when their input is non-empty. */
  function HeaderLines(appId: int, buildDescription: string, rootPath: string, releaseBranch: string): seq<string> {
    [Name(0, "appbuild"), Open(0), Pair(1, "appid", IntText(appId))]
    + (if buildDescription != "" then [Pair(1, "desc", buildDescription)] else [])
    + [Pair(1, "buildoutput", "BuildOutput"), Pair(1, "contentroot", rootPath)]
    + (if releaseBranch != "" then [Pair(1, "setlive", releaseBranch)] else [])
  }

  function ManifestLines(appId: int, buildDescription: string, rootPath: string, releaseBranch: string,
                         depots: seq<int>): seq<string>
  {
    HeaderLines(appId, buildDescription, rootPath, releaseBranch)
    + [Name(1, "depots"), Open(1)]
    + DepotEntries(depots)
    + [Close(1)]
  }

  /** The manifest text. */
  function ManifestText(appId: int, buildDescription: string, rootPath: string, releaseBranch: string,
                        depots: seq<int>): string
  {
    Document(ManifestLines(appId, buildDescription, rootPath, releaseBranch, depots))
  }

  /** The first three lines, character for character. */
  lemma OpeningSpelled(x: string)
    ensures Lines([Name(0, "appbuild"), Open(0), Pair(1, "appid", x)]) == "\"appbuild\"\n{\n  \"appid\" \"" + x + "\"\n"
  {
    LinesThree(Name(0, "appbuild"), Open(0), Pair(1, "appid", x));
    AppIdSpelled(x);
    OpeningRegrouped("  \"appid\" \"" + x + "\"", x);
  }

  /** The opening lines one by one. */
  lemma AppIdSpelled(x: string)
    ensures Name(0, "appbuild") == "\"appbuild\"" && Open(0) == "{"
    ensures Pair(1, "appid", x) == "  \"appid\" \"" + x + "\""
  {
  }

  /** The opening lines joined by line breaks. */
  lemma OpeningRegrouped(line: string, x: string)
    requires line == "  \"appid\" \"" + x + "\""
    ensures "\"appbuild\"" + "\n" + "{" + "\n" + line + "\n" == "\"appbuild\"\n{\n  \"appid\" \"" + x + "\"\n"
  {
  }

  /** The depots block's key and opening brace, character for character. */
  lemma DepotsOpeningSpelled()
    ensures Lines([Name(1, "depots"), Open(1)]) == "  \"depots\"\n  {\n"
  {
    LinesSnoc([], Name(1, "depots"));
    assert [Name(1, "depots")] == [] + [Name(1, "depots")];
    LinesSnoc([Name(1, "depots")], Open(1));
    assert [Name(1, "depots"), Open(1)] == [Name(1, "depots")] + [Open(1)];
    assert Name(1, "depots") == "  \"depots\"";
    assert Open(1) == "  {";
  }

  /** The closing braces of the depots block and of the manifest. */
  lemma ClosingSpelled()
    ensures Lines([Close(1)]) + Close(0) == "  }\n}"
  {
    LinesSnoc([], Close(1));
    assert [Close(1)] == [] + [Close(1)];
    assert Close(1) == "  }" && Close(0) == "}";
  }

  /** The text opens with the appbuild block and its appid entry, and ends by
      closing the depots block and then the appbuild block. */
  lemma ManifestTextFrame(appId: int, buildDescription: string, rootPath: string, releaseBranch: string,
                          depots: seq<int>)
    ensures var t := ManifestText(appId, buildDescription, rootPath, releaseBranch, depots);
      "\"appbuild\"\n{\n  \"appid\" \"" + IntText(appId) + "\"\n" <= t &&
      |t| >= 5 && t[|t| - 5..] == "  }\n}"
  {
    var ls := ManifestLines(appId, buildDescription, rootPath, releaseBranch, depots);
    var first := [Name(0, "appbuild"), Open(0), Pair(1, "appid", IntText(appId))];
    var rest := ls[3..|ls| - 1];
    assert ls == first + rest + [Close(1)];
    DocumentFrame(first, rest, Close(1));
    OpeningSpelled(IntText(appId));
    ClosingSpelled();
  }

  /** The description and the live branch are written exactly when they are
      non-empty; the build output and content root are always written. */
  lemma ManifestOptionalFields(appId: int, buildDescription: string, rootPath: string, releaseBranch: string,
                               depots: seq<int>)
    ensures var ls := ManifestLines(appId, buildDescription, rootPath, releaseBranch, depots);
      (HasField(ls, 1, "desc") <==> buildDescription != "") &&
      (HasField(ls, 1, "setlive") <==> releaseBranch != "") &&
      HasField(ls, 1, "buildoutput") && HasField(ls, 1, "contentroot") && HasField(ls, 1, "appid") &&
      Pair(1, "buildoutput", "BuildOutput") in ls && Pair(1, "contentroot", rootPath) in ls
  {
    var ls := ManifestLines(appId, buildDescription, rootPath, releaseBranch, depots);
    var h := HeaderLines(appId, buildDescription, rootPath, releaseBranch);
    PairIsField(1, "appid", IntText(appId));
    PairIsField(1, "buildoutput", "BuildOutput");
    PairIsField(1, "contentroot", rootPath);
    assert Pair(1, "appid", IntText(appId)) in ls;
    assert Pair(1, "buildoutput", "BuildOutput") in ls;
    assert Pair(1, "contentroot", rootPath) in ls;
    if buildDescription != "" {
      PairIsField(1, "desc", buildDescription);
      assert Pair(1, "desc", buildDescription) in ls;
    } else {
      OnlyListedFields(appId, buildDescription, rootPath, releaseBranch, depots, "desc");
    }
    if releaseBranch != "" {
      PairIsField(1, "setlive", releaseBranch);
      assert Pair(1, "setlive", releaseBranch) in ls;
    } else {
      OnlyListedFields(appId, buildDescription, rootPath, releaseBranch, depots, "setlive");
    }
  }

  /** The depot entries sit one level deeper than the top-level entries. */
  lemma EntriesNotFields(depots: seq<int>, key: string)
    ensures forall l :: l in DepotEntries(depots) ==> !IsField(l, 1, key)
  {
    var es := DepotEntries(depots);
    DepotEntriesAt(depots);
    forall l | l in es
      ensures !IsField(l, 1, key)
    {
      var j :| 0 <= j < |es| && es[j] == l;
      assert l == Indent(2) + Quoted(IntText(depots[j])) + " " + Quoted(DepotFileName(depots[j]));
      NoQuoteNotField(l, 1, key);
    }
  }

  lemma HeaderOnlyListedFields(appId: int, buildDescription: string, rootPath: string, releaseBranch: string,
                               key: string)
    requires '"' !in key
    requires key != "appid" && key != "buildoutput" && key != "contentroot"
    requires buildDescription != "" ==> key != "desc"
    requires releaseBranch != "" ==> key != "setlive"
    ensures forall l :: l in HeaderLines(appId, buildDescription, rootPath, releaseBranch) ==> !IsField(l, 1, key)
  {
    NoQuoteNotField(Name(0, "appbuild"), 1, key);
    NoQuoteNotField(Open(0), 1, key);
    PairOtherKey(1, "appid", IntText(appId), key);
    PairOtherKey(1, "buildoutput", "BuildOutput", key);
    PairOtherKey(1, "contentroot", rootPath, key);
    if buildDescription != "" {
      PairOtherKey(1, "desc", buildDescription, key);
    }
    if releaseBranch != "" {
      PairOtherKey(1, "setlive", releaseBranch, key);
    }
  }

  /** A key that none of the written scalar entries carries is not in the
      manifest: the depots block and the braces hold no scalar entry at the
      top level. */
  lemma OnlyListedFields(appId: int, buildDescription: string, rootPath: string, releaseBranch: string,
                         depots: seq<int>, key: string)
    requires '"' !in key
    requires key != "appid" && key != "buildoutput" && key != "contentroot"
    requires buildDescription != "" ==> key != "desc"
    requires releaseBranch != "" ==> key != "setlive"
    ensures !HasField(ManifestLines(appId, buildDescription, rootPath, releaseBranch, depots), 1, key)
  {
    var h := HeaderLines(appId, buildDescription, rootPath, releaseBranch);
    var es := DepotEntries(depots);
    var ls := ManifestLines(appId, buildDescription, rootPath, releaseBranch, depots);
    HeaderOnlyListedFields(appId, buildDescription, rootPath, releaseBranch, key);
    EntriesNotFields(depots, key);
    NameNotField(1, "depots", key);
    NoQuoteNotField(Open(1), 1, key);
    NoQuoteNotField(Close(1), 1, key);
    assert ls == h + [Name(1, "depots"), Open(1)] + es + [Close(1)];
  }

  /** The description comes before the build output entry, the content root
      right after it, and the live branch after the content root, all before
      the depots block. */
  lemma ManifestFieldOrder(appId: int, buildDescription: string, rootPath: string, releaseBranch: string,
                           depots: seq<int>)
    ensures var ls := ManifestLines(appId, buildDescription, rootPath, releaseBranch, depots);
      var b := if buildDescription != "" then 4 else 3;
      var d := if releaseBranch != "" then b + 3 else b + 2;
      d < |ls| &&
      ls[2] == Pair(1, "appid", IntText(appId)) &&
      (buildDescription != "" ==> ls[3] == Pair(1, "desc", buildDescription)) &&
      ls[b] == Pair(1, "buildoutput", "BuildOutput") &&
      ls[b + 1] == Pair(1, "contentroot", rootPath) &&
      (releaseBranch != "" ==> ls[b + 2] == Pair(1, "setlive", releaseBranch)) &&
      ls[d] == Name(1, "depots")
  {
  }

  /** The depots block holds one entry per depot, in the order given, and
      nothing else; with no depots it is empty. */
  lemma ManifestDepotsBlock(appId: int, buildDescription: string, rootPath: string, releaseBranch: string,
                            depots: seq<int>)
    ensures var t := ManifestText(appId, buildDescription, rootPath, releaseBranch, depots);
      var h := HeaderLines(appId, buildDescription, rootPath, releaseBranch);
      t == Lines(h) + "  \"depots\"\n  {\n" + Lines(DepotEntries(depots)) + "  }\n}"
    ensures depots == [] ==>
      ManifestText(appId, buildDescription, rootPath, releaseBranch, depots) ==
      Lines(HeaderLines(appId, buildDescription, rootPath, releaseBranch)) + "  \"depots\"\n  {\n" + "  }\n}"
  {
    var h := HeaderLines(appId, buildDescription, rootPath, releaseBranch);
    var es := DepotEntries(depots);
    var open := [Name(1, "depots"), Open(1)];
    DocumentParts(h, open, es, Close(1));
    DepotsOpeningSpelled();
    ClosingSpelled();
    if depots == [] {
      assert Lines(es) == "";
    }
  }
}
