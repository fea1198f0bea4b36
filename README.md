# steam-deploy: depot and manifest generation

This project models the part of the steam-deploy GitHub Action that writes
the configuration for Steam's content builder (`run()` in `index.js`, lines
13-64). The configuration is written in Valve's KeyValues ("VDF") text
format.

- The action visits the nine depot slots `depot1Path` … `depot9Path`. Slot
  `i` gets the depot ID `appId + i`. A slot is kept only when its path input
  is non-empty.
- For every kept slot it writes a `DepotBuildConfig` file named
  `depot<id>.vdf`. The file holds the depot's ID, one `FileMapping` block
  for the slot's directory, and three fixed `FileExclusion` patterns.
- It then builds the `appbuild` manifest text piece by piece. The text holds
  the app ID, the build description when one is given, the fixed build
  output directory, the content root, the branch to set live when one is
  given, and a `depots` block with one entry per kept depot, in slot order.

The model is split into five modules:

- `Decimal` (decimal.dfy): how a whole number is written as decimal text,
  and the proof that the text reads back as the number.
- `KeyValues` (keyvalues.dfy): the line forms of the format. These are a
  quoted name, a quoted key and value pair, and the braces that open and
  close a block, each indented by two spaces per nesting level. A text is a
  sequence of lines, each followed by a line break, and the final closing
  brace has no line break after it.
- `DepotConfig` (depot_config.dfy): the depot template and the depot's file
  name.
- `Manifest` (manifest.dfy): the manifest as a sequence of lines.
- `Generator` (generator.dfy): the slot loop and the manifest assembly as
  methods. Their loops carry invariants that tie the state to the
  functions above.

The inputs are the values that `core.getInput` returns. A slot whose input
is absent is the empty string. The written depot files are a map from file
name to text. The manifest text is the method's result.

This version of the code has no check that a depot's directory exists. It
does not fail when no slot has a path: it still writes a manifest whose
`depots` block is empty. It does not start an upload; the only steamcmd
call is a login. The model follows the code on all three points.

## Model

| member | source | states |
|---|---|---|
| Decimal.NatText | index.js:27 | the text of a natural number is a non-empty string of digits, with a leading zero only for zero |
| Decimal.IntText | index.js:27 | the text of a whole number is decimal digits, preceded by '-' exactly when the number is negative |
| Decimal.IntTextRoundTrip | index.js:27 | reading an ID's decimal text back gives that ID |
| Decimal.IntTextInjective | index.js:38 | two numbers with the same decimal text are equal |
| Decimal.IntTextPlain | index.js:27 | an ID's text holds no quote and no line break, so inserting it unescaped cannot break a quoted value |
| DepotConfig.DepotFileNameInjective | index.js:38 | two depots share the file name `depot<id>.vdf` exactly when their IDs are equal, so no depot file overwrites another |
| DepotConfig.DepotLinesBlock | index.js:25-33 | the depot text has 12 lines: DepotID is line 2; the FileMapping name, its opening brace and its closing brace each occur exactly once, at lines 3, 4 and 8; between them stand exactly LocalPath `./<path>/*`, DepotPath `.` and recursive `1`, in that order |
| DepotConfig.DepotTextFieldsInOrder | index.js:27-32 | the DepotID, LocalPath, DepotPath and recursive entries occur in the text at strictly increasing offsets |
| DepotConfig.DepotTextEndsWithExclusions | index.js:34-37 | every depot text ends with the three FileExclusion entries `*.pdb`, `**/*_BurstDebugInformation_DoNotShip*` and `**/*_BackUpThisFolder_ButDontShipItWithYourGame*`, in that order, then the closing brace; this ending does not depend on the inputs |
| Manifest.DepotEntriesAt | index.js:60-62 | entry `j` of the depots block is `"<id>" "depot<id>.vdf"` for the `j`-th depot |
| Manifest.ManifestTextFrame | index.js:43-64 | the manifest text starts with `"appbuild"`, `{` and the appid entry with the app's ID, and ends with `  }\n}` |
| Manifest.ManifestOptionalFields | index.js:45-57 | the manifest has a `desc` entry exactly when the description is non-empty and a `setlive` entry exactly when the branch is non-empty; `appid`, `buildoutput "BuildOutput"` and `contentroot "<rootPath>"` are always present |
| Manifest.OnlyListedFields | index.js:43-64 | a top-level key other than the listed entries never occurs in the manifest; the depots block and the braces add no top-level entry |
| Manifest.ManifestFieldOrder | index.js:43-59 | the entries stand in the order appid, desc (when set), buildoutput, contentroot, setlive (when set), and all come before the depots block |
| Manifest.ManifestDepotsBlock | index.js:59-64 | after the scalar entries the text is exactly the depots opening, one entry line per depot in order, and the two closing braces; with no depots the block is empty |
| Generator.DepotIdsUpTo | index.js:17-24 | after `n` slots at most `n` depots are kept, each between `appId + 1` and `appId + n`, in strictly increasing order |
| Generator.DepotIdsMembership | index.js:18-23 | an ID is kept exactly when it is `appId + i` for a visited slot `i` whose path is non-empty |
| Generator.DepotIdsSpec | index.js:18-24 | over the nine slots, slot `i`'s ID `appId + i` is kept exactly when its path is set, and every kept ID is such a slot's ID |
| Generator.NoDepotsKept | index.js:18-24 | no depot is kept exactly when every slot's path is empty |
| Generator.KeptFileWritten | index.js:22-38 | for an injective naming, every kept depot's file is written under its name and holds the text for its ID and its slot's path; no later slot overwrites it |
| Generator.WrittenFileKept | index.js:22-38 | every written file is named after a kept depot |
| Generator.DepotFileNamesInjective | index.js:38 | the depot file naming is injective |
| Generator.DepotFilesHoldTexts | index.js:25-38 | each kept depot's file `depot<id>.vdf` holds that depot's configuration text |
| Generator.ManifestNamesWrittenFiles | index.js:38-61 | entry `j` of the manifest's depots block names the `j`-th kept depot and a file that was written for it |
| Generator.ManifestNamesOnlyWrittenFiles | index.js:38-61 | every written depot file is named by an entry of the manifest's depots block |
| Generator.Generate | index.js:15-64 | the generator returns exactly the kept depots, the depot files and the manifest text of the specification functions |
| Generator.WriteDepots | index.js:17-41 | the slot loop collects exactly the kept depot IDs and writes exactly their configuration files |
| Generator.WriteManifest | index.js:43-64 | the manifest text built by appending equals the manifest's line sequence written out |
| Generator.WriteHeader | index.js:43-57 | the appended scalar entries equal the manifest's header lines, with desc and setlive only when set |
| Generator.AppendDepotEntries | index.js:60-62 | the depots loop appends one entry line per depot, in order, and nothing else |

## Left out

- The GitHub Actions plumbing is left out: `core.getInput`, `core.info`, `core.debug`, `core.setOutput` and `core.setFailed`. The inputs are parameters. An input that is absent is the empty string.
- `parseInt` on the app ID is left out, and so is its NaN result. The app ID is a whole number. A JavaScript number is written as plain decimal text; the exponent form and floating-point rounding of very large numbers are not modelled.
- `process.cwd()` and the manifest's path are left out. The manifest text is returned instead of written to a file.
- `fs.writeFile` for the depot files is modelled as a map from file name to text. Write errors are not modelled.
- Steam credential staging is left out: the `config` directory (`fs.mkdir`), `config.vdf`, and the sentry file written from `Buffer.from`. These are byte pass-throughs with no logic.
- The lookup of the steamcmd executable by platform is left out. It is a table lookup on the host platform.
- The steamcmd login through `exec.exec` and its exit code are left out. This is an external process.
- Values are inserted into the texts without escaping. No claim is made that the texts parse back into their inputs; a path, description or branch holding `"` or a line break yields text the format cannot read back.
- The texts are defined through line primitives rather than the source's literal templates. Only the manifest's opening, the depots block's opening and the closing braces are also stated as spelled-out literals.
