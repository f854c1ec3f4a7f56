/** The script that copies an autonomous routine for the other alliance:
    every path the routine follows is copied under a suffixed name, and the
    routine is copied with its path references renamed to match. Files are
    modelled as maps from file name to parsed content; JSON fields the script
    does not touch are carried as opaque text. */
module AutoDuplicator {
  import opened Wrappers
  import JavaText

  /** The suffix the interactive entry point always uses. */
  const RedSuffix: string := " - RED"

  const PathExtension: string := ".path"
  const AutoExtension: string := ".auto"

  /** One command of a routine; `pathName` is meaningful for "path" commands. */
  datatype AutoCommand = AutoCommand(kind: string, pathName: string, rest: string)

  datatype AutoFile = AutoFile(commands: seq<AutoCommand>, rest: string)

  /** A waypoint, possibly linked by name to waypoints of other paths. */
  datatype Waypoint = Waypoint(linkedName: Option<string>, rest: string)

  datatype PathFile = PathFile(waypoints: seq<Waypoint>, rest: string)

  /** The files written, in the order the script issues them. */
  datatype Write = WritePath(file: string, path: PathFile) | WriteAuto(file: string, auto: AutoFile)

  // ------------------------------------------------------------ file names

  /** The text before the last '.', or all of it when there is none: the
      name without its extension. */
  function BeforeLast(s: string, sep: char): (r: string)
    ensures |r| <= |s| && r == s[..|r|]
    ensures sep !in s ==> r == s
    ensures sep in s ==> |r| < |s| && s[|r|] == sep && sep !in s[|r| + 1..]
    decreases |s|
  {
    if sep !in s then s
    else if s[|s| - 1] == sep then s[..|s| - 1]
    else
      assert sep in s[..|s| - 1] by {
        var k :| 0 <= k < |s| && s[k] == sep;
        assert s[..|s| - 1][k] == sep;
      }
      var r := BeforeLast(s[..|s| - 1], sep);
      assert s[|r| + 1..] == s[..|s| - 1][|r| + 1..] + [s[|s| - 1]];
      r
  }

  /** Written as the script does it: the name up to its FIRST '.', then the
      suffix and the extension. */
  function OutputNameAsWritten(file: string, append: string, extension: string): string
  {
    JavaText.BeforeFirst(file, '.') + append + extension
  }

  /** As intended: only the extension is replaced. */
  function OutputName(file: string, append: string, extension: string): string
  {
    BeforeLast(file, '.') + append + extension
  }

  /** Stripping the extension from `name + extension` gives back `name`,
      whatever dots `name` contains. */
  lemma StripExtension(name: string, extension: string)
    requires |extension| > 0 && extension[0] == '.' && '.' !in extension[1..]
    ensures BeforeLast(name + extension, '.') == name
  {
    var s := name + extension;
    assert s[|name|] == '.';
  }

  /** The copied path is written under exactly the name the copied routine
      refers to, for every path name. */
  lemma CopiedPathIsTheReferencedOne(pathName: string, append: string)
    ensures OutputName(pathName + PathExtension, append, PathExtension) == (pathName + append) + PathExtension
  {
    assert PathExtension[1..] == "path";
    StripExtension(pathName, PathExtension);
  }

  /** As written, a path name with a dot is copied to a file the routine
      does not refer to: "a.b" is written as "a - RED.path" while the routine
      now names "a.b - RED". */
  lemma DottedPathNameBreaksReference()
    ensures OutputNameAsWritten("a.b" + PathExtension, RedSuffix, PathExtension) == "a - RED.path"
    ensures ("a.b" + RedSuffix) + PathExtension == "a.b - RED.path"
    ensures OutputNameAsWritten("a.b" + PathExtension, RedSuffix, PathExtension) != ("a.b" + RedSuffix) + PathExtension
  {
    var s := "a.b" + PathExtension;
    assert s[1..][0] == '.';
    assert JavaText.BeforeFirst(s[1..], '.') == "";
    assert JavaText.BeforeFirst(s, '.') == "a";
  }

  /** Where a name has no dot but its extension, the script's naming and
      the intended one agree. */
  lemma NamingAgreesWithoutDots(name: string, append: string)
    requires '.' !in name
    ensures OutputNameAsWritten(name + PathExtension, append, PathExtension) == OutputName(name + PathExtension, append, PathExtension)
  {
    var s := name + PathExtension;
    StripExtension(name, PathExtension);
    assert s[|name|] == '.';
    assert JavaText.BeforeFirst(s, '.') == name;
  }

  // ------------------------------------------------------------ the transforms

  /** `duplicatePath`'s edit: every linked waypoint gets the suffix. */
  function RenameWaypoints(ws: seq<Waypoint>, append: string): (r: seq<Waypoint>)
    ensures |r| == |ws|
    ensures forall i :: 0 <= i < |ws| ==> r[i].rest == ws[i].rest
    ensures forall i :: 0 <= i < |ws| ==> (ws[i].linkedName.None? ==> r[i] == ws[i])
    ensures forall i :: 0 <= i < |ws| ==> (ws[i].linkedName.Some? ==> r[i].linkedName == Some(ws[i].linkedName.value + append))
  {
    if |ws| == 0 then []
    else
      var w := ws[0];
      var w' := if w.linkedName.Some? then w.(linkedName := Some(w.linkedName.value + append)) else w;
      [w'] + RenameWaypoints(ws[1..], append)
  }

  /** `duplicatePath`: read the path, rename its links, write it under the
      suffixed name; a missing file throws. */
  function DuplicatePath(paths: map<string, PathFile>, file: string, append: string): (r: Option<Write>)
    ensures r.Some? <==> file in paths
    ensures r.Some? ==> r.value.WritePath? && r.value.file == OutputName(file, append, PathExtension)
    ensures r.Some? ==> r.value.path.rest == paths[file].rest
    ensures r.Some? ==> r.value.path.waypoints == RenameWaypoints(paths[file].waypoints, append)
  {
    if file !in paths then None
    else
      var p := paths[file];
      Some(WritePath(OutputName(file, append, PathExtension), p.(waypoints := RenameWaypoints(p.waypoints, append))))
  }

  /** `duplicateAuto`'s edit: every "path" command refers to the suffixed
      path; other commands are untouched. */
  function RenameCommands(cs: seq<AutoCommand>, append: string): (r: seq<AutoCommand>)
    ensures |r| == |cs|
    ensures forall i :: 0 <= i < |cs| ==> (cs[i].kind != "path" ==> r[i] == cs[i])
    ensures forall i :: 0 <= i < |cs| ==> (cs[i].kind == "path" ==> r[i] == cs[i].(pathName := cs[i].pathName + append))
  {
    if |cs| == 0 then []
    else
      var c := cs[0];
      [if c.kind == "path" then c.(pathName := c.pathName + append) else c] + RenameCommands(cs[1..], append)
  }

  /** The path copies one pass over the commands makes, in command order,
      and whether every referenced path existed. A missing path stops the
      pass after the copies already written. */
  function CopyPaths(paths: map<string, PathFile>, cs: seq<AutoCommand>, append: string): (r: (seq<Write>, bool))
    ensures |r.0| <= |cs|
    ensures forall w :: w in r.0 ==> w.WritePath?
    decreases |cs|
  {
    if |cs| == 0 then ([], true)
    else if cs[0].kind != "path" then CopyPaths(paths, cs[1..], append)
    else match DuplicatePath(paths, cs[0].pathName + PathExtension, append)
      case None => ([], false)
      case Some(w) =>
        var rest := CopyPaths(paths, cs[1..], append);
        ([w] + rest.0, rest.1)
  }

  /** The number of "path" commands. */
  function PathCommandCount(cs: seq<AutoCommand>): (n: nat)
    ensures n <= |cs|
  {
    if |cs| == 0 then 0 else (if cs[0].kind == "path" then 1 else 0) + PathCommandCount(cs[1..])
  }

  /** The "path" commands, in command order. */
  function PathCommands(cs: seq<AutoCommand>): (r: seq<AutoCommand>)
    ensures |r| == PathCommandCount(cs)
    ensures forall i :: 0 <= i < |r| ==> r[i].kind == "path" && r[i] in cs
  {
    if |cs| == 0 then []
    else (if cs[0].kind == "path" then [cs[0]] else []) + PathCommands(cs[1..])
  }

  /** Copy `i` is `duplicatePath`'s write for the `i`-th "path" command. */
  predicate CopiesDuplicate(paths: map<string, PathFile>, cs: seq<AutoCommand>, append: string)
  {
    && |CopyPaths(paths, cs, append).0| == |PathCommands(cs)|
    && forall i :: 0 <= i < |PathCommands(cs)| ==>
         DuplicatePath(paths, PathCommands(cs)[i].pathName + PathExtension, append) == Some(CopyPaths(paths, cs, append).0[i])
  }

  /** The inductive step of `CopiesDuplicate` for a leading path command. */
  lemma DuplicateStepPath(paths: map<string, PathFile>, cs: seq<AutoCommand>, append: string)
    requires |cs| > 0 && cs[0].kind == "path" && CopyPaths(paths, cs, append).1
    requires CopiesDuplicate(paths, cs[1..], append)
    ensures CopiesDuplicate(paths, cs, append)
  {
    var ws := CopyPaths(paths, cs, append).0;
    var rest := CopyPaths(paths, cs[1..], append).0;
    var pcs := PathCommands(cs);
    assert pcs == [cs[0]] + PathCommands(cs[1..]);
    assert DuplicatePath(paths, cs[0].pathName + PathExtension, append).Some?;
    assert ws == [ws[0]] + rest;
    forall i | 0 <= i < |pcs|
      ensures DuplicatePath(paths, pcs[i].pathName + PathExtension, append) == Some(ws[i])
    {
      if i > 0 {
        assert pcs[i] == PathCommands(cs[1..])[i - 1];
        assert ws[i] == rest[i - 1];
      }
    }
  }

  /** Each copy is the write `duplicatePath` makes for the path command in
      the same position, and there is one copy per path command. */
  lemma {:induction false} CopiesAreDuplicates(paths: map<string, PathFile>, cs: seq<AutoCommand>, append: string)
    requires CopyPaths(paths, cs, append).1
    ensures CopiesDuplicate(paths, cs, append)
    decreases |cs|
  {
    if |cs| > 0 {
      CopiesAreDuplicates(paths, cs[1..], append);
      if cs[0].kind == "path" {
        DuplicateStepPath(paths, cs, append);
      } else {
        assert PathCommands(cs) == PathCommands(cs[1..]);
        assert CopyPaths(paths, cs, append) == CopyPaths(paths, cs[1..], append);
      }
    }
  }

  /** A copy is written under the name some renamed "path" command
      refers to. */
  predicate ReferencedBySome(file: string, cs: seq<AutoCommand>, append: string)
  {
    exists j :: 0 <= j < |cs| && cs[j].kind == "path" && file == RenameCommands(cs, append)[j].pathName + PathExtension
  }

  /** A name referenced by the tail is referenced by the whole list. */
  lemma ReferencedByTail(file: string, cs: seq<AutoCommand>, append: string)
    requires |cs| > 0 && ReferencedBySome(file, cs[1..], append)
    ensures ReferencedBySome(file, cs, append)
  {
    var j :| 0 <= j < |cs[1..]| && cs[1..][j].kind == "path" &&
      file == RenameCommands(cs[1..], append)[j].pathName + PathExtension;
    assert RenameCommands(cs[1..], append)[j] == RenameCommands(cs, append)[j + 1];
    assert cs[j + 1].kind == "path";
  }

  /** What `OneCopyPerPathCommand` states, for one command list. */
  predicate CopiesMatchCommands(paths: map<string, PathFile>, cs: seq<AutoCommand>, append: string)
  {
    && |CopyPaths(paths, cs, append).0| == PathCommandCount(cs)
    && forall i :: 0 <= i < |CopyPaths(paths, cs, append).0| ==>
         ReferencedBySome(CopyPaths(paths, cs, append).0[i].file, cs, append)
  }

  /** A leading path command's copy comes first and is written under the
      name the renamed command refers to. */
  lemma CopyHead(paths: map<string, PathFile>, cs: seq<AutoCommand>, append: string)
    requires |cs| > 0 && cs[0].kind == "path" && CopyPaths(paths, cs, append).1
    ensures var ws := CopyPaths(paths, cs, append).0;
      && |ws| > 0 && ws == [ws[0]] + CopyPaths(paths, cs[1..], append).0
      && ReferencedBySome(ws[0].file, cs, append)
  {
    var ws := CopyPaths(paths, cs, append).0;
    CopiedPathIsTheReferencedOne(cs[0].pathName, append);
    assert ws[0].file == RenameCommands(cs, append)[0].pathName + PathExtension;
  }

  /** Copies whose names the tail of the commands refers to are referred
      to by the whole list. */
  lemma TailCopiesReferenced(rest: seq<Write>, cs: seq<AutoCommand>, append: string)
    requires |cs| > 0
    requires forall i :: 0 <= i < |rest| ==> ReferencedBySome(rest[i].file, cs[1..], append)
    ensures forall i :: 0 <= i < |rest| ==> ReferencedBySome(rest[i].file, cs, append)
  {
    forall i | 0 <= i < |rest| ensures ReferencedBySome(rest[i].file, cs, append) {
      ReferencedByTail(rest[i].file, cs, append);
    }
  }

  /** Prepending a referenced copy keeps every copy referenced. */
  lemma ConsCopiesReferenced(w: Write, rest: seq<Write>, cs: seq<AutoCommand>, append: string)
    requires ReferencedBySome(w.file, cs, append)
    requires forall i :: 0 <= i < |rest| ==> ReferencedBySome(rest[i].file, cs, append)
    ensures forall i :: 0 <= i < |[w] + rest| ==> ReferencedBySome(([w] + rest)[i].file, cs, append)
  {
    forall i | 0 <= i < |[w] + rest| ensures ReferencedBySome(([w] + rest)[i].file, cs, append) {
      if i > 0 { assert ([w] + rest)[i] == rest[i - 1]; }
    }
  }

  /** The inductive step when the first command is a path command. */
  lemma CopyStepPath(paths: map<string, PathFile>, cs: seq<AutoCommand>, append: string)
    requires |cs| > 0 && cs[0].kind == "path" && CopyPaths(paths, cs, append).1
    requires CopiesMatchCommands(paths, cs[1..], append)
    ensures CopiesMatchCommands(paths, cs, append)
  {
    var rest := CopyPaths(paths, cs[1..], append).0;
    var ws := CopyPaths(paths, cs, append).0;
    CopyHead(paths, cs, append);
    TailCopiesReferenced(rest, cs, append);
    ConsCopiesReferenced(ws[0], rest, cs, append);
  }

  /** The inductive step when the first command is not a path command. */
  lemma CopyStepOther(paths: map<string, PathFile>, cs: seq<AutoCommand>, append: string)
    requires |cs| > 0 && cs[0].kind != "path"
    requires CopiesMatchCommands(paths, cs[1..], append)
    ensures CopiesMatchCommands(paths, cs, append)
  {
    var ws := CopyPaths(paths, cs, append).0;
    assert ws == CopyPaths(paths, cs[1..], append).0;
    TailCopiesReferenced(ws, cs, append);
  }

  /** Each "path" command causes exactly one copy, in command order: copy
      `i` is `duplicatePath`'s write for the `i`-th path command, and every
      copy is written under the name its renamed command refers to. */
  lemma {:induction false} OneCopyPerPathCommand(paths: map<string, PathFile>, cs: seq<AutoCommand>, append: string)
    requires CopyPaths(paths, cs, append).1
    ensures |CopyPaths(paths, cs, append).0| == PathCommandCount(cs)
    ensures forall i :: 0 <= i < |PathCommands(cs)| ==>
      DuplicatePath(paths, PathCommands(cs)[i].pathName + PathExtension, append) == Some(CopyPaths(paths, cs, append).0[i])
    ensures forall i :: 0 <= i < |CopyPaths(paths, cs, append).0| ==>
      ReferencedBySome(CopyPaths(paths, cs, append).0[i].file, cs, append)
    decreases |cs|
  {
    CopiesAreDuplicates(paths, cs, append);
    if |cs| > 0 {
      if cs[0].kind == "path" {
        OneCopyPerPathCommand(paths, cs[1..], append);
        CopyStepPath(paths, cs, append);
      } else {
        OneCopyPerPathCommand(paths, cs[1..], append);
        CopyStepOther(paths, cs, append);
      }
    }
  }

  /** `duplicateAuto`: read the routine, copy its paths, write the renamed
      routine last; the writes issued and whether the run completed. */
  function DuplicateAuto(autos: map<string, AutoFile>, paths: map<string, PathFile>, autonomous: string, append: string): (r: (seq<Write>, bool))
    ensures autonomous !in autos ==> r == ([], false)
    ensures r.1 ==> |r.0| > 0 && r.0[|r.0| - 1] == WriteAuto(OutputName(autonomous, append, AutoExtension),
      autos[autonomous].(commands := RenameCommands(autos[autonomous].commands, append)))
    ensures autonomous in autos ==> r.1 == CopyPaths(paths, autos[autonomous].commands, append).1
    ensures r.1 ==> r.0[..|r.0| - 1] == CopyPaths(paths, autos[autonomous].commands, append).0
    ensures autonomous in autos && !r.1 ==> r.0 == CopyPaths(paths, autos[autonomous].commands, append).0
  {
    if autonomous !in autos then ([], false)
    else
      var a := autos[autonomous];
      var copies := CopyPaths(paths, a.commands, append);
      if !copies.1 then copies
      else (copies.0 + [WriteAuto(OutputName(autonomous, append, AutoExtension), a.(commands := RenameCommands(a.commands, append)))], true)
  }

  /** A completed run writes one copy per path command of the routine, each
      the write `duplicatePath` makes for that command, then the routine. */
  lemma DuplicateAutoCopiesEachPath(autos: map<string, AutoFile>, paths: map<string, PathFile>, autonomous: string, append: string)
    requires DuplicateAuto(autos, paths, autonomous, append).1
    ensures autonomous in autos
    ensures var r := DuplicateAuto(autos, paths, autonomous, append).0;
      var pcs := PathCommands(autos[autonomous].commands);
      && |r| == |pcs| + 1
      && forall i :: 0 <= i < |pcs| ==> DuplicatePath(paths, pcs[i].pathName + PathExtension, append) == Some(r[i])
  {
    var cs := autos[autonomous].commands;
    var r := DuplicateAuto(autos, paths, autonomous, append).0;
    CopiesAreDuplicates(paths, cs, append);
    assert r == CopyPaths(paths, cs, append).0 + [r[|r| - 1]];
  }

  /** The interactive entry point: the routine the operator picks by index,
      always with the red suffix; an index outside the list fails. */
  function DuplicateChosen(autoFiles: seq<string>, index: int, autos: map<string, AutoFile>, paths: map<string, PathFile>): (r: (seq<Write>, bool))
    ensures !(0 <= index < |autoFiles|) ==> r == ([], false)
    ensures 0 <= index < |autoFiles| ==> r == DuplicateAuto(autos, paths, autoFiles[index], RedSuffix)
  {
    if 0 <= index < |autoFiles| then DuplicateAuto(autos, paths, autoFiles[index], RedSuffix) else ([], false)
  }
}
