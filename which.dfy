/**
 * Quick file finder (`MerlinWhich`, `MerlinFindMl`, `MerlinFindMli`). The
 * analyzer lists module names that have a file with one of the command's
 * extensions; once the user picks a module, the plugin asks the analyzer for
 * the first existing file among the module name with each extension
 * appended, in the command's order of preference.
 */
module Which {
  import opened Common

  /** The base command (no extensions) and its two concrete variants. */
  datatype WhichCommand = WhichBase | FindMl | FindMli

  function Extensions(c: WhichCommand): seq<string> {
    match c
    case WhichBase => []
    case FindMl => [".ml", ".mli", ".mf", ".mfi"]
    case FindMli => [".mli", ".ml", ".mfi", ".mf"]
  }

  /** The candidate file names, one per extension: `map(lambda ext: module_name + ext, exts)`. */
  function Candidates(moduleName: string, exts: seq<string>): seq<string> {
    if exts == [] then [] else [moduleName + exts[0]] + Candidates(moduleName, exts[1..])
  }

  /** One candidate per extension, in order; each is the module name and what follows it is the extension. */
  lemma {:induction false} CandidatesAt(moduleName: string, exts: seq<string>)
    ensures |Candidates(moduleName, exts)| == |exts|
    ensures forall i :: 0 <= i < |exts| ==>
      Candidates(moduleName, exts)[i] == moduleName + exts[i] &&
      Candidates(moduleName, exts)[i][..|moduleName|] == moduleName &&
      Candidates(moduleName, exts)[i][|moduleName|..] == exts[i]
  {
    if exts != [] {
      CandidatesAt(moduleName, exts[1..]);
      assert (moduleName + exts[0])[|moduleName|..] == exts[0];
    }
  }

  /**
   * Both finders look for the same four files and differ only in preference:
   * `FindMl` tries the implementation first, `FindMli` the interface.
   */
  lemma FindersSameFiles(moduleName: string)
    ensures multiset(Candidates(moduleName, Extensions(FindMl))) == multiset(Candidates(moduleName, Extensions(FindMli)))
    ensures Candidates(moduleName, Extensions(FindMl))[0] == moduleName + ".ml"
    ensures Candidates(moduleName, Extensions(FindMli))[0] == moduleName + ".mli"
  {
    CandidatesAt(moduleName, Extensions(FindMl));
    CandidatesAt(moduleName, Extensions(FindMli));
    var a := Candidates(moduleName, Extensions(FindMl));
    var b := Candidates(moduleName, Extensions(FindMli));
    assert a == [moduleName + ".ml", moduleName + ".mli", moduleName + ".mf", moduleName + ".mfi"];
    assert b == [moduleName + ".mli", moduleName + ".ml", moduleName + ".mfi", moduleName + ".mf"];
  }

  /** What a choice in the quick panel leads to. */
  datatype Choice =
    | Cancelled                           // the panel was dismissed (index -1)
    | Resolve(candidates: seq<string>)    // `which_path` is asked for these names
    | IndexError                          // the index is outside the list

  /** Python's `files[index]`: negative indexes count from the end. */
  function PyIndex(files: seq<string>, index: int): (r: Option<string>)
    ensures r.Some? <==> -|files| <= index < |files|
    ensures r.Some? ==> r.value == files[if index < 0 then |files| + index else index]
  {
    if 0 <= index < |files| then Some(files[index])
    else if -|files| <= index < 0 then Some(files[|files| + index])
    else None
  }

  /** `on_done` of the finder: `files` is the list shown, `index` the user's pick. */
  function OnDone(c: WhichCommand, files: seq<string>, index: int): Choice {
    if index == -1 then Cancelled
    else match PyIndex(files, index)
      case None => IndexError
      case Some(moduleName) => Resolve(Candidates(moduleName, Extensions(c)))
  }

  /**
   * A pick in Python's range, other than `-1`, asks for the picked module's
   * files in the command's order; a negative pick counts from the end.
   */
  lemma OnDonePicked(c: WhichCommand, files: seq<string>, index: int)
    requires -|files| <= index < |files| && index != -1
    ensures OnDone(c, files, index).Resolve?
    ensures |OnDone(c, files, index).candidates| == |Extensions(c)|
    ensures var picked := files[if index < 0 then |files| + index else index];
      forall i :: 0 <= i < |Extensions(c)| ==> OnDone(c, files, index).candidates[i] == picked + Extensions(c)[i]
  {
    CandidatesAt(files[if index < 0 then |files| + index else index], Extensions(c));
  }

  /** Only an index that Python cannot use raises; `-1` cancels. */
  lemma OnDoneCases(c: WhichCommand, files: seq<string>, index: int)
    ensures OnDone(c, files, index).Cancelled? <==> index == -1
    ensures OnDone(c, files, index).IndexError? <==> index != -1 && (index < -|files| || |files| <= index)
  {
  }
}
