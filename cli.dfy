/** `parse_command_line_args`: when Blender runs the script in the background
    with `-- input.json output.glb`, the arguments after the first `--`
    override the configured JSON and GLB paths. */
module CommandLine {
  import opened Geometry

  const Separator: string := "--"

  /** `s.index(x)`: the position of the first occurrence of `x`, or None. */
  function IndexOf(s: seq<string>, x: string): (r: Option<nat>)
    ensures r.None? <==> x !in s
    ensures r.Some? ==> r.value < |s| && s[r.value] == x && forall j :: 0 <= j < r.value ==> s[j] != x
  {
    if s == [] then None
    else if s[0] == x then Some(0)
    else
      match IndexOf(s[1..], x)
      case None => None
      case Some(k) => Some(k + 1)
  }

  /** The two module-level paths the script reads. */
  datatype Paths = Paths(json: string, glb: string)

  /** The batch flag and the paths after parsing `argv`, given the paths before.
      This is the specification of `Settings.ParseCommandLineArgs`, which makes
      the same parse by assigning the class's two fields. */
  function ParseArgs(argv: seq<string>, current: Paths): (bool, Paths)
  {
    match IndexOf(argv, Separator)
    case None => (false, current)
    case Some(k) =>
      var rest := argv[k + 1..];
      (true, Paths(if |rest| >= 1 then rest[0] else current.json,
                   if |rest| >= 2 then rest[1] else current.glb))
  }

  /** Without `--` the script is not in batch mode and both paths stay as configured. */
  lemma NoSeparatorKeepsPaths(argv: seq<string>, current: Paths)
    requires Separator !in argv
    ensures ParseArgs(argv, current) == (false, current)
  {
  }

  /** With `--` the first argument after the first `--` becomes the JSON path and
      the second the GLB path; missing ones leave the configured path, and a
      later `--` is an ordinary argument. */
  lemma ArgumentsAfterFirstSeparator(before: seq<string>, after: seq<string>, current: Paths)
    requires Separator !in before
    ensures ParseArgs(before + [Separator] + after, current) ==
      (true, Paths(if |after| >= 1 then after[0] else current.json,
                   if |after| >= 2 then after[1] else current.glb))
  {
    var argv := before + [Separator] + after;
    var k := IndexOf(argv, Separator);
    assert argv[|before|] == Separator;
    assert forall j :: 0 <= j < |before| ==> argv[j] == before[j];
    assert k == Some(|before|);
    assert argv[|before| + 1..] == after;
  }

  /** The script's globals `JSON_PATH` and `GLB_OUTPUT_PATH`. */
  class Settings {
    var jsonPath: string
    var glbOutputPath: string

    constructor (json: string, glb: string)
      ensures jsonPath == json && glbOutputPath == glb
    {
      jsonPath, glbOutputPath := json, glb;
    }

    /** Assigns the globals from the arguments after the first `--` and reports
        whether `--` was present. */
    method ParseCommandLineArgs(argv: seq<string>) returns (isBatch: bool)
      modifies this
      ensures (isBatch, Paths(jsonPath, glbOutputPath)) == ParseArgs(argv, Paths(old(jsonPath), old(glbOutputPath)))
    {
      var k := IndexOf(argv, Separator);
      if k.Some? {
        var rest := argv[k.value + 1..];
        if |rest| >= 1 {
          jsonPath := rest[0];
        }
        if |rest| >= 2 {
          glbOutputPath := rest[1];
        }
        return true;
      }
      return false;
    }
  }
}
