/** `pathlib.PurePosixPath(p).name` and `.suffix`. */
module PathNames {
  import opened Text

  /** The last component that is neither empty nor ".", or "" when there is none. */
  function LastComponent(segments: seq<string>): (r: string)
    ensures r == "" || r in segments
    decreases |segments|
  {
    if |segments| == 0 then ""
    else if segments[|segments| - 1] == "" || segments[|segments| - 1] == "." then
      LastComponent(segments[..|segments| - 1])
    else segments[|segments| - 1]
  }

  /** The final path component: it never contains a `/`. */
  function Name(path: string): (name: string)
    ensures '/' !in name
  {
    LastComponent(Split(path, '/'))
  }

  /** Index of the last `c` in `s`, or -1 (`str.rfind`). */
  function RFind(s: string, c: char): (i: int)
    ensures -1 <= i < |s|
    ensures i >= 0 ==> s[i] == c && c !in s[i + 1..]
    ensures i == -1 ==> c !in s
  {
    if |s| == 0 then -1
    else if s[|s| - 1] == c then |s| - 1
    else
      var i := RFind(s[..|s| - 1], c);
      assert s == s[..|s| - 1] + [s[|s| - 1]];
      i
  }

  /**
   * The extension of the final component, dot included: from its last dot,
   * provided that dot is neither the first nor the last character; otherwise
   * the empty string.
   */
  function Suffix(path: string): (ext: string)
    ensures '/' !in ext
    ensures ext != "" ==>
      var name := Name(path);
      && 2 <= |ext| < |name|
      && name[|name| - |ext|..] == ext
      && ext[0] == '.' && '.' !in ext[1..]
  {
    var name := Name(path);
    var i := RFind(name, '.');
    if 0 < i < |name| - 1 then
      assert name[i..][1..] == name[i + 1..];
      name[i..]
    else ""
  }

  /** A final component "stem.ext" with a non-empty stem and a dot-free, non-empty ext has suffix ".ext". */
  lemma SuffixOfExtension(path: string, stem: string, ext: string)
    requires Name(path) == stem + "." + ext
    requires stem != "" && ext != "" && '.' !in ext
    ensures Suffix(path) == "." + ext
  {
    var name := Name(path);
    var i := RFind(name, '.');
    assert name[|stem|] == '.';
    assert name[|stem| + 1..] == ext;
    assert name[i..] == "." + ext;
  }
}
