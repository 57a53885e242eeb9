/**
 * The asset-path helpers of `AMTHREE`: `GetFilename`, the last segment of a path written with `/`
 * or `\` separators, and `CreateConstants`, the directories a scene description's files are
 * fetched from.
 */
module Paths {
  import opened Js

  /** `s.split(sep)`: the pieces between the separators, at least one, each without a separator. */
  function Split(s: string, sep: char): (parts: seq<string>)
    ensures |parts| >= 1
    ensures forall i :: 0 <= i < |parts| ==> sep !in parts[i]
  {
    if s == [] then [[]]
    else
      var rest := Split(s[1..], sep);
      if s[0] == sep then [[]] + rest else [[s[0]] + rest[0]] + rest[1..]
  }

  /** `parts.join(sep)`. */
  function Join(parts: seq<string>, sep: char): string
  {
    if parts == [] then []
    else if |parts| == 1 then parts[0]
    else parts[0] + [sep] + Join(parts[1..], sep)
  }

  /** Joining the pieces of a split with the same separator gives the string back. */
  lemma {:induction false} SplitJoin(s: string, sep: char)
    ensures Join(Split(s, sep), sep) == s
  {
    if s != [] {
      var rest := Split(s[1..], sep);
      SplitJoin(s[1..], sep);
      if s[0] == sep {
        assert ([[]] + rest)[1..] == rest;
      } else if |rest| > 1 {
        assert ([[s[0]] + rest[0]] + rest[1..])[1..] == rest[1..];
        assert [s[0]] + rest[0] + [sep] + Join(rest[1..], sep) == [s[0]] + Join(rest, sep);
      }
    }
  }

  /** The last piece of a join of two or more follows the last separator. */
  lemma {:induction false} JoinSnoc(parts: seq<string>, sep: char)
    requires |parts| >= 2
    ensures Join(parts, sep) == Join(parts[..|parts| - 1], sep) + [sep] + parts[|parts| - 1]
  {
    if |parts| > 2 {
      JoinSnoc(parts[1..], sep);
      assert parts[1..][..|parts| - 2] == parts[..|parts| - 1][1..];
    }
  }

  /** `t` is what follows the last `sep` of `s`, or all of `s` when it has none. */
  ghost predicate TailAfter(s: string, t: string, sep: char)
  {
    sep !in t && |t| <= |s| && s[|s| - |t|..] == t && (|t| < |s| ==> s[|s| - |t| - 1] == sep)
  }

  /** `s.split(sep).pop()`. */
  function LastPart(s: string, sep: char): (t: string)
    ensures TailAfter(s, t, sep)
  {
    var parts := Split(s, sep);
    SplitJoin(s, sep);
    JoinLast(parts, sep);
    parts[|parts| - 1]
  }

  /** In a join of pieces without the separator, the last piece follows the last separator. */
  lemma JoinLast(parts: seq<string>, sep: char)
    requires |parts| >= 1 && forall i :: 0 <= i < |parts| ==> sep !in parts[i]
    ensures TailAfter(Join(parts, sep), parts[|parts| - 1], sep)
  {
    if |parts| >= 2 {
      JoinSnoc(parts, sep);
      var s, t := Join(parts, sep), parts[|parts| - 1];
      assert s[|s| - |t|..] == t;
      assert s[|s| - |t| - 1] == sep;
    }
  }

  /** `t` is the part of `path` after its last `/` or `\`, or all of it when it has neither. */
  ghost predicate FileTail(path: string, t: string)
  {
    && '/' !in t && '\\' !in t && |t| <= |path| && path[|path| - |t|..] == t
    && (|t| < |path| ==> path[|path| - |t| - 1] == '/' || path[|path| - |t| - 1] == '\\')
  }

  /** Only one string is what follows the last separator of a path. */
  lemma FileTailUnique(path: string, t: string, u: string)
    requires FileTail(path, t) && FileTail(path, u)
    ensures t == u
  {
    assert forall k :: |path| - |u| <= k < |path| ==> path[k] == u[k - (|path| - |u|)];
    assert forall k :: |path| - |t| <= k < |path| ==> path[k] == t[k - (|path| - |t|)];
  }

  /** `AMTHREE.GetFilename`: the path's last segment, with `/` and `\` both as separators. */
  function GetFilename(path: string): (name: string)
    ensures FileTail(path, name)
  {
    var t := LastPart(path, '/');
    var name := LastPart(t, '\\');
    TailOfTail(path, t, name);
    name
  }

  /** What follows the last `\` of what follows the last `/` is what follows the last of either. */
  lemma TailOfTail(path: string, t: string, name: string)
    requires TailAfter(path, t, '/') && TailAfter(t, name, '\\')
    ensures FileTail(path, name)
  {
    assert forall i :: 0 <= i < |name| ==> name[i] == t[|t| - |name| + i];
    assert path[|path| - |name|..] == t[|t| - |name|..];
    assert |name| < |t| ==> path[|path| - |name| - 1] == t[|t| - |name| - 1];
  }

  /** A file name appended to a directory with `/` is the file name `GetFilename` gives back. */
  lemma FilenameOfJoined(dir: string, name: string)
    requires '/' !in name && '\\' !in name
    ensures GetFilename(dir + "/" + name) == name
  {
    var path := dir + "/" + name;
    assert path[|path| - |name|..] == name;
    assert path[|path| - |name| - 1] == '/';
    FileTailUnique(path, name, GetFilename(path));
  }

  /** `GetFilename` of a file name is the name itself. */
  lemma GetFilenameIdempotent(path: string)
    ensures GetFilename(GetFilename(path)) == GetFilename(path)
  {
    var name := GetFilename(path);
    FileTailUnique(name, name, GetFilename(name));
  }

  /** The fields of a scene description's `constants` object that `CreateConstants` reads. */
  datatype Settings = Settings(
    assetPath: Option<string>, imagePath: Option<string>, videoPath: Option<string>,
    modelPath: Option<string>, soundPath: Option<string>)

  /** The directories a scene's images, videos, models and sounds are fetched from. */
  datatype Constants = Constants(
    assetPath: string, imagePath: string, videoPath: string, modelPath: string, soundPath: string)

  /** A string setting that `if (v)` accepts: present and not empty. */
  predicate Given(v: Option<string>)
  {
    v.Some? && v.value != ""
  }

  /** `v ? v : ''`. */
  function OrEmpty(v: Option<string>): (s: string)
    ensures Given(v) ==> s == v.value
    ensures !Given(v) ==> s == ""
  {
    if Given(v) then v.value else ""
  }

  /** The directories among `dirs` that are given, each followed by `/`, in order. */
  function Directory(dirs: seq<Option<string>>): (d: string)
    ensures d == "" || d[|d| - 1] == '/'
    ensures (forall i :: 0 <= i < |dirs| ==> !Given(dirs[i])) ==> d == ""
  {
    if dirs == [] then ""
    else if Given(dirs[|dirs| - 1]) then Directory(dirs[..|dirs| - 1]) + dirs[|dirs| - 1].value + "/"
    else
      assert forall i :: 0 <= i < |dirs| - 1 ==> dirs[..|dirs| - 1][i] == dirs[i];
      Directory(dirs[..|dirs| - 1])
  }

  /**
   * `CreateConstants(json, root)`: the asset directory is `root`, then the description's
   * `asset_path`, each when given and followed by `/`; each kind of file lives under it, in the
   * description's directory for that kind when one is given. A missing description (`json || {}`)
   * reads as one with no setting.
   */
  function CreateConstants(json: Option<Settings>, root: Option<string>): (c: Constants)
    ensures var s := if json.Some? then json.value else Settings(None, None, None, None, None);
      && c.assetPath == Directory([root, s.assetPath])
      && c.imagePath == c.assetPath + OrEmpty(s.imagePath)
      && c.videoPath == c.assetPath + OrEmpty(s.videoPath)
      && c.modelPath == c.assetPath + OrEmpty(s.modelPath)
      && c.soundPath == c.assetPath + OrEmpty(s.soundPath)
  {
    var s := if json.Some? then json.value else Settings(None, None, None, None, None);
    var asset := (if Given(root) then root.value + "/" else "") + (if Given(s.assetPath) then s.assetPath.value + "/" else "");
    assert [root, s.assetPath][..1] == [root];
    Constants(asset, asset + OrEmpty(s.imagePath), asset + OrEmpty(s.videoPath), asset + OrEmpty(s.modelPath),
              asset + OrEmpty(s.soundPath))
  }

  /** A model file named in a description is found by `GetFilename` under its model directory. */
  lemma ModelUrlFilename(json: Option<Settings>, root: Option<string>, url: string)
    requires '/' !in url && '\\' !in url
    ensures GetFilename(CreateConstants(json, root).modelPath + "/" + url) == url
  {
    FilenameOfJoined(CreateConstants(json, root).modelPath, url);
  }

  /** With neither a root nor a description, every directory is the description-relative one. */
  lemma NoRootNoAssets(json: Option<Settings>)
    requires json.None? || !Given(json.value.assetPath)
    ensures var c := CreateConstants(json, None);
      c.assetPath == "" && (json.Some? ==> c.imagePath == OrEmpty(json.value.imagePath))
  {
    var dirs: seq<Option<string>> := [None, if json.Some? then json.value.assetPath else None];
    assert forall i :: 0 <= i < |dirs| ==> !Given(dirs[i]);
  }
}
