/** MoonrakerApi.getFiles in recursive mode: the directories are derived from the file paths. */
module FileListing {
  import opened Common
  import opened Text

  /** A file as the printer reports it, with its modification time in seconds. */
  datatype RemoteFile = RemoteFile(path: string, size: int, modified: real)

  datatype FileDto = FileDto(path: string, size: int, date: Option<int>, dir: bool)

  const ROOT := "gcodes/"

  function StripGcodes(path: string): (r: string)
    ensures forall rest :: path == "gcodes/" + rest ==> r == rest
    ensures !("gcodes/" <= path) ==> r == path
  {
    if ROOT <= path then path[|ROOT|..] else path
  }

  function ToFileDto(path: string, size: int, modified: Option<real>, dir: bool): FileDto {
    FileDto(path, size, if modified.Some? then Some((modified.value * 1000.0).Floor) else None, dir)
  }

  function Listed(f: RemoteFile): FileDto {
    ToFileDto(StripGcodes(f.path), f.size, Some(f.modified), false)
  }

  function ListedDir(path: string): FileDto {
    ToFileDto(path, 0, None, true)
  }

  /** The path lies in directory d, at any depth. */
  predicate InDir(d: string, path: string) {
    d + "/" <= path
  }

  /** d is the join of the first i parts of the path, for some i before the last. */
  ghost predicate FirstParts(d: string, path: string, n: nat)
    requires n < |Split(path, '/')|
  {
    exists i :: 1 <= i <= n && d == Join(Split(path, '/')[..i], '/')
  }

  lemma JoinCons(c: char, part: string, parts: seq<string>)
    ensures Join([[c] + part] + parts, '/') == [c] + Join([part] + parts, '/')
  {
    assert ([[c] + part] + parts)[1..] == parts && ([part] + parts)[1..] == parts;
  }

  lemma JoinEmptyFirst(parts: seq<string>)
    requires parts != []
    ensures Join([""] + parts, '/') == "/" + Join(parts, '/')
  {
    assert ([""] + parts)[1..] == parts;
  }

  /** Joining the first parts of a path gives exactly its directories. */
  lemma {:induction false} FirstPartsAreDirs(d: string, path: string)
    ensures FirstParts(d, path, |Split(path, '/')| - 1) <==> InDir(d, path)
    decreases |path|
  {
    var parts := Split(path, '/');
    if path != "" {
      var rest := Split(path[1..], '/');
      if d != "" { FirstPartsAreDirs(d[1..], path[1..]); InDirTail(d, path); }
      if path[0] == '/' {
        assert parts[..1] == [""];
        forall i | 2 <= i <= |rest| ensures Join(parts[..i], '/') == "/" + Join(rest[..i - 1], '/') {
          assert parts[..i] == [""] + rest[..i - 1];
          JoinEmptyFirst(rest[..i - 1]);
        }
        SlashFirst(d, path, rest);
      } else {
        forall i | 1 <= i <= |rest| ensures Join(parts[..i], '/') == [path[0]] + Join(rest[..i], '/') {
          assert parts[..i] == [[path[0]] + rest[0]] + rest[1..i] && rest[..i] == [rest[0]] + rest[1..i];
          JoinCons(path[0], rest[0], rest[1..i]);
        }
        LetterFirst(d, path, rest);
      }
    }
  }

  lemma InDirTail(d: string, path: string)
    requires d != "" && path != ""
    ensures InDir(d, path) <==> d[0] == path[0] && InDir(d[1..], path[1..])
  {
    assert d + "/" == [d[0]] + (d[1..] + "/") && path == [path[0]] + path[1..];
  }

  lemma SlashFirst(d: string, path: string, rest: seq<string>)
    requires path != "" && path[0] == '/' && rest == Split(path[1..], '/')
    requires forall i :: 2 <= i <= |rest| ==> Join(Split(path, '/')[..i], '/') == "/" + Join(rest[..i - 1], '/')
    requires d != "" ==> (FirstParts(d[1..], path[1..], |rest| - 1) <==> InDir(d[1..], path[1..]))
    requires d != "" ==> (InDir(d, path) <==> d[0] == path[0] && InDir(d[1..], path[1..]))
    ensures FirstParts(d, path, |rest|) <==> InDir(d, path)
  {
    var parts := Split(path, '/');
    assert Join(parts[..1], '/') == "";
    if d == "" {
      assert d == Join(parts[..1], '/') && path == "/" + path[1..];
    } else {
      if FirstParts(d, path, |rest|) {
        var i :| 1 <= i <= |rest| && d == Join(parts[..i], '/');
        assert d[1..] == Join(rest[..i - 1], '/');
      }
      if InDir(d, path) {
        var i :| 1 <= i <= |rest| - 1 && d[1..] == Join(rest[..i], '/');
        assert Join(parts[..i + 1], '/') == "/" + Join(rest[..i + 1 - 1], '/') == d;
      }
    }
  }

  lemma LetterFirst(d: string, path: string, rest: seq<string>)
    requires path != "" && path[0] != '/' && rest == Split(path[1..], '/')
    requires forall i :: 1 <= i <= |rest| ==> Join(Split(path, '/')[..i], '/') == [path[0]] + Join(rest[..i], '/')
    requires d != "" ==> (FirstParts(d[1..], path[1..], |rest| - 1) <==> InDir(d[1..], path[1..]))
    requires d != "" ==> (InDir(d, path) <==> d[0] == path[0] && InDir(d[1..], path[1..]))
    ensures FirstParts(d, path, |rest| - 1) <==> InDir(d, path)
  {
    var parts := Split(path, '/');
    if d == "" {
      assert ("" + "/")[0] != path[0];
    } else {
      if FirstParts(d, path, |rest| - 1) {
        var i :| 1 <= i <= |rest| - 1 && d == Join(parts[..i], '/');
        assert d[1..] == Join(rest[..i], '/');
      }
      if InDir(d, path) {
        var i :| 1 <= i <= |rest| - 1 && d[1..] == Join(rest[..i], '/');
        assert Join(parts[..i], '/') == [path[0]] + Join(rest[..i], '/') == d;
      }
    }
  }

  /** Add to a Set that keeps insertion order. */
  function AddOnce(dirs: seq<string>, d: string): (r: seq<string>)
    ensures forall e :: e in r <==> e in dirs || e == d
    ensures NoDuplicates(dirs) ==> NoDuplicates(r)
  {
    if d in dirs then dirs else dirs + [d]
  }

  /** A listed file: its path without the leading gcodes directory, its size, and its modification time in whole
      milliseconds. */
  ghost predicate Lists(dto: FileDto, f: RemoteFile) {
    && !dto.dir && dto.size == f.size
    && (forall rest :: f.path == "gcodes/" + rest ==> dto.path == rest)
    && (!("gcodes/" <= f.path) ==> dto.path == f.path)
    && dto.date.Some? && dto.date.value as real <= f.modified * 1000.0 < dto.date.value as real + 1.0
  }

  /** Recursive listing: the files in order, and as directories, each once, exactly the strings d such that some
      stripped path starts with d and a slash. None stands for the error about a start directory. */
  method GetFilesRecursive(startDir: string, result: seq<RemoteFile>)
    returns (listing: Option<(seq<FileDto>, seq<FileDto>)>)
    ensures listing.None? <==> startDir != ""
    ensures listing.Some? ==>
              var (dirs, files) := listing.value;
              && |files| == |result| && (forall i :: 0 <= i < |files| ==> Lists(files[i], result[i]))
              && NoDuplicates(dirs)
              && (forall d :: FileDto(d, 0, None, true) in dirs
                      <==> exists i :: 0 <= i < |files| && InDir(d, files[i].path))
              && (forall dto :: dto in dirs ==> dto.dir && dto.size == 0 && dto.date == None)
  {
    if startDir != "" { return None; }
    var dirsSet: seq<string> := [];
    var files: seq<FileDto> := [];
    for k := 0 to |result|
      invariant files == seq(k, i requires 0 <= i < k => Listed(result[i]))
      invariant NoDuplicates(dirsSet)
      invariant forall d :: d in dirsSet <==> exists i :: 0 <= i < k && InDir(d, StripGcodes(result[i].path))
    {
      var strippedPath := StripGcodes(result[k].path);
      var pathParts := Split(strippedPath, '/');
      ghost var before := dirsSet;
      for i := 0 to |pathParts| - 1
        invariant NoDuplicates(dirsSet)
        invariant forall d :: d in dirsSet <==> d in before || FirstParts(d, strippedPath, i)
      {
        dirsSet := AddOnce(dirsSet, Join(pathParts[..i + 1], '/'));
      }
      forall d ensures FirstParts(d, strippedPath, |pathParts| - 1) <==> InDir(d, strippedPath) {
        FirstPartsAreDirs(d, strippedPath);
      }
      files := files + [Listed(result[k])];
    }
    var dirs := seq(|dirsSet|, i requires 0 <= i < |dirsSet| => ListedDir(dirsSet[i]));
    DirsListed(dirsSet, dirs);
    forall d
      ensures FileDto(d, 0, None, true) in dirs <==> exists i :: 0 <= i < |files| && InDir(d, files[i].path)
    {
      PathsListed(d, result, files);
      assert ListedDir(d) == FileDto(d, 0, None, true);
      assert d in dirsSet <==> exists i :: 0 <= i < |result| && InDir(d, StripGcodes(result[i].path));
    }
    return Some((dirs, files));
  }

  lemma PathsListed(d: string, result: seq<RemoteFile>, files: seq<FileDto>)
    requires |files| == |result| && forall i :: 0 <= i < |files| ==> files[i] == Listed(result[i])
    ensures (exists i :: 0 <= i < |files| && InDir(d, files[i].path))
            <==> exists i :: 0 <= i < |result| && InDir(d, StripGcodes(result[i].path))
  {
    if i :| 0 <= i < |files| && InDir(d, files[i].path) { assert InDir(d, StripGcodes(result[i].path)); }
    if i :| 0 <= i < |result| && InDir(d, StripGcodes(result[i].path)) { assert InDir(d, files[i].path); }
  }

  lemma DirsListed(names: seq<string>, dirs: seq<FileDto>)
    requires |dirs| == |names| && forall i :: 0 <= i < |names| ==> dirs[i] == ListedDir(names[i])
    requires NoDuplicates(names)
    ensures NoDuplicates(dirs)
    ensures forall d :: ListedDir(d) in dirs <==> d in names
  {
    forall d ensures ListedDir(d) in dirs <==> d in names {
      if d in names {
        var i :| 0 <= i < |names| && names[i] == d;
        assert dirs[i] == ListedDir(d);
      }
      if ListedDir(d) in dirs {
        var i :| 0 <= i < |dirs| && dirs[i] == ListedDir(d);
        assert ListedDir(names[i]).path == ListedDir(d).path;
      }
    }
  }

  /** The parent of a directory is listed with it. */
  lemma DirsPrefixClosed(d: string, e: string, paths: seq<string>)
    requires (exists i :: 0 <= i < |paths| && InDir(d, paths[i])) && InDir(e, d)
    ensures exists i :: 0 <= i < |paths| && InDir(e, paths[i])
  {
    var i :| 0 <= i < |paths| && InDir(d, paths[i]);
    assert InDir(e, paths[i]);
  }
}
