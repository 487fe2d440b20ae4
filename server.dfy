/** The WSGI server of drserv (drserv/server.py): a POST to
    `/v1/publish/{major}/{minor}/{component}/{file}.deb` streams the body into a
    staging file next to its destination
    `{base}/{major}/pool/{minor}/{component}/{package}/{file}`, refuses to
    replace an existing file, renames the staging file into place and runs the
    index command. */
module Server {
  import opened Text
  import opened FileSystem
  import opened Collaborators

  /** Size of the chunks read from the client connection. */
  const BufferSize: nat := 8192

  /** The route prefix `handle_request` tests for. */
  const Route: string := "/v1/publish"

  datatype Option<T> = None | Some(value: T)

  /** The four path parameters of a publish call. */
  datatype PackageInfo = PackageInfo(majorDist: string, minorDist: string, component: string, file: string)

  /** The exceptions the request path can raise. Only HttpException is caught by
      `handle_request`; the others escape it. */
  datatype Error =
    | CharOutOfRange(pos: nat, c: char)    // ValueError from the character check
    | InvalidParameter(segment: string)    // ValueError for a `..` segment
    | MissingDebSuffix                     // ValueError for a file not ending in .deb
    | NoElements                           // IndexError from elements[-1] on an empty list
    | HttpException(message: string)      // status line and text of a refused request
    | IndexCommandFailed                   // CalledProcessError from check_call

  datatype Result<T> = Ok(value: T) | Err(error: Error)

  const NotFoundMessage: string := "404 Not found"
  const OnlyPostMessage: string := "405 Only POST allowed"
  const PathFormMessage: string :=
    "400 path needs to be of form /v1/publish/{major.dist}/{minor.dist}/{component}/{filename.deb}"

  function FilenameMessage(file: string): string
  {
    "400 Filename " + file + " invalid, should be of format NAME_VERSION.deb"
  }

  function OverwriteMessage(target: string): string
  {
    "400 refusing to overwrite existing file " + target + " "
  }

  // ---------------------------------------------------------------- parse_path

  /** The characters parse_path lets through: 0x1f < ord(c) < 0x7f. */
  predicate PrintableChar(c: char)
  {
    0x1f < c as int < 0x7f
  }

  predicate Printable(s: string)
  {
    forall c :: c in s ==> PrintableChar(c)
  }

  /** A non-empty name without a `/`: one path segment. */
  predicate PlainName(s: string)
  {
    s != "" && '/' !in s
  }

  /** A path parameter as parse_path hands it on: one printable segment other
      than `..`. */
  predicate PathParameter(s: string)
  {
    PlainName(s) && s != ".." && Printable(s)
  }

  /** Index of the first character outside the accepted range, if any. */
  function FirstBadChar(s: string): (r: Option<nat>)
    ensures r.None? <==> Printable(s)
    ensures r.Some? ==> r.value < |s| && !PrintableChar(s[r.value])
    ensures r.Some? ==> forall j :: 0 <= j < r.value ==> PrintableChar(s[j])
  {
    if s == [] then None
    else if !PrintableChar(s[0]) then Some(0)
    else
      assert s == [s[0]] + s[1..];
      match FirstBadChar(s[1..])
      case None => None
      case Some(i) => Some(i + 1)
  }

  /** `parse_path`: the character check, then `..` segments, then the `.deb`
      suffix of the last segment, then the segment count. The first two
      segments are not looked at. */
  function ParsePath(path: string): (r: Result<PackageInfo>)
    ensures r.Ok? ==> Printable(path)
    ensures r.Ok? ==> PathParameter(r.value.majorDist) && PathParameter(r.value.minorDist)
                      && PathParameter(r.value.component) && PathParameter(r.value.file)
                      && EndsWith(r.value.file, ".deb")
    ensures r.Err? && r.error.HttpException? ==> r.error.message == PathFormMessage
    ensures r.Err? ==> !r.error.IndexCommandFailed?
  {
    match FirstBadChar(path)
    case Some(i) => Err(CharOutOfRange(i, path[i]))
    case None =>
      var elements := Segments(path);
      SegmentsAreNames(path);
      if ".." in elements then Err(InvalidParameter(".."))
      else if elements == [] then Err(NoElements)
      else if !EndsWith(elements[|elements| - 1], ".deb") then Err(MissingDebSuffix)
      else if |elements| != 6 then Err(HttpException(PathFormMessage))
      else
        assert elements[2] in elements && elements[3] in elements;
        assert elements[4] in elements && elements[5] in elements;
        Ok(PackageInfo(elements[2], elements[3], elements[4], elements[5]))
  }

  /** Characters of a segment are characters of the path. */
  lemma SegmentsArePrintable(path: string)
    requires Printable(path)
    ensures forall e :: e in Segments(path) ==> Printable(e)
  {
    SegmentsAreNames(path);
  }

  /** The path of a publish call: `/p0/p1/major/minor/component/file`. */
  function PublishPath(p0: string, p1: string, major: string, minor: string,
                       component: string, file: string): string
  {
    "/" + JoinWith([p0, p1, major, minor, component, file], '/')
  }

  /** A character outside 0x20-0x7E anywhere makes parse_path fail with the
      position of the first such character, whatever else is wrong with the path. */
  lemma ParsePathRejectsBadChar(path: string, i: nat)
    requires i < |path| && !PrintableChar(path[i])
    ensures ParsePath(path).Err? && ParsePath(path).error.CharOutOfRange?
    ensures var e := ParsePath(path).error;
            && e.pos <= i && e.pos < |path| && e.c == path[e.pos] && !PrintableChar(e.c)
            && forall j :: 0 <= j < e.pos ==> PrintableChar(path[j])
  {
    assert path[i] in path;
  }

  /** A `..` segment is refused wherever it stands: in the middle of the path
      (followed by `/`) or as its last segment. */
  lemma ParsePathRejectsTraversal(x: string, y: string)
    requires y == "" || y[0] == '/'
    requires Printable(x + "/.." + y)
    ensures ParsePath(x + "/.." + y) == Err(InvalidParameter(".."))
  {
    var path := x + "/.." + y;
    SegmentsOfName("..");
    if y == "" {
      assert path == x + "/" + "..";
      SegmentsAtSlash(x, "..");
      assert Segments(path) == Segments(x) + [".."];
    } else {
      var rest := y[1..];
      assert path == x + "/" + (".." + "/" + rest);
      SegmentsAtSlash(x, ".." + "/" + rest);
      SegmentsAtSlash("..", rest);
      assert Segments(path) == Segments(x) + [".."] + Segments(rest);
    }
    assert ".." in Segments(path);
  }

  /** A path that begins with a `..` segment is refused too. */
  lemma ParsePathRejectsLeadingTraversal(y: string)
    requires y == "" || y[0] == '/'
    requires Printable(".." + y)
    ensures ParsePath(".." + y) == Err(InvalidParameter(".."))
  {
    var path := ".." + y;
    SegmentsOfName("..");
    if y == "" {
      assert path == "..";
    } else {
      var rest := y[1..];
      assert path == ".." + "/" + rest;
      SegmentsAtSlash("..", rest);
      assert Segments(path) == [".."] + Segments(rest);
    }
    assert Segments(path)[0] == "..";
  }

  /** A trailing slash adds only an empty segment, so it changes nothing for a
      path that passes the character check. */
  lemma ParsePathIgnoresTrailingSlash(path: string)
    requires Printable(path)
    ensures ParsePath(path + "/") == ParsePath(path)
  {
    assert Segments(path + "/") == Segments(path) by {
      assert path + "/" == path + "/" + "";
      SegmentsAtSlash(path, "");
      SegmentsOfName("");
    }
    assert Printable(path + "/");
    assert FirstBadChar(path + "/") == FirstBadChar(path) == None;
  }

  /** The `.deb` suffix is checked before the number of segments: a last segment
      without it is a ValueError even when the count is wrong too, and one with
      it gives the 400 HttpException when the count is not six. */
  lemma ParsePathSuffixBeforeCount(x: string, file: string)
    requires Printable(x + "/" + file)
    requires PlainName(file) && file != ".." && ".." !in Segments(x)
    ensures !EndsWith(file, ".deb") ==> ParsePath(x + "/" + file) == Err(MissingDebSuffix)
    ensures EndsWith(file, ".deb") && |Segments(x)| != 5 ==>
              ParsePath(x + "/" + file) == Err(HttpException(PathFormMessage))
  {
    SegmentsAtSlash(x, file);
    SegmentsOfName(file);
    var elements := Segments(x + "/" + file);
    assert elements == Segments(x) + [file];
    assert ".." !in elements;
  }

  /** The segments of a publish path are its six parts. */
  lemma PublishPathSegments(p0: string, p1: string, major: string, minor: string,
                            component: string, file: string)
    requires PlainName(p0) && PlainName(p1) && PlainName(major) && PlainName(minor)
    requires PlainName(component) && PlainName(file)
    ensures Segments(PublishPath(p0, p1, major, minor, component, file))
         == [p0, p1, major, minor, component, file]
  {
    SegmentsOfAbsolute([p0, p1, major, minor, component, file]);
  }

  /** Round trip: the path built from valid parameters parses back to exactly
      those parameters, whatever the first two segments are. */
  lemma ParsePathRoundTrip(p0: string, p1: string, major: string, minor: string,
                           component: string, file: string)
    requires PathParameter(p0) && PathParameter(p1) && PathParameter(major)
    requires PathParameter(minor) && PathParameter(component) && PathParameter(file)
    requires EndsWith(file, ".deb")
    ensures ParsePath(PublishPath(p0, p1, major, minor, component, file))
         == Ok(PackageInfo(major, minor, component, file))
  {
    var path := PublishPath(p0, p1, major, minor, component, file);
    PublishPathSegments(p0, p1, major, minor, component, file);
    PrintableJoin([p0, p1, major, minor, component, file]);
    assert Printable(path);
  }

  /** Names joined with `/` stay within the accepted characters. */
  lemma {:induction false} PrintableJoin(parts: seq<string>)
    requires forall i :: 0 <= i < |parts| ==> Printable(parts[i])
    ensures Printable(JoinWith(parts, '/'))
  {
    if |parts| > 1 {
      PrintableJoin(parts[1..]);
      assert Printable(parts[0]);
    }
  }

  /** Empty segments are dropped, so doubling a slash changes nothing for a path
      that passes the character check. */
  lemma ParsePathIgnoresRepeatedSlashes(x: string, y: string)
    requires Printable(x + "/" + y)
    ensures ParsePath(x + "//" + y) == ParsePath(x + "/" + y)
  {
    var single, double := x + "/" + y, x + "//" + y;
    assert Segments(double) == Segments(single) by {
      SegmentsAtSlash(x, y);
      assert double == x + "/" + ("" + "/" + y);
      SegmentsAtSlash(x, "" + "/" + y);
      SegmentsAtSlash("", y);
      SegmentsOfName("");
      assert "" + "/" + y == "/" + y;
    }
    assert Printable(double) by {
      forall c | c in double
        ensures PrintableChar(c)
      {
        assert c in x || c == '/' || c in y;
        assert c in single;
      }
    }
    assert FirstBadChar(double) == FirstBadChar(single) == None;
  }

  /** Behind the route check the path has a segment, so the IndexError of
      `elements[-1]` cannot reach handle_request. */
  lemma RoutedPathHasSegments(path: string)
    requires StartsWith(path, Route)
    ensures ParsePath(path) != Err(NoElements)
  {
    if Printable(path) {
      var rest := path[|Route|..];
      assert path == "" + "/" + ("v1" + "/" + ("publish" + rest));
      SegmentsAtSlash("", "v1" + "/" + ("publish" + rest));
      SegmentsAtSlash("v1", "publish" + rest);
      SegmentsOfName("");
      SegmentsOfName("v1");
      assert Segments(path) != [];
    }
  }

  /** The route check is a plain prefix test: a second segment that only starts
      with `publish` (such as `publisher`) is let through and parsed like
      `publish`. */
  lemma RouteIsPlainPrefix(p1: string, major: string, minor: string, component: string, file: string)
    requires StartsWith(p1, "publish") && PathParameter(p1)
    requires PathParameter(major) && PathParameter(minor) && PathParameter(component)
    requires PathParameter(file) && EndsWith(file, ".deb")
    ensures StartsWith(PublishPath("v1", p1, major, minor, component, file), Route)
    ensures ParsePath(PublishPath("v1", p1, major, minor, component, file))
         == Ok(PackageInfo(major, minor, component, file))
  {
    var path := PublishPath("v1", p1, major, minor, component, file);
    ParsePathRoundTrip("v1", p1, major, minor, component, file);
    var names := ["v1", p1, major, minor, component, file];
    var rest := JoinWith(names[2..], '/');
    assert JoinWith(names[1..], '/') == p1 + "/" + rest by {
      assert names[1..][1..] == names[2..];
    }
    assert path == "/v1/" + (p1 + "/" + rest);
    assert (p1 + "/" + rest)[..7] == "publish";
    assert path[..|Route|] == "/v1/" + (p1 + "/" + rest)[..7];
  }

  // ------------------------------------------------------------ build_target_dir

  /** The package name: the text of the file name before its first `_`. */
  function PackageName(file: string): string
  {
    Before(file, '_')
  }

  /** `build_target_dir`: `base/major/pool/minor/component/<package>`, refused
      when the file name has no `_` or nothing before its first one. */
  function BuildTargetDir(baseDir: string, info: PackageInfo): (r: Result<string>)
    ensures r.Ok? <==> '_' in info.file && info.file[0] != '_'
    ensures r.Err? ==> r.error == HttpException(FilenameMessage(info.file))
    ensures r.Ok? ==> EndsWith(r.value, PackageName(info.file))
  {
    var fileParts := Split(info.file, '_');
    SplitFirst(info.file, '_');
    if |fileParts| < 2 || fileParts[0] == "" then
      Err(HttpException(FilenameMessage(info.file)))
    else
      Ok(PathJoin(PathJoin(PathJoin(PathJoin(PathJoin(
           baseDir, info.majorDist), "pool"), info.minorDist), info.component), fileParts[0]))
  }

  /** With a base directory that does not end in `/` and parameters as parse_path
      returns them, the directory is the pool layout with single slashes. */
  lemma TargetDirLayout(baseDir: string, info: PackageInfo)
    requires baseDir != "" && baseDir[|baseDir| - 1] != '/'
    requires PlainName(info.majorDist) && PlainName(info.minorDist)
    requires PlainName(info.component) && '/' !in PackageName(info.file)
    requires '_' in info.file && info.file[0] != '_'
    ensures BuildTargetDir(baseDir, info)
         == Ok(baseDir + "/" + info.majorDist + "/pool/" + info.minorDist + "/"
               + info.component + "/" + PackageName(info.file))
  {
    var name := PackageName(info.file);
    assert name != [] by {
      assert info.file == [info.file[0]] + info.file[1..];
      assert name[0] == info.file[0];
    }
    assert Split(info.file, '_')[0] == name && |Split(info.file, '_')| >= 2 by {
      SplitFirst(info.file, '_');
    }
    assert BuildTargetDir(baseDir, info)
        == Ok(PathJoin(PathJoin(PathJoin(PathJoin(PathJoin(
                baseDir, info.majorDist), "pool"), info.minorDist), info.component), name));
    PoolJoins(baseDir, info.majorDist, info.minorDist, info.component, name);
  }

  /** The five joins of build_target_dir on names without slashes. */
  lemma PoolJoins(baseDir: string, major: string, minor: string, component: string, name: string)
    requires baseDir != "" && baseDir[|baseDir| - 1] != '/'
    requires PlainName(major) && PlainName(minor) && PlainName(component) && PlainName(name)
    ensures PathJoin(PathJoin(PathJoin(PathJoin(PathJoin(baseDir, major), "pool"), minor), component), name)
         == baseDir + "/" + major + "/pool/" + minor + "/" + component + "/" + name
  {
    var d1 := JoinName(baseDir, major);
    var d2 := JoinName(d1, "pool");
    var d3 := JoinName(d2, minor);
    var d4 := JoinName(d3, component);
    var d5 := JoinName(d4, name);
    assert d1 + "/" + "pool" + "/" == d1 + "/pool/";
  }

  /** One `os.path.join` step of build_target_dir, on a directory that does not
      end in `/` and a name without one. */
  lemma JoinName(dir: string, name: string) returns (joined: string)
    requires dir != "" && dir[|dir| - 1] != '/'
    requires name != "" && '/' !in name
    ensures joined == PathJoin(dir, name) == dir + "/" + name
    ensures joined != "" && joined[|joined| - 1] != '/'
  {
    PathJoinNames(dir, name);
    joined := dir + "/" + name;
    assert joined[|joined| - 1] == name[|name| - 1];
  }

  // ------------------------------------------------------------ store_post_data

  /** The staging file name. The format string `"{}.part-{}"` has two slots and
      is given the destination, the text `.part-` and a random number, so the
      random number never appears: every upload to one destination stages into
      the same file. */
  function StagingName(finalDestination: string): (name: string)
    ensures finalDestination < name
  {
    finalDestination + ".part-" + ".part-"
  }

  /** `store_post_data`: creates (or truncates) the staging file and copies
      `length` bytes of the body into it, asking for at most BufferSize bytes at
      a time. Reading stops after exactly `length` bytes. */
  method StorePostData(fs: FileTree, length: nat, input: BodyStream, finalDestination: string)
    returns (tempFileName: string)
    requires input.Valid() && length <= |input.pending|
    modifies fs, input
    ensures tempFileName == StagingName(finalDestination)
    ensures fs.files == old(fs.files)[tempFileName := old(input.pending)[..length]]
    ensures fs.dirs == old(fs.dirs)
    ensures input.Valid() && input.pending == old(input.pending)[length..]
    ensures forall i :: |old(input.requested)| <= i < |input.requested| ==>
              1 <= input.requested[i] <= BufferSize
    ensures |input.requested| >= |old(input.requested)|
    ensures length == 0 ==> input.requested == old(input.requested)
  {
    tempFileName := StagingName(finalDestination);
    fs.Create(tempFileName);
    var left: nat := length;
    var toRead := Min(left, BufferSize);
    while left != 0
      invariant left <= length
      invariant length <= |old(input.pending)|
      invariant toRead == Min(left, BufferSize)
      invariant input.Valid()
      invariant input.pending == old(input.pending)[length - left..]
      invariant fs.files == old(fs.files)[tempFileName := old(input.pending)[..length - left]]
      invariant fs.dirs == old(fs.dirs)
      invariant |input.requested| >= |old(input.requested)|
      invariant forall i :: |old(input.requested)| <= i < |input.requested| ==>
                  1 <= input.requested[i] <= BufferSize
      invariant left == length ==> input.requested == old(input.requested)
      decreases left
    {
      var buf := input.Read(toRead);
      assert old(input.pending)[..length - left] + buf
          == old(input.pending)[..length - left + |buf|];
      left := left - |buf|;
      toRead := Min(left, BufferSize);
      fs.Append(tempFileName, buf);
    }
  }

  // ------------------------------------------------------------ handle_request

  /** What the WSGI application hands back: the status line, the declared
      Content-length if one is sent, and the body. */
  datatype Reply = Reply(status: string, contentLength: Option<int>, body: string)

  /** A request either gets a reply or ends in an exception that escapes the
      handler (and so reaches the WSGI server). */
  datatype Handled = Responded(reply: Reply) | Escaped(error: Error)

  datatype Environ = Environ(pathInfo: string, requestMethod: string, contentLength: nat)

  const AcceptedReply: Reply := Reply("202 Accepted", None, "OK\n")

  /** The reply for an HttpException: the message is the status line, the body
      is the message without its status code, and the declared length is
      computed from the message. */
  function ErrorReply(message: string): (r: Reply)
    ensures r.status == message
    ensures |message| >= 4 ==> r.contentLength == Some(|r.body|)
    ensures |message| >= 4 ==> r.body == message[4..] + "\n"
  {
    Reply(message, Some(|message| - 3), SliceFrom(message, 4) + "\n")
  }

  /** The `except HttpException` clause: only that kind becomes a reply. */
  function Report(e: Error): (h: Handled)
    ensures h.Responded? <==> e.HttpException?
    ensures h.Escaped? ==> h.error == e
  {
    if e.HttpException? then Responded(ErrorReply(e.message)) else Escaped(e)
  }

  /** Where a request path leads: the target directory and the target file. */
  datatype Location = Location(dir: string, target: string)

  function Locate(baseDir: string, path: string): (r: Result<Location>)
    ensures r.Ok? ==> r.value.dir < r.value.target
    ensures r.Ok? ==> ParsePath(path).Ok? && '_' in ParsePath(path).value.file
  {
    match ParsePath(path)
    case Err(e) => Err(e)
    case Ok(info) =>
      match BuildTargetDir(baseDir, info)
      case Err(e) => Err(e)
      case Ok(dir) => Ok(Location(dir, PathJoin(dir, info.file)))
  }

  /** A well-formed publish path leads to `base/major/pool/minor/component/package`
      and to the file of that name inside it. */
  lemma LocateLayout(baseDir: string, major: string, minor: string, component: string, file: string)
    requires baseDir != "" && baseDir[|baseDir| - 1] != '/'
    requires PathParameter(major) && PathParameter(minor) && PathParameter(component)
    requires PathParameter(file) && EndsWith(file, ".deb") && '_' in file && file[0] != '_'
    ensures var dir := baseDir + "/" + major + "/pool/" + minor + "/" + component + "/" + PackageName(file);
            Locate(baseDir, PublishPath("v1", "publish", major, minor, component, file))
            == Ok(Location(dir, dir + "/" + file))
  {
    assert PathParameter("v1") && PathParameter("publish");
    ParsePathRoundTrip("v1", "publish", major, minor, component, file);
    var info := PackageInfo(major, minor, component, file);
    TargetDirLayout(baseDir, info);
    var dir := baseDir + "/" + major + "/pool/" + minor + "/" + component + "/" + PackageName(file);
    assert dir[|dir| - 1] == file[|PackageName(file)| - 1] by {
      assert PackageName(file) != "" && PackageName(file) <= file;
    }
    PathJoinNames(dir, file);
  }

  /** The route and method checks of `handle_request`. */
  predicate Admitted(env: Environ)
  {
    StartsWith(env.pathInfo, Route) && env.requestMethod == "POST"
  }

  class DrservServer {
    const baseDir: string
    const indexCommand: IndexCommand
    const fs: FileTree

    /** Creates the base directory when it is not there. */
    constructor (baseDir: string, indexCommand: IndexCommand, fs: FileTree)
      modifies fs
      ensures this.baseDir == baseDir && this.indexCommand == indexCommand && this.fs == fs
      ensures fs.files == old(fs.files)
      ensures fs.dirs == if old(fs.Exists(baseDir)) then old(fs.dirs) else old(fs.dirs) + Ancestry(baseDir)
    {
      this.baseDir := baseDir;
      this.indexCommand := indexCommand;
      this.fs := fs;
      new;
      if !fs.Exists(baseDir) {
        fs.MakeDirs(baseDir);
      }
    }

    /** The part of `handle_request` after the target is known: make the
        directory unless it exists, stage the body, refuse an existing target
        (removing the staging file) or rename the staging file onto it and run
        the index command. */
    method Publish(loc: Location, length: nat, input: BodyStream) returns (out: Handled)
      requires loc.dir < loc.target
      requires input.Valid() && length <= |input.pending|
      modifies fs, input, indexCommand
      ensures fs.dirs == if old(fs.Exists(loc.dir)) then old(fs.dirs) else old(fs.dirs) + Ancestry(loc.dir)
      ensures input.Valid() && input.pending == old(input.pending)[length..]
      ensures old(fs.Exists(loc.target)) ==>
                && fs.files == old(fs.files) - {StagingName(loc.target)}
                && indexCommand.calls == old(indexCommand.calls)
                && out == Responded(ErrorReply(OverwriteMessage(loc.target)))
      ensures !old(fs.Exists(loc.target)) ==>
                && fs.files == (old(fs.files) - {StagingName(loc.target)})[loc.target := old(input.pending)[..length]]
                && indexCommand.calls == old(indexCommand.calls) + 1
                && out == if indexCommand.succeeds then Responded(AcceptedReply) else Escaped(IndexCommandFailed)
    {
      if !fs.Exists(loc.dir) {
        fs.MakeDirs(loc.dir);
      }
      assert fs.Exists(loc.target) == old(fs.Exists(loc.target));
      var tempFileName := StorePostData(fs, length, input, loc.target);
      if fs.Exists(loc.target) {
        fs.Unlink(tempFileName);
        return Responded(ErrorReply(OverwriteMessage(loc.target)));
      }
      fs.Rename(tempFileName, loc.target);
      var ok := indexCommand.CheckCall();
      if !ok {
        return Escaped(IndexCommandFailed);
      }
      return Responded(AcceptedReply);
    }

    /** `handle_request` for a path already percent-decoded: 404 for another
        route, 405 for another method, then the path is parsed and the target
        located; a request turned away there leaves the file tree, the body and
        the index command alone. */
    method HandleRequest(env: Environ, input: BodyStream) returns (out: Handled)
      requires input.Valid()
      requires Admitted(env) && Locate(baseDir, env.pathInfo).Ok? ==> env.contentLength <= |input.pending|
      modifies fs, input, indexCommand
      ensures !StartsWith(env.pathInfo, Route) ==>
                out == Responded(ErrorReply(NotFoundMessage)) && unchanged(fs, input, indexCommand)
      ensures StartsWith(env.pathInfo, Route) && env.requestMethod != "POST" ==>
                out == Responded(ErrorReply(OnlyPostMessage)) && unchanged(fs, input, indexCommand)
      ensures Admitted(env) && Locate(baseDir, env.pathInfo).Err? ==>
                out == Report(Locate(baseDir, env.pathInfo).error) && unchanged(fs, input, indexCommand)
      ensures Admitted(env) && Locate(baseDir, env.pathInfo).Ok? ==>
                var loc := Locate(baseDir, env.pathInfo).value;
                && fs.dirs == (if old(fs.Exists(loc.dir)) then old(fs.dirs) else old(fs.dirs) + Ancestry(loc.dir))
                && input.Valid() && input.pending == old(input.pending)[env.contentLength..]
                && (old(fs.Exists(loc.target)) ==>
                      && fs.files == old(fs.files) - {StagingName(loc.target)}
                      && indexCommand.calls == old(indexCommand.calls)
                      && out == Responded(ErrorReply(OverwriteMessage(loc.target))))
                && (!old(fs.Exists(loc.target)) ==>
                      && fs.files == (old(fs.files) - {StagingName(loc.target)})
                                       [loc.target := old(input.pending)[..env.contentLength]]
                      && indexCommand.calls == old(indexCommand.calls) + 1
                      && out == if indexCommand.succeeds then Responded(AcceptedReply)
                                else Escaped(IndexCommandFailed))
    {
      var path := env.pathInfo;
      if !StartsWith(path, Route) {
        return Responded(ErrorReply(NotFoundMessage));
      }
      if env.requestMethod != "POST" {
        return Responded(ErrorReply(OnlyPostMessage));
      }
      var parsed := ParsePath(path);
      if parsed.Err? {
        return Report(parsed.error);
      }
      var info := parsed.value;
      var built := BuildTargetDir(baseDir, info);
      if built.Err? {
        return Report(built.error);
      }
      var targetDir := built.value;
      var target := PathJoin(targetDir, info.file);
      assert Locate(baseDir, path) == Ok(Location(targetDir, target));
      out := Publish(Location(targetDir, target), env.contentLength, input);
    }
  }
}
