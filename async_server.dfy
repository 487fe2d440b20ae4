/** The aiohttp server of drserv (drserv/async_server.py): the router hands
    `publish` the fields of `/v1/publish/{major}/{minor}/{component}/{package}_{version}.deb`;
    the body is read whole, a target that is already there is refused, otherwise
    the body is written to `{base}/{major}/pool/{minor}/{component}/{package}/{package}_{version}.deb`
    and the index command runs. `endpoint` turns what the handler returns into a
    response. */
module Async {
  import opened Text
  import opened FileSystem
  import opened Collaborators
  import Server

  /** `request.match_info`: the fields the router extracted from the path. */
  datatype MatchInfo = MatchInfo(major: string, minor: string, component: string,
                                 package: string, version: string)

  predicate Lower(c: char)
  {
    'a' <= c <= 'z'
  }

  /** The character classes of the route: `[a-z]+` for the two distributions,
      `[a-z-]+` for the component, `[^/_]+` for the package. The version is
      matched by the router's default pattern, which is not constrained here. */
  predicate RouteFields(m: MatchInfo)
  {
    && m.major != "" && (forall c :: c in m.major ==> Lower(c))
    && m.minor != "" && (forall c :: c in m.minor ==> Lower(c))
    && m.component != "" && (forall c :: c in m.component ==> Lower(c) || c == '-')
    && m.package != "" && '/' !in m.package && '_' !in m.package
  }

  /** The uploaded file's name, `{package}_{version}.deb`: its package name
      (the text before the first `_`) is the package field. */
  function Filename(m: MatchInfo): (name: string)
    ensures '_' !in m.package ==> Server.PackageName(name) == m.package
    ensures EndsWith(name, ".deb") && m.package <= name
  {
    var name := m.package + "_" + m.version + ".deb";
    assert m.package + "_" + (m.version + ".deb") == name;
    assert '_' !in m.package ==> Before(name, '_') == m.package by {
      if '_' !in m.package {
        BeforeSeparator(m.package, m.version + ".deb", '_');
      }
    }
    assert name[|name| - 4..] == ".deb";
    name
  }

  /** The target directory, formatted with a trailing `/`. */
  function TargetDir(baseDir: string, m: MatchInfo): (dir: string)
    ensures baseDir <= dir && |dir| > 0 && dir[|dir| - 1] == '/'
  {
    baseDir + "/" + m.major + "/pool/" + m.minor + "/" + m.component + "/" + m.package + "/"
  }

  /** `os.path.join(target_dir, filename)`: since the directory ends in `/` and
      the file name does not start with one, the name is simply appended. */
  function Target(baseDir: string, m: MatchInfo): (target: string)
    requires RouteFields(m)
    ensures target == TargetDir(baseDir, m) + Filename(m)
    ensures TargetDir(baseDir, m) < target
  {
    var name := Filename(m);
    assert name[0] == m.package[0] != '/';
    PathJoin(TargetDir(baseDir, m), name)
  }

  /** The stored file sits at `base/major/pool/minor/component/package/package_version.deb`. */
  lemma TargetLayout(baseDir: string, m: MatchInfo)
    requires RouteFields(m)
    ensures Target(baseDir, m)
         == baseDir + "/" + m.major + "/pool/" + m.minor + "/" + m.component + "/"
            + m.package + "/" + m.package + "_" + m.version + ".deb"
  {
  }

  /** Both servers put an upload in the same place: the directory build_target_dir
      computes for the same file name is the target directory without its
      trailing `/`, and joining the file name onto either gives the same target. */
  lemma AgreesWithBuildTargetDir(baseDir: string, m: MatchInfo)
    requires baseDir != "" && baseDir[|baseDir| - 1] != '/'
    requires RouteFields(m)
    ensures var info := Server.PackageInfo(m.major, m.minor, m.component, Filename(m));
            && var dir := TargetDir(baseDir, m);
            && Server.BuildTargetDir(baseDir, info) == Server.Ok(dir[..|dir| - 1])
            && PathJoin(dir[..|dir| - 1], Filename(m)) == Target(baseDir, m)
  {
    var name := Filename(m);
    var info := Server.PackageInfo(m.major, m.minor, m.component, name);
    var dir := TargetDir(baseDir, m);
    assert '_' in name && name[0] != '_' by {
      assert name[|m.package|] == '_';
      assert name[0] == m.package[0];
    }
    Server.TargetDirLayout(baseDir, info);
    assert dir[..|dir| - 1] + "/" == dir;
    PathJoinNames(dir[..|dir| - 1], name);
  }

  /** What a handler returns: a body alone, or a body with a status code. */
  datatype HandlerReturn = Body(body: string) | BodyAndStatus(body: string, code: int)

  datatype Response = Response(body: string, status: int, contentType: string)

  /** The status choice of `endpoint`'s wrapper: a (body, code) pair uses its
      code, a bare body is sent with 200; the body is kept and sent as plain text. */
  function Wrap(ret: HandlerReturn): (r: Response)
    ensures r.body == ret.body && r.contentType == "text/plain"
    ensures ret.BodyAndStatus? ==> r.status == ret.code
    ensures ret.Body? ==> r.status == 200
  {
    var code := if ret.BodyAndStatus? then ret.code else 200;
    Response(ret.body, code, "text/plain")
  }

  /** `publish` either returns or raises CalledProcessError from the index command. */
  datatype Published = Returned(ret: HandlerReturn) | Raised

  function DuplicateReturn(target: string): HandlerReturn
  {
    BodyAndStatus("Target already exists: " + target, 400)
  }

  const AcceptedReturn: HandlerReturn := BodyAndStatus("OK", 202)

  class AsyncServer {
    const baseDir: string
    const indexCommand: IndexCommand
    const fs: FileTree

    /** Creates the base directory when it is not there. */
    constructor (baseDir: string, indexCommand: IndexCommand, fs: FileTree)
      modifies fs
      ensures this.baseDir == baseDir && this.indexCommand == indexCommand && this.fs == fs
      ensures fs.files == old(fs.files)
      ensures fs.dirs == if old(fs.Exists(baseDir)) then old(fs.dirs) else old(fs.dirs) + Ancestry(baseDir)
    {
      this.baseDir := baseDir;
      this.indexCommand := indexCommand;
      this.fs := fs;
      new;
      if !fs.Exists(baseDir) {
        fs.MakeDirs(baseDir);
      }
    }

    /** `publish`: make the target directory (an existing one is fine), read the
        whole body, then refuse an existing target, or write the body to it and
        run the index command. The body is drained on every path, and a refused
        upload leaves every file as it was. */
    method Publish(m: MatchInfo, request: BodyStream) returns (out: Published)
      requires RouteFields(m)
      modifies fs, request, indexCommand
      ensures fs.dirs == old(fs.dirs) + Ancestry(TargetDir(baseDir, m))
      ensures request.pending == []
      ensures old(fs.Exists(Target(baseDir, m))) ==>
                && fs.files == old(fs.files)
                && indexCommand.calls == old(indexCommand.calls)
                && out == Returned(DuplicateReturn(Target(baseDir, m)))
      ensures !old(fs.Exists(Target(baseDir, m))) ==>
                && fs.files == old(fs.files)[Target(baseDir, m) := old(request.pending)]
                && indexCommand.calls == old(indexCommand.calls) + 1
                && out == if indexCommand.succeeds then Returned(AcceptedReturn) else Raised
    {
      var targetDir := TargetDir(baseDir, m);
      var target := Target(baseDir, m);
      fs.MakeDirs(targetDir);
      assert target !in Ancestry(targetDir);
      var fileData := request.ReadAll();
      if fs.Exists(target) {
        return Returned(DuplicateReturn(target));
      }
      assert fs.files == old(fs.files);
      fs.Create(target);
      fs.Append(target, fileData);
      assert fs.files[target] == fileData;
      assert fs.files == old(fs.files)[target := fileData];
      var ok := indexCommand.CheckCall();
      if !ok {
        return Raised;
      }
      return Returned(AcceptedReturn);
    }
  }

  /** The response a publish call ends in: 400 with the target named for a
      duplicate, 202 "OK" for a new upload whose index command succeeded. */
  lemma PublishStatus(target: string)
    ensures Wrap(DuplicateReturn(target)) == Response("Target already exists: " + target, 400, "text/plain")
    ensures Wrap(AcceptedReturn) == Response("OK", 202, "text/plain")
  {
  }
}
