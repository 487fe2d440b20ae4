# drserv publishing pipeline in Dafny

drserv takes Debian packages over HTTP and files them into an apt pool. There
are two server variants:

- A WSGI server (`drserv/server.py`). A POST to
  `/v1/publish/{major}/{minor}/{component}/{file}.deb` goes through these steps:
  - The path is checked by `parse_path`.
  - `build_target_dir` computes the pool directory
    `{base}/{major}/pool/{minor}/{component}/{package}`.
  - The body is streamed into a staging file next to the target.
  - An existing target is refused.
  - Otherwise the staging file is renamed onto the target and the index command runs.
- An aiohttp server (`drserv/async_server.py`). It gets the same fields from its
  router and reads the body whole. It refuses an existing target, or writes the
  body to it and runs the index command.

The model has five modules:

- `Text`: the parts of Python's `str` the path handling uses. This covers
  `split` on one character, `[x for x in parts if x]`, and the prefix before the
  first `_`.
- `FileSystem`: the file tree as a map of files to their bytes plus a set of
  directories. It includes `os.path.join`, and the effects of `os.makedirs`,
  `open`, `write`, `os.unlink` and `os.rename` as updates of those two
  collections.
- `Collaborators`: the request body and the index command.
  - The body is a stream whose reads may return fewer bytes than asked for.
  - The index command is a process with a fixed outcome and a call counter.
- `Server`: `parse_path`, `build_target_dir`, `store_post_data` and
  `handle_request`.
- `Async`: the route fields, the filename and target construction, `publish`,
  and the status choice of `endpoint`.

Some quirks of the source are modelled as written:

- The staging name is `target + ".part-.part-"`. The format string has two
  slots for three arguments, so the random number is dropped.
- The route check is a plain prefix test, so `/v1/publisher/...` is let through
  (`RouteIsPlainPrefix`).
- `parse_path` checks the `.deb` suffix (ValueError) before the segment count
  (HttpException).
- A path with no segments fails with IndexError.
- `parse_path` never looks at the first two segments.
- Only HttpException becomes a reply in `handle_request`. Every other exception,
  including a failing index command, escapes (`Handled.Escaped`).

## Model

| member | source | states |
|---|---|---|
| `Text.Split` | drserv/server.py:157 | `str.split` on one character yields at least one part, and a string without the separator is one part |
| `Text.SplitAtSeparator` | drserv/server.py:157 | splitting `x + sep + y` is splitting `x` followed by splitting `y` |
| `Text.SplitJoin` | drserv/server.py:157 | joining the parts of a split with the separator gives back the string |
| `Text.SplitJoinWith` | drserv/server.py:157 | splitting names joined by a separator they do not contain gives back the names |
| `Text.SplitFirst` | drserv/server.py:113-114 | the first part is the text before the first separator, and there are two or more parts exactly when the separator occurs |
| `Text.SplitPartChars` | drserv/server.py:157 | every part holds only characters of the string and never the separator |
| `Text.SplitHead` | drserv/server.py:113-114 | for `x` without the separator, `split` of `x + sep + y` has at least two parts and the first is `x` |
| `Text.Before` | drserv/server.py:113-114 | the package-name prefix is a prefix without `_`, and it stops at the first `_` when there is one |
| `Text.BeforeSeparator` | drserv/server.py:113-114 | the text before the first `_` of `x + "_" + y` is `x` when `x` has no `_` |
| `Text.NonEmpty` | drserv/server.py:157 | the comprehension keeps exactly the non-empty parts |
| `Text.NonEmptyConcat` | drserv/server.py:157 | filtering a concatenation is concatenating the filtered halves |
| `Text.NonEmptyKeepsNames` | drserv/server.py:157 | a list with no empty part passes the filter unchanged |
| `Text.SegmentsAreNames` | drserv/server.py:157 | every path segment is non-empty, has no `/` and only characters of the path |
| `Text.SegmentsAtSlash` | drserv/server.py:157 | the segments of `x/y` are those of `x` followed by those of `y` |
| `Text.SegmentsOfAbsolute` | drserv/server.py:157 | the segments of `/` followed by names joined with `/` are those names |
| `Text.SegmentsOfName` | drserv/server.py:157 | a name without `/` is one segment, or none when it is empty |
| `Text.Segments` | drserv/server.py:157 | definition, no contract: the non-empty `/`-separated segments of a path; stated by `SegmentsAreNames`, `SegmentsAtSlash` and `SegmentsOfAbsolute` |
| `Text.StartsWith` | drserv/server.py:71 | definition, no contract: `str.startswith` |
| `Text.EndsWith` | drserv/server.py:161 | definition, no contract: `str.endswith` |
| `Text.SliceFrom` | drserv/server.py:109 | `message[4:]` has length `len - 4`, or is empty for a shorter message |
| `FileSystem.PathJoin` | drserv/server.py:117-120 | `os.path.join`: an absolute component replaces the path, otherwise the path is a prefix of the result and the component ends it |
| `FileSystem.PathJoinNames` | drserv/server.py:117-120 | joining a relative name onto a path that does not end in `/` inserts exactly one `/` |
| `FileSystem.Ancestry` | drserv/server.py:83 | `os.makedirs` leaves the path itself and only non-empty prefixes of it as directories |
| `FileSystem.FileTree.Exists` | drserv/server.py:90 | definition, no contract: `os.path.exists` holds for a file or a directory |
| `FileSystem.FileTree.MakeDirs` | drserv/server.py:82-83 | the path and its ancestors become directories, and the files stay as they were |
| `FileSystem.FileTree.Create` | drserv/server.py:135 | opening for writing leaves an empty file at the path and changes nothing else |
| `FileSystem.FileTree.Append` | drserv/server.py:141 | a write appends its data to that file only |
| `FileSystem.FileTree.Unlink` | drserv/server.py:91 | the file is removed and nothing else changes |
| `FileSystem.FileTree.Rename` | drserv/server.py:94 | the bytes move to the target, replacing what was there, and the source is gone |
| `Collaborators.Min` | drserv/server.py:136 | `min` is the smaller of its arguments |
| `Collaborators.BodyStream.Delivered` | drserv/server.py:138 | a read returns no more than it asked for and no more than is pending |
| `Collaborators.BodyStream.Read` | drserv/server.py:138 | a read takes its bytes from the front of the body, in order, and takes at least one byte when it asks for some and some are pending |
| `Collaborators.BodyStream.ReadAll` | drserv/async_server.py:175 | reading the whole request takes all of the pending body |
| `Collaborators.IndexCommand.CheckCall` | drserv/server.py:98 | each call runs the index command once and fails exactly when the command fails |
| `Server.FirstBadChar` | drserv/server.py:152-155 | finds the first character outside 0x20-0x7E, or none exactly when all characters are in range |
| `Server.ParsePath` | drserv/server.py:145-167 | a success means a printable path and four printable, non-empty, `/`-free fields other than `..`, with the file ending in `.deb`; the only HttpException is the 400 about the path form |
| `Server.SegmentsArePrintable` | drserv/server.py:152-157 | the segments of a path that passes the character check pass it too |
| `Server.ParsePathRejectsBadChar` | drserv/server.py:152-155 | any out-of-range character makes parsing fail with the position of the first such character, before every other check |
| `Server.ParsePathRejectsTraversal` | drserv/server.py:157-160 | a `..` segment after a `/` in a printable path, in the middle or last, is refused with ValueError |
| `Server.ParsePathRejectsLeadingTraversal` | drserv/server.py:157-160 | a printable path whose first segment is `..` is refused with ValueError |
| `Server.ParsePathSuffixBeforeCount` | drserv/server.py:161-166 | a last segment without `.deb` gives ValueError whatever the segment count; with `.deb` and a count other than six it gives the 400 HttpException |
| `Server.PublishPathSegments` | drserv/server.py:157 | a path built from six names has exactly those six segments |
| `Server.ParsePathRoundTrip` | drserv/server.py:157-167 | a path built from valid parts parses to exactly the last four parts, whatever the first two are |
| `Server.PrintableJoin` | drserv/server.py:152-155 | joining printable names with `/` stays printable |
| `Server.ParsePathIgnoresRepeatedSlashes` | drserv/server.py:157 | doubling a slash does not change the result of parsing |
| `Server.ParsePathIgnoresTrailingSlash` | drserv/server.py:157 | a trailing slash on a printable path does not change the result of parsing |
| `Server.RoutedPathHasSegments` | drserv/server.py:157-161 | a path that passes the route check never hits the IndexError of `elements[-1]` |
| `Server.RouteIsPlainPrefix` | drserv/server.py:71 | a second segment that only starts with `publish` passes the route check and parses like `publish` |
| `Server.PackageName` | drserv/server.py:113-119 | definition, no contract: `file_parts[0]`, the text before the first `_`; stated by `Text.SplitFirst` and `Async.Filename` |
| `Server.BuildTargetDir` | drserv/server.py:111-120 | succeeds exactly when the file has a `_` and does not start with one; otherwise it is the 400 HttpException naming the file; a success ends with the package name |
| `Server.TargetDirLayout` | drserv/server.py:117-120 | with a non-empty base not ending in `/` the directory is `base/major/pool/minor/component/package` |
| `Server.PoolJoins` | drserv/server.py:117-120 | the five joins of slash-free names put exactly one `/` between the parts |
| `Server.StagingName` | drserv/server.py:132-134 | the staging name extends the target's name, so it is a different file next to it |
| `Server.StorePostData` | drserv/server.py:122-143 | the staging file holds exactly the first `length` bytes of the body, in order; every read asks for 1 to 8192 bytes; length 0 reads nothing and leaves an empty file; no directory changes |
| `Server.ErrorReply` | drserv/server.py:104-109 | an error reply has the message as status, the message without its code plus a newline as body, and a declared length equal to that body's length |
| `Server.Report` | drserv/server.py:104 | only an HttpException becomes a reply; any other error escapes unchanged |
| `Server.Locate` | drserv/server.py:75-84 | a located target lies strictly inside its directory, and locating succeeds only for a parsed path whose file has a `_` |
| `Server.LocateLayout` | drserv/server.py:75-84 | with a non-empty base not ending in `/`, a well-formed publish path leads to `base/major/pool/minor/component/package/file` |
| `Server.DrservServer.constructor` | drserv/server.py:55-60 | the base directory is created when it is not there, and no files change |
| `Server.DrservServer.Publish` | drserv/server.py:81-102 | for an existing target the staging file is removed, the target's bytes and the index count stay the same, and the reply is the 400 refusal; otherwise the target holds the staged bytes, the staging file is gone, the index command ran once, and the reply is 202 "OK\n" or the escaped index failure |
| `Server.DrservServer.HandleRequest` | drserv/server.py:68-109 | 404 for another route before the method is looked at, 405 for another method, a parse or layout error reported or escaped with nothing touched, whatever the declared Content-Length; otherwise the publish step, which alone needs the body to hold the declared length |
| `Async.RouteFields` | drserv/async_server.py:57-63 | definition, no contract: the route's character classes for major, minor, component and package, taken as what the router guarantees |
| `Async.Filename` | drserv/async_server.py:156 | the filename ends in `.deb` and its package name is the package field |
| `Async.TargetDir` | drserv/async_server.py:166-169 | the target directory extends the base directory and ends in `/` |
| `Async.Target` | drserv/async_server.py:177 | the target is the directory followed directly by the filename |
| `Async.TargetLayout` | drserv/async_server.py:156-177 | the upload is stored at `base/major/pool/minor/component/package/package_version.deb` |
| `Async.AgreesWithBuildTargetDir` | drserv/async_server.py:156-177 | for route fields, build_target_dir of the same file gives the same directory and the same target |
| `Async.Wrap` | drserv/async_server.py:114-127 | a (body, code) result is sent with that code, a bare body with 200, and the body is kept |
| `Async.AsyncServer.constructor` | drserv/async_server.py:53-54 | the base directory is created when it is not there, and no files change |
| `Async.AsyncServer.Publish` | drserv/async_server.py:154-188 | the target directory is made; the body is drained on every path; an existing target's bytes stay unchanged with no index call and the 400 "Target already exists" result; otherwise the target holds exactly the body, the index command ran once, and the result is ("OK", 202) or the raised failure |
| `Async.PublishStatus` | drserv/async_server.py:124-127 | the duplicate result goes out as 400 naming the target, and a successful one as 202 "OK" |

## Left out

- Authentication: the crtauth middleware and the auth server are a foreign library.
- Server setup: the wsgiref and aiohttp setup, the event loop and coroutines are transport plumbing. The body is read by a method call.
- aiohttp route matching is library code. `Async.MatchInfo` is taken as input that satisfies the route's character classes (`RouteFields`). The version field's pattern belongs to the library and is not constrained.
- Percent-decoding: `urllib.unquote` is library code. Paths are taken as already decoded.
- The type check at drserv/server.py:150-151: the Dafny types enforce it.
- The SHA-256 digest of the stored data: it is only logged.
- Logging and terminal colouring, including the `code >= 400` colour choice in `endpoint`.
- Configuration and start-up: `main`, `read_config`, `fail` and `setup_logging`. `drserv/client.py` and `setup.py` are not part of this model.
- The index command is a process the model cannot see. Only whether it succeeds (fixed per command) and how often it runs are modelled.
- An exception that escapes `handle_request` or `publish` turns into a 500 in the surrounding server. The model stops at the escaped error.
- Concurrent uploads are not modelled. The model runs one request at a time, so two uploads staging into the same fixed staging name cannot collide.
- Filesystem failures are not modelled: permissions, a full disk, a file where a directory is expected, and `makedirs` racing another process.
- Content-Length: the `int()` conversion of the `CONTENT_LENGTH` header is not modelled. The length is a natural number, so negative and malformed values are not modelled.
- `Server.StorePostData` requires the body to hold at least `length` bytes and every read to return at least one byte when bytes are pending. A shorter body makes the source loop forever on empty reads; the model does not capture that non-termination.
- Multipart decoding: `request.post()` and `file_data['file'].file.read()` are modelled as reading the raw body.
- Bytes and encoding: response bodies stay strings; the `.encode()` to bytes is not modelled.
- Response headers: of the WSGI server's headers, `Server.Reply` keeps only the Content-length and drops the Content-type `text/plain`; of the aiohttp server's headers, `Async.Response` keeps only the content type.
- Async.AgreesWithBuildTargetDir: holds only for a base directory that is non-empty and does not end in `/`. The file tree is keyed by path strings that are never normalised, so `//`, `.` segments and a trailing `/` name different entries in the model although the real filesystem resolves them to the same place. With base `/srv/`, for example, the two servers compute `/srv//a/...` and `/srv/a/...`, which the model treats as different files.
