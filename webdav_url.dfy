/**
 * Where the host database lives on a WebDAV server (src-tauri/src/webdav_url.rs):
 * the configured URL either already names the file, or names a folder to which the
 * file name (and an optional sub-folder) is added as path segments, in the sense of
 * section 3.3 of RFC 3986.
 *
 * The `url` crate's `Url` is modelled as a value: the text before the path (scheme and
 * authority), the path, and the text after it (query and fragment). `Url::parse` is a
 * parameter of the functions, a total function that may answer with an error.
 */
module WebDavUrl {
  import opened Wrappers
  import opened Strings

  /** A path: its segments, or the opaque text of a URL that cannot be a base (`mailto:x`). */
  datatype UrlPath = Segments(segs: seq<string>) | Opaque(text: string)

  datatype Url = Url(head: string, path: UrlPath, tail: string)

  /** `Url::parse`: a URL, or the parser's error message. */
  type Parser = string -> Result<Url, string>

  /** The text of a segment path: a slash before each segment. */
  function PathText(segs: seq<string>): string {
    if segs == [] then [] else PathText(segs[..|segs| - 1]) + "/" + segs[|segs| - 1]
  }

  /** `url.path()`. */
  function PathOf(u: Url): string {
    match u.path
    case Segments(segs) => PathText(segs)
    case Opaque(text) => text
  }

  /** `url.to_string()`. */
  function Serialize(u: Url): string {
    u.head + PathOf(u) + u.tail
  }

  /** `path.rsplit('/').next()`: the text after the last slash, or all of it when there is none. */
  function LastSegment(p: string): (r: string)
    ensures '/' !in r
    ensures |r| <= |p| && r == p[|p| - |r|..]
    ensures |r| < |p| ==> p[|p| - |r| - 1] == '/'
  {
    if p == [] || p[|p| - 1] == '/' then [] else LastSegment(p[..|p| - 1]) + [p[|p| - 1]]
  }

  predicate EndsWith(s: string, suffix: string) {
    |suffix| <= |s| && s[|s| - |suffix|..] == suffix
  }

  lemma EndsWithConcat(s: string, suffix: string)
    ensures EndsWith(s + suffix, suffix)
  {
    assert (s + suffix)[|s|..] == suffix;
  }

  /** A last segment that names a database file rather than a folder. */
  predicate LooksLikeFile(seg: string) {
    EndsWith(seg, ".db") || EndsWith(seg, ".json") || EndsWith(seg, ".sqlite")
  }

  /*
   * The `url` crate's `PathSegmentsMut`, on the segment list. The path "/" is the single
   * empty segment; a URL without a path (possible for schemes the crate does not know)
   * has none.
   */

  /** `pop_if_empty`: drops a trailing empty segment, unless it is the whole path "/". */
  function PopIfEmpty(segs: seq<string>): seq<string> {
    if |segs| >= 2 && segs[|segs| - 1] == [] then segs[..|segs| - 1] else segs
  }

  /** `pop`: drops the last segment; a single segment leaves the path "/". */
  function Pop(segs: seq<string>): seq<string> {
    if |segs| >= 2 then segs[..|segs| - 1] else if segs == [] then [] else [[]]
  }

  /**
   * `push`: appends a segment, except that "." and ".." are skipped and that on the
   * path "/" (or on no path) the segment takes the place of the empty one.
   */
  function Push(segs: seq<string>, s: string): seq<string> {
    if s == "." || s == ".." then segs
    else if segs == [] || segs == [[]] then [s]
    else segs + [s]
  }

  const NotConfigured := "WebDAV URL not configured"
  const CannotModify := "Invalid WebDAV URL (cannot modify path)"

  function Invalid(e: string): string {
    "Invalid WebDAV URL: " + e
  }

  /** `webdav_resolve_url`, giving the URL value before it is written out. */
  function ResolveUrlValue(input: string, filename: string, parse: Parser): Result<Url, string> {
    var raw := Trim(input);
    if raw == [] then Err(NotConfigured) else ResolveParsed(parse(raw), filename)
  }

  function ResolveParsed(parsed: Result<Url, string>, filename: string): Result<Url, string> {
    match parsed
    case Err(e) => Err(Invalid(e))
    case Ok(url) => ResolveIn(url, filename)
  }

  /** The parsed URL, unless it already names the file: its segments edited by `FileSegments`. */
  function ResolveIn(url: Url, filename: string): Result<Url, string> {
    var path := PathOf(url);
    var last := LastSegment(path);
    if last == filename then Ok(url)
    else match url.path
      case Opaque(_) => Err(CannotModify)
      case Segments(segs) =>
        Ok(url.(path := Segments(FileSegments(segs, EndsWith(path, "/") || last == [], LooksLikeFile(last), filename))))
  }

  /**
   * A folder URL (ending in a slash, or with an empty last segment) loses its trailing empty
   * segment; a file-like one loses its last segment; then the file name is pushed.
   */
  function FileSegments(segs: seq<string>, folderLike: bool, fileLike: bool, filename: string): seq<string> {
    if folderLike then Push(PopIfEmpty(segs), filename)
    else Push(if fileLike then Pop(segs) else segs, filename)
  }

  function Written(r: Result<Url, string>): Result<string, string> {
    match r
    case Ok(u) => Ok(Serialize(u))
    case Err(e) => Err(e)
  }

  /** `webdav_resolve_url`. */
  function ResolveUrl(input: string, filename: string, parse: Parser): Result<string, string> {
    Written(ResolveUrlValue(input, filename, parse))
  }

  /** `trim_start_matches('/')`. */
  function TrimSlashStart(s: string): (r: string)
    ensures |r| <= |s| && r == s[|s| - |r|..]
    ensures forall k :: 0 <= k < |s| - |r| ==> s[k] == '/'
    ensures r == [] || r[0] != '/'
  {
    if s != [] && s[0] == '/' then TrimSlashStart(s[1..]) else s
  }

  /** `trim_end_matches('/')`. */
  function TrimSlashEnd(s: string): (r: string)
    ensures |r| <= |s| && r == s[..|r|]
    ensures forall k :: |r| <= k < |s| ==> s[k] == '/'
    ensures r == [] || r[|r| - 1] != '/'
  {
    if s != [] && s[|s| - 1] == '/' then TrimSlashEnd(s[..|s| - 1]) else s
  }

  /** `folder.unwrap_or("").trim().trim_matches('/')`. */
  function FolderName(folder: Option<string>): (r: string)
    ensures r == [] || (r[0] != '/' && r[|r| - 1] != '/')
  {
    var t := TrimSlashStart(Trim(folder.GetOr([])));
    var r := TrimSlashEnd(t);
    assert r != [] ==> r[0] == t[0];
    r
  }

  /** `webdav_resolve_url_with_folder`, giving the URL value before it is written out. */
  function ResolveUrlWithFolderValue(input: string, folder: Option<string>, filename: string, parse: Parser)
    : Result<Url, string>
  {
    var raw := Trim(input);
    if raw == [] then Err(NotConfigured)
    else FolderParsed(raw, parse(raw), FolderName(folder), filename, parse)
  }

  /** A file-like URL is resolved afresh without the folder; so is the source's second parse. */
  function FolderParsed(raw: string, parsed: Result<Url, string>, f: string, filename: string, parse: Parser)
    : Result<Url, string>
  {
    match parsed
    case Err(e) => Err(Invalid(e))
    case Ok(url) =>
      if LooksLikeFile(LastSegment(PathOf(url))) then ResolveUrlValue(raw, filename, parse)
      else FolderIn(url, f, filename)
  }

  function FolderIn(url: Url, f: string, filename: string): Result<Url, string> {
    match url.path
    case Opaque(_) => Err(CannotModify)
    case Segments(segs) => Ok(url.(path := Segments(FolderSegments(segs, f, filename))))
  }

  /** The trailing empty segment dropped, then the folder name when there is one, then the file name. */
  function FolderSegments(segs: seq<string>, f: string, filename: string): seq<string> {
    var base := PopIfEmpty(segs);
    Push(if f != [] then Push(base, f) else base, filename)
  }

  /** `webdav_resolve_url_with_folder`. */
  function ResolveUrlWithFolder(input: string, folder: Option<string>, filename: string, parse: Parser)
    : Result<string, string>
  {
    Written(ResolveUrlWithFolderValue(input, folder, filename, parse))
  }

  /** `webdav_resolve_url`, editing the parsed URL in place and returning early. */
  method WebdavResolveUrl(input: string, filename: string, parse: Parser) returns (r: Result<string, string>)
    ensures r == ResolveUrl(input, filename, parse)
  {
    var raw := Trim(input);
    if raw == [] {
      return Err(NotConfigured);
    }
    var parsed := parse(raw);
    if parsed.Err? {
      return Err(Invalid(parsed.error));
    }
    var url := parsed.value;
    var path := PathOf(url);
    var last := LastSegment(path);
    if last == filename {
      return Ok(Serialize(url));
    }
    if url.path.Opaque? {
      return Err(CannotModify);
    }
    var segs := url.path.segs;
    if EndsWith(path, "/") || last == [] {
      segs := PopIfEmpty(segs);
      segs := Push(segs, filename);
      url := url.(path := Segments(segs));
      return Ok(Serialize(url));
    }
    if LooksLikeFile(last) {
      segs := Pop(segs);
    }
    segs := Push(segs, filename);
    url := url.(path := Segments(segs));
    r := Ok(Serialize(url));
  }

  /** `webdav_resolve_url_with_folder`, parsing twice as the source does. */
  method WebdavResolveUrlWithFolder(input: string, folder: Option<string>, filename: string, parse: Parser)
    returns (r: Result<string, string>)
    ensures r == ResolveUrlWithFolder(input, folder, filename, parse)
  {
    var raw := Trim(input);
    if raw == [] {
      return Err(NotConfigured);
    }
    var f := FolderName(folder);
    r := ResolveTrimmedWithFolder(raw, f, filename, parse);
  }

  /** The folder resolver from the first parse of the trimmed text on. */
  method ResolveTrimmedWithFolder(raw: string, f: string, filename: string, parse: Parser)
    returns (r: Result<string, string>)
    ensures r == Written(FolderParsed(raw, parse(raw), f, filename, parse))
  {
    var first := parse(raw);
    if first.Err? {
      return Err(Invalid(first.error));
    }
    if LooksLikeFile(LastSegment(PathOf(first.value))) {
      r := WebdavResolveUrl(raw, filename, parse);
      return;
    }
    // The second parse of the same text gives the same URL.
    r := PushFolderAndFile(parse(raw).value, f, filename);
  }

  /** The folder-like branch: the trailing empty segment dropped, the folder and the file name pushed. */
  method PushFolderAndFile(url: Url, f: string, filename: string) returns (r: Result<string, string>)
    ensures r == Written(FolderIn(url, f, filename))
  {
    if url.path.Opaque? {
      return Err(CannotModify);
    }
    var segs := PopIfEmpty(url.path.segs);
    if f != [] {
      segs := Push(segs, f);
    }
    segs := Push(segs, filename);
    var resolved := url.(path := Segments(segs));
    r := Ok(Serialize(resolved));
  }

  // ---------------------------------------------------------------------------
  // Properties
  // ---------------------------------------------------------------------------

  /** A file name `push` stores as one last segment. */
  predicate PlainName(name: string) {
    name != "." && name != ".." && '/' !in name
  }

  /** No empty segment before the last one: the path holds no `//`. */
  predicate NoEmptyInner(segs: seq<string>) {
    forall k :: 0 <= k < |segs| - 1 ==> segs[k] != []
  }

  /** The segment pushed last is what `rsplit('/')` reads back. */
  lemma {:induction false} LastSegmentAfterSlash(p: string, s: string)
    requires '/' !in s
    ensures LastSegment(p + "/" + s) == s
    decreases |s|
  {
    if s == [] {
      assert (p + "/" + s)[|p + "/" + s| - 1] == '/';
    } else {
      var init := s[..|s| - 1];
      assert (p + "/" + s)[..|p + "/" + s| - 1] == p + "/" + init;
      LastSegmentAfterSlash(p, init);
      assert init + [s[|s| - 1]] == s;
    }
  }

  /** The last segment of a segment path, read from its text. */
  lemma LastSegmentOfPath(segs: seq<string>)
    requires segs != [] && '/' !in segs[|segs| - 1]
    ensures LastSegment(PathText(segs)) == segs[|segs| - 1]
  {
    LastSegmentAfterSlash(PathText(segs[..|segs| - 1]), segs[|segs| - 1]);
  }

  lemma LastSegmentPushed(segs: seq<string>, name: string)
    requires PlainName(name)
    ensures LastSegment(PathText(Push(segs, name))) == name
  {
    LastSegmentOfPath(Push(segs, name));
  }

  /** A path ending in a slash has an empty last segment, so the first test in `ResolveIn` is redundant. */
  lemma SlashEndEmptyLast(p: string)
    requires EndsWith(p, "/")
    ensures LastSegment(p) == []
  {
    assert p[|p| - 1] == '/';
  }

  lemma ErrorsDiffer(e: string)
    ensures Invalid(e) != NotConfigured && CannotModify != NotConfigured
  {
    assert Invalid(e)[0] != NotConfigured[0];
    assert CannotModify[0] != NotConfigured[0];
  }

  /** Once a URL is parsed, the only error is "cannot modify path". */
  lemma ResolveInErrors(url: Url, filename: string)
    ensures ResolveIn(url, filename).Err? ==> ResolveIn(url, filename).error == CannotModify
  {
  }

  lemma FolderInErrors(url: Url, f: string, filename: string)
    ensures FolderIn(url, f, filename).Err? ==> FolderIn(url, f, filename).error == CannotModify
  {
  }

  /** `webdav_resolve_url` fails with "WebDAV URL not configured" exactly when the input is blank. */
  lemma ResolveUrlBlank(input: string, filename: string, parse: Parser)
    ensures ResolveUrlValue(input, filename, parse) == Err(NotConfigured) <==> IsBlank(input)
  {
    var raw := Trim(input);
    if raw != [] {
      match parse(raw)
      case Err(e) => ErrorsDiffer(e);
      case Ok(url) => ResolveInErrors(url, filename); ErrorsDiffer([]);
    }
  }

  /** And so does `webdav_resolve_url_with_folder`. */
  lemma ResolveUrlWithFolderBlank(input: string, folder: Option<string>, filename: string, parse: Parser)
    ensures ResolveUrlWithFolderValue(input, folder, filename, parse) == Err(NotConfigured) <==> IsBlank(input)
  {
    var raw := Trim(input);
    if raw != [] {
      match parse(raw)
      case Err(e) => ErrorsDiffer(e);
      case Ok(url) =>
        if LooksLikeFile(LastSegment(PathOf(url))) {
          TrimIdempotent(input);
          ResolveUrlBlank(raw, filename, parse);
        } else {
          FolderInErrors(url, FolderName(folder), filename);
          ErrorsDiffer([]);
        }
    }
  }

  /** An unparsable URL fails with the parser's message, in both resolvers. */
  lemma ResolveUrlInvalid(input: string, folder: Option<string>, filename: string, parse: Parser, e: string)
    requires !IsBlank(input) && parse(Trim(input)) == Err(e)
    ensures ResolveUrlValue(input, filename, parse) == Err(Invalid(e))
    ensures ResolveUrlWithFolderValue(input, folder, filename, parse) == Err(Invalid(e))
  {
  }

  /** A URL whose last segment already is the file name is given back as parsed. */
  lemma ResolveUrlKeepsNamedFile(input: string, filename: string, parse: Parser, u: Url)
    requires !IsBlank(input) && parse(Trim(input)) == Ok(u)
    requires LastSegment(PathOf(u)) == filename
    ensures ResolveUrlValue(input, filename, parse) == Ok(u)
  {
  }

  /** An opaque URL that does not already end in the file name cannot be resolved. */
  lemma ResolveUrlOpaque(input: string, filename: string, parse: Parser, u: Url)
    requires !IsBlank(input) && parse(Trim(input)) == Ok(u) && u.path.Opaque?
    ensures ResolveUrlValue(input, filename, parse)
      == (if LastSegment(u.path.text) == filename then Ok(u) else Err(CannotModify))
  {
  }

  /** The segments `FileSegments` leaves on a path without `//`. */
  lemma FileSegmentsOf(segs: seq<string>, filename: string)
    requires segs != [] && NoEmptyInner(segs) && PlainName(filename)
    ensures var last := segs[|segs| - 1];
      FileSegments(segs, last == [], LooksLikeFile(last), filename)
      == if last == [] || LooksLikeFile(last) then segs[..|segs| - 1] + [filename] else segs + [filename]
  {
    var init := segs[..|segs| - 1];
    if |segs| >= 2 {
      assert init[0] != [] && init != [[]];
    }
  }

  /**
   * On a segment path without `//` the file name replaces an empty or file-like last
   * segment, and is appended after any other one; the rest of the URL is kept.
   */
  lemma ResolveUrlSegments(input: string, filename: string, parse: Parser, u: Url)
    requires !IsBlank(input) && parse(Trim(input)) == Ok(u)
    requires u.path.Segments? && u.path.segs != [] && NoEmptyInner(u.path.segs)
    requires '/' !in u.path.segs[|u.path.segs| - 1] && PlainName(filename)
    ensures var segs := u.path.segs;
      var last := segs[|segs| - 1];
      ResolveUrlValue(input, filename, parse) == Ok(u.(path := Segments(
        if last == filename then segs
        else if last == [] || LooksLikeFile(last) then segs[..|segs| - 1] + [filename]
        else segs + [filename])))
  {
    var segs := u.path.segs;
    var path := PathText(segs);
    LastSegmentOfPath(segs);
    if EndsWith(path, "/") {
      SlashEndEmptyLast(path);
    }
    FileSegmentsOf(segs, filename);
  }

  /** On success the last path segment of the result is the file name. */
  lemma ResolveInEndsInFile(url: Url, filename: string)
    requires PlainName(filename)
    ensures ResolveIn(url, filename).Ok? ==> LastSegment(PathOf(ResolveIn(url, filename).value)) == filename
  {
    var path := PathOf(url);
    var last := LastSegment(path);
    if last != filename && url.path.Segments? {
      var segs := url.path.segs;
      var folderLike := EndsWith(path, "/") || last == [];
      var before := if folderLike then PopIfEmpty(segs) else if LooksLikeFile(last) then Pop(segs) else segs;
      assert FileSegments(segs, folderLike, LooksLikeFile(last), filename) == Push(before, filename);
      LastSegmentPushed(before, filename);
    }
  }

  lemma ResolveUrlEndsInFile(input: string, filename: string, parse: Parser)
    requires PlainName(filename)
    ensures var r := ResolveUrlValue(input, filename, parse);
      r.Ok? ==> LastSegment(PathOf(r.value)) == filename
  {
    var raw := Trim(input);
    if raw != [] && parse(raw).Ok? {
      ResolveInEndsInFile(parse(raw).value, filename);
    }
  }

  /** A URL naming a file ignores the folder and resolves as without one. */
  lemma ResolveUrlWithFolderFileUrl(input: string, folder: Option<string>, filename: string, parse: Parser, u: Url)
    requires !IsBlank(input) && parse(Trim(input)) == Ok(u)
    requires LooksLikeFile(LastSegment(PathOf(u)))
    ensures ResolveUrlWithFolderValue(input, folder, filename, parse) == ResolveUrlValue(input, filename, parse)
  {
    TrimIdempotent(input);
  }

  /** The segments `FolderSegments` leaves on a path without `//`. */
  lemma FolderSegmentsOf(segs: seq<string>, f: string, filename: string)
    requires segs != [] && NoEmptyInner(segs) && PlainName(filename)
    ensures var last := segs[|segs| - 1];
      FolderSegments(segs, f, filename)
      == (if last == [] then segs[..|segs| - 1] else segs)
         + (if f != [] && f != "." && f != ".." then [f] else [])
         + [filename]
  {
    var last := segs[|segs| - 1];
    var init := segs[..|segs| - 1];
    if |segs| >= 2 {
      assert init[0] != [] && init != [[]];
    }
    var base := if last == [] then init else segs;
    assert PopIfEmpty(segs) == (if base == [] then [[]] else base);
  }

  /**
   * A folder URL on a segment path without `//`: its segments without a trailing empty
   * one, then the trimmed folder name when there is one, then the file name; the rest of
   * the URL is kept.
   */
  lemma ResolveUrlWithFolderSegments(input: string, folder: Option<string>, filename: string, parse: Parser, u: Url)
    requires !IsBlank(input) && parse(Trim(input)) == Ok(u)
    requires u.path.Segments? && u.path.segs != [] && NoEmptyInner(u.path.segs)
    requires '/' !in u.path.segs[|u.path.segs| - 1] && PlainName(filename)
    requires !LooksLikeFile(u.path.segs[|u.path.segs| - 1])
    ensures var segs := u.path.segs;
      var last := segs[|segs| - 1];
      var f := FolderName(folder);
      ResolveUrlWithFolderValue(input, folder, filename, parse) == Ok(u.(path := Segments(
        (if last == [] then segs[..|segs| - 1] else segs)
        + (if f != [] && f != "." && f != ".." then [f] else [])
        + [filename])))
  {
    LastSegmentOfPath(u.path.segs);
    FolderSegmentsOf(u.path.segs, FolderName(folder), filename);
  }

  lemma ResolveUrlWithFolderEndsInFile(input: string, folder: Option<string>, filename: string, parse: Parser)
    requires PlainName(filename)
    ensures var r := ResolveUrlWithFolderValue(input, folder, filename, parse);
      r.Ok? ==> LastSegment(PathOf(r.value)) == filename
  {
    var raw := Trim(input);
    if raw != [] && parse(raw).Ok? {
      var u := parse(raw).value;
      if LooksLikeFile(LastSegment(PathOf(u))) {
        ResolveUrlEndsInFile(raw, filename, parse);
      } else if u.path.Segments? {
        var f := FolderName(folder);
        var base := PopIfEmpty(u.path.segs);
        LastSegmentPushed(if f != [] then Push(base, f) else base, filename);
      }
    }
  }

  // ---------------------------------------------------------------------------
  // The unit tests of webdav_url.rs, for any input whose trimmed text the parser reads
  // as the test's URL
  // ---------------------------------------------------------------------------

  /** A file-like second segment is replaced: `/dir/file` becomes `/dir/filename`. */
  lemma ReplacedFileShape(input: string, parse: Parser, head: string, dir: string, file: string, filename: string)
    requires !IsBlank(input) && parse(Trim(input)) == Ok(Url(head, Segments([dir, file]), []))
    requires dir != [] && '/' !in file && file != filename && LooksLikeFile(file) && PlainName(filename)
    ensures ResolveUrlValue(input, filename, parse) == Ok(Url(head, Segments([dir, filename]), []))
  {
    ReplaceSecond(dir, file, filename);
    ResolveUrlSegments(input, filename, parse, Url(head, Segments([dir, file]), []));
  }

  lemma ReplaceSecond<T>(a: T, b: T, c: T)
    ensures [a, b][..1] + [c] == [a, c] && [a, b][|[a, b]| - 1] == b
  {
    assert [a, b][..1] == [a];
  }

  /** `/dir/` with a folder becomes `/dir/folder/filename`. */
  lemma FolderInsertedShape(input: string, parse: Parser, head: string, dir: string, folder: string, filename: string)
    requires !IsBlank(input) && parse(Trim(input)) == Ok(Url(head, Segments([dir, []]), []))
    requires dir != [] && FolderName(Some(folder)) == folder && PlainName(folder) && folder != [] && PlainName(filename)
    ensures ResolveUrlWithFolderValue(input, Some(folder), filename, parse)
      == Ok(Url(head, Segments([dir, folder, filename]), []))
  {
    InsertSecond(dir, [], folder, filename);
    ResolveUrlWithFolderSegments(input, Some(folder), filename, parse, Url(head, Segments([dir, []]), []));
  }

  /** A file URL `/dir/file` with a folder becomes `/dir/filename`, the folder ignored. */
  lemma KeptFileShape(input: string, parse: Parser, head: string, dir: string, file: string, folder: string,
                      filename: string)
    requires !IsBlank(input) && parse(Trim(input)) == Ok(Url(head, Segments([dir, file]), []))
    requires dir != [] && '/' !in file && file != filename && LooksLikeFile(file) && PlainName(filename)
    ensures ResolveUrlWithFolderValue(input, Some(folder), filename, parse)
      == Ok(Url(head, Segments([dir, filename]), []))
  {
    var u := Url(head, Segments([dir, file]), []);
    LastSegmentOfPath([dir, file]);
    ResolveUrlWithFolderFileUrl(input, Some(folder), filename, parse, u);
    ReplacedFileShape(input, parse, head, dir, file, filename);
  }

  lemma InsertSecond<T>(a: T, b: T, c: T, d: T)
    ensures [a, b][..1] + [c] + [d] == [a, c, d] && [a, b][|[a, b]| - 1] == b
  {
    assert [a, b][..1] == [a];
  }

  lemma PathTextTwo(a: string, b: string)
    ensures PathText([a, b]) == "/" + a + "/" + b
  {
    assert [a, b][..1] == [a];
    assert [a][..0] == [];
    assert PathText([a]) == [] + "/" + a == "/" + a;
  }

  lemma PathTextThree(a: string, b: string, c: string)
    ensures PathText([a, b, c]) == "/" + a + "/" + b + "/" + c
  {
    assert [a, b, c][..2] == [a, b];
    PathTextTwo(a, b);
  }

  lemma SerializedPath(head: string, segs: seq<string>, text: string)
    requires PathText(segs) == text
    ensures Serialize(Url(head, Segments(segs), [])) == head + text
  {
  }

  /** The paths written out in the tests, put together from their segments. */
  lemma TestPaths()
    ensures "/" + "path" + "/" + "hosts.db" == "/path/hosts.db"
    ensures "/" + "dav" + "/" + "xTermius" + "/" + "hosts.db" == "/dav/xTermius/hosts.db"
    ensures "/" + "dav" + "/" + "hosts.db" == "/dav/hosts.db"
  {
  }

  /** The segments of the tests, as the resolvers look at them. */
  lemma TestSegments()
    ensures LooksLikeFile("custom.json") && '/' !in "custom.json" && "custom.json" != "hosts.db"
    ensures LooksLikeFile("current.db") && '/' !in "current.db" && "current.db" != "hosts.db"
    ensures PlainName("hosts.db") && PlainName("xTermius") && "path" != [] && "dav" != []
  {
    EndsWithConcat("custom", ".json");
    assert "custom" + ".json" == "custom.json";
    EndsWithConcat("current", ".db");
    assert "current" + ".db" == "current.db";
  }

  /** A folder name without whitespace or a slash at either end is used as it is. */
  lemma FolderNameOfPlain(s: string)
    requires s != [] && !IsWhitespace(s[0]) && !IsWhitespace(s[|s| - 1]) && s[0] != '/' && s[|s| - 1] != '/'
    ensures FolderName(Some(s)) == s
  {
    TrimOfTrimmed(s);
  }

  const Server := "https://dav.example.com"

  /** `resolve_file_path_to_hosts_db`: a `.json` file name is replaced by `hosts.db`. */
  lemma ResolveFilePathToHostsDb(input: string, parse: Parser)
    requires !IsBlank(input) && parse(Trim(input)) == Ok(Url(Server, Segments(["path", "custom.json"]), []))
    ensures ResolveUrl(input, "hosts.db", parse) == Ok(Server + "/path/hosts.db")
  {
    TestPaths();
    TestSegments();
    PathTextTwo("path", "hosts.db");
    SerializedPath(Server, ["path", "hosts.db"], "/path/hosts.db");
    ReplacedFileShape(input, parse, Server, "path", "custom.json", "hosts.db");
  }

  /** `resolve_with_folder_uses_folder_for_base_urls`: the folder goes between `/dav` and the file. */
  lemma ResolveWithFolderUsesFolderForBaseUrls(input: string, parse: Parser)
    requires !IsBlank(input) && parse(Trim(input)) == Ok(Url(Server, Segments(["dav", ""]), []))
    ensures ResolveUrlWithFolder(input, Some("xTermius"), "hosts.db", parse) == Ok(Server + "/dav/xTermius/hosts.db")
  {
    TestPaths();
    TestSegments();
    PathTextThree("dav", "xTermius", "hosts.db");
    SerializedPath(Server, ["dav", "xTermius", "hosts.db"], "/dav/xTermius/hosts.db");
    FolderNameOfPlain("xTermius");
    FolderInsertedShape(input, parse, Server, "dav", "xTermius", "hosts.db");
  }

  /** `resolve_with_folder_keeps_explicit_file_url`: a `.db` URL ignores the folder. */
  lemma ResolveWithFolderKeepsExplicitFileUrl(input: string, parse: Parser)
    requires !IsBlank(input) && parse(Trim(input)) == Ok(Url(Server, Segments(["dav", "current.db"]), []))
    ensures ResolveUrlWithFolder(input, Some("ignored"), "hosts.db", parse) == Ok(Server + "/dav/hosts.db")
  {
    TestPaths();
    TestSegments();
    PathTextTwo("dav", "hosts.db");
    SerializedPath(Server, ["dav", "hosts.db"], "/dav/hosts.db");
    KeptFileShape(input, parse, Server, "dav", "current.db", "ignored", "hosts.db");
  }
}
