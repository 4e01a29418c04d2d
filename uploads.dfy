/**
 * The upload endpoint: the name under which an uploaded file is stored, the
 * size limit, and the URL returned to the client. The clock reading, the
 * random number and the API_URL environment variable are parameters.
 */
module Uploads {
  import opened Wrappers
  import Decimal

  /** The multipart field the file interceptor accepts. */
  const FieldName := "file"
  /** The largest accepted file, 5 MiB. */
  const MaxFileSize: nat := 5 * 1024 * 1024
  /** The base URL used when API_URL is unset or empty. */
  const DefaultBaseUrl := "http://localhost:3000"
  /** The public path under which stored files are served. */
  const UploadsPath := "/uploads/"

  /*** Path helpers (Node's posix path module) ***/

  /** The index of the last `c` in `s`, or -1 when there is none. */
  function LastIndexOf(s: string, c: char): (r: int)
    ensures -1 <= r < |s|
    ensures r >= 0 ==> s[r] == c
    ensures forall i :: r < i < |s| ==> s[i] != c
  {
    if s == [] then -1
    else if s[|s| - 1] == c then |s| - 1
    else LastIndexOf(s[..|s| - 1], c)
  }

  /** `s` without its trailing slashes. */
  function TrimTrailingSlashes(s: string): (r: string)
    ensures |r| <= |s| && r == s[..|r|]
    ensures r == [] || r[|r| - 1] != '/'
    ensures forall i :: |r| <= i < |s| ==> s[i] == '/'
  {
    if s != [] && s[|s| - 1] == '/' then TrimTrailingSlashes(s[..|s| - 1]) else s
  }

  /** The last component of a path: the text after the last slash, trailing slashes ignored. */
  function LastComponent(path: string): (r: string)
    ensures '/' !in r
  {
    var t := TrimTrailingSlashes(path);
    t[LastIndexOf(t, '/') + 1..]
  }

  /**
   * Node's `path.extname`: the last component's text from its last dot on;
   * empty when that component has no dot, when its only dot is the first
   * character, or when the component is "..".
   */
  function ExtName(path: string): (ext: string)
    ensures ext == [] || (ext[0] == '.' && '.' !in ext[1..])
    ensures '/' !in ext
    ensures |ext| <= |LastComponent(path)| && ext == LastComponent(path)[|LastComponent(path)| - |ext|..]
  {
    var name := LastComponent(path);
    var dot := LastIndexOf(name, '.');
    if dot <= 0 || name == ".." then "" else name[dot..]
  }

  /** When the extension is empty, and what it is otherwise. */
  lemma ExtNameCases(path: string)
    ensures var name := LastComponent(path);
            var dot := LastIndexOf(name, '.');
            (ExtName(path) == "" <==> '.' !in name || dot == 0 || name == "..")
            && (ExtName(path) != "" ==> ExtName(path) == name[dot..] && dot > 0)
  {
    var name := LastComponent(path);
    var dot := LastIndexOf(name, '.');
    if '.' in name {
      var k :| 0 <= k < |name| && name[k] == '.';
      assert dot >= k;
    }
  }

  /** The extension of a name without slashes, given the position of its last dot. */
  lemma ExtNameOfPlainName(name: string, dot: int)
    requires '/' !in name
    requires dot == LastIndexOf(name, '.')
    ensures ExtName(name) == if dot <= 0 || name == ".." then "" else name[dot..]
  {
    PlainName(name);
  }

  lemma ExtNameOfPhoto()
    ensures ExtName("photo.png") == ".png"
  {
    LastIndexOfBeforeSuffix("photo.png", 5, '.');
    ExtNameOfPlainName("photo.png", 5);
  }

  /** Only the last dot counts. */
  lemma ExtNameOfArchive()
    ensures ExtName("archive.tar.gz") == ".gz"
  {
    LastIndexOfBeforeSuffix("archive.tar.gz", 11, '.');
    ExtNameOfPlainName("archive.tar.gz", 11);
  }

  /** A name without a dot has no extension. */
  lemma ExtNameWithoutDot()
    ensures ExtName("README") == ""
  {
    assert '.' !in "README";
    ExtNameOfPlainName("README", -1);
  }

  /** A dot that leads the name does not start an extension. */
  lemma ExtNameOfDotFile()
    ensures ExtName(".env") == ""
  {
    LastIndexOfBeforeSuffix(".env", 0, '.');
    ExtNameOfPlainName(".env", 0);
  }

  /** A trailing dot is an extension of its own. */
  lemma ExtNameOfTrailingDot()
    ensures ExtName("notes.") == "."
  {
    LastIndexOfBeforeSuffix("notes.", 5, '.');
    ExtNameOfPlainName("notes.", 5);
  }

  /** A name without slashes is its own last component. */
  lemma PlainName(name: string)
    requires '/' !in name
    ensures LastComponent(name) == name
  {
    if name != [] {
      assert name[|name| - 1] in name;
    }
    assert TrimTrailingSlashes(name) == name;
    assert LastIndexOf(name, '/') == -1;
  }

  /*** Stored filename ***/

  /** `Math.round(Math.random() * 1e9)` for a random draw `u` in [0, 1). */
  function RandomSuffix(u: real): (r: nat)
    requires 0.0 <= u < 1.0
    ensures r <= 1000000000
    ensures r as real - 0.5 <= u * 1000000000.0 < r as real + 0.5
  {
    (u * 1000000000.0 + 0.5).Floor
  }

  /** The name under which an upload is stored: `<field>-<now>-<random><extension>`. */
  function StoredFilename(fieldname: string, now: nat, random: nat, originalName: string): (name: string)
    ensures var ext := ExtName(originalName);
            |ext| <= |name| && name[|name| - |ext|..] == ext
    ensures '/' !in fieldname ==> '/' !in name
  {
    var suffix := Decimal.NatToString(now) + "-" + Decimal.NatToString(random);
    NoSlashInDigits(Decimal.NatToString(now));
    NoSlashInDigits(Decimal.NatToString(random));
    assert '/' !in suffix;
    fieldname + "-" + suffix + ExtName(originalName)
  }

  lemma NoSlashInDigits(s: string)
    requires Decimal.AllDigits(s)
    ensures '/' !in s
  {
    forall i | 0 <= i < |s| ensures s[i] != '/' {
      assert Decimal.IsDigit(s[i]);
    }
  }

  /** The client's file name contributes only its extension. */
  lemma StoredFilenameUsesOnlyExtension(fieldname: string, now: nat, random: nat, name1: string, name2: string)
    requires ExtName(name1) == ExtName(name2)
    ensures StoredFilename(fieldname, now, random, name1) == StoredFilename(fieldname, now, random, name2)
  {
  }

  /** For a fixed field and extension, distinct (clock, random) pairs give distinct names. */
  lemma StoredFilenameInjective(fieldname: string, now1: nat, random1: nat, name1: string,
                                now2: nat, random2: nat, name2: string)
    requires ExtName(name1) == ExtName(name2)
    requires StoredFilename(fieldname, now1, random1, name1) == StoredFilename(fieldname, now2, random2, name2)
    ensures now1 == now2 && random1 == random2
  {
    var ext := ExtName(name1);
    var t1, r1 := Decimal.NatToString(now1), Decimal.NatToString(random1);
    var t2, r2 := Decimal.NatToString(now2), Decimal.NatToString(random2);
    var m1 := t1 + "-" + r1;
    var m2 := t2 + "-" + r2;
    StripAffixes(fieldname + "-", m1, m2, ext);
    SplitAtFirstDash(t1, r1, t2, r2);
    Decimal.NatToStringInjective(now1, now2);
    Decimal.NatToStringInjective(random1, random2);
  }

  /** Equal strings with the same prefix and suffix have the same middle. */
  lemma StripAffixes(p: string, m1: string, m2: string, q: string)
    requires p + m1 + q == p + m2 + q
    ensures m1 == m2
  {
    var s := p + m1 + q;
    assert |m1| == |m2|;
    assert m1 == s[|p|..|p| + |m1|];
    assert m2 == (p + m2 + q)[|p|..|p| + |m2|];
  }

  /** A dash after a run of digits marks where the digits end. */
  lemma SplitAtFirstDash(a: string, b: string, c: string, d: string)
    requires Decimal.AllDigits(a) && Decimal.AllDigits(c)
    requires a + "-" + b == c + "-" + d
    ensures a == c && b == d
  {
    var x := a + "-" + b;
    var y := c + "-" + d;
    NotShorter(a, b, c, d);
    NotShorter(c, d, a, b);
    assert a == x[..|a|] && c == y[..|c|];
    assert b == x[|a| + 1..] && d == y[|c| + 1..];
  }

  lemma NotShorter(a: string, b: string, c: string, d: string)
    requires Decimal.AllDigits(c)
    requires a + "-" + b == c + "-" + d
    ensures |a| >= |c|
  {
    assert (a + "-" + b)[|a|] == '-';
    if |a| < |c| {
      DigitsBeforeDash(c, d, |a|);
    }
  }

  lemma DigitsBeforeDash(digits: string, rest: string, i: nat)
    requires Decimal.AllDigits(digits) && i < |digits|
    ensures (digits + "-" + rest)[i] != '-'
  {
    assert (digits + "-" + rest)[i] == digits[i];
    assert Decimal.IsDigit(digits[i]);
  }

  /*** Returned URL ***/

  /** `process.env.API_URL || DefaultBaseUrl`: an unset or empty variable falls back. */
  function BaseUrl(apiUrl: Option<string>): (base: string)
    ensures apiUrl.Some? && apiUrl.value != "" ==> base == apiUrl.value
    ensures apiUrl.None? || apiUrl.value == "" ==> base == DefaultBaseUrl
  {
    if apiUrl.Some? && apiUrl.value != "" then apiUrl.value else DefaultBaseUrl
  }

  /** The URL a stored file is served under: the base, the uploads route, then the filename. */
  function FileUrl(base: string, filename: string): (url: string)
    ensures |url| == |base| + |UploadsPath| + |filename|
    ensures url[..|base|] == base
    ensures url[|base|..|base| + |UploadsPath|] == UploadsPath
    ensures url[|url| - |filename|..] == filename
  {
    base + UploadsPath + filename
  }

  /** The text after the last slash of a URL. */
  function LastSegment(url: string): (r: string)
    ensures '/' !in r
  {
    url[LastIndexOf(url, '/') + 1..]
  }

  /** The last segment of the returned URL is the stored filename. */
  lemma {:induction false} FileUrlNamesStoredFile(base: string, filename: string)
    requires '/' !in filename
    ensures LastSegment(FileUrl(base, filename)) == filename
  {
    var url := FileUrl(base, filename);
    var k := |base| + |UploadsPath| - 1;
    assert url[k] == '/';
    assert url[k + 1..] == filename;
    LastIndexOfBeforeSuffix(url, k, '/');
  }

  lemma {:induction false} LastIndexOfBeforeSuffix(s: string, k: nat, c: char)
    requires k < |s| && s[k] == c
    requires forall i :: k < i < |s| ==> s[i] != c
    ensures LastIndexOf(s, c) == k
    decreases |s|
  {
    if s[|s| - 1] != c {
      LastIndexOfBeforeSuffix(s[..|s| - 1], k, c);
    }
  }

  /*** The endpoint ***/

  /** The uploaded file as the storage engine describes it. */
  datatype UploadedFile = UploadedFile(fieldname: string, originalname: string, size: nat)

  /** How the size validator compares against the limit: `size < max` or `size <= max`. */
  datatype SizeComparison = Below | AtMost

  /**
   * Why an upload is refused: the file came in a multipart field other than
   * `FieldName`, no file came at all, or it exceeds the size limit.
   */
  datatype UploadError = UnexpectedField | FileRequired | FileTooLarge

  datatype UploadResponse = UploadResponse(url: string)

  predicate SizeAllowed(size: nat, comparison: SizeComparison)
  {
    match comparison
    case Below => size < MaxFileSize
    case AtMost => size <= MaxFileSize
  }

  /**
   * The upload endpoint's answer. `now` is the clock reading in milliseconds,
   * `draw` the random number in [0, 1), `apiUrl` the API_URL variable.
   */
  function Upload(file: Option<UploadedFile>, now: nat, draw: real, apiUrl: Option<string>,
                  comparison: SizeComparison): (r: Result<UploadResponse, UploadError>)
    requires 0.0 <= draw < 1.0
    ensures file.None? ==> r == Failure(FileRequired)
    ensures file.Some? && file.value.fieldname != FieldName ==> r == Failure(UnexpectedField)
    ensures file.Some? && file.value.fieldname == FieldName ==>
      (r.Success? <==> SizeAllowed(file.value.size, comparison))
    ensures file.Some? && file.value.fieldname == FieldName && file.value.size > MaxFileSize ==>
      r == Failure(FileTooLarge)
    ensures file.Some? && file.value.fieldname == FieldName && !SizeAllowed(file.value.size, comparison) ==>
      r == Failure(FileTooLarge)
    ensures file.Some? && file.value.fieldname == FieldName && file.value.size < MaxFileSize ==> r.Success?
    ensures r.Success? ==>
      && file.Some?
      && r.value.url == BaseUrl(apiUrl) + "/uploads/"
                        + StoredFilename(FieldName, now, RandomSuffix(draw), file.value.originalname)
      && LastSegment(r.value.url) == StoredFilename(FieldName, now, RandomSuffix(draw), file.value.originalname)
  {
    match file
    case None => Failure(FileRequired)
    case Some(f) =>
      if f.fieldname != FieldName then Failure(UnexpectedField)
      else if !SizeAllowed(f.size, comparison) then Failure(FileTooLarge)
      else
        var name := StoredFilename(f.fieldname, now, RandomSuffix(draw), f.originalname);
        FileUrlNamesStoredFile(BaseUrl(apiUrl), name);
        Success(UploadResponse(FileUrl(BaseUrl(apiUrl), name)))
  }

  /** Two uploads of the same file name in the same millisecond get distinct stored names unless the random draws agree. */
  lemma SameNameSameInstant(originalName: string, now: nat, random1: nat, random2: nat)
    requires random1 != random2
    ensures StoredFilename(FieldName, now, random1, originalName) != StoredFilename(FieldName, now, random2, originalName)
  {
    if StoredFilename(FieldName, now, random1, originalName) == StoredFilename(FieldName, now, random2, originalName) {
      StoredFilenameInjective(FieldName, now, random1, originalName, now, random2, originalName);
    }
  }
}
