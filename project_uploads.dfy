/** The upload rules of backend/src/routes/projectRoutes.js: the extension filter
    (`fileFilter`), the stored file name (`filename` of the disk storage) and
    `upload.array("files", 10)` on both the create and the update route. The clock
    `Date.now()` is a parameter, one reading per file. */
module ProjectUploads {
  import opened Common
  import Text

  const AllowedExtensions: seq<string> :=
    [".txt", ".doc", ".docx", ".pdf", ".csv", ".xls", ".xlsx", ".ppt", ".pptx", ".sql", ".png", ".jpg", ".jpeg"]

  const FieldName: string := "files"
  const MaxFiles: nat := 10
  const InvalidTypeMessage: string := "Invalid file type."

  /** The index of the last '.' in `s`. */
  function LastDot(s: string): (r: Option<nat>)
    ensures r.Some? ==> r.value < |s| && s[r.value] == '.' && '.' !in s[r.value + 1..]
    ensures r.None? ==> '.' !in s
  {
    if s == [] then None
    else if s[|s| - 1] == '.' then Some(|s| - 1)
    else
      var r := LastDot(s[..|s| - 1]);
      assert s == s[..|s| - 1] + [s[|s| - 1]];
      assert r.Some? ==> s[r.value + 1..] == s[..|s| - 1][r.value + 1..] + [s[|s| - 1]];
      r
  }

  /** `path.extname` of a base name: from the last '.' to the end, except that a
      name whose only leading characters are that dot (".pdf"), a name without a
      dot and the name ".." have no extension. */
  function ExtName(name: string): (e: string)
    ensures e != "" ==> |e| < |name| && e[0] == '.' && '.' !in e[1..]
  {
    match LastDot(name)
    case None => ""
    case Some(k) => if k == 0 || name == ".." then "" else name[k..]
  }

  /** The extension, when there is one, is a proper suffix of the name. */
  lemma ExtNameIsSuffix(name: string)
    ensures var e := ExtName(name);
            e != "" ==> e == name[|name| - |e|..]
  {
  }

  /** `allowedExtensions.includes(path.extname(name).toLowerCase())`. */
  predicate Accepts(originalname: string)
    ensures Accepts(originalname) ==> 4 <= |ExtName(originalname)| <= 5
  {
    Text.ToLower(ExtName(originalname)) in AllowedExtensions
  }

  datatype FilterDecision = Accept | Reject(message: string)

  /** `fileFilter`: accept the file or fail the upload with "Invalid file type.". */
  function FileFilter(originalname: string): (d: FilterDecision)
    ensures d.Accept? <==> Accepts(originalname)
    ensures d.Reject? ==> d.message == InvalidTypeMessage
  {
    if Accepts(originalname) then Accept else Reject(InvalidTypeMessage)
  }

  /** The extension is what follows the last dot, whatever dots come before it. */
  lemma ExtNameAfterLastDot(a: string, b: string)
    requires '.' !in b && a != "" && !(a == "." && b == "")
    ensures ExtName(a + ['.'] + b) == ['.'] + b
  {
    var name := a + ['.'] + b;
    assert name[|a|] == '.';
    var k := LastDot(name).value;
    assert forall j :: |a| < j < |name| ==> name[j] == b[j - |a| - 1];
    assert name[0] == a[0] && (|a| == 1 ==> a == [a[0]]);
    if k < |a| {
      assert false;
    } else if k > |a| {
      assert false;
    }
    if name == ".." {
      assert false;
    }
    assert name[|a|..] == ['.'] + b;
  }

  /** A name without a dot has no extension and is refused. */
  lemma NoDotRejected(name: string)
    requires '.' !in name
    ensures ExtName(name) == "" && !Accepts(name)
  {
  }

  /** `LastDot` finds the same position in the lower-cased name. */
  lemma {:induction false} LastDotIgnoresCase(s: string)
    ensures LastDot(Text.ToLower(s)) == LastDot(s)
  {
    if s != [] {
      var t := Text.ToLower(s);
      assert t[..|t| - 1] == Text.ToLower(s[..|s| - 1]);
      LastDotIgnoresCase(s[..|s| - 1]);
    }
  }

  /** Lower-casing a name lower-cases its extension. */
  lemma ExtNameIgnoresCase(name: string)
    ensures ExtName(Text.ToLower(name)) == Text.ToLower(ExtName(name))
  {
    var lower := Text.ToLower(name);
    LastDotIgnoresCase(name);
    if name == ".." {
      assert lower == [Text.LowerChar('.'), Text.LowerChar('.')];
    }
    if lower == ".." {
      assert |name| == 2 && Text.LowerChar(name[0]) == '.' && Text.LowerChar(name[1]) == '.';
      assert name == [name[0], name[1]];
    }
    match LastDot(name)
    case None =>
    case Some(k) =>
      Text.ToLowerSuffix(name, k);
  }

  /** Case never matters to the filter: a name is accepted exactly when its
      lower-cased form is. */
  lemma AcceptsIgnoresCase(name: string)
    ensures Accepts(Text.ToLower(name)) <==> Accepts(name)
  {
    ExtNameIgnoresCase(name);
    Text.ToLowerIdempotent(ExtName(name));
  }

  /** An upper-case extension is accepted. */
  lemma UpperCaseAccepted()
    ensures Accepts("REPORT.PDF")
  {
    ExtNameAfterLastDot("REPORT", "PDF");
    assert "REPORT" + ['.'] + "PDF" == "REPORT.PDF";
    var lower := Text.ToLower(".PDF");
    assert lower == [Text.LowerChar('.'), Text.LowerChar('P'), Text.LowerChar('D'), Text.LowerChar('F')];
    assert lower == ".pdf";
  }

  /** Only the last extension counts: an allowed one followed by a foreign one is
      refused. */
  lemma ForeignLastExtensionRejected()
    ensures !Accepts("a.pdf.exe")
  {
    ExtNameAfterLastDot("a.pdf", "exe");
    assert "a.pdf" + ['.'] + "exe" == "a.pdf.exe";
    var exe := Text.ToLower(".exe");
    assert exe == [Text.LowerChar('.'), Text.LowerChar('e'), Text.LowerChar('x'), Text.LowerChar('e')];
  }

  /** A foreign extension followed by an allowed one is accepted. */
  lemma AllowedLastExtensionAccepted()
    ensures Accepts("a.tar.sql")
  {
    ExtNameAfterLastDot("a.tar", "sql");
    assert "a.tar" + ['.'] + "sql" == "a.tar.sql";
    var sql := Text.ToLower(".sql");
    assert sql == [Text.LowerChar('.'), Text.LowerChar('s'), Text.LowerChar('q'), Text.LowerChar('l')];
  }

  /** A dot-file, a leading dot followed by dot-free text (".gitignore", ".pdf"),
      has no extension at all and is refused. */
  lemma DotFileRejected(b: string)
    requires '.' !in b
    ensures ExtName(['.'] + b) == "" && !Accepts(['.'] + b)
  {
    var s := ['.'] + b;
    assert s[0] == '.' && s[1..] == b;
    var k := LastDot(s);
    assert forall i :: 1 <= i < |s| ==> s[i] == b[i - 1];
    assert k.Some?;
  }

  /** The name ".." has no extension either, and is refused. */
  lemma ParentNameRejected()
    ensures ExtName("..") == "" && !Accepts("..")
  {
  }

  /** The disk storage's `filename`: `Date.now() + "-" + file.originalname`. The
      original name is everything after its first dash, because the timestamp's
      digits contain no dash. */
  function StoredFilename(stamp: nat, originalname: string): (stored: string)
    ensures Text.AfterFirst(stored, '-') == originalname
  {
    var digits := Text.Decimal(stamp);
    assert '-' !in digits;
    Text.AfterFirstSeparator(digits, originalname, '-');
    digits + "-" + originalname
  }

  /** One part of a multipart request: its form field and the client's file name. */
  datatype Part = Part(field: string, originalname: string)

  /** A file as multer hands it to the controller. */
  datatype StoredFile = StoredFile(originalname: string, filename: string)

  datatype UploadError =
    | UnexpectedFile(field: string)   // LIMIT_UNEXPECTED_FILE: wrong field or over the limit
    | FilterError(message: string)    // the error the file filter passed to its callback

  datatype Upload = Uploaded(files: seq<StoredFile>) | UploadFailed(error: UploadError)

  /** A part multer keeps under the filter `fileFilter`: sent under `files` and
      accepted by the filter. */
  predicate Admissible(p: Part, fileFilter: string -> FilterDecision) {
    p.field == FieldName && fileFilter(p.originalname).Accept?
  }

  /** The file multer stores for part `p` at time `stamp`. */
  function Store(p: Part, stamp: nat): (f: StoredFile)
    ensures f.originalname == p.originalname
    ensures Text.AfterFirst(f.filename, '-') == p.originalname
  {
    StoredFile(p.originalname, StoredFilename(stamp, p.originalname))
  }

  /** multer configured with `fileFilter`, over the parts in stream order, with `left`
      files still allowed under `files`. Each part first passes the field-and-count
      check, then the filter; the first failure ends the upload. */
  function UploadFrom(parts: seq<Part>, stamps: seq<nat>, left: nat, fileFilter: string -> FilterDecision): (u: Upload)
    requires |stamps| == |parts|
    ensures u.Uploaded? <==> |parts| <= left && forall i :: 0 <= i < |parts| ==> Admissible(parts[i], fileFilter)
    ensures u.Uploaded? ==> |u.files| == |parts| && forall i :: 0 <= i < |parts| ==> u.files[i] == Store(parts[i], stamps[i])
    ensures u.UploadFailed? && u.error.FilterError? ==>
              exists i :: 0 <= i < |parts| && fileFilter(parts[i].originalname) == Reject(u.error.message)
  {
    if parts == [] then Uploaded([])
    else if parts[0].field != FieldName || left == 0 then
      UploadFailed(UnexpectedFile(parts[0].field))
    else if fileFilter(parts[0].originalname).Reject? then
      UploadFailed(FilterError(fileFilter(parts[0].originalname).message))
    else
      var rest := UploadFrom(parts[1..], stamps[1..], left - 1, fileFilter);
      if rest.UploadFailed? then
        assert |parts| > left || exists j :: 1 <= j < |parts| && !Admissible(parts[j], fileFilter) by {
          if |parts[1..]| <= left - 1 {
            var j :| 0 <= j < |parts[1..]| && !Admissible(parts[1..][j], fileFilter);
            assert parts[1..][j] == parts[j + 1];
          }
        }
        assert rest.error.FilterError? ==>
                 exists i :: 0 <= i < |parts| && fileFilter(parts[i].originalname) == Reject(rest.error.message) by {
          if rest.error.FilterError? {
            var j :| 0 <= j < |parts[1..]| && fileFilter(parts[1..][j].originalname) == Reject(rest.error.message);
            assert parts[1..][j] == parts[j + 1];
          }
        }
        rest
      else
        var u := Uploaded([Store(parts[0], stamps[0])] + rest.files);
        assert forall i :: 1 <= i < |parts| ==> parts[1..][i - 1] == parts[i] && stamps[1..][i - 1] == stamps[i];
        u
  }

  /** `upload.array("files", 10)` with this file filter, on both the create and the
      update route: the upload succeeds exactly when there are at most ten parts, all
      under `files` and all with an allowed extension; each is then stored under its
      timestamped name, and a refusal by the filter reports "Invalid file type.". */
  function UploadFiles(parts: seq<Part>, stamps: seq<nat>): (u: Upload)
    requires |stamps| == |parts|
    ensures u.Uploaded? <==>
              |parts| <= MaxFiles && forall i :: 0 <= i < |parts| ==> parts[i].field == FieldName && Accepts(parts[i].originalname)
    ensures u.Uploaded? ==> |u.files| == |parts| && forall i :: 0 <= i < |parts| ==> u.files[i] == Store(parts[i], stamps[i])
    ensures u.UploadFailed? && u.error.FilterError? ==> u.error.message == InvalidTypeMessage
  {
    UploadFrom(parts, stamps, MaxFiles, FileFilter)
  }
}
