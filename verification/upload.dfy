/** Image uploads: the acceptance filter, the stored file name and URL, and the single and
    multiple upload routes. Storage on disk is left to the upload middleware; the clock reading and
    the random number in a stored name are parameters. */
module Upload {
  import opened Wrappers
  import opened Text
  import opened Domain
  import opened Seqs

  // ---------------------------------------------------------------------------------------------
  // Extensions

  /** The position of the last `.` in `s`. */
  function LastDot(s: string): (r: Option<nat>)
    ensures r.Some? ==> r.value < |s| && s[r.value] == '.' && forall j :: r.value < j < |s| ==> s[j] != '.'
    ensures r.None? ==> forall j :: 0 <= j < |s| ==> s[j] != '.'
  {
    if |s| == 0 then None
    else if s[|s| - 1] == '.' then Some(|s| - 1)
    else LastDot(s[..|s| - 1])
  }

  /** The extension of a file name, dot included: from its last dot on, or nothing when it has no
      dot or its only dot starts the name (a hidden file). */
  function Extname(name: string): (e: string)
    ensures e == "" || (e[0] == '.' && forall j :: 1 <= j < |e| ==> e[j] != '.')
    ensures |e| <= |name| && e == name[|name| - |e|..]
  {
    match LastDot(name)
    case None => ""
    case Some(k) => if k == 0 then "" else name[k..]
  }

  // ---------------------------------------------------------------------------------------------
  // The type test

  /** The alternatives of the pattern `jpeg|jpg|png|gif|webp`. */
  const ImageWords: seq<string> := ["jpeg", "jpg", "png", "gif", "webp"]

  /** Some alternative of the pattern starts at `p`, tried in the pattern's order. */
  predicate AlternativeAt(s: string, p: nat) {
    OccursAt(s, "jpeg", p) || OccursAt(s, "jpg", p) || OccursAt(s, "png", p) ||
    OccursAt(s, "gif", p) || OccursAt(s, "webp", p)
  }

  /** The regular expression engine's unanchored search: try every start position from `from` on. */
  function SearchFrom(s: string, from: nat): bool
    decreases |s| + 1 - from
  {
    if from > |s| then false
    else if AlternativeAt(s, from) then true
    else SearchFrom(s, from + 1)
  }

  /** `/jpeg|jpg|png|gif|webp/.test(s)`. */
  function ImageTest(s: string): bool {
    SearchFrom(s, 0)
  }

  /** The search succeeds exactly when an alternative starts at some position it tries. */
  lemma {:induction false} SearchFromMeans(s: string, from: nat)
    ensures SearchFrom(s, from) <==> exists p: nat :: from <= p && AlternativeAt(s, p)
    decreases |s| + 1 - from
  {
    if from <= |s| {
      SearchFromMeans(s, from + 1);
      if !AlternativeAt(s, from) && exists p: nat :: from <= p && AlternativeAt(s, p) {
        var p: nat :| from <= p && AlternativeAt(s, p);
        assert from + 1 <= p;
      }
    } else {
      forall p: nat | from <= p
        ensures !AlternativeAt(s, p)
      {
      }
    }
  }

  /** The test holds exactly when one of the five words is a substring: nothing is anchored. */
  lemma ImageTestIsSubstring(s: string)
    ensures ImageTest(s) <==> exists i :: 0 <= i < |ImageWords| && Contains(s, ImageWords[i])
  {
    SearchFromMeans(s, 0);
    if ImageTest(s) {
      var p: nat :| AlternativeAt(s, p);
      if OccursAt(s, "jpeg", p) { assert Contains(s, ImageWords[0]); }
      else if OccursAt(s, "jpg", p) { assert Contains(s, ImageWords[1]); }
      else if OccursAt(s, "png", p) { assert Contains(s, ImageWords[2]); }
      else if OccursAt(s, "gif", p) { assert Contains(s, ImageWords[3]); }
      else { assert Contains(s, ImageWords[4]); }
    }
    if exists i :: 0 <= i < |ImageWords| && Contains(s, ImageWords[i]) {
      var i :| 0 <= i < |ImageWords| && Contains(s, ImageWords[i]);
      var p: nat :| OccursAt(s, ImageWords[i], p);
      assert AlternativeAt(s, p);
    }
  }

  /** A file as the upload middleware hands it over. */
  datatype File = File(fieldname: string, originalname: string, mimetype: string, size: nat)

  /** The filter: the lower-cased extension and the MIME type, as given, must both pass the test. */
  predicate Accepted(f: File) {
    ImageTest(Lower(Extname(f.originalname))) && ImageTest(f.mimetype)
  }

  /** A file passes the filter exactly when one of the five words occurs somewhere in its
      lower-cased extension and one occurs somewhere in its MIME type. */
  lemma AcceptedMeans(f: File)
    ensures Accepted(f) <==>
      (exists i :: 0 <= i < |ImageWords| && Contains(Lower(Extname(f.originalname)), ImageWords[i])) &&
      (exists i :: 0 <= i < |ImageWords| && Contains(f.mimetype, ImageWords[i]))
  {
    ImageTestIsSubstring(Lower(Extname(f.originalname)));
    ImageTestIsSubstring(f.mimetype);
  }

  /** An upper-case extension is accepted, since the extension is lower-cased first. */
  lemma UpperCaseExtensionAccepted()
    ensures Accepted(File("image", "photo.JPG", "image/jpeg", 10))
  {
    ExtnameOfPhoto();
    assert Lower(".JPG") == ".jpg";
    assert OccursAt(".jpg", "jpg", 1);
    SearchFromMeans(".jpg", 0);
    assert OccursAt("image/jpeg", "jpeg", 6);
    SearchFromMeans("image/jpeg", 0);
  }

  lemma ExtnameOfPhoto()
    ensures Extname("photo.JPG") == ".JPG"
  {
    var s := "photo.JPG";
    assert s[..8] == "photo.JP" && s[..8][..7] == "photo.J" && s[..8][..7][..6] == "photo.";
    assert LastDot(s) == LastDot("photo.JP") == LastDot("photo.J") == LastDot("photo.") == Some(5);
  }

  /** A file whose MIME type has no lower-case letter, such as `IMAGE/JPEG`, is refused whatever its
      extension: unlike the extension, the MIME type is not lower-cased. */
  lemma UpperCaseMimeTypeRefused(f: File)
    requires forall c :: c in f.mimetype ==> !('a' <= c <= 'z')
    ensures !Accepted(f)
  {
    NoLowerCaseNoMatch(f.mimetype);
  }

  /** Every alternative starts with a lower-case letter, so text without one never passes. */
  lemma NoLowerCaseNoMatch(s: string)
    requires forall c :: c in s ==> !('a' <= c <= 'z')
    ensures !ImageTest(s)
  {
    forall p: nat
      ensures !AlternativeAt(s, p)
    {
      if p < |s| {
        assert s[p] in s;
      }
    }
    SearchFromMeans(s, 0);
  }

  /** A word anywhere in the extension passes, as in `.jpgx`. */
  lemma UnanchoredExtension()
    ensures ImageTest(Lower(Extname("scan.jpgx")))
  {
    var s := "scan.jpgx";
    assert s[..8] == "scan.jpg" && s[..8][..7] == "scan.jp" && s[..8][..7][..6] == "scan.j" && s[..8][..7][..6][..5] == "scan.";
    assert LastDot(s) == LastDot("scan.jpg") == LastDot("scan.jp") == LastDot("scan.j") == LastDot("scan.") == Some(4);
    assert Lower(".jpgx") == ".jpgx";
    assert OccursAt(".jpgx", "jpg", 1);
    SearchFromMeans(".jpgx", 0);
  }

  // ---------------------------------------------------------------------------------------------
  // Names and URLs

  /** `Math.round(Math.random() * 1e9)` lies between 0 and 10^9. */
  const MaxRandom := 1_000_000_000

  /** The stored name: the form field, the upload time, the random number, and the original
      extension, joined by dashes. */
  function StoredName(fieldname: string, now: nat, random: nat, originalname: string): (n: string)
    requires random <= MaxRandom
    ensures |n| > |fieldname| + 1 + |Extname(originalname)|
    ensures n[..|fieldname| + 1] == fieldname + "-"
    ensures n[|n| - |Extname(originalname)|..] == Extname(originalname)
  {
    var n := fieldname + "-" + DecimalString(now) + "-" + DecimalString(random) + Extname(originalname);
    assert n == (fieldname + "-") + (DecimalString(now) + "-" + DecimalString(random)) + Extname(originalname);
    n
  }

  function UploadUrl(filename: string): (u: string)
    ensures |u| == 9 + |filename| && u[..9] == "/uploads/" && u[9..] == filename
  {
    "/uploads/" + filename
  }

  /** What the routes report for each stored file. */
  datatype Stored = Stored(filename: string, originalName: string, size: nat, url: string)

  /** A suffix source for one file: the clock reading and the random number. */
  datatype Suffix = Suffix(now: nat, random: nat)

  predicate ValidSuffixes(suffixes: seq<Suffix>) {
    forall i :: 0 <= i < |suffixes| ==> suffixes[i].random <= MaxRandom
  }

  // ---------------------------------------------------------------------------------------------
  // The routes

  const MaxFileSize := 5 * 1024 * 1024
  const MaxFiles := 5

  /** The entry reported for a file stored under the given suffix. */
  function Entry(f: File, x: Suffix): (e: Stored)
    requires x.random <= MaxRandom
    ensures e.url == UploadUrl(e.filename) && e.originalName == f.originalname && e.size == f.size
  {
    var name := StoredName(f.fieldname, x.now, x.random, f.originalname);
    Stored(name, f.originalname, f.size, UploadUrl(name))
  }

  /** Whether the middleware lets every file through: not too many, each sent under the expected
      form field and each an image within the size limit. */
  predicate Receivable(files: seq<File>, field: string, maxCount: nat) {
    |files| <= maxCount && forall i :: 0 <= i < |files| ==> Admissible(files[i], field)
  }

  /** One file the middleware stores: sent under the expected field, an accepted image, and
      within the size limit. */
  predicate Admissible(f: File, field: string) {
    f.fieldname == field && Accepted(f) && f.size <= MaxFileSize
  }

  /** A non-empty upload is receivable exactly when its first file is admissible and the rest
      fits in one place fewer. */
  lemma ReceivableCons(files: seq<File>, field: string, maxCount: nat)
    requires |files| > 0 && maxCount > 0
    ensures Receivable(files, field, maxCount) <==>
      Admissible(files[0], field) && Receivable(files[1..], field, maxCount - 1)
  {
    AllCons(f => Admissible(f, field), files);
  }

  /** The middleware's verdict on the incoming files, in order: a file under another field, or one
      past the allowed count, is an unexpected field before the filter sees it; a refused type stops
      the upload, and so does a file over the size limit. */
  function FirstRejection(files: seq<File>, field: string, maxCount: nat): (r: Option<Error>)
    ensures r.None? <==> Receivable(files, field, maxCount)
    ensures r.Some? ==> r.value.UploadRejected?
    ensures |files| > 0 && files[0].fieldname != field ==> r == Some(UploadRejected("Unexpected field"))
    decreases |files|
  {
    if |files| == 0 then None
    else if files[0].fieldname != field || maxCount == 0 then Some(UploadRejected("Unexpected field"))
    else
      ReceivableCons(files, field, maxCount);
      if !Accepted(files[0]) then Some(UploadRejected("Only image files are allowed"))
      else if files[0].size > MaxFileSize then Some(UploadRejected("File too large"))
      else FirstRejection(files[1..], field, maxCount - 1)
  }

  /** The entries reported for files that were all stored. */
  function Entries(files: seq<File>, suffixes: seq<Suffix>): (r: seq<Stored>)
    requires |suffixes| == |files| && ValidSuffixes(suffixes)
    ensures |r| == |files| && forall i :: 0 <= i < |files| ==> r[i] == Entry(files[i], suffixes[i])
  {
    seq(|files|, i requires 0 <= i < |files| => Entry(files[i], suffixes[i]))
  }

  /** The upload middleware for one form field: the first rejection, or every file stored under
      its own suffix. */
  function Receive(files: seq<File>, suffixes: seq<Suffix>, field: string, maxCount: nat): (r: Result<seq<Stored>, Error>)
    requires |suffixes| == |files| && ValidSuffixes(suffixes)
    ensures r.Success? <==> Receivable(files, field, maxCount)
    ensures r.Success? ==> r.value == Entries(files, suffixes)
    ensures r.Failure? ==> r.error.UploadRejected?
  {
    match FirstRejection(files, field, maxCount)
    case Some(e) => Failure(e)
    case None => Success(Entries(files, suffixes))
  }

  /** Too many files are refused as an unexpected field, whatever they hold, once the allowed
      ones pass. */
  lemma {:induction false} TooManyFiles(files: seq<File>, field: string, maxCount: nat)
    requires |files| > maxCount
    requires forall i :: 0 <= i < maxCount ==> Admissible(files[i], field)
    ensures FirstRejection(files, field, maxCount) == Some(UploadRejected("Unexpected field"))
    decreases maxCount
  {
    if maxCount > 0 {
      TooManyFiles(files[1..], field, maxCount - 1);
    }
  }

  /** A file sent under another field is refused as unexpected wherever it sits, once the files
      before it pass. */
  lemma {:induction false} WrongFieldRejected(files: seq<File>, field: string, maxCount: nat, k: nat)
    requires k < |files| && k < maxCount && files[k].fieldname != field
    requires forall i :: 0 <= i < k ==> Admissible(files[i], field)
    ensures FirstRejection(files, field, maxCount) == Some(UploadRejected("Unexpected field"))
    decreases k
  {
    if k > 0 {
      WrongFieldRejected(files[1..], field, maxCount - 1, k - 1);
    }
  }

  /** The single-image route: at most one file, under the field `image`; none is a validation error. */
  function UploadImage(files: seq<File>, suffixes: seq<Suffix>): (r: Result<Stored, Error>)
    requires |suffixes| == |files| && ValidSuffixes(suffixes)
    ensures |files| == 0 ==> r == Failure(Validation("No file uploaded"))
    ensures |files| > 0 && files[0].fieldname != "image" ==> r == Failure(UploadRejected("Unexpected field"))
    ensures r.Success? <==> |files| == 1 && Admissible(files[0], "image")
    ensures r.Success? ==> r.value == Entry(files[0], suffixes[0])
  {
    match Receive(files, suffixes, "image", 1)
    case Failure(e) => Failure(e)
    case Success(stored) => if |stored| == 0 then Failure(Validation("No file uploaded")) else Success(stored[0])
  }

  /** The multiple-image route: at most five files, all under the field `images`; none is a
      validation error. */
  function UploadImages(files: seq<File>, suffixes: seq<Suffix>): (r: Result<seq<Stored>, Error>)
    requires |suffixes| == |files| && ValidSuffixes(suffixes)
    ensures |files| == 0 ==> r == Failure(Validation("No files uploaded"))
    ensures |files| > 0 && files[0].fieldname != "images" ==> r == Failure(UploadRejected("Unexpected field"))
    ensures r.Success? <==> 0 < |files| <= MaxFiles && forall i :: 0 <= i < |files| ==> Admissible(files[i], "images")
    ensures r.Success? ==> |r.value| == |files| && forall i :: 0 <= i < |r.value| ==> r.value[i] == Entry(files[i], suffixes[i])
  {
    match Receive(files, suffixes, "images", MaxFiles)
    case Failure(e) => Failure(e)
    case Success(stored) => if |stored| == 0 then Failure(Validation("No files uploaded")) else Success(stored)
  }
}
