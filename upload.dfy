/**
 * The upload handler of the server: where an uploaded file goes and under
 * what name, and what the upload does to the stored files.
 *
 * The upload middleware first stores the file as `uploads/<original name>`;
 * the handler then picks a directory and a final name from the upload type
 * and moves the file there, replacing whatever had that path.
 * Image-response pictures are numbered one past the highest number already
 * in use; the word list and the situational-response list have fixed names;
 * a situational-response list is also parsed into numbered items.
 */
module Upload {
  import opened Wrappers
  import opened Text
  import opened Paths
  import opened SrtParse
  import opened Listings

  datatype UploadedFile = UploadedFile(originalname: string, content: string)

  /** The multipart request; a body field that was not sent is "". */
  datatype UploadRequest = UploadRequest(
    file: Option<UploadedFile>,
    uploadType: string,
    folder: string,
    filename: string,
    date: string)

  /** Directory and file name the upload is stored under. */
  datatype Placement = Placement(dir: string, name: string)

  datatype UploadOutcome =
    | Rejected(status: nat, error: string)
    | Stored(placement: Placement)

  const UploadsDir := "uploads"
  const NewspaperDir := "uploads/newspaper"
  const ReadingDir := "uploads/reading_material"
  const TatDir := "uploads/tat_images"
  const WatDir := "uploads/wat_words"
  const SrtDir := "uploads/srt_list"
  const WordsName := "words.txt"
  const SrtName := "srt_list.txt"

  function PathOf(p: Placement): string {
    p.dir + "/" + p.name
  }

  // ---------------------------------------------------------------------
  // Picture numbering
  // ---------------------------------------------------------------------

  /** A file the numbering scan looks at: a picture whose name starts with "TAT_". */
  predicate IsTatCandidate(f: string) {
    IsImageName(f) && StartsWith(f, "TAT_")
  }

  /** `/TAT_(\d+)\./i` matches at `i`: "tat_" in any case, a run of digits, a '.'. */
  predicate TatMatchAt(f: string, i: nat) {
    && i + 4 <= |f|
    && Lower(f[i..i + 4]) == "tat_"
    && var d := DigitRunLen(f[i + 4..]);
       d > 0 && i + 4 + d < |f| && f[i + 4 + d] == '.'
  }

  /** The captured number of the leftmost match at or after `i`. */
  function TatNumberFrom(f: string, i: nat): (r: Option<nat>)
    ensures r.None? ==> forall j :: i <= j ==> !TatMatchAt(f, j)
    decreases |f| - i
  {
    if i + 4 > |f| then None
    else if TatMatchAt(f, i) then Some(DigitsValue(f[i + 4..][..DigitRunLen(f[i + 4..])]))
    else TatNumberFrom(f, i + 1)
  }

  /** `f.match(/TAT_(\d+)\./i)` followed by `parseInt(match[1])`. */
  function TatNumber(f: string): Option<nat> {
    TatNumberFrom(f, 0)
  }

  /** The highest number among the candidates of `files`; 0 when there is none. */
  function MaxTatNumber(files: seq<string>): nat {
    if files == [] then 0
    else
      var m := MaxTatNumber(files[..|files| - 1]);
      var f := files[|files| - 1];
      if IsTatCandidate(f) && TatNumber(f).Some? && TatNumber(f).value > m then TatNumber(f).value else m
  }

  /** The scan of the picture directory (a `forEach` that keeps the maximum). */
  method ScanMaxTatNumber(files: seq<string>) returns (maxNum: nat)
    ensures maxNum == MaxTatNumber(files)
  {
    maxNum := 0;
    var i := 0;
    while i < |files|
      invariant 0 <= i <= |files|
      invariant maxNum == MaxTatNumber(files[..i])
    {
      var f := files[i];
      assert files[..i + 1][..i] == files[..i];
      if IsTatCandidate(f) {
        var m := TatNumber(f);
        if m.Some? && m.value > maxNum {
          maxNum := m.value;
        }
      }
      i := i + 1;
    }
    assert files[..i] == files;
  }

  /**
   * The result of the scan is the largest number of any candidate in the
   * listing, and is either 0 or the number of one of them.
   */
  lemma {:induction false} MaxTatNumberIsMax(files: seq<string>)
    ensures forall k :: 0 <= k < |files| && IsTatCandidate(files[k]) && TatNumber(files[k]).Some? ==>
      TatNumber(files[k]).value <= MaxTatNumber(files)
    ensures MaxTatNumber(files) == 0 || exists k :: 0 <= k < |files| && IsTatCandidate(files[k]) && TatNumber(files[k]) == Some(MaxTatNumber(files))
  {
    if files != [] {
      var init := files[..|files| - 1];
      MaxTatNumberIsMax(init);
      forall k | 0 <= k < |init| ensures files[k] == init[k] { }
    }
  }

  /** `TAT_${maxNum + 1}${path.extname(originalname)}`. */
  function TatFilename(n: nat, originalname: string): string {
    "TAT_" + NatToString(n) + Extname(originalname)
  }

  lemma LowerTatPrefix()
    ensures Lower("TAT_") == "tat_"
  {
  }

  /** The scan reads the number back out of a name it gave. */
  lemma TatNumberOfName(n: nat, ext: string)
    requires ext != [] && ext[0] == '.'
    ensures TatNumber("TAT_" + NatToString(n) + ext) == Some(n)
  {
    var ds := NatToString(n);
    var f := "TAT_" + ds + ext;
    assert f[0..4] == "TAT_";
    LowerTatPrefix();
    assert f[4..] == ds + ext;
    DigitRunLenOf(ds, ext);
    assert f[4 + |ds|] == '.';
    assert f[4..][..|ds|] == ds;
    assert TatMatchAt(f, 0);
  }

  /**
   * A new picture whose name the listing accepts gets a number above every
   * number in use, so it never takes the name of a picture already stored,
   * and numbers freed by gaps are never given out again.
   */
  lemma NewTatNameIsFresh(files: seq<string>, originalname: string)
    ensures forall n :: n == MaxTatNumber(files) + 1 && IsImageName(TatFilename(n, originalname)) ==>
      TatFilename(n, originalname) !in files
  {
    forall n | n == MaxTatNumber(files) + 1 && IsImageName(TatFilename(n, originalname))
      ensures TatFilename(n, originalname) !in files
    {
      NumberedPictureIsCandidate(n, originalname);
      FreshAboveMax(files, TatFilename(n, originalname), n);
    }
  }

  /** A numbered name that the listing accepts is seen by the scan, with its number. */
  lemma NumberedPictureIsCandidate(n: nat, originalname: string)
    requires IsImageName(TatFilename(n, originalname))
    ensures IsTatCandidate(TatFilename(n, originalname)) && TatNumber(TatFilename(n, originalname)) == Some(n)
  {
    var name := TatFilename(n, originalname);
    var ext := Extname(originalname);
    TatNameHasExtension(NatToString(n), ext);
    TatNumberOfName(n, ext);
    assert name[..4] == "TAT_";
  }

  /** A candidate numbered above the maximum is not in the listing. */
  lemma FreshAboveMax(files: seq<string>, f: string, n: nat)
    requires IsTatCandidate(f) && TatNumber(f) == Some(n) && n > MaxTatNumber(files)
    ensures f !in files
  {
    MaxTatNumberIsMax(files);
  }

  /** A picture name ends in a letter, so a numbered picture name has an extension after its digits. */
  lemma TatNameHasExtension(ds: string, ext: string)
    requires AllDigits(ds) && ds != [] && IsImageName("TAT_" + ds + ext)
    ensures ext != []
  {
    ImageNameEndsInLetter("TAT_" + ds + ext);
  }

  // ---------------------------------------------------------------------
  // Naming
  // ---------------------------------------------------------------------

  /** Where a lecture upload goes and what it is called. */
  function LectureName(folder: string, filename: string, date: string, originalname: string): string {
    if filename != [] then filename
    else if folder == "newspaper" && date != [] then Stem(originalname) + "_" + date + Extname(originalname)
    else originalname
  }

  /** The placement the handler computes for a request that carries a file. */
  function Naming(req: UploadRequest, tatListing: seq<string>): (p: Placement)
    requires req.file.Some?
  {
    var orig := req.file.value.originalname;
    if req.uploadType == "lecture" then
      Placement(if req.folder == "newspaper" then NewspaperDir else ReadingDir, LectureName(req.folder, req.filename, req.date, orig))
    else if req.uploadType == "tat" then Placement(TatDir, TatFilename(MaxTatNumber(tatListing) + 1, orig))
    else if req.uploadType == "wat" then Placement(WatDir, WordsName)
    else if req.uploadType == "srt" then Placement(SrtDir, SrtName)
    else Placement(UploadsDir, orig)
  }

  function Outcome(req: UploadRequest, tatListing: seq<string>): UploadOutcome {
    if req.file.None? then Rejected(400, "No file uploaded") else Stored(Naming(req, tatListing))
  }

  /**
   * The naming branch of the handler, assigning the directory and the name
   * step by step; `tatListing` is the picture directory as read.
   */
  method Place(req: UploadRequest, tatListing: seq<string>) returns (outcome: UploadOutcome)
    ensures outcome == Outcome(req, tatListing)
  {
    if req.file.None? {
      return Rejected(400, "No file uploaded");
    }
    var orig := req.file.value.originalname;
    var finalFilename := orig;
    var targetDir := UploadsDir;
    if req.uploadType == "lecture" {
      targetDir := if req.folder == "newspaper" then NewspaperDir else ReadingDir;
      if req.filename != [] {
        finalFilename := req.filename;
      } else if req.folder == "newspaper" && req.date != [] {
        var ext := Extname(orig);
        var nameWithoutExt := Stem(orig);
        finalFilename := nameWithoutExt + "_" + req.date + ext;
      } else {
        finalFilename := orig;
      }
    } else if req.uploadType == "tat" {
      targetDir := TatDir;
      var maxNum := ScanMaxTatNumber(tatListing);
      finalFilename := "TAT_" + NatToString(maxNum + 1) + Extname(orig);
    } else if req.uploadType == "wat" {
      targetDir := WatDir;
      finalFilename := WordsName;
    } else if req.uploadType == "srt" {
      targetDir := SrtDir;
      finalFilename := SrtName;
    }
    outcome := Stored(Placement(targetDir, finalFilename));
  }

  /** A request without a file is refused with 400 before anything is named. */
  lemma NoFileIsRejected(req: UploadRequest, tatListing: seq<string>)
    ensures Outcome(req, tatListing).Rejected? <==> req.file.None?
    ensures req.file.None? ==> Outcome(req, tatListing) == Rejected(400, "No file uploaded")
  {
  }

  /**
   * A lecture goes to the newspaper directory exactly when its folder is
   * "newspaper", and to the reading-material directory otherwise; a name
   * given in the request is used as it is.
   */
  lemma LecturePlacement(req: UploadRequest, tatListing: seq<string>)
    requires req.file.Some? && req.uploadType == "lecture"
    ensures Naming(req, tatListing).dir == NewspaperDir <==> req.folder == "newspaper"
    ensures Naming(req, tatListing).dir != NewspaperDir ==> Naming(req, tatListing).dir == ReadingDir
    ensures req.filename != [] ==> Naming(req, tatListing).name == req.filename
    ensures req.filename == [] && (req.folder != "newspaper" || req.date == []) ==>
      Naming(req, tatListing).name == req.file.value.originalname
  {
  }

  /**
   * A dated newspaper without a given name is stored as stem_date.ext: it
   * keeps the original extension, and the newspaper listing finds the date in
   * it again when the stem carries no date of its own.
   */
  lemma DatedNewspaperName(orig: string, date: string)
    requires DateShaped(date)
    requires ExtractDate(Stem(orig)).None?
    ensures var name := LectureName("newspaper", "", date, orig);
      name == Stem(orig) + "_" + date + Extname(orig) && ExtractDate(name) == Some(date)
  {
    DatedNameGivesDate(Stem(orig), date, Extname(orig));
  }

  /** The numbered name keeps the extension of the uploaded file. */
  lemma TatNameKeepsExtension(n: nat, orig: string)
    ensures EndsWith(TatFilename(n, orig), Extname(orig))
    ensures StartsWith(TatFilename(n, orig), "TAT_")
  {
    var name := TatFilename(n, orig);
    assert name[|name| - |Extname(orig)|..] == Extname(orig);
    assert name[..4] == "TAT_";
  }

  /** The word list and the situational-response list always get the same path, whatever was uploaded. */
  lemma SingletonPlacements(req: UploadRequest, tatListing: seq<string>)
    requires req.file.Some?
    ensures req.uploadType == "wat" ==> PathOf(Naming(req, tatListing)) == "uploads/wat_words/words.txt"
    ensures req.uploadType == "srt" ==> PathOf(Naming(req, tatListing)) == "uploads/srt_list/srt_list.txt"
    ensures req.uploadType !in {"lecture", "tat", "wat", "srt"} ==>
      PathOf(Naming(req, tatListing)) == "uploads/" + req.file.value.originalname
  {
  }

  lemma LowerOfGif(name: string)
    requires |name| >= 4 && Lower(name[|name| - 4..]) == ".gif"
    ensures !IsImageName(name)
  {
    var l := Lower(name);
    assert l[|l| - 4..] == Lower(name[|name| - 4..]);
    assert l[|l| - 1] == 'f';
  }

  /**
   * A picture uploaded as .gif is numbered all the same, but neither the
   * numbering scan nor the picture listing will ever see it, whatever number
   * it was given.
   */
  lemma GifPictureIsInvisible(files: seq<string>, n: nat, orig: string)
    requires Lower(Extname(orig)) == ".gif"
    ensures var name := TatFilename(n, orig);
      !IsImageName(name) && !IsTatCandidate(name) && name !in ImageFiles(files + [name])
  {
    var name := TatFilename(n, orig);
    var ext := Extname(orig);
    assert name[|name| - 4..] == ext;
    LowerOfGif(name);
    ImageFilesMembers(files + [name], name);
  }

  /**
   * Numbered names are only unique among pictures: in a directory that holds
   * no picture the next upload is numbered 1 again, so a stored `TAT_1.gif`
   * (which `GifPictureIsInvisible` shows the scan never counts) is replaced
   * by the next upload with the same extension.
   */
  lemma GifUploadReusesName(files: seq<string>, orig: string)
    requires ImageFiles(files) == [] && TatFilename(1, orig) in files
    ensures forall n :: n == MaxTatNumber(files) + 1 ==> TatFilename(n, orig) in files
  {
    NoPictureNoNumber(files);
  }

  /** A directory without pictures gives the scan nothing: numbering starts again at 1. */
  lemma NoPictureNoNumber(files: seq<string>)
    requires ImageFiles(files) == []
    ensures MaxTatNumber(files) == 0
  {
    MaxTatNumberIsMax(files);
    if MaxTatNumber(files) != 0 {
      var k :| 0 <= k < |files| && IsTatCandidate(files[k]) && TatNumber(files[k]) == Some(MaxTatNumber(files));
      ImageFilesMembers(files, files[k]);
      assert false;
    }
  }

  // ---------------------------------------------------------------------
  // The stored files
  // ---------------------------------------------------------------------

  /** The path the upload middleware stores the file under before the handler runs. */
  function TempPath(f: UploadedFile): string {
    "uploads/" + f.originalname
  }

  /** The stored files after an upload of `f` to `p`: written at the temporary path, then moved unless already there. */
  function AfterUpload(files: map<string, string>, f: UploadedFile, p: Placement): (r: map<string, string>)
    ensures PathOf(p) in r && r[PathOf(p)] == f.content
    ensures TempPath(f) != PathOf(p) ==> TempPath(f) !in r
    ensures forall q :: q != TempPath(f) && q != PathOf(p) ==> (q in r <==> q in files) && (q in files ==> r[q] == files[q])
  {
    var written := files[TempPath(f) := f.content];
    if TempPath(f) == PathOf(p) then written
    else (written - {TempPath(f)})[PathOf(p) := f.content]
  }

  /**
   * The uploaded material: file contents by path, and the parsed
   * situational-response list the server keeps beside the raw text.
   */
  class ContentStore {
    var files: map<string, string>
    var srtList: seq<SrtItem>

    constructor()
      ensures files == map[] && srtList == []
    {
      files := map[];
      srtList := [];
    }

    /** The names in the picture directory, as the numbering scan sees them. */
    ghost predicate ListsPictures(listing: seq<string>)
      reads this
    {
      forall f :: f in listing <==> '/' !in f && TatDir + "/" + f in files
    }

    /** `POST /api/upload`; `tatListing` is the picture directory in the order it is read. */
    method Upload(req: UploadRequest, tatListing: seq<string>) returns (outcome: UploadOutcome)
      requires ListsPictures(tatListing)
      modifies this
      ensures outcome == Outcome(req, tatListing)
      ensures req.file.None? ==> files == old(files) && srtList == old(srtList)
      ensures req.file.Some? ==> files == AfterUpload(old(files), req.file.value, Naming(req, tatListing))
      ensures req.file.Some? && req.uploadType == "srt" ==>
        srtList == Items(Classified(Split(req.file.value.content, '\n')))
      ensures req.file.Some? && req.uploadType != "srt" ==> srtList == old(srtList)
    {
      outcome := Place(req, tatListing);
      if outcome.Rejected? {
        return;
      }
      var f := req.file.value;
      Store(f, outcome.placement);
      if req.uploadType == "srt" {
        srtList := ParseSrt(f.content);
      }
    }

    /** The middleware's write of the temporary copy, then the move to the placement, replacing what was there. */
    method Store(f: UploadedFile, p: Placement)
      modifies this
      ensures files == AfterUpload(old(files), f, p) && srtList == old(srtList)
    {
      var target := PathOf(p);
      files := files[TempPath(f) := f.content];
      if TempPath(f) != target {
        files := (files - {TempPath(f)})[target := f.content];
      }
    }
  }

  /** After a word list is uploaded, the words endpoint serves exactly the words of that file. */
  lemma WordListIsServed(files: map<string, string>, req: UploadRequest, tatListing: seq<string>)
    requires req.file.Some? && req.uploadType == "wat"
    ensures var after := AfterUpload(files, req.file.value, Naming(req, tatListing));
      "uploads/wat_words/words.txt" in after &&
      WatWords(after["uploads/wat_words/words.txt"]) == WatWords(req.file.value.content)
  {
    SingletonPlacements(req, tatListing);
  }

  /** Uploading a picture, a word list or a list never removes a stored file other than its own temporary copy. */
  lemma UploadKeepsOtherFiles(files: map<string, string>, req: UploadRequest, tatListing: seq<string>, q: string)
    requires req.file.Some? && q in files && q != TempPath(req.file.value)
    ensures q in AfterUpload(files, req.file.value, Naming(req, tatListing))
  {
  }
}
