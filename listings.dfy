/**
 * The listing endpoints of the server, as functions of the directory listing
 * (or file content) they read: the image-response pictures sorted by the
 * number in their names, the word-association words, and the newspapers
 * with the date found in their names, newest first.
 */
module Listings {
  import opened Wrappers
  import opened Text
  import opened Paths
  import opened Sorting

  // ---------------------------------------------------------------------
  // Image-response pictures
  // ---------------------------------------------------------------------

  /** `/\.(png|jpg|jpeg)$/i.test(f)`. */
  predicate IsImageName(f: string) {
    var l := Lower(f);
    EndsWith(l, ".png") || EndsWith(l, ".jpg") || EndsWith(l, ".jpeg")
  }

  /** Every accepted extension ends in "g", so a picture name ends in a letter. */
  lemma ImageNameEndsInLetter(f: string)
    requires IsImageName(f)
    ensures f != [] && !IsDigit(f[|f| - 1])
  {
    var l := Lower(f);
    assert l[|l| - 1] == 'g';
  }

  datatype TatImage = TatImage(filename: string, path: string)

  const TatImagesUrl := "/uploads/tat_images/"

  /** The picture files of a listing, in directory order. */
  function ImageFiles(dir: seq<string>): (r: seq<string>)
    ensures |r| <= |dir|
  {
    if dir == [] then []
    else if IsImageName(dir[0]) then [dir[0]] + ImageFiles(dir[1..])
    else ImageFiles(dir[1..])
  }

  function TatEntries(files: seq<string>): (r: seq<TatImage>)
    ensures |r| == |files|
  {
    seq(|files|, i requires 0 <= i < |files| => TatImage(files[i], TatImagesUrl + files[i]))
  }

  /** Index of the first decimal digit of `f`. */
  function FirstDigit(f: string): (r: Option<nat>)
    ensures r.Some? ==> r.value < |f| && IsDigit(f[r.value]) && forall j :: 0 <= j < r.value ==> !IsDigit(f[j])
    ensures r.None? ==> forall j :: 0 <= j < |f| ==> !IsDigit(f[j])
  {
    if f == [] then None
    else if IsDigit(f[0]) then Some(0)
    else match FirstDigit(f[1..])
      case None => None
      case Some(i) => Some(i + 1)
  }

  /** `parseInt(f.match(/\d+/)?.[0] || 0)`: the value of the first run of digits, 0 when there is none. */
  function FirstNumber(f: string): nat {
    match FirstDigit(f)
    case None => 0
    case Some(i) => DigitsValue(f[i..][..DigitRunLen(f[i..])])
  }

  /** The comparator of the picture listing: `numA - numB`. */
  function TatOrder(a: TatImage, b: TatImage): int {
    FirstNumber(a.filename) - FirstNumber(b.filename)
  }

  /** `GET /api/tat-images` on a directory listing. */
  function TatImages(dir: seq<string>): seq<TatImage> {
    SortBy(TatEntries(ImageFiles(dir)), TatOrder)
  }

  function Filenames(s: seq<TatImage>): (r: seq<string>)
    ensures |r| == |s|
  {
    seq(|s|, i requires 0 <= i < |s| => s[i].filename)
  }

  /** The entries whose first number is `n`, in order. */
  function WithNumber(s: seq<TatImage>, n: nat): seq<TatImage> {
    if s == [] then []
    else if FirstNumber(s[0].filename) == n then [s[0]] + WithNumber(s[1..], n)
    else WithNumber(s[1..], n)
  }

  lemma {:induction false} ImageFilesMembers(dir: seq<string>, f: string)
    ensures f in ImageFiles(dir) <==> f in dir && IsImageName(f)
  {
    if dir != [] {
      ImageFilesMembers(dir[1..], f);
      assert f in dir <==> f == dir[0] || f in dir[1..];
    }
  }

  /**
   * The listing holds exactly the picture files of the directory, each once
   * per occurrence, and links each to its URL under /uploads/tat_images/.
   */
  lemma TatImagesContents(dir: seq<string>)
    ensures |TatImages(dir)| == |ImageFiles(dir)|
    ensures forall e :: e in TatImages(dir) ==> e.path == TatImagesUrl + e.filename
    ensures forall f :: f in Filenames(TatImages(dir)) <==> f in dir && IsImageName(f)
  {
    TatImagesPaths(dir);
    forall f ensures f in Filenames(TatImages(dir)) <==> f in dir && IsImageName(f) {
      TatImagesNames(dir, f);
      ImageFilesMembers(dir, f);
    }
  }

  /** Sorting keeps the entries built from the picture files, each pointing at its URL. */
  lemma TatImagesPaths(dir: seq<string>)
    ensures |TatImages(dir)| == |ImageFiles(dir)|
    ensures forall e :: e in TatImages(dir) ==> e.path == TatImagesUrl + e.filename
  {
    var entries := TatEntries(ImageFiles(dir));
    var r := TatImages(dir);
    assert multiset(r) == multiset(entries);
    forall e | e in r ensures e in entries && e.path == TatImagesUrl + e.filename {
      assert e in multiset(r);
    }
  }

  /** A name is listed exactly when it is one of the picture files. */
  lemma TatImagesNames(dir: seq<string>, f: string)
    ensures f in Filenames(TatImages(dir)) <==> f in ImageFiles(dir)
  {
    var entries := TatEntries(ImageFiles(dir));
    var r := TatImages(dir);
    assert multiset(r) == multiset(entries);
    if f in Filenames(r) {
      var i :| 0 <= i < |r| && Filenames(r)[i] == f;
      assert r[i] in multiset(entries);
      var k :| 0 <= k < |entries| && entries[k] == r[i];
      assert ImageFiles(dir)[k] == f;
    }
    if f in ImageFiles(dir) {
      var k :| 0 <= k < |ImageFiles(dir)| && ImageFiles(dir)[k] == f;
      assert entries[k] in multiset(r);
      var i :| 0 <= i < |r| && r[i] == entries[k];
      assert Filenames(r)[i] == f;
    }
  }

  lemma TatOrderConsistent(s: seq<TatImage>)
    ensures Consistent(s, TatOrder)
  {
  }

  /** The listing is in ascending order of the first number in each name. */
  lemma TatImagesOrdered(dir: seq<string>)
    ensures forall i, j :: 0 <= i < j < |TatImages(dir)| ==>
      FirstNumber(TatImages(dir)[i].filename) <= FirstNumber(TatImages(dir)[j].filename)
  {
    var entries := TatEntries(ImageFiles(dir));
    TatOrderConsistent(entries);
    SortBySorted(entries, TatOrder);
  }

  lemma {:induction false} TiesAreWithNumber(s: seq<TatImage>, x: TatImage)
    ensures Ties(s, x, TatOrder) == WithNumber(s, FirstNumber(x.filename))
  {
    if s != [] {
      TiesAreWithNumber(s[1..], x);
    }
  }

  /** Pictures with the same number keep their directory order (the sort is stable). */
  lemma TatImagesStable(dir: seq<string>, x: TatImage)
    ensures WithNumber(TatImages(dir), FirstNumber(x.filename)) == WithNumber(TatEntries(ImageFiles(dir)), FirstNumber(x.filename))
  {
    var entries := TatEntries(ImageFiles(dir));
    TatOrderConsistent(entries + [x]);
    SortByStable(entries, x, TatOrder);
    TiesAreWithNumber(entries, x);
    TiesAreWithNumber(TatImages(dir), x);
  }

  /** The first number of `pre + ds + post` is the value of `ds` when `pre` holds no digit and `ds` is a whole run. */
  lemma FirstNumberAfter(pre: string, ds: string, post: string)
    requires forall j :: 0 <= j < |pre| ==> !IsDigit(pre[j])
    requires ds != [] && AllDigits(ds)
    requires post == [] || !IsDigit(post[0])
    ensures FirstNumber(pre + ds + post) == DigitsValue(ds)
  {
    var f := pre + ds + post;
    FirstDigitAfter(pre, ds + post);
    assert f == pre + (ds + post);
    assert f[|pre|..] == ds + post;
    DigitRunLenOf(ds, post);
    assert (ds + post)[..|ds|] == ds;
  }

  lemma {:induction false} FirstDigitAfter(pre: string, rest: string)
    requires forall j :: 0 <= j < |pre| ==> !IsDigit(pre[j])
    requires rest != [] && IsDigit(rest[0])
    ensures FirstDigit(pre + rest) == Some(|pre|)
    decreases |pre|
  {
    if pre != [] {
      assert (pre + rest)[1..] == pre[1..] + rest;
      FirstDigitAfter(pre[1..], rest);
    }
  }

  // ---------------------------------------------------------------------
  // Word-association words
  // ---------------------------------------------------------------------

  function TrimAll(lines: seq<string>): (r: seq<string>)
    ensures |r| == |lines|
  {
    seq(|lines|, i requires 0 <= i < |lines| => Trim(lines[i]))
  }

  function NonEmpty(ws: seq<string>): (r: seq<string>)
    ensures |r| <= |ws|
  {
    if ws == [] then []
    else if ws[0] == [] then NonEmpty(ws[1..])
    else [ws[0]] + NonEmpty(ws[1..])
  }

  /** `GET /api/wat-words`: the file split at '\n', each line trimmed, blank lines dropped. */
  function WatWords(content: string): seq<string> {
    NonEmpty(TrimAll(Split(content, '\n')))
  }

  /** A word one line of the words file can carry. */
  predicate CleanWord(w: string) {
    w != [] && Trimmed(w) && '\n' !in w
  }

  lemma {:induction false} NonEmptyOfTrimmed(ws: seq<string>)
    requires forall i :: 0 <= i < |ws| ==> Trimmed(ws[i]) && '\n' !in ws[i]
    ensures forall i :: 0 <= i < |NonEmpty(ws)| ==> CleanWord(NonEmpty(ws)[i])
  {
    if ws != [] {
      NonEmptyOfTrimmed(ws[1..]);
    }
  }

  lemma TrimKeepsLineFree(s: string)
    requires '\n' !in s
    ensures '\n' !in Trim(s)
  {
    var t := TrimStart(s);
    assert t == s[|s| - |t|..];
    assert Trim(s) == t[..|Trim(s)|];
  }

  /** Every word served is non-empty, has no white space at either end and no line break. */
  lemma WatWordsClean(content: string)
    ensures forall i :: 0 <= i < |WatWords(content)| ==> CleanWord(WatWords(content)[i])
  {
    var lines := Split(content, '\n');
    forall i | 0 <= i < |lines| ensures Trimmed(TrimAll(lines)[i]) && '\n' !in TrimAll(lines)[i] {
      TrimKeepsLineFree(lines[i]);
    }
    NonEmptyOfTrimmed(TrimAll(lines));
  }

  lemma NonEmptyOfClean(ws: seq<string>)
    requires forall i :: 0 <= i < |ws| ==> CleanWord(ws[i])
    ensures NonEmpty(TrimAll(ws)) == ws
  {
    forall i | 0 <= i < |ws| ensures TrimAll(ws)[i] == ws[i] {
      TrimOfTrimmed(ws[i]);
    }
    assert TrimAll(ws) == ws;
    NonEmptyKeepsWords(ws);
  }

  /** A list without empty entries goes through the filter unchanged. */
  lemma {:induction false} NonEmptyKeepsWords(ws: seq<string>)
    requires forall i :: 0 <= i < |ws| ==> ws[i] != []
    ensures NonEmpty(ws) == ws
  {
    if ws != [] {
      NonEmptyKeepsWords(ws[1..]);
      assert ws == [ws[0]] + ws[1..];
    }
  }

  /** Writing clean words one per line and reading the file back gives the same words. */
  lemma WatWordsRoundTrip(words: seq<string>)
    requires forall i :: 0 <= i < |words| ==> CleanWord(words[i])
    ensures WatWords(Join(words, '\n')) == words
  {
    if words == [] {
      EmptyFileHasNoWords();
    } else {
      SplitJoin(words, '\n');
      NonEmptyOfClean(words);
    }
  }

  /** An empty words file serves no word. */
  lemma EmptyFileHasNoWords()
    ensures WatWords([]) == []
  {
    assert Split([], '\n') == [[]];
    assert TrimAll([[]]) == [[]];
  }

  // ---------------------------------------------------------------------
  // Newspapers
  // ---------------------------------------------------------------------

  /** `dddd-dd-dd`, the shape `/\d{4}-\d{2}-\d{2}/` matches; no calendar check. */
  predicate DateShaped(s: string) {
    && |s| == 10
    && IsDigit(s[0]) && IsDigit(s[1]) && IsDigit(s[2]) && IsDigit(s[3]) && s[4] == '-'
    && IsDigit(s[5]) && IsDigit(s[6]) && s[7] == '-' && IsDigit(s[8]) && IsDigit(s[9])
  }

  predicate DateAt(f: string, i: nat) {
    i + 10 <= |f| && DateShaped(f[i..i + 10])
  }

  /** A date starts at `i` and at no position before it. */
  predicate FirstDateAt(f: string, i: nat) {
    DateAt(f, i) && forall j :: 0 <= j < i ==> !DateAt(f, j)
  }

  /** The first position at or after `i` where a date-shaped run starts. */
  function FirstDateFrom(f: string, i: nat): (r: Option<nat>)
    ensures r.Some? ==> i <= r.value && DateAt(f, r.value)
    ensures r.Some? ==> forall j :: i <= j < r.value ==> !DateAt(f, j)
    ensures r.None? ==> forall j :: i <= j ==> !DateAt(f, j)
    decreases |f| - i
  {
    if i + 10 > |f| then None
    else if DateShaped(f[i..i + 10]) then Some(i)
    else FirstDateFrom(f, i + 1)
  }

  /** `extractDateFromFilename(f)`: the leftmost date-shaped substring, or null. */
  function ExtractDate(f: string): (r: Option<string>)
    ensures r.Some? ==> DateShaped(r.value) && Contains(f, r.value)
    ensures r.None? <==> forall j :: !DateAt(f, j)
    ensures r.Some? ==> exists i: nat :: FirstDateAt(f, i) && r.value == f[i..i + 10]
  {
    match FirstDateFrom(f, 0)
    case None => None
    case Some(i) =>
      assert OccursAt(f, f[i..i + 10], i);
      assert FirstDateAt(f, i);
      Some(f[i..i + 10])
  }

  /**
   * A date appended to a stem as `_date` is the one found again, whatever
   * follows it, as long as the stem holds no date of its own: the '_' stops
   * every run that starts in the stem from reaching into the date.
   */
  lemma DatedNameGivesDate(stem: string, date: string, ext: string)
    requires ExtractDate(stem).None? && DateShaped(date)
    ensures ExtractDate(stem + "_" + date + ext) == Some(date)
  {
    var f := stem + "_" + date + ext;
    var p := |stem| + 1;
    assert f[p..p + 10] == date;
    forall j | 0 <= j < p ensures !DateAt(f, j) {
      if j + 10 <= |stem| {
        assert f[j..j + 10] == stem[j..j + 10];
        assert !DateAt(stem, j);
      } else if j + 10 <= |f| {
        assert f[j..j + 10][|stem| - j] == '_';
      }
    }
    FirstDateIs(f, 0, p);
  }

  lemma {:induction false} FirstDateIs(f: string, i: nat, p: nat)
    requires i <= p && DateAt(f, p) && forall j :: i <= j < p ==> !DateAt(f, j)
    ensures FirstDateFrom(f, i) == Some(p)
    decreases p - i
  {
    if i < p {
      FirstDateIs(f, i + 1, p);
    }
  }

  datatype Newspaper = Newspaper(filename: string, path: string, kind: string, date: Option<string>)

  const NewspaperUrl := "/uploads/newspaper/"

  function NewspaperEntry(f: string): Newspaper {
    Newspaper(f, NewspaperUrl + f, Lower(Extname(f)), ExtractDate(f))
  }

  /** Code-point comparison of two strings: -1, 0 or 1. */
  function CompareStrings(a: string, b: string): (r: int)
    ensures -1 <= r <= 1
  {
    if a == [] && b == [] then 0
    else if a == [] then -1
    else if b == [] then 1
    else if a[0] < b[0] then -1
    else if a[0] > b[0] then 1
    else CompareStrings(a[1..], b[1..])
  }

  lemma {:induction false} CompareStringsEqual(a: string, b: string)
    ensures CompareStrings(a, b) == 0 <==> a == b
  {
    if a != [] && b != [] && a[0] == b[0] {
      CompareStringsEqual(a[1..], b[1..]);
      assert a == [a[0]] + a[1..] && b == [b[0]] + b[1..];
    }
  }

  lemma {:induction false} CompareStringsFlip(a: string, b: string)
    ensures CompareStrings(a, b) == -CompareStrings(b, a)
  {
    if a != [] && b != [] && a[0] == b[0] {
      CompareStringsFlip(a[1..], b[1..]);
    }
  }

  /** Strings that agree up to `k` and differ there compare as their `k`-th characters. */
  lemma {:induction false} CompareStringsAtFirstDifference(a: string, b: string, k: nat)
    requires k < |a| && k < |b| && a[..k] == b[..k] && a[k] < b[k]
    ensures CompareStrings(a, b) == -1
  {
    if k > 0 {
      assert a[0] == a[..k][0] == b[..k][0] == b[0];
      assert a[1..][..k - 1] == a[..k][1..] && b[1..][..k - 1] == b[..k][1..];
      CompareStringsAtFirstDifference(a[1..], b[1..], k - 1);
    }
  }

  lemma {:induction false} CompareStringsTransitive(a: string, b: string, c: string)
    requires CompareStrings(a, b) <= 0 && CompareStrings(b, c) <= 0
    ensures CompareStrings(a, c) <= 0
  {
    if a != [] && b != [] && c != [] && a[0] == b[0] && b[0] == c[0] {
      CompareStringsTransitive(a[1..], b[1..], c[1..]);
    }
  }

  /**
   * The newspaper comparator: newest first when both names carry a date,
   * otherwise by filename, descending.
   */
  function CompareNewspapers(a: Newspaper, b: Newspaper): int {
    if a.date.Some? && b.date.Some? then CompareStrings(b.date.value, a.date.value)
    else CompareStrings(b.filename, a.filename)
  }

  /** `GET /api/newspapers` on a directory listing. */
  function Newspapers(dir: seq<string>): seq<Newspaper> {
    SortBy(seq(|dir|, i requires 0 <= i < |dir| => NewspaperEntry(dir[i])), CompareNewspapers)
  }

  /** Swapping the two arguments of the comparator flips its sign. */
  lemma CompareNewspapersFlip(a: Newspaper, b: Newspaper)
    ensures CompareNewspapers(a, b) == -CompareNewspapers(b, a)
  {
    if a.date.Some? && b.date.Some? {
      CompareStringsFlip(b.date.value, a.date.value);
    } else {
      CompareStringsFlip(b.filename, a.filename);
    }
  }

  /** Among newspapers that all carry a date the comparator is consistent. */
  lemma DatedConsistent(s: seq<Newspaper>)
    requires forall e :: e in s ==> e.date.Some?
    ensures Consistent(s, CompareNewspapers)
  {
    forall x, y | x in s && y in s ensures CompareNewspapers(x, y) <= 0 || CompareNewspapers(y, x) <= 0 {
      CompareNewspapersFlip(x, y);
    }
    forall x, y, z | x in s && y in s && z in s && CompareNewspapers(x, y) <= 0 && CompareNewspapers(y, z) <= 0
      ensures CompareNewspapers(x, z) <= 0
    {
      CompareStringsTransitive(z.date.value, y.date.value, x.date.value);
    }
  }

  /** When every name carries a date, the listing runs from the newest date to the oldest. */
  lemma NewspapersNewestFirst(dir: seq<string>)
    requires forall i :: 0 <= i < |dir| ==> ExtractDate(dir[i]).Some?
    ensures forall i, j :: 0 <= i < j < |Newspapers(dir)| ==>
      Newspapers(dir)[i].date.Some? && Newspapers(dir)[j].date.Some? &&
      CompareStrings(Newspapers(dir)[j].date.value, Newspapers(dir)[i].date.value) <= 0
  {
    var entries := seq(|dir|, i requires 0 <= i < |dir| => NewspaperEntry(dir[i]));
    var r := Newspapers(dir);
    forall e | e in entries ensures e.date.Some? {
      var k :| 0 <= k < |entries| && entries[k] == e;
    }
    DatedConsistent(entries);
    SortBySorted(entries, CompareNewspapers);
    forall i | 0 <= i < |r| ensures r[i].date.Some? {
      assert r[i] in multiset(entries);
    }
  }

  /** Among newspapers none of which carries a date the comparator is consistent. */
  lemma UndatedConsistent(s: seq<Newspaper>)
    requires forall e :: e in s ==> e.date.None?
    ensures Consistent(s, CompareNewspapers)
  {
    forall x, y | x in s && y in s ensures CompareNewspapers(x, y) <= 0 || CompareNewspapers(y, x) <= 0 {
      CompareNewspapersFlip(x, y);
    }
    forall x, y, z | x in s && y in s && z in s && CompareNewspapers(x, y) <= 0 && CompareNewspapers(y, z) <= 0
      ensures CompareNewspapers(x, z) <= 0
    {
      CompareStringsTransitive(z.filename, y.filename, x.filename);
    }
  }

  /** When no name carries a date, the listing runs by filename, descending. */
  lemma NewspapersByName(dir: seq<string>)
    requires forall i :: 0 <= i < |dir| ==> ExtractDate(dir[i]).None?
    ensures forall i, j :: 0 <= i < j < |Newspapers(dir)| ==>
      CompareStrings(Newspapers(dir)[j].filename, Newspapers(dir)[i].filename) <= 0
  {
    var entries := seq(|dir|, i requires 0 <= i < |dir| => NewspaperEntry(dir[i]));
    var r := Newspapers(dir);
    forall e | e in entries ensures e.date.None? {
      var k :| 0 <= k < |entries| && entries[k] == e;
    }
    UndatedConsistent(entries);
    SortBySorted(entries, CompareNewspapers);
    forall i | 0 <= i < |r| ensures r[i].date.None? {
      assert r[i] in multiset(entries);
    }
  }

  /**
   * With dated and undated names mixed the comparator is not an order: three
   * newspapers can each be asked to come before the next, round in a cycle.
   */
  lemma MixedListingHasCycle()
    ensures var newer := NewspaperEntry("a_2025-01-01.pdf");
      var undated := NewspaperEntry("m.pdf");
      var older := NewspaperEntry("z_2024-01-01.pdf");
      CompareNewspapers(newer, older) < 0 && CompareNewspapers(older, undated) < 0 && CompareNewspapers(undated, newer) < 0
  {
    var newer: string := "a_2025-01-01.pdf";
    var older: string := "z_2024-01-01.pdf";
    var d1, d2 := newer[2..12], older[2..12];
    assert d2[..3] == d1[..3] && d2[3] < d1[3];
    CompareStringsAtFirstDifference(d2, d1, 3);
    CycleOfNames(newer, "m.pdf", older);
  }

  /**
   * A newer dated name that sorts first by name, an undated name, and an
   * older dated name that sorts last by name form a cycle.
   */
  lemma CycleOfNames(newer: string, undated: string, older: string)
    requires |newer| >= 12 && newer[1] == '_' && DateShaped(newer[2..12])
    requires |older| >= 12 && older[1] == '_' && DateShaped(older[2..12])
    requires |undated| < 10
    requires CompareStrings(older[2..12], newer[2..12]) < 0
    requires CompareStrings(undated, older) < 0 && CompareStrings(newer, undated) < 0
    ensures CompareNewspapers(NewspaperEntry(newer), NewspaperEntry(older)) < 0
    ensures CompareNewspapers(NewspaperEntry(older), NewspaperEntry(undated)) < 0
    ensures CompareNewspapers(NewspaperEntry(undated), NewspaperEntry(newer)) < 0
  {
    DateAfterUnderscore(newer);
    DateAfterUnderscore(older);
    assert ExtractDate(undated).None?;
  }

  /** A name of one letter, '_' and a date carries that date. */
  lemma DateAfterUnderscore(f: string)
    requires |f| >= 12 && f[1] == '_' && DateShaped(f[2..12])
    ensures ExtractDate(f) == Some(f[2..12])
  {
    assert !DateShaped(f[0..10]) by { assert f[0..10][1] == '_'; }
    assert !DateShaped(f[1..11]) by { assert f[1..11][0] == '_'; }
    FirstDateIs(f, 0, 2);
  }
}
