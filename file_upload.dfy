/** The file picker shared by the analysis pages
    (src/components/ui/file-upload.tsx): a size check, then an
    extension/MIME check, and the selected-file/error state around them.
    Drag events, the hidden input element and the click-to-browse handler
    are browser plumbing and are not modelled; a file is its name, its size
    in bytes and its reported MIME type. */
module FileUpload {
  import opened Wrappers
  import opened Text

  datatype FileInfo = FileInfo(name: string, size: nat, mimeType: string)

  /** The `accept` and `maxSize` (in MB) props when the caller gives none. */
  const DefaultAccept: string := ".pdf,.docx,.doc,.txt"
  const DefaultMaxSizeMB: nat := 10

  const BytesPerMB: nat := 1024 * 1024

  /** The largest accepted size, in bytes. */
  function SizeLimit(maxSizeMB: nat): nat {
    maxSizeMB * BytesPerMB
  }

  datatype UploadError = TooLarge(maxSizeMB: nat) | UnsupportedType

  /** The message shown under the drop zone for each error. */
  function ErrorMessage(e: UploadError): string {
    match e
    case TooLarge(m) => "Le fichier dépasse la taille maximale de " + NatToString(m) + "MB"
    case UnsupportedType => "Type de fichier non supporté"
  }

  datatype Verdict = Accepted | Rejected(error: UploadError)

  /** `accept.split(",").map(t => t.trim().toLowerCase())`. */
  function AllowedTypes(accept: string): (types: seq<string>)
    ensures |types| == |Split(accept, ',')| >= 1
    ensures forall k :: 0 <= k < |types| ==> types[k] == Lower(Trim(Split(accept, ',')[k]))
  {
    var parts := Split(accept, ',');
    seq(|parts|, k requires 0 <= k < |parts| => Lower(Trim(parts[k])))
  }

  /** `` `.${name.split(".").pop()?.toLowerCase()}` ``. */
  function Extension(name: string): string {
    "." + Lower(LastPart(name, '.'))
  }

  /** The extension is a dot followed by the lower-cased text after the last
      dot of the name (all of the name when it has no dot), and holds no
      other dot. */
  lemma ExtensionIsLowerCasedTextAfterLastDot(name: string)
    ensures var ext := Extension(name);
            && |ext| >= 1 && ext[0] == '.' && '.' !in ext[1..]
            && |ext| - 1 <= |name|
            && ext[1..] == Lower(name[|name| - (|ext| - 1)..])
            && ('.' in name ==> |ext| - 1 < |name| && name[|name| - |ext|] == '.')
            && ('.' !in name ==> ext[1..] == Lower(name))
  {
    LastPartIsTextAfterLastSep(name, '.');
    var last := LastPart(name, '.');
    var ext := Extension(name);
    assert ext[1..] == Lower(last);
    forall k | 0 <= k < |last| ensures Lower(last)[k] != '.' {
      assert last[k] != '.';
    }
  }

  /** The test of line 46: some allowed entry equals the extension, or,
      with its first "." removed, occurs in the MIME type. */
  predicate TypeAllowed(types: seq<string>, ext: string, mimeType: string) {
    exists k :: 0 <= k < |types| && (types[k] == ext || Contains(mimeType, RemoveFirst(types[k], '.')))
  }

  /** validateFile: the size check first, then the type check. */
  function Validate(f: FileInfo, accept: string, maxSizeMB: nat): (v: Verdict)
    ensures f.size > SizeLimit(maxSizeMB) ==> v == Rejected(TooLarge(maxSizeMB))
    ensures f.size <= SizeLimit(maxSizeMB) ==>
              (v == Accepted <==> TypeAllowed(AllowedTypes(accept), Extension(f.name), f.mimeType))
    ensures f.size <= SizeLimit(maxSizeMB) && !TypeAllowed(AllowedTypes(accept), Extension(f.name), f.mimeType) ==>
              v == Rejected(UnsupportedType)
    ensures v != Accepted ==> v == Rejected(TooLarge(maxSizeMB)) || v == Rejected(UnsupportedType)
  {
    if f.size > SizeLimit(maxSizeMB) then Rejected(TooLarge(maxSizeMB))
    else if !TypeAllowed(AllowedTypes(accept), Extension(f.name), f.mimeType) then Rejected(UnsupportedType)
    else Accepted
  }

  /** An entry that `trim()` and `toLowerCase()` leave as it is. */
  predicate IsCleanEntry(t: string) {
    && |t| > 0 && !IsJsWhitespace(t[0]) && !IsJsWhitespace(t[|t| - 1])
    && (forall k :: 0 <= k < |t| ==> !IsUpper(t[k]))
  }

  /** `trim()` and then `toLowerCase()` leave a clean entry as it is. */
  lemma CleanEntryKept(t: string)
    requires IsCleanEntry(t)
    ensures Lower(Trim(t)) == t
  {
    TrimKeepsUnpadded(t);
    assert Lower(t) == t by {
      forall k | 0 <= k < |t|
        ensures Lower(t)[k] == t[k]
      {
        assert !IsUpper(t[k]);
      }
    }
  }

  /** An `accept` list written with clean entries allows exactly those
      entries. */
  lemma AllowedTypesOfCleanList(entries: seq<string>)
    requires |entries| >= 1
    requires forall k :: 0 <= k < |entries| ==> ',' !in entries[k] && IsCleanEntry(entries[k])
    ensures AllowedTypes(Join(entries, ',')) == entries
  {
    var parts := Split(Join(entries, ','), ',');
    SplitJoin(entries, ',');
    assert parts == entries;
    var types := AllowedTypes(Join(entries, ','));
    forall k | 0 <= k < |entries|
      ensures types[k] == entries[k]
    {
      assert types[k] == Lower(Trim(parts[k]));
      CleanEntryKept(entries[k]);
    }
  }

  /** The default `accept` prop allows exactly these four entries. */
  lemma DefaultAllowedTypes()
    ensures AllowedTypes(DefaultAccept) == [".pdf", ".docx", ".doc", ".txt"]
  {
    var entries := [".pdf", ".docx", ".doc", ".txt"];
    DefaultEntriesClean(entries);
    AllowedTypesOfCleanList(entries);
  }

  lemma DefaultEntriesClean(entries: seq<string>)
    requires entries == [".pdf", ".docx", ".doc", ".txt"]
    ensures |entries| >= 1 && Join(entries, ',') == DefaultAccept
    ensures forall k :: 0 <= k < |entries| ==> ',' !in entries[k] && IsCleanEntry(entries[k])
  {
    DefaultEntriesJoin(entries);
    forall k | 0 <= k < |entries|
      ensures ',' !in entries[k] && IsCleanEntry(entries[k])
    {
      DefaultEntryClean(entries[k]);
    }
  }

  lemma DefaultEntriesJoin(entries: seq<string>)
    requires entries == [".pdf", ".docx", ".doc", ".txt"]
    ensures Join(entries, ',') == DefaultAccept
  {
    assert Join(entries[3..], ',') == ".txt";
    assert Join(entries[2..], ',') == ".doc" + "," + ".txt";
    assert Join(entries[1..], ',') == ".docx" + "," + ".doc,.txt";
    assert Join(entries, ',') == ".pdf" + "," + ".docx,.doc,.txt";
  }

  lemma DefaultEntryClean(entry: string)
    requires entry in [".pdf", ".docx", ".doc", ".txt"]
    ensures ',' !in entry && IsCleanEntry(entry)
  {
  }

  /** The extension of "stem.suffix", for a dot-free stem and a dot-free
      lower-case suffix. */
  lemma ExtensionOfSimpleName(stem: string, suffix: string)
    requires '.' !in stem && '.' !in suffix
    requires forall k :: 0 <= k < |suffix| ==> !IsUpper(suffix[k])
    ensures Extension(stem + "." + suffix) == "." + suffix
  {
    SplitJoin([stem, suffix], '.');
    assert Join([stem, suffix], '.') == stem + "." + suffix;
  }

  /** Under the default props, a file within the size limit is judged by
      the type test alone. */
  lemma DefaultVerdictWithinLimit(f: FileInfo)
    requires f.size <= SizeLimit(DefaultMaxSizeMB)
    ensures TypeAllowed([".pdf", ".docx", ".doc", ".txt"], Extension(f.name), f.mimeType) ==>
              Validate(f, DefaultAccept, DefaultMaxSizeMB) == Accepted
    ensures !TypeAllowed([".pdf", ".docx", ".doc", ".txt"], Extension(f.name), f.mimeType) ==>
              Validate(f, DefaultAccept, DefaultMaxSizeMB) == Rejected(UnsupportedType)
  {
    DefaultAllowedTypes();
  }

  /** A PDF of exactly the default size limit is accepted; one byte more and
      the size error wins, whatever the type. */
  lemma PdfAtLimitAccepted()
    ensures Validate(FileInfo("cv.pdf", SizeLimit(DefaultMaxSizeMB), "application/pdf"), DefaultAccept, DefaultMaxSizeMB) == Accepted
    ensures Validate(FileInfo("cv.exe", SizeLimit(DefaultMaxSizeMB) + 1, "application/x-msdownload"), DefaultAccept, DefaultMaxSizeMB)
            == Rejected(TooLarge(10))
  {
    PdfExtension();
    PdfEntryMatches([".pdf", ".docx", ".doc", ".txt"]);
    DefaultVerdictWithinLimit(FileInfo("cv.pdf", SizeLimit(DefaultMaxSizeMB), "application/pdf"));
  }

  lemma PdfExtension()
    ensures Extension("cv.pdf") == ".pdf"
  {
    ExtensionOfSimpleName("cv", "pdf");
    assert "cv" + "." + "pdf" == "cv.pdf";
  }

  lemma PdfEntryMatches(types: seq<string>)
    requires types == [".pdf", ".docx", ".doc", ".txt"]
    ensures TypeAllowed(types, ".pdf", "application/pdf")
  {
    assert types[0] == ".pdf";
  }

  /** A PNG image matches no default entry, neither by extension nor by
      MIME type, and is refused as unsupported. */
  lemma PngRejected()
    ensures Validate(FileInfo("photo.png", 1000, "image/png"), DefaultAccept, DefaultMaxSizeMB) == Rejected(UnsupportedType)
  {
    PngExtension("photo.png");
    PngMatchesNoEntry([".pdf", ".docx", ".doc", ".txt"], "image/png");
    DefaultVerdictWithinLimit(FileInfo("photo.png", 1000, "image/png"));
  }

  lemma PngExtension(name: string)
    requires name == "photo.png"
    ensures Extension(name) == ".png"
  {
    ExtensionOfSimpleName("photo", "png");
    assert "photo" + "." + "png" == name;
  }

  lemma PngMatchesNoEntry(types: seq<string>, mime: string)
    requires types == [".pdf", ".docx", ".doc", ".txt"]
    requires mime == "image/png"
    ensures !TypeAllowed(types, ".png", mime)
  {
    forall k | 0 <= k < |types|
      ensures !(types[k] == ".png" || Contains(mime, RemoveFirst(types[k], '.')))
    {
      DefaultEntryNotPng(types[k], mime);
    }
  }

  /** Each default entry differs from ".png" and has a letter that
      "image/png" lacks. */
  lemma DefaultEntryNotPng(entry: string, mime: string)
    requires entry in [".pdf", ".docx", ".doc", ".txt"]
    requires mime == "image/png"
    ensures !(entry == ".png" || Contains(mime, RemoveFirst(entry, '.')))
  {
    if entry == ".pdf" {
      EntryRuledOut(entry, "pdf", ".png", mime, 'd');
    } else if entry == ".docx" {
      EntryRuledOut(entry, "docx", ".png", mime, 'd');
    } else if entry == ".doc" {
      EntryRuledOut(entry, "doc", ".png", mime, 'd');
    } else {
      EntryRuledOut(entry, "txt", ".png", mime, 't');
    }
  }

  /** An entry ".name" that is not the extension, and whose name holds a
      character the MIME type lacks, does not match. */
  lemma EntryRuledOut(entry: string, name: string, ext: string, mime: string, c: char)
    requires entry == "." + name && entry != ext
    requires c in name && c !in mime
    ensures !(entry == ext || Contains(mime, RemoveFirst(entry, '.')))
  {
    RemoveLeadingDot(name);
    MissingCharRulesOut(mime, name, c);
  }

  /** Removing the first "." of an entry that starts with one drops just
      that dot. */
  lemma RemoveLeadingDot(name: string)
    ensures RemoveFirst("." + name, '.') == name
  {
    assert IndexOf("." + name, '.') == 0;
  }

  /** The MIME test is a substring test: the ".doc" entry becomes "doc",
      which occurs inside every Office Open XML type ("officedocument"), so
      a spreadsheet passes the default check. */
  lemma SpreadsheetPassesDefaultCheck()
    ensures Validate(FileInfo("budget.xlsx", 1000, "application/vnd.openxmlformats-officedocument.spreadsheetml.sheet"),
                     DefaultAccept, DefaultMaxSizeMB) == Accepted
  {
    OfficeMimeMatchesDocEntry([".pdf", ".docx", ".doc", ".txt"], Extension("budget.xlsx"),
                              "application/vnd.openxmlformats-officedocument.spreadsheetml.sheet");
    DefaultVerdictWithinLimit(FileInfo("budget.xlsx", 1000, "application/vnd.openxmlformats-officedocument.spreadsheetml.sheet"));
  }

  lemma OfficeMimeMatchesDocEntry(types: seq<string>, ext: string, mime: string)
    requires types == [".pdf", ".docx", ".doc", ".txt"]
    requires mime == "application/vnd.openxmlformats-officedocument.spreadsheetml.sheet"
    ensures TypeAllowed(types, ext, mime)
  {
    OfficeMimeHoldsDoc(mime);
    DocEntryMatches(types, ext, mime);
  }

  /** The spreadsheet MIME type has "doc" inside "officedocument". */
  lemma OfficeMimeHoldsDoc(mime: string)
    requires mime == "application/vnd.openxmlformats-officedocument.spreadsheetml.sheet"
    ensures Contains(mime, "doc")
  {
    var before, after := "application/vnd.openxmlformats-office", "ument.spreadsheetml.sheet";
    assert mime == before + "doc" + after;
    assert mime[|before|..|before| + 3] == "doc";
    OccursInside(mime, "doc", |before|);
  }

  /** A ".doc" entry admits every MIME type containing "doc". */
  lemma DocEntryMatches(types: seq<string>, ext: string, mime: string)
    requires |types| > 2 && types[2] == ".doc" && Contains(mime, "doc")
    ensures TypeAllowed(types, ext, mime)
  {
    RemoveLeadingDot("doc");
    assert ".doc" == "." + "doc";
    assert Contains(mime, RemoveFirst(types[2], '.'));
  }

  /** The widget's state: the held file, the error text, and the files
      handed to the owner's `onFileSelect` callback so far. */
  class Uploader {
    const accept: string
    const maxSizeMB: nat
    var selectedFile: Option<FileInfo>
    var error: Option<string>
    var announced: seq<FileInfo>

    /** The held file is always one that passed validation and was the last
        one announced to the owner. */
    ghost predicate Valid()
      reads this`selectedFile, this`announced
    {
      selectedFile.Some? ==>
        && Validate(selectedFile.value, accept, maxSizeMB) == Accepted
        && |announced| > 0 && announced[|announced| - 1] == selectedFile.value
    }

    constructor(accept: string, maxSizeMB: nat)
      ensures Valid()
      ensures this.accept == accept && this.maxSizeMB == maxSizeMB
      ensures selectedFile == None && error == None && announced == []
    {
      this.accept := accept;
      this.maxSizeMB := maxSizeMB;
      selectedFile := None;
      error := None;
      announced := [];
    }

    /** handleFile: a valid file is held, announced once and clears the
        error; an invalid one sets the error and leaves the held file and
        the announcements as they were. */
    method HandleFile(f: FileInfo) returns (ok: bool)
      requires Valid()
      modifies this
      ensures Valid()
      ensures ok <==> Validate(f, accept, maxSizeMB) == Accepted
      ensures ok ==> selectedFile == Some(f) && error == None && announced == old(announced) + [f]
      ensures !ok ==> && selectedFile == old(selectedFile) && announced == old(announced)
                      && error == Some(ErrorMessage(Validate(f, accept, maxSizeMB).error))
    {
      var v := Validate(f, accept, maxSizeMB);
      error := None;
      if v.Rejected? {
        error := Some(ErrorMessage(v.error));
        ok := false;
      } else {
        selectedFile := Some(f);
        announced := announced + [f];
        assert announced[|announced| - 1] == f;
        ok := true;
      }
    }

    /** clearFile: nothing held and no error; the owner is not told. */
    method ClearFile()
      requires Valid()
      modifies this
      ensures Valid()
      ensures selectedFile == None && error == None && announced == old(announced)
    {
      selectedFile := None;
      error := None;
    }
  }
}
