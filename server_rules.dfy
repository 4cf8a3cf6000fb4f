/** The pure decisions of the image backend: which file names may be
    uploaded, how an upload or enhance request is validated, and how a
    requested name is routed to one of the two folders. */
module ServerRules {
  import opened Outcomes

  /** Extensions an upload may carry, compared after lower-casing. */
  const AllowedExtensions: set<string> := {"png", "jpg", "jpeg", "gif"}

  /** Prefix that marks a file produced by enhancement. */
  const EnhancedPrefix: string := "enhanced_"

  const NoFilePart := "No file part"
  const NoSelectedFile := "No selected file"
  const FileTypeNotAllowed := "File type not allowed"
  const NoFilenameProvided := "No filename provided"

  // ---------------------------------------------------------------------
  // Extension whitelist
  // ---------------------------------------------------------------------

  function LowerChar(c: char): char {
    if 'A' <= c <= 'Z' then (c as int + 32) as char else c
  }

  /** Lower-casing of the ASCII letters; every other character is kept. */
  function Lower(s: string): string {
    seq(|s|, i requires 0 <= i < |s| => LowerChar(s[i]))
  }

  /** Position of the last '.' in `s`, if there is one. */
  function LastDot(s: string): (r: Option<nat>)
    ensures r.Some? ==> r.value < |s| && s[r.value] == '.'
    ensures r.Some? ==> forall j :: r.value < j < |s| ==> s[j] != '.'
    ensures r.None? ==> forall j :: 0 <= j < |s| ==> s[j] != '.'
    decreases |s|
  {
    if s == [] then None
    else if s[|s| - 1] == '.' then Some(|s| - 1)
    else LastDot(s[..|s| - 1])
  }

  /** The text after the last '.', as `rsplit('.', 1)[1]` gives it. */
  function Extension(filename: string): Option<string> {
    match LastDot(filename)
    case None => None
    case Some(i) => Some(filename[i + 1..])
  }

  /** The upload whitelist: a '.' is present and the lower-cased text
      after the last one is an allowed extension. */
  predicate AllowedFile(filename: string): (ok: bool)
    ensures ok ==> '.' in filename && |filename| >= 4
  {
    match Extension(filename)
    case None => false
    case Some(ext) => Lower(ext) in AllowedExtensions
  }

  /** A '.' with no '.' after it is the one `LastDot` finds. */
  lemma LastDotUnique(s: string, i: nat)
    requires i < |s| && s[i] == '.'
    requires forall j :: i < j < |s| ==> s[j] != '.'
    ensures LastDot(s) == Some(i)
  {
  }

  /** The whitelist stated without reference to how the last '.' is found. */
  lemma AllowedFileIff(f: string)
    ensures AllowedFile(f) <==>
      exists i :: 0 <= i < |f| && f[i] == '.' && (forall j :: i < j < |f| ==> f[j] != '.')
                  && Lower(f[i + 1..]) in AllowedExtensions
  {
  }

  /** Case is ignored, only the last extension counts, and an empty
      extension or a missing '.' is refused. */
  lemma AllowedFileExamples()
    ensures AllowedFile("A.PNG") && AllowedFile("photo.jpeg")
    ensures !AllowedFile("a.png.exe") && !AllowedFile("x.") && !AllowedFile("png")
  {
    LastDotUnique("A.PNG", 1);
    assert Lower("PNG") == "png";
    LastDotUnique("photo.jpeg", 5);
    assert Lower("jpeg") == "jpeg";
    LastDotUnique("a.png.exe", 5);
    assert "a.png.exe"[6..] == "exe";
    LastDotUnique("x.", 1);
    assert Lower("exe") == "exe";
    assert Lower("") == "";
  }

  // ---------------------------------------------------------------------
  // Request validation
  // ---------------------------------------------------------------------

  /** One part of a multipart upload: its client-side file name (absent
      when the part carries none) and its contents. */
  datatype FilePart = FilePart(filename: Option<string>, content: Bytes)

  /** Result of a validation cascade: go on with a name, or answer with
      an HTTP error status and message. */
  datatype Verdict = Accepted(name: string) | Rejected(status: nat, error: string)

  /** The upload cascade: a missing `file` part, then an empty file name,
      then the whitelist; the first failing check decides the answer.
      A part without a file name counts as falsy and so fails the last
      check. */
  function ValidateUpload(files: map<string, FilePart>): (v: Verdict)
    ensures v == Rejected(400, NoFilePart) <==> "file" !in files
    ensures v == Rejected(400, NoSelectedFile) <==>
      "file" in files && files["file"].filename == Some("")
    ensures v.Accepted? <==>
      "file" in files && files["file"].filename.Some? &&
      files["file"].filename.value != "" && AllowedFile(files["file"].filename.value)
    ensures v == Rejected(400, FileTypeNotAllowed) <==>
      ("file" in files && files["file"].filename != Some("") && !v.Accepted?)
    ensures v.Accepted? ==> v.name == files["file"].filename.value
    ensures v.Rejected? ==> v.status == 400
  {
    if "file" !in files then Rejected(400, NoFilePart)
    else
      var file := files["file"];
      if file.filename == Some("") then Rejected(400, NoSelectedFile)
      else if file.filename.Some? && AllowedFile(file.filename.value) then
        Accepted(file.filename.value)
      else Rejected(400, FileTypeNotAllowed)
  }

  /** The first check of the enhance endpoint: the `filename` field must
      be present and non-empty. The `options` field plays no part. */
  function ValidateEnhance(filename: Option<string>): (v: Verdict)
    ensures v.Accepted? <==> filename.Some? && filename.value != ""
    ensures v.Accepted? ==> v.name == filename.value
    ensures v.Rejected? ==> v == Rejected(400, NoFilenameProvided)
  {
    if filename.None? || filename.value == "" then Rejected(400, NoFilenameProvided)
    else Accepted(filename.value)
  }

  // ---------------------------------------------------------------------
  // Names and folders
  // ---------------------------------------------------------------------

  /** The two folders the backend keeps. */
  datatype Folder = UploadFolder | EnhancedFolder

  /** The name enhancement gives to the output for input `filename`. */
  function EnhancedName(filename: string): (r: string)
    ensures EnhancedPrefix <= r && r[|EnhancedPrefix|..] == filename
  {
    EnhancedPrefix + filename
  }

  /** The folder a preview of `name` is looked up in: the enhanced folder
      exactly for the names enhancement can produce. */
  function PreviewFolder(name: string): (r: Folder)
    ensures r == EnhancedFolder <==> exists f :: name == EnhancedName(f)
  {
    if EnhancedPrefix <= name then
      assert name == EnhancedName(name[|EnhancedPrefix|..]);
      EnhancedFolder
    else UploadFolder
  }

  /** The name a download of `name` is looked up under (always in the
      enhanced folder): the prefix is added only when it is missing. */
  function DownloadName(name: string): (r: string)
    ensures EnhancedPrefix <= r
    ensures EnhancedPrefix <= name ==> r == name
    ensures !(EnhancedPrefix <= name) ==> r == EnhancedName(name)
  {
    if EnhancedPrefix <= name then name else EnhancedName(name)
  }

  /** Normalising a download name twice is normalising it once. */
  lemma DownloadNameIdempotent(name: string)
    ensures DownloadName(DownloadName(name)) == DownloadName(name)
  {
  }

  /** Download keeps a name exactly when preview routes it to the enhanced
      folder, so both endpoints agree on which names denote outputs. */
  lemma DownloadKeepsExactlyEnhancedRoutes(name: string)
    ensures DownloadName(name) == name <==> PreviewFolder(name) == EnhancedFolder
  {
  }

  /** A name produced by enhancement is routed to the enhanced folder by
      preview and is not prefixed a second time by download. */
  lemma EnhancedNameRouting(filename: string)
    ensures PreviewFolder(EnhancedName(filename)) == EnhancedFolder
    ensures DownloadName(EnhancedName(filename)) == EnhancedName(filename)
  {
  }

  /** An uploaded name that already starts with the prefix is looked up
      by preview in the enhanced folder, never where the upload stored it;
      for such a name download and enhance disagree on the output name. */
  lemma PrefixedUploadShadowed(filename: string)
    requires EnhancedPrefix <= filename
    ensures PreviewFolder(filename) == EnhancedFolder
    ensures DownloadName(filename) == filename != EnhancedName(filename)
  {
  }
}
