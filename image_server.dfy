/** The image backend's endpoints over its two folders. A folder is a map
    from file name to contents; saving a file writes one entry. Name
    sanitising and the image processing itself are supplied from outside
    and stay uninterpreted. */
module ImageServer {
  import opened Outcomes
  import opened ServerRules

  const UploadSucceeded := "File uploaded successfully"
  const EnhancementComplete := "Enhancement complete"
  const FileNotFound := "File not found"
  const EnhancedFileNotFound := "Enhanced file not found"
  /** Flask's answer to an exception the endpoint does not catch. */
  const InternalServerError := "Internal Server Error"

  /** The JSON body of an enhance request: its `filename` field (absent or
      null as None) and its `options` field. */
  datatype EnhanceRequest = EnhanceRequest(filename: Option<string>, options: Option<Options>)

  /** What an endpoint answers: an error with its status, a JSON success
      naming a stored file, or the bytes of a file. */
  datatype Reply =
    | Fail(status: nat, error: string)
    | Stored(message: string, filename: string)
    | FileSent(filename: string, data: Bytes)

  class Server {
    /** Contents of the upload folder. */
    var uploads: map<string, Bytes>
    /** Contents of the enhanced folder. */
    var enhanced: map<string, Bytes>
    /** The name sanitiser applied to uploaded file names. */
    const secureFilename: string -> string
    /** The enhancement pipeline followed by the save of its output under
        the given output name: the saved contents, or the message of the
        exception either step raised. The name matters because the save
        picks the image format from the name's extension. */
    const enhanceProcessing: (string, Bytes) -> Outcome<Bytes>

    /** Both folders exist at start-up, holding whatever files they
        already held. */
    constructor (initialUploads: map<string, Bytes>, initialEnhanced: map<string, Bytes>,
                 secure: string -> string, processing: (string, Bytes) -> Outcome<Bytes>)
      ensures uploads == initialUploads && enhanced == initialEnhanced
      ensures secureFilename == secure && enhanceProcessing == processing
    {
      uploads := initialUploads;
      enhanced := initialEnhanced;
      secureFilename := secure;
      enhanceProcessing := processing;
    }

    /** The contents of one folder. */
    function Contents(folder: Folder): map<string, Bytes>
      reads this
    {
      match folder
      case UploadFolder => uploads
      case EnhancedFolder => enhanced
    }

    /** POST /api/upload: validate, then save the file under its sanitised
        name in the upload folder. A name that sanitises to "" makes the
        save target the folder itself; that raises, uncaught, and nothing
        is stored. */
    method UploadFile(files: map<string, FilePart>) returns (reply: Reply)
      modifies this`uploads
      ensures enhanced == old(enhanced)
      ensures ValidateUpload(files).Rejected? ==>
        reply == Fail(400, ValidateUpload(files).error) && uploads == old(uploads)
      ensures ValidateUpload(files).Accepted? ==>
        var name := secureFilename(files["file"].filename.value);
        if name == "" then
          reply == Fail(500, InternalServerError) && uploads == old(uploads)
        else
          reply == Stored(UploadSucceeded, name) &&
          uploads == old(uploads)[name := files["file"].content]
    {
      var verdict := ValidateUpload(files);
      match verdict
      case Rejected(status, error) =>
        reply := Fail(status, error);
      case Accepted(original) =>
        var name := secureFilename(original);
        if name == "" {
          return Fail(500, InternalServerError);
        }
        uploads := uploads[name := files["file"].content];
        reply := Stored(UploadSucceeded, name);
    }

    /** POST /api/enhance: check the name, look the input up in the upload
        folder, process it and save the output as `enhanced_<name>` in the
        enhanced folder. The options play no part in the answer. */
    method EnhanceImage(request: EnhanceRequest) returns (reply: Reply)
      modifies this`enhanced
      ensures uploads == old(uploads)
      ensures request.filename.None? || request.filename.value == "" ==>
        reply == Fail(400, NoFilenameProvided) && enhanced == old(enhanced)
      ensures request.filename.Some? && request.filename.value != "" ==>
        var name := request.filename.value;
        if name !in uploads then
          reply == Fail(404, FileNotFound) && enhanced == old(enhanced)
        else match enhanceProcessing(EnhancedName(name), uploads[name])
          case Err(e) => reply == Fail(500, e) && enhanced == old(enhanced)
          case Ok(image) =>
            reply == Stored(EnhancementComplete, EnhancedName(name)) &&
            enhanced == old(enhanced)[EnhancedName(name) := image]
      ensures reply.Stored? ==>
        reply.filename in enhanced &&
        PreviewFolder(reply.filename) == EnhancedFolder &&
        DownloadName(reply.filename) == reply.filename
    {
      var verdict := ValidateEnhance(request.filename);
      if verdict.Rejected? {
        return Fail(verdict.status, verdict.error);
      }
      var name := verdict.name;
      if name !in uploads {
        return Fail(404, FileNotFound);
      }
      var output := EnhancedName(name);
      var processed := enhanceProcessing(output, uploads[name]);
      match processed
      case Err(e) =>
        reply := Fail(500, e);
      case Ok(image) =>
        enhanced := enhanced[output := image];
        reply := Stored(EnhancementComplete, output);
        EnhancedNameRouting(name);
    }

    /** GET /api/preview/<name>: the file from the folder the name routes
        to, or 404 when it is not there. Nothing changes. */
    method GetPreview(filename: string) returns (reply: Reply)
      ensures filename in Contents(PreviewFolder(filename)) ==>
        reply == FileSent(filename, Contents(PreviewFolder(filename))[filename])
      ensures filename !in Contents(PreviewFolder(filename)) ==>
        reply == Fail(404, FileNotFound)
    {
      var folder := if EnhancedPrefix <= filename then enhanced else uploads;
      if filename !in folder {
        return Fail(404, FileNotFound);
      }
      reply := FileSent(filename, folder[filename]);
    }

    /** GET /api/download/<name>: the enhanced file under the normalised
        name, or 404 when it is not there. Nothing changes. */
    method DownloadFile(filename: string) returns (reply: Reply)
      ensures reply.FileSent? ==> EnhancedPrefix <= reply.filename
      ensures DownloadName(filename) in enhanced ==>
        reply == FileSent(DownloadName(filename), enhanced[DownloadName(filename)])
      ensures DownloadName(filename) !in enhanced ==>
        reply == Fail(404, EnhancedFileNotFound)
    {
      var name := filename;
      if !(EnhancedPrefix <= name) {
        name := EnhancedPrefix + name;
      }
      if name !in enhanced {
        return Fail(404, EnhancedFileNotFound);
      }
      reply := FileSent(name, enhanced[name]);
    }
  }

  /** Upload, enhance, then preview or download of the name enhance
      returned: both find the processed image in the enhanced folder. */
  method UploadEnhanceRetrieve(server: Server, files: map<string, FilePart>)
    returns (preview: Reply, download: Reply)
    modifies server
    ensures ValidateUpload(files).Accepted? &&
            server.secureFilename(files["file"].filename.value) != "" &&
            server.enhanceProcessing(EnhancedName(server.secureFilename(files["file"].filename.value)),
                                     files["file"].content).Ok? ==>
      var output := EnhancedName(server.secureFilename(files["file"].filename.value));
      var image := server.enhanceProcessing(output, files["file"].content).value;
      preview == FileSent(output, image) && download == FileSent(output, image)
  {
    var uploaded := server.UploadFile(files);
    if !uploaded.Stored? {
      return uploaded, uploaded;
    }
    var enhancedReply := server.EnhanceImage(EnhanceRequest(Some(uploaded.filename), None));
    if !enhancedReply.Stored? {
      return enhancedReply, enhancedReply;
    }
    preview := server.GetPreview(enhancedReply.filename);
    download := server.DownloadFile(enhancedReply.filename);
  }
}
