/**
 * The `/api/files` handlers over the object store: download one object or
 * list a prefix, upload in either of two input shapes, and delete.
 */
module FilesRoute {
  import opened Wrappers
  import opened Text
  import opened ObjectStore

  const OctetStream := "application/octet-stream"
  const MultipartFormData := "multipart/form-data"

  /** The most entries one listing asks the store for. */
  const ListLimit: nat := 100

  /** `/api/files?key=<key, URI-component encoded>`: a download reference to `key`. */
  datatype Link = DownloadLink(key: string)

  datatype FileSummary = FileSummary(
    key: string,
    size: nat,
    uploaded: Timestamp,
    etag: string,
    customMetadata: map<string, string>)

  datatype UploadedFile = UploadedFile(key: string, size: nat, etag: string)

  /** The bodies the handlers answer with: JSON objects, or the object's bytes. */
  datatype Body =
    | Error(error: string, key: Option<string>, details: Option<string>)
    | Content(bytes: seq<byte>)
    | Listing(files: seq<FileSummary>, count: nat, truncated: bool, cursor: Option<string>)
    | Uploaded(message: string, file: UploadedFile, url: Link)
    | Deleted(message: string, deletedKey: string)

  datatype Reply = Reply(status: int, headers: map<Header, string>, body: Body)

  function Fail(status: int, error: string, key: Option<string>, details: Option<string>): Reply {
    Reply(status, map[], Error(error, key, details))
  }

  /** The bucket after a request, with the reply to it. */
  datatype Outcome = Outcome(reply: Reply, objects: map<string, StoredObject>)

  // ---------------------------------------------------------------------------
  // GET /api/files?key=    (download)
  // ---------------------------------------------------------------------------

  /** `contentType || 'application/octet-stream'` over the stored metadata. */
  function ServedType(o: StoredObject): string {
    if Truthy(o.httpMetadata.contentType) then o.httpMetadata.contentType.value else OctetStream
  }

  /** The suggested file name: the part of the key after its last `/`. */
  function Filename(key: string): string {
    AfterLast(key, '/')
  }

  /** The response headers a download sets. */
  datatype Header = ContentType | ContentLength | ETag | ContentDisposition

  /** The header's name on the wire. */
  function HeaderName(h: Header): string {
    match h
    case ContentType => "Content-Type"
    case ContentLength => "Content-Length"
    case ETag => "ETag"
    case ContentDisposition => "Content-Disposition"
  }

  /** `attachment; filename="<file name>"` */
  function Disposition(key: string): string {
    "attachment; filename=\"" + Filename(key) + "\""
  }

  /**
   * A value `Headers.set` accepts: a byte string (every code point at most
   * U+00FF) with no NUL, CR or LF. Any other value makes it throw a TypeError.
   */
  predicate HeaderValueOk(v: string) {
    forall i :: 0 <= i < |v| ==> v[i] != '\0' && v[i] != '\n' && v[i] != '\r' && v[i] as int <= 0xFF
  }

  /** What `String(error)` shows of the TypeError a rejected header value raises. */
  const InvalidHeaderValue := "TypeError: Invalid header value."

  lemma {:induction false} HeaderValueOkConcat(a: string, b: string)
    ensures HeaderValueOk(a + b) <==> HeaderValueOk(a) && HeaderValueOk(b)
  {
    var ab := a + b;
    if HeaderValueOk(a) && HeaderValueOk(b) {
      forall i | 0 <= i < |ab|
        ensures ab[i] != '\0' && ab[i] != '\n' && ab[i] != '\r' && ab[i] as int <= 0xFF
      {
        if i >= |a| {
          assert ab[i] == b[i - |a|];
        }
      }
    }
    if HeaderValueOk(ab) {
      forall i | 0 <= i < |a|
        ensures a[i] != '\0' && a[i] != '\n' && a[i] != '\r' && a[i] as int <= 0xFF
      {
        assert a[i] == ab[i];
      }
      forall i | 0 <= i < |b|
        ensures b[i] != '\0' && b[i] != '\n' && b[i] != '\r' && b[i] as int <= 0xFF
      {
        assert b[i] == ab[|a| + i];
      }
    }
  }

  /** The download's four header values are all accepted. */
  predicate HeadersAccepted(key: string, o: StoredObject) {
    && HeaderValueOk(ServedType(o))
    && HeaderValueOk(Decimal(|o.body|))
    && HeaderValueOk(Quoted(o.etag))
    && HeaderValueOk(Disposition(key))
  }

  /**
   * The `Content-Disposition` value is accepted exactly when the file name
   * is: a name holding a line break or a character above U+00FF is refused.
   */
  lemma DispositionAccepted(key: string)
    ensures HeaderValueOk(Disposition(key)) <==> HeaderValueOk(Filename(key))
  {
    var head := "attachment; filename=\"";
    assert HeaderValueOk(head);
    assert HeaderValueOk("\"");
    HeaderValueOkConcat(head, Filename(key));
    HeaderValueOkConcat(head + Filename(key), "\"");
  }

  function DownloadHeaders(key: string, o: StoredObject): map<Header, string> {
    map[
      ContentType := ServedType(o),
      ContentLength := Decimal(|o.body|),
      ETag := Quoted(o.etag),
      ContentDisposition := Disposition(key)
    ]
  }

  /**
   * The download headers: the stored content type or the octet-stream
   * default, the body's length in decimal, the quoted etag, and an
   * attachment named after the key's last path segment.
   */
  lemma DownloadHeadersMeaning(key: string, o: StoredObject)
    ensures var h := DownloadHeaders(key, o);
      && h.Keys == {ContentType, ContentLength, ETag, ContentDisposition}
      && h[ContentType] == (if o.httpMetadata.contentType.Some? && o.httpMetadata.contentType.value != "" then o.httpMetadata.contentType.value else OctetStream)
      && IsDigits(h[ContentLength]) && DigitsValue(h[ContentLength]) == |o.body|
      && h[ETag] == Quoted(o.etag)
      && h[ContentDisposition] == Disposition(key) && '/' !in Filename(key)
  {
    assert DownloadHeaders(key, o) == map[
      ContentType := ServedType(o),
      ContentLength := Decimal(|o.body|),
      ETag := Quoted(o.etag),
      ContentDisposition := Disposition(key)];
    DecimalRoundTrip(|o.body|);
  }

  /**
   * `fault` is `Some` when the store's `get` throws; a header value the
   * runtime refuses throws as well, and lands in the same catch.
   */
  function Download(objects: map<string, StoredObject>, key: string, fault: Option<string>): (r: Reply)
    ensures r.status in {200, 404, 500}
    ensures r.status == 500 <==> fault.Some? || (key in objects && !HeadersAccepted(key, objects[key]))
    ensures fault.None? && key !in objects ==> r == Fail(404, "File not found", Some(key), None)
    ensures fault.None? && key in objects && !HeadersAccepted(key, objects[key]) ==>
      r == Fail(500, "Storage operation failed", None, Some(InvalidHeaderValue))
    ensures r.status == 200 ==>
      && fault.None? && key in objects
      && r.body == Content(objects[key].body) && r.headers == DownloadHeaders(key, objects[key])
    ensures fault.None? && key in objects && HeadersAccepted(key, objects[key]) ==>
      r == Reply(200, DownloadHeaders(key, objects[key]), Content(objects[key].body))
  {
    if fault.Some? then Fail(500, "Storage operation failed", None, Some(fault.value))
    else if key !in objects then Fail(404, "File not found", Some(key), None)
    else if !HeadersAccepted(key, objects[key]) then Fail(500, "Storage operation failed", None, Some(InvalidHeaderValue))
    else Reply(200, DownloadHeaders(key, objects[key]), Content(objects[key].body))
  }

  /** A stored key whose last segment holds a line break cannot be downloaded: the reply is 500. */
  lemma LineBreakInNameRefused(objects: map<string, StoredObject>, key: string)
    requires key in objects && '\n' in Filename(key)
    ensures Download(objects, key, None) == Fail(500, "Storage operation failed", None, Some(InvalidHeaderValue))
  {
    DispositionAccepted(key);
  }

  // ---------------------------------------------------------------------------
  // GET /api/files[?prefix=]    (listing)
  // ---------------------------------------------------------------------------

  /** `url.searchParams.get('prefix') || ''`: the default matches every key. */
  function ListPrefix(prefix: Option<string>): (p: string)
    ensures Truthy(prefix) ==> p == prefix.value
    ensures !Truthy(prefix) ==> forall k :: StartsWith(k, p)
  {
    if Truthy(prefix) then prefix.value else ""
  }

  function Summary(info: ObjectInfo): FileSummary {
    FileSummary(info.key, info.size, info.uploaded, info.etag, info.customMetadata)
  }

  /**
   * Turns the page the store's `list` returned (or the error it threw) into
   * the JSON listing; the cursor is passed on only when more entries remain.
   */
  function ListReply(listed: Result<Page, string>): (r: Reply)
    ensures r.status == 500 <==> listed.Err?
    ensures listed.Ok? ==>
      && r.status == 200 && r.body.Listing?
      && var page := listed.value;
      && |r.body.files| == |page.objects|
      && (forall i :: 0 <= i < |page.objects| ==> r.body.files[i] == Summary(page.objects[i]))
      && r.body.count == |r.body.files|
      && r.body.truncated == page.truncated
      && (r.body.cursor.Some? <==> page.truncated)
      && (page.truncated ==> r.body.cursor == Some(page.cursor))
  {
    match listed
    case Err(e) => Fail(500, "Storage operation failed", None, Some(e))
    case Ok(page) =>
      var files := seq(|page.objects|, i requires 0 <= i < |page.objects| => Summary(page.objects[i]));
      Reply(200, map[], Listing(files, |files|, page.truncated, if page.truncated then Some(page.cursor) else None))
  }

  /**
   * What a listing reply promises about the bucket: at most 100 entries, no
   * key twice, each a stored object under `prefix` with its stored size,
   * etag and upload time; truncated exactly when some object under `prefix`
   * is missing from it, and then with a cursor.
   */
  ghost predicate ListsBucket(objects: map<string, StoredObject>, prefix: string, r: Reply) {
    && r.status == 200 && r.body.Listing?
    && var files := r.body.files;
    && |files| <= ListLimit && r.body.count == |files|
    && (forall i :: 0 <= i < |files| ==>
          && files[i].key in objects
          && StartsWith(files[i].key, prefix)
          && files[i].size == |objects[files[i].key].body|
          && files[i].etag == objects[files[i].key].etag
          && files[i].uploaded == objects[files[i].key].uploaded)
    && (forall i, j :: 0 <= i < j < |files| ==> files[i].key != files[j].key)
    && (r.body.truncated <==>
          exists k :: k in objects && StartsWith(k, prefix) && !(exists i :: 0 <= i < |files| && files[i].key == k))
    && (r.body.truncated ==> r.body.cursor.Some?)
  }

  /** A listing built from a page the store produced for a prefix lists the bucket under that prefix. */
  lemma ListingContract(objects: map<string, StoredObject>, prefix: string, page: Page)
    requires IsPage(objects, prefix, ListLimit, page)
    ensures ListsBucket(objects, prefix, ListReply(Ok(page)))
  {
  }

  /**
   * GET: a non-empty `key` downloads, otherwise the handler lists. `listed`
   * is what the store's `list({prefix, limit: 100})` gave for the request's
   * `prefix` parameter.
   */
  function Get(objects: map<string, StoredObject>, key: Option<string>, prefix: Option<string>, getFault: Option<string>, listed: Result<Page, string>): (r: Reply)
    ensures Truthy(key) ==> r == Download(objects, key.value, getFault)
    ensures !Truthy(key) && listed.Err? ==> r.status == 500
    ensures !Truthy(key) && listed.Ok? && IsPage(objects, ListPrefix(prefix), ListLimit, listed.value) ==>
      ListsBucket(objects, ListPrefix(prefix), r)
  {
    if Truthy(key) then Download(objects, key.value, getFault) else ListReply(listed)
  }

  /** The first entry of a page, if any, is a stored key. */
  lemma FirstEntryStored(objects: map<string, StoredObject>, prefix: string, limit: nat, page: Page)
    requires IsPage(objects, prefix, limit, page)
    ensures |page.objects| > 0 ==> page.objects[0].key in objects
  {
  }

  /** Listing an empty bucket gives no entries and is not truncated. */
  lemma {:induction false} EmptyBucketListing(objects: map<string, StoredObject>, prefix: string, page: Page)
    requires objects == map[] && IsPage(objects, prefix, ListLimit, page)
    ensures ListReply(Ok(page)) == Reply(200, map[], Listing([], 0, false, None))
  {
    FirstEntryStored(objects, prefix, ListLimit, page);
    var files := seq(|page.objects|, i requires 0 <= i < |page.objects| => Summary(page.objects[i]));
    assert files == [];
  }

  // ---------------------------------------------------------------------------
  // POST /api/files
  // ---------------------------------------------------------------------------

  datatype FormFile = FormFile(name: string, mediaType: string, bytes: seq<byte>)

  /** A form field's value: an uploaded file, or plain text. */
  datatype FormEntry = FileEntry(file: FormFile) | TextEntry(text: string)

  /** The `file` and `path` fields of a multipart form. */
  datatype Form = Form(file: Option<FormEntry>, path: Option<string>)

  /** JavaScript truthiness of a form field: absent and empty text are falsy, a file never is. */
  predicate EntryTruthy(e: Option<FormEntry>) {
    e.Some? && (e.value.FileEntry? || e.value.text != "")
  }

  /** What `String(error)` shows when `arrayBuffer` is asked of a text field. */
  const NotAFile := "TypeError: file.arrayBuffer is not a function"

  /**
   * The request as the handler sees it: the `Content-Type` and `X-File-Key`
   * headers, the form the runtime parses (or the error it throws) when asked
   * for one, and the raw body.
   */
  datatype UploadRequest = UploadRequest(
    contentType: Option<string>,
    fileKey: Option<string>,
    form: Result<Form, string>,
    body: seq<byte>)

  /** The handler's clock: `Date.now()` and `new Date().toISOString()`. */
  datatype Clock = Clock(millis: nat, iso: string)

  /** The two input shapes, told apart by the declared media type. */
  datatype UploadShape =
    | FormUpload(form: Result<Form, string>)
    | RawUpload(fileKey: Option<string>, contentType: string, body: seq<byte>)

  function ShapeOf(req: UploadRequest): (shape: UploadShape)
    ensures shape.FormUpload? <==> exists i :: OccursAt(req.contentType.GetOr(""), MultipartFormData, i)
    ensures shape.FormUpload? ==> shape.form == req.form
    ensures shape.RawUpload? ==>
      shape.fileKey == req.fileKey && shape.contentType == req.contentType.GetOr("") && shape.body == req.body
  {
    var contentType := req.contentType.GetOr("");
    IncludesIff(contentType, MultipartFormData);
    if Includes(contentType, MultipartFormData) then FormUpload(req.form)
    else RawUpload(req.fileKey, contentType, req.body)
  }

  /** What every upload comes down to: a key, the bytes, and the content type to record. */
  datatype Payload = Payload(key: string, bytes: seq<byte>, contentType: string)

  /** The key given to a form upload without a `path`: `uploads/<millis>-<file name>`. */
  function GeneratedKey(millis: nat, filename: string): string {
    "uploads/" + Decimal(millis) + "-" + filename
  }

  /** The key rules and content-type defaults of both shapes, and their validation. */
  function PayloadOf(shape: UploadShape, clock: Clock): (r: Result<Payload, Reply>)
    ensures r.Err? ==> r.error.status in {400, 500} && r.error.body.Error?
    ensures r.Ok? ==> r.value.key != ""
    ensures shape.FormUpload? ==>
      match shape.form
      case Err(e) => r == Err(Fail(500, "Upload failed", None, Some(e)))
      case Ok(form) =>
        && (r.Ok? <==> form.file.Some? && form.file.value.FileEntry?)
        && (!EntryTruthy(form.file) ==>
              r == Err(Fail(400, "No file provided. Use \"file\" field in form data.", None, None)))
        && (EntryTruthy(form.file) && form.file.value.TextEntry? ==>
              r == Err(Fail(500, "Upload failed", None, Some(NotAFile))))
        && (r.Ok? ==>
              && var file := form.file.value.file;
              && r.value.key == (if Truthy(form.path) then form.path.value else GeneratedKey(clock.millis, file.name))
              && r.value.bytes == file.bytes
              && r.value.contentType == file.mediaType)
    ensures shape.RawUpload? ==>
      && (r.Ok? <==> Truthy(shape.fileKey))
      && (r.Err? ==> r == Err(Fail(400, "Missing X-File-Key header for direct upload", None, None)))
      && (r.Ok? ==>
            && r.value.key == shape.fileKey.value
            && r.value.bytes == shape.body
            && r.value.contentType == (if shape.contentType != "" then shape.contentType else OctetStream))
  {
    match shape
    case FormUpload(Err(e)) => Err(Fail(500, "Upload failed", None, Some(e)))
    case FormUpload(Ok(form)) =>
      if !EntryTruthy(form.file) then Err(Fail(400, "No file provided. Use \"file\" field in form data.", None, None))
      else if form.file.value.TextEntry? then Err(Fail(500, "Upload failed", None, Some(NotAFile)))
      else
        var file := form.file.value.file;
        var key := if Truthy(form.path) then form.path.value else GeneratedKey(clock.millis, file.name);
        Ok(Payload(key, file.bytes, file.mediaType))
    case RawUpload(fileKey, contentType, body) =>
      if !Truthy(fileKey) then Err(Fail(400, "Missing X-File-Key header for direct upload", None, None))
      else Ok(Payload(fileKey.value, body, if contentType != "" then contentType else OctetStream))
  }

  /** The object a payload is stored as, with the store's stamp and the upload time as custom metadata. */
  function StoredAs(p: Payload, clock: Clock, stamp: Stamp): StoredObject {
    StoredObject(p.bytes, HttpMetadata(Some(p.contentType)), stamp.etag, stamp.uploaded, map["uploadedAt" := clock.iso])
  }

  /**
   * What POST does to the bucket. `fault` is `Some` when the store's `put`
   * throws. An upload replaces any object at its key and touches no other.
   */
  function UploadOutcome(objects: map<string, StoredObject>, req: UploadRequest, clock: Clock, stamp: Stamp, fault: Option<string>): (o: Outcome)
    ensures o.reply.status in {201, 400, 500}
    ensures o.reply.status != 201 ==> o.objects == objects
    ensures PayloadOf(ShapeOf(req), clock).Err? ==> o.reply == PayloadOf(ShapeOf(req), clock).error
    ensures o.reply.status == 400 ==> PayloadOf(ShapeOf(req), clock).Err?
    ensures o.reply.status == 201 <==> PayloadOf(ShapeOf(req), clock).Ok? && fault.None?
    ensures o.reply.status == 201 ==>
      && var p := PayloadOf(ShapeOf(req), clock).value;
      && o.objects == objects[p.key := StoredAs(p, clock, stamp)]
      && (forall k :: k in objects && k != p.key ==> k in o.objects && o.objects[k] == objects[k])
      && o.reply.body == Uploaded("File uploaded successfully", UploadedFile(p.key, |p.bytes|, stamp.etag), DownloadLink(p.key))
  {
    match PayloadOf(ShapeOf(req), clock)
    case Err(reply) => Outcome(reply, objects)
    case Ok(p) =>
      if fault.Some? then Outcome(Fail(500, "Upload failed", None, Some(fault.value)), objects)
      else
        Outcome(
          Reply(201, map[], Uploaded("File uploaded successfully", UploadedFile(p.key, |p.bytes|, stamp.etag), DownloadLink(p.key))),
          objects[p.key := StoredAs(p, clock, stamp)])
  }

  /**
   * After a successful upload, downloading the key the reply links to gives
   * back the same bytes, served with the recorded content type, unless a
   * header value (the file name, say) is one the runtime refuses, in which
   * case it gives 500.
   */
  lemma UploadThenDownload(objects: map<string, StoredObject>, req: UploadRequest, clock: Clock, stamp: Stamp)
    requires UploadOutcome(objects, req, clock, stamp, None).reply.status == 201
    ensures var o := UploadOutcome(objects, req, clock, stamp, None);
      && var p := PayloadOf(ShapeOf(req), clock).value;
      && var d := Download(o.objects, o.reply.body.url.key, None);
      && d.status == (if HeadersAccepted(p.key, StoredAs(p, clock, stamp)) then 200 else 500)
      && (d.status == 200 ==>
            && d.body == Content(p.bytes)
            && d.headers[ContentType] == (if p.contentType != "" then p.contentType else OctetStream)
            && DigitsValue(d.headers[ContentLength]) == o.reply.body.file.size)
  {
    var o := UploadOutcome(objects, req, clock, stamp, None);
    var p := PayloadOf(ShapeOf(req), clock).value;
    DownloadHeadersMeaning(p.key, o.objects[p.key]);
  }

  /**
   * POST as the handler runs it: `key`, `data` and `httpMetadata` are set per
   * input shape, then one `put` writes the object.
   */
  method Upload(bucket: Bucket, req: UploadRequest, clock: Clock, stamp: Stamp, fault: Option<string>)
    returns (reply: Reply)
    modifies bucket
    ensures reply == UploadOutcome(old(bucket.objects), req, clock, stamp, fault).reply
    ensures bucket.objects == UploadOutcome(old(bucket.objects), req, clock, stamp, fault).objects
  {
    var contentType := req.contentType.GetOr("");
    var key: string;
    var data: seq<byte>;
    var httpMetadata := HttpMetadata(None);

    if Includes(contentType, MultipartFormData) {
      if req.form.Err? {
        reply := Fail(500, "Upload failed", None, Some(req.form.error));
        return;
      }
      var form := req.form.value;
      if !EntryTruthy(form.file) {
        reply := Fail(400, "No file provided. Use \"file\" field in form data.", None, None);
        return;
      }
      if form.file.value.TextEntry? {
        // a text field has no `arrayBuffer`
        reply := Fail(500, "Upload failed", None, Some(NotAFile));
        return;
      }
      var file := form.file.value.file;
      key := if Truthy(form.path) then form.path.value else "uploads/" + Decimal(clock.millis) + "-" + file.name;
      data := file.bytes;
      httpMetadata := httpMetadata.(contentType := Some(file.mediaType));
    } else {
      var customKey := req.fileKey;
      if !Truthy(customKey) {
        reply := Fail(400, "Missing X-File-Key header for direct upload", None, None);
        return;
      }
      key := customKey.value;
      data := req.body;
      httpMetadata := httpMetadata.(contentType := Some(if contentType != "" then contentType else OctetStream));
    }

    if fault.Some? {
      reply := Fail(500, "Upload failed", None, Some(fault.value));
      return;
    }
    var info := bucket.Put(key, data, httpMetadata, map["uploadedAt" := clock.iso], stamp);
    reply := Reply(201, map[], Uploaded(
      "File uploaded successfully",
      UploadedFile(if info.key != "" then info.key else key, |data|, info.etag),
      DownloadLink(key)));
  }

  // ---------------------------------------------------------------------------
  // DELETE /api/files?key=
  // ---------------------------------------------------------------------------

  /**
   * What DELETE does to the bucket: a metadata probe, then the delete; each
   * store call has its own fault.
   */
  function DeleteOutcome(objects: map<string, StoredObject>, key: Option<string>, probeFault: Option<string>, deleteFault: Option<string>): (o: Outcome)
    ensures o.reply.status in {200, 400, 404, 500}
    ensures o.reply.status == 400 <==> !Truthy(key)
    ensures o.reply.status == 404 <==> Truthy(key) && probeFault.None? && key.value !in objects
    ensures o.reply.status == 404 ==> o.reply.body == Error("File not found", key, None)
    ensures o.reply.status == 200 <==> Truthy(key) && probeFault.None? && deleteFault.None? && key.value in objects
    ensures o.reply.status == 200 ==>
      && o.objects == objects - {key.value}
      && o.reply.body == Deleted("File deleted successfully", key.value)
    ensures o.reply.status != 200 ==> o.objects == objects
  {
    if !Truthy(key) then Outcome(Fail(400, "Missing required parameter: key", None, None), objects)
    else if probeFault.Some? then Outcome(Fail(500, "Delete failed", None, Some(probeFault.value)), objects)
    else if key.value !in objects then Outcome(Fail(404, "File not found", key, None), objects)
    else if deleteFault.Some? then Outcome(Fail(500, "Delete failed", None, Some(deleteFault.value)), objects)
    else Outcome(Reply(200, map[], Deleted("File deleted successfully", key.value)), objects - {key.value})
  }

  /** DELETE as the handler runs it: `head(key)`, then `delete(key)` only if something is there. */
  method Delete(bucket: Bucket, key: Option<string>, probeFault: Option<string>, deleteFault: Option<string>)
    returns (reply: Reply)
    modifies bucket
    ensures reply == DeleteOutcome(old(bucket.objects), key, probeFault, deleteFault).reply
    ensures bucket.objects == DeleteOutcome(old(bucket.objects), key, probeFault, deleteFault).objects
  {
    if !Truthy(key) {
      reply := Fail(400, "Missing required parameter: key", None, None);
      return;
    }
    if probeFault.Some? {
      reply := Fail(500, "Delete failed", None, Some(probeFault.value));
      return;
    }
    var existing := bucket.Head(key.value);
    if existing.None? {
      reply := Fail(404, "File not found", key, None);
      return;
    }
    if deleteFault.Some? {
      reply := Fail(500, "Delete failed", None, Some(deleteFault.value));
      return;
    }
    bucket.Delete(key.value);
    reply := Reply(200, map[], Deleted("File deleted successfully", key.value));
  }

  /** After a delete, the key is gone: downloading it and deleting it again both give 404. */
  lemma DeleteThenGone(objects: map<string, StoredObject>, key: string)
    requires key != "" && key in objects
    ensures var first := DeleteOutcome(objects, Some(key), None, None);
      && first.reply.status == 200
      && Download(first.objects, key, None).status == 404
      && DeleteOutcome(first.objects, Some(key), None, None).reply.status == 404
  {
  }

  lemma SampleTypeAccepted()
    ensures HeaderValueOk("text/plain")
  {
  }

  lemma SampleLengthAccepted()
    ensures HeaderValueOk(Decimal(5))
  {
    assert Decimal(5) == "5";
  }

  lemma SampleEtagAccepted()
    ensures HeaderValueOk(Quoted("e1"))
  {
  }

  lemma SampleNameAccepted()
    ensures HeaderValueOk(Disposition("t.txt"))
  {
    AfterLastWhole("t.txt", '/');
    assert HeaderValueOk("t.txt");
    DispositionAccepted("t.txt");
  }

  /** The headers of the sample object below are all accepted. */
  lemma SampleHeadersAccepted(o: StoredObject)
    requires o == StoredObject([104, 101, 108, 108, 111], HttpMetadata(Some("text/plain")), "e1", 0, map["uploadedAt" := "1970-01-01T00:00:00.000Z"])
    ensures HeadersAccepted("t.txt", o)
  {
    SampleTypeAccepted();
    SampleLengthAccepted();
    SampleEtagAccepted();
    SampleNameAccepted();
  }

  /** A raw upload of "hello" under `t.txt`, its download, its delete, and the download after. */
  method Scenario() {
    var bucket := new Bucket();
    var hello: seq<byte> := [104, 101, 108, 108, 111];
    var req := UploadRequest(Some("text/plain"), Some("t.txt"), Err("not a form"), hello);
    assert !Includes("text/plain", MultipartFormData);
    var reply := Upload(bucket, req, Clock(0, "1970-01-01T00:00:00.000Z"), Stamp("e1", 0), None);
    assert reply.status == 201 && reply.body.file.size == 5;
    SampleHeadersAccepted(bucket.objects["t.txt"]);
    var got := Get(bucket.objects, Some("t.txt"), None, None, Err("unused"));
    assert got.status == 200 && got.body == Content(hello);
    reply := Delete(bucket, Some("t.txt"), None, None);
    assert reply.status == 200;
    got := Get(bucket.objects, Some("t.txt"), None, None, Err("unused"));
    assert got.status == 404;
  }
}
