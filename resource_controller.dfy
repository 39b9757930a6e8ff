/** The resource handlers: create (with an optional uploaded file), list and
    delete over an in-memory resource table, with the uploader's
    contribution counter. The media host is abstract: its upload result is
    an input and its destroy call may fail. */
module ResourceController {
  import opened Common
  import opened Users
  import Text
  import Multer

  /** The content types the controller accepts for an uploaded file. */
  const AllowedTypes: seq<string> := [
    "application/pdf",
    "application/msword",
    "application/vnd.openxmlformats-officedocument.wordprocessingml.document",
    "image/png",
    "image/jpeg"
  ]

  predicate AcceptedType(mimetype: string) {
    mimetype in AllowedTypes
  }

  /** A multipart file as the controller sees it (its buffer is opaque). */
  datatype IncomingFile = IncomingFile(mimetype: string)

  /** What the media host answers to an upload. */
  datatype UploadOutcome =
    | Uploaded(secureUrl: string, publicId: string, format: string)
    | UploadFailed(message: string)

  datatype Resource = Resource(
    title: string,
    description: string,
    category: string,
    fileUrl: Option<string>,
    filePublicId: Option<string>,
    uploadedBy: Option<ObjectId>)

  datatype Reply =
    | ResourceJson(resource: Resource)
    | ResourcesJson(resources: map<ObjectId, Resource>)
    | MessageJson(message: string)
    | ErrorJson(message: string, error: string)

  const UnsupportedMessage := "Unsupported file type"
  const CreateFailedMessage := "Failed to create resource"
  const NotFoundMessage := "Resource not found"
  const NotOwnerMessage := "Not authorized to delete this resource"
  const DeleteFailedMessage := "Failed to delete resource"
  const DeletedMessage := "Resource deleted successfully"

  const UploadSegment := "/upload/"
  const InlineFlag := "fl_attachment:false/"
  const InlineSegment := UploadSegment + InlineFlag

  /** The controller accepts exactly these five types; each of them also
      passes the upload filter. */
  lemma AcceptedTypesAreFiltered(mimetype: string)
    ensures AcceptedType(mimetype) <==> mimetype in {"application/pdf", "application/msword",
      "application/vnd.openxmlformats-officedocument.wordprocessingml.document",
      "image/png", "image/jpeg"}
    ensures AcceptedType(mimetype) ==> Multer.FileFilter(mimetype).accept
  {
  }

  /** The two allow-lists differ in exactly one type: a GIF passes the
      upload filter and is then refused by the controller. */
  lemma FilterAdmitsOnlyGifBeyondController(mimetype: string)
    ensures (Multer.FileFilter(mimetype).accept && !AcceptedType(mimetype)) <==> mimetype == "image/gif"
  {
  }

  /** The delivery URL of a PDF: the first `/upload/` of the secure URL
      becomes `/upload/fl_attachment:false/`, so browsers show it inline. */
  function InlinePdfUrl(secureUrl: string): (r: string)
    ensures (forall j: nat :: !Text.OccursAt(secureUrl, UploadSegment, j)) ==> r == secureUrl
    ensures forall k: nat :: Text.FirstOccurrence(secureUrl, UploadSegment, k) ==>
      r == secureUrl[..k + |UploadSegment|] + InlineFlag + secureUrl[k + |UploadSegment|..]
  {
    var r := Text.ReplaceFirst(secureUrl, UploadSegment, InlineSegment);
    forall k: nat | Text.FirstOccurrence(secureUrl, UploadSegment, k)
      ensures r == secureUrl[..k + |UploadSegment|] + InlineFlag + secureUrl[k + |UploadSegment|..]
    {
      Text.ReplaceFirstInserts(secureUrl, UploadSegment, InlineFlag, k);
    }
    r
  }

  /** The URL stored for an uploaded file: rewritten for PDFs, the secure
      URL unchanged for every other format. */
  function StoredUrl(secureUrl: string, format: string): (r: string)
    ensures format != "pdf" ==> r == secureUrl
    ensures format == "pdf" ==> r == InlinePdfUrl(secureUrl)
    ensures |r| >= |secureUrl|
  {
    if format == "pdf" then InlinePdfUrl(secureUrl) else secureUrl
  }

  class ResourceStore {
    var resources: map<ObjectId, Resource>
    const users: UserTable

    /** A stored media-host handle always comes with its URL. */
    ghost predicate Valid()
      reads this
    {
      forall id :: id in resources && resources[id].filePublicId.Some? ==> resources[id].fileUrl.Some?
    }

    constructor (users: UserTable)
      ensures Valid() && resources == map[] && this.users == users
    {
      resources := map[];
      this.users := users;
    }

    /** POST /resources. A file outside the controller's allow-list is
        refused with 400 before any upload; a failed upload ends in 500;
        neither changes anything. Otherwise a record is created under
        `newId`: an uploaded file gives it the stored URL and the media
        handle, a truthy body `fileUrl` gives it that URL alone, and
        with neither no file field is set. The uploader is the caller when
        there is one, whose counter then rises by one. */
    method CreateResource(caller: Option<ObjectId>, title: string, description: string,
                          category: string, file: Option<IncomingFile>,
                          bodyFileUrl: Option<string>, upload: UploadOutcome, newId: ObjectId)
      returns (status: Status, reply: Reply, uploadAttempted: bool)
      requires Valid() && newId !in resources
      modifies this, users
      ensures Valid()
      ensures uploadAttempted <==> file.Some? && AcceptedType(file.value.mimetype)
      ensures file.Some? && !AcceptedType(file.value.mimetype) ==>
        && status == BadRequest && reply == MessageJson(UnsupportedMessage)
        && resources == old(resources) && users.contributions == old(users.contributions)
      ensures uploadAttempted && upload.UploadFailed? ==>
        && status == ServerError && reply == ErrorJson(CreateFailedMessage, upload.message)
        && resources == old(resources) && users.contributions == old(users.contributions)
      ensures status == Created <==> file.None? || (uploadAttempted && upload.Uploaded?)
      ensures status == Created ==>
        && newId in resources && resources == old(resources)[newId := resources[newId]]
        && reply == ResourceJson(resources[newId])
        && resources[newId].title == title
        && resources[newId].description == description
        && resources[newId].category == category
        && resources[newId].uploadedBy == caller
        && users.contributions == (if caller.Some? then Bumped(old(users.contributions), caller.value, 1)
                                  else old(users.contributions))
      ensures status == Created && file.Some? ==>
        && resources[newId].fileUrl == Some(StoredUrl(upload.secureUrl, upload.format))
        && resources[newId].filePublicId == Some(upload.publicId)
      ensures status == Created && file.None? ==>
        && resources[newId].fileUrl == (if Truthy(bodyFileUrl) then bodyFileUrl else None)
        && resources[newId].filePublicId == None
    {
      var fileUrl: Option<string> := None;
      var filePublicId: Option<string> := None;
      uploadAttempted := false;
      if file.Some? {
        if !AcceptedType(file.value.mimetype) {
          return BadRequest, MessageJson(UnsupportedMessage), false;
        }
        uploadAttempted := true;
        if upload.UploadFailed? {
          return ServerError, ErrorJson(CreateFailedMessage, upload.message), true;
        }
        var finalUrl := upload.secureUrl;
        if upload.format == "pdf" {
          finalUrl := InlinePdfUrl(finalUrl);
        }
        fileUrl := Some(finalUrl);
        filePublicId := Some(upload.publicId);
      } else if Truthy(bodyFileUrl) {
        fileUrl := bodyFileUrl;
      }
      var resource := Resource(title, description, category, fileUrl, filePublicId, caller);
      resources := resources[newId := resource];
      if caller.Some? {
        users.Increment(caller.value, 1);
      }
      status, reply := Created, ResourceJson(resource);
    }

    /** GET /resources: every stored resource. */
    method GetResources() returns (status: Status, reply: Reply)
      requires Valid()
      ensures status == Ok && reply == ResourcesJson(resources)
      ensures forall id :: id in reply.resources && reply.resources[id].filePublicId.Some? ==>
        reply.resources[id].fileUrl.Some?
    {
      status, reply := Ok, ResourcesJson(resources);
    }

    /** DELETE /resources/:id. 404 for an unknown id; 403 without a caller
        or for a caller other than the uploader; 500 when the record has
        no uploader (reading its id throws). None of these change anything
        or contact the media host. Otherwise the media file is destroyed
        first when the record holds a truthy handle (a failure there,
        `destroyFails`, is swallowed), the record goes and the caller's
        counter drops by one. */
    method DeleteResource(caller: Option<ObjectId>, id: ObjectId, destroyFails: bool)
      returns (status: Status, reply: Reply, destroyAttempted: bool)
      requires Valid()
      modifies this, users
      ensures Valid()
      ensures status != Ok ==>
        && !destroyAttempted
        && resources == old(resources) && users.contributions == old(users.contributions)
      ensures id !in old(resources) ==> status == NotFound && reply == MessageJson(NotFoundMessage)
      ensures id in old(resources) && caller.None? ==>
        status == Forbidden && reply == MessageJson(NotOwnerMessage)
      ensures id in old(resources) && caller.Some? && old(resources)[id].uploadedBy.None? ==>
        status == ServerError && reply == MessageJson(DeleteFailedMessage)
      ensures id in old(resources) && caller.Some? && old(resources)[id].uploadedBy.Some?
              && old(resources)[id].uploadedBy.value != caller.value ==>
        status == Forbidden && reply == MessageJson(NotOwnerMessage)
      ensures status == Ok <==> id in old(resources) && caller.Some? && old(resources)[id].uploadedBy == caller
      ensures status == Ok ==>
        && reply == MessageJson(DeletedMessage)
        && destroyAttempted == Truthy(old(resources)[id].filePublicId)
        && resources == old(resources) - {id}
        && users.contributions == Bumped(old(users.contributions), caller.value, -1)
    {
      destroyAttempted := false;
      if id !in resources {
        return NotFound, MessageJson(NotFoundMessage), false;
      }
      var resource := resources[id];
      if caller.None? {
        return Forbidden, MessageJson(NotOwnerMessage), false;
      }
      if resource.uploadedBy.None? {
        // `resource.uploadedBy.toString()` throws on undefined
        return ServerError, MessageJson(DeleteFailedMessage), false;
      }
      if resource.uploadedBy.value != caller.value {
        return Forbidden, MessageJson(NotOwnerMessage), false;
      }
      if Truthy(resource.filePublicId) {
        destroyAttempted := true;
        // a failed destroy is logged and otherwise ignored, whatever `destroyFails` says
      }
      resources := resources - {id};
      users.Increment(caller.value, -1);
      status, reply := Ok, MessageJson(DeletedMessage);
    }
  }

  /** Two walk-throughs: an anonymous link-only resource is
      created without an uploader and without touching any counter; a
      signed-in user's upload, deleted again by that user, leaves the
      user's counter where it started even when the media host fails to
      destroy the file. */
  method CreateDeleteScenario(u: ObjectId, anonId: ObjectId, rid: ObjectId)
    returns (anonCode: int, anonUploader: Option<ObjectId>, countersAfterAnon: map<ObjectId, int>,
             createCode: int, deleteCode: int, destroyTried: bool, counterAfter: int)
    requires anonId != rid
    ensures anonCode == 201 && anonUploader == None && countersAfterAnon == map[u := 3]
    ensures createCode == 201 && deleteCode == 200 && destroyTried && counterAfter == 3
  {
    var users := new UserTable(map[u := 3]);
    var store := new ResourceStore(users);
    var s1, r1, _ := store.CreateResource(None, "Notes", "", "notes", None,
                                          Some("https://example.org/notes"), UploadFailed("unused"), anonId);
    anonCode, anonUploader, countersAfterAnon := s1.Code(), r1.resource.uploadedBy, users.contributions;
    var s2, _, _ := store.CreateResource(Some(u), "Slides", "", "slides", Some(IncomingFile("application/pdf")),
                                         None, Uploaded("https://host/raw/upload/v1/s.pdf", "s", "pdf"), rid);
    var s3, _, tried := store.DeleteResource(Some(u), rid, true);
    createCode, deleteCode, destroyTried, counterAfter := s2.Code(), s3.Code(), tried, users.contributions[u];
  }
}
