/**
 * The document service: role- and ownership-based access to a table of
 * uploaded documents, and the status bridge the ingestion service writes through.
 */
module Documents {
  import opened Wrappers
  import opened Errors

  type DocumentId = nat
  type UserId = nat

  datatype UserRole = ADMIN | EDITOR | VIEWER

  /** The document's lifecycle: PENDING, then PROCESSING, then COMPLETED or FAILED. */
  datatype DocumentStatus = PENDING | PROCESSING | COMPLETED | FAILED

  datatype Document = Document(
    id: DocumentId,
    description: Option<string>,
    filename: string,
    originalName: string,
    mimeType: string,
    size: nat,
    path: string,
    uploadedById: UserId,
    status: DocumentStatus)

  /** The stored upload the file interceptor hands to `create`. */
  datatype UploadedFile = UploadedFile(
    filename: string,
    originalname: string,
    mimetype: string,
    size: nat,
    path: string)

  datatype CreateDocumentDto = CreateDocumentDto(description: Option<string>)

  /** A partial update: a field that is `None` is absent from the request and left as it is. */
  datatype UpdateDocumentDto = UpdateDocumentDto(description: Option<string>, status: Option<DocumentStatus>)

  /** Who may read a document: an administrator, or the user who uploaded it. */
  function CanRead(doc: Document, userId: UserId, role: UserRole): (r: bool)
    ensures role == ADMIN ==> r
    ensures role != ADMIN ==> (r <==> doc.uploadedById == userId)
  {
    role == ADMIN || doc.uploadedById == userId
  }

  /** Who may update or delete documents at all, whoever owns them: everyone but a viewer. */
  function MayModify(role: UserRole): (r: bool)
    ensures r <==> role != VIEWER
  {
    role == ADMIN || role == EDITOR
  }

  /** The stored document after a partial update: the fields present in `dto` replace the old ones. */
  function ApplyUpdate(doc: Document, dto: UpdateDocumentDto): (r: Document)
    ensures r.description == (if dto.description.Some? then dto.description else doc.description)
    ensures r.status == (if dto.status.Some? then dto.status.value else doc.status)
    ensures r.(description := doc.description, status := doc.status) == doc
  {
    var d1 := if dto.description.Some? then doc.(description := dto.description) else doc;
    if dto.status.Some? then d1.(status := dto.status.value) else d1
  }

  class DocumentsService {
    var docs: map<DocumentId, Document>
    var nextId: DocumentId

    /** Every row is stored under its own id, and ids below `nextId` are the ones handed out. */
    ghost predicate Valid()
      reads this
    {
      forall id :: id in docs ==> docs[id].id == id && id < nextId
    }

    constructor ()
      ensures Valid() && docs == map[]
    {
      docs := map[];
      nextId := 0;
    }

    /** Saves a new document for the uploaded file, owned by `userId`. */
    method Create(dto: CreateDocumentDto, file: UploadedFile, userId: UserId) returns (d: Document)
      requires Valid()
      modifies this
      ensures Valid()
      ensures d.id !in old(docs) && docs == old(docs)[d.id := d]
      ensures d.uploadedById == userId && d.description == dto.description
      ensures d.filename == file.filename && d.originalName == file.originalname
      ensures d.mimeType == file.mimetype && d.size == file.size && d.path == file.path
      ensures d.status == PENDING
    {
      d := Document(nextId, dto.description, file.filename, file.originalname,
                    file.mimetype, file.size, file.path, userId, PENDING);
      docs := docs[nextId := d];
      nextId := nextId + 1;
    }

    /** Every document for an administrator; for anyone else, exactly their own uploads. */
    method FindAll(userId: UserId, role: UserRole) returns (r: map<DocumentId, Document>)
      ensures forall id :: id in r <==> id in docs && CanRead(docs[id], userId, role)
      ensures forall id :: id in r ==> r[id] == docs[id]
      ensures role == ADMIN ==> r == docs
      ensures role != ADMIN ==> forall id :: id in r ==> r[id].uploadedById == userId
    {
      if role == ADMIN {
        r := docs;
      } else {
        r := map id | id in docs && docs[id].uploadedById == userId :: docs[id];
      }
    }

    /** Looks a document up: NotFound if it is absent, Forbidden if the caller may not read it. */
    method FindOne(id: DocumentId, userId: UserId, role: UserRole) returns (r: Result<Document, Error>)
      ensures r.Success? <==> id in docs && CanRead(docs[id], userId, role)
      ensures r.Success? ==> r.value == docs[id]
      ensures id !in docs ==> r == Failure(DocumentNotFound(id))
      ensures id in docs && !CanRead(docs[id], userId, role) ==> r == Failure(AccessDenied)
    {
      if id !in docs {
        return Failure(DocumentNotFound(id));
      }
      var doc := docs[id];
      if role != ADMIN && doc.uploadedById != userId {
        return Failure(AccessDenied);
      }
      r := Success(doc);
    }

    /**
     * Writes the update as soon as the role allows it, and checks ownership only
     * when it re-reads the document: an editor who does not own the document
     * changes it and is then refused.
     */
    method Update(id: DocumentId, dto: UpdateDocumentDto, userId: UserId, role: UserRole)
      returns (r: Result<Document, Error>)
      requires Valid()
      modifies this
      ensures Valid() && nextId == old(nextId)
      ensures !MayModify(role) ==> r == Failure(UpdateDenied) && docs == old(docs)
      ensures MayModify(role) ==>
        docs == if id in old(docs) then old(docs)[id := ApplyUpdate(old(docs)[id], dto)] else old(docs)
      ensures MayModify(role) && id !in old(docs) ==> r == Failure(DocumentNotFound(id))
      ensures MayModify(role) && id in old(docs) && CanRead(old(docs)[id], userId, role) ==>
        r == Success(ApplyUpdate(old(docs)[id], dto))
      ensures MayModify(role) && id in old(docs) && !CanRead(old(docs)[id], userId, role) ==>
        r == Failure(AccessDenied) && docs[id] == ApplyUpdate(old(docs)[id], dto)
    {
      if role != ADMIN && role != EDITOR {
        return Failure(UpdateDenied);
      }
      if id in docs {
        docs := docs[id := ApplyUpdate(docs[id], dto)];
      }
      r := FindOne(id, userId, role);
    }

    /** Deletes the document with that id, whoever owns it, when the role allows deleting. */
    method Remove(id: DocumentId, userId: UserId, role: UserRole) returns (r: Result<(), Error>)
      requires Valid()
      modifies this
      ensures Valid() && nextId == old(nextId)
      ensures !MayModify(role) ==> r == Failure(DeleteDenied) && docs == old(docs)
      ensures MayModify(role) ==> r == Success(()) && docs == old(docs) - {id}
    {
      if role != ADMIN && role != EDITOR {
        return Failure(DeleteDenied);
      }
      docs := docs - {id};
      r := Success(());
    }

    /** The status bridge: sets only the status, or fails with NotFound when the document is absent. */
    method UpdateStatus(id: DocumentId, status: DocumentStatus) returns (r: Result<Document, Error>)
      requires Valid()
      modifies this
      ensures Valid() && nextId == old(nextId)
      ensures id in old(docs) ==>
        docs == old(docs)[id := old(docs)[id].(status := status)] && r == Success(docs[id])
      ensures id !in old(docs) ==> docs == old(docs) && r == Failure(DocumentNotFound(id))
    {
      if id in docs {
        docs := docs[id := docs[id].(status := status)];
      }
      if id !in docs {
        return Failure(DocumentNotFound(id));
      }
      r := Success(docs[id]);
    }
  }
}
