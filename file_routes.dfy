/**
  The file administration routes (api/file_routes.py) over the `files` table:
  the extension allow-list, the 25 MB size limit, the admin check against the
  `company_employee` table, the validation cascade of an upload, deletion, and
  the sorted listing. The table is the committed state: a route that fails
  before or at `db.session.commit()` leaves it as it was.
 */
module FileRoutes {
  import opened Common
  import opened Models
  import opened Ordering

  const AllowedFileTypes: set<string> := {"txt", "docx", "pdf"}
  const MaxFileSize: int := 25 * 1024 * 1024

  /** The column names `list_files` accepts as `sort_by`. */
  const SortColumns: set<string> := {"name", "size", "type", "upload_date"}

  const NoUsername: Reply := Reply(400, "Username not provided")
  const UploadDenied: Reply := Reply(403, "Access denied. Only admins can upload files.")
  const DeleteDenied: Reply := Reply(403, "Access denied. Only admins can delete files.")
  const ListDenied: Reply := Reply(403, "Access denied. Only admins can view files.")
  const NoFile: Reply := Reply(400, "No file provided")
  const TypeNotAllowed: Reply := Reply(400, "File type not allowed")
  const TooLarge: Reply := Reply(400, "File exceeds maximum size of 25 MB")
  const UserNotFound: Reply := Reply(404, "User not found")
  const FileNotFound: Reply := Reply(404, "File not found")
  const InvalidSort: Reply := Reply(400, "Invalid sort parameter")

  /** The uploaded part of the form: its file name and its size in bytes
      (what `file.tell()` reports after seeking to the end). */
  datatype UploadedFile = UploadedFile(filename: string, size: nat)

  /** What `upload_file` reads from the request: the `username` header and
      the `file` part, each `None` when absent. */
  datatype UploadRequest = UploadRequest(username: Option<string>, file: Option<UploadedFile>)

  /** The values an accepted upload stores. */
  datatype ValidUpload = ValidUpload(name: string, size: nat, fileType: string, userId: int)

  /** `file_name.rsplit('.', 1)[1]`: the text after the last '.'. */
  function Extension(name: string): string {
    name[RFind(name, '.') + 1..]
  }

  /** `is_allowed_file(file_name)`: only a name with a dot can pass, and a
      name that passes is stored with one of the allowed types. */
  function IsAllowedFile(name: string): (ok: bool)
    ensures '.' !in name ==> !ok
    ensures ok ==> FileType(name) in AllowedFileTypes
  {
    '.' in name && Lower(Extension(name)) in AllowedFileTypes
  }

  /** The stored `type`: the text after the last '.', with no upper-case
      letter left. */
  function FileType(name: string): (t: string)
    ensures |t| == |Extension(name)|
    ensures forall i :: 0 <= i < |t| ==> !('A' <= t[i] <= 'Z')
    ensures forall i :: 0 <= i < |t| ==> LowerChar(t[i]) == LowerChar(Extension(name)[i])
  {
    Lower(Extension(name))
  }

  /** The extension is what follows the last dot, whatever the dots before it. */
  lemma {:induction false} ExtensionAfterLastDot(stem: string, ext: string)
    requires '.' !in ext
    ensures Extension(stem + "." + ext) == ext
  {
    RFindLast(stem, '.', ext);
    assert (stem + "." + ext)[|stem| + 1..] == ext;
  }

  /** A name is allowed exactly when it has a dot and its last extension,
      in any letter case, is txt, docx or pdf; the stored type is then that
      extension in lower case. */
  lemma AllowedFileIff(stem: string, ext: string)
    requires '.' !in ext
    ensures IsAllowedFile(stem + "." + ext) <==> Lower(ext) in AllowedFileTypes
    ensures FileType(stem + "." + ext) == Lower(ext)
  {
    ExtensionAfterLastDot(stem, ext);
    assert (stem + "." + ext)[|stem|] == '.';
  }

  /** `is_admin(username)`: the first employee row with that email has the
      role "admin"; someone who is not an employee is never an admin. */
  function IsAdmin(employees: seq<Employee>, username: string): (admin: bool)
    ensures admin ==>
      exists i :: 0 <= i < |employees| && employees[i].email == username && employees[i].role == "admin"
    ensures (forall i :: 0 <= i < |employees| ==> employees[i].email != username) ==> !admin
  {
    EmployeeRole(employees, username) == Some("admin")
  }

  /** With one row per email, a user is an admin exactly when their row has
      the role "admin", spelt exactly so. */
  lemma {:induction false} AdminIff(employees: seq<Employee>, username: string)
    requires EmailsUnique(employees)
    ensures IsAdmin(employees, username) <==>
      exists i :: 0 <= i < |employees| && employees[i].email == username && employees[i].role == "admin"
    decreases |employees|
  {
    if employees != [] && employees[0].email != username {
      AdminIff(employees[1..], username);
      if exists i :: 0 <= i < |employees| && employees[i].email == username && employees[i].role == "admin" {
        var i :| 0 <= i < |employees| && employees[i].email == username && employees[i].role == "admin";
        assert employees[1..][i - 1] == employees[i];
      }
    }
  }

  /** `if not file`: no file part, or one whose file name is empty. */
  predicate NoFileGiven(file: Option<UploadedFile>) {
    file.None? || file.value.filename == ""
  }

  /** The checks of `upload_file` before the insert, in their order: the
      first one that fails decides the reply. */
  function UploadCheck(req: UploadRequest, employees: seq<Employee>, users: seq<User>)
    : (r: Result<ValidUpload, Reply>)
    ensures r.Ok? <==>
      && !Falsy(req.username) && IsAdmin(employees, req.username.value)
      && !NoFileGiven(req.file) && IsAllowedFile(req.file.value.filename)
      && req.file.value.size <= MaxFileSize
      && FindUser(users, req.username.value).Some?
    ensures r.Ok? ==>
      && r.value.name == req.file.value.filename
      && r.value.size == req.file.value.size
      && r.value.fileType in AllowedFileTypes
      && r.value.fileType == FileType(req.file.value.filename)
      && r.value.userId == FindUser(users, req.username.value).value.id
    ensures Falsy(req.username) ==> r == Err(NoUsername)
    ensures !Falsy(req.username) && !IsAdmin(employees, req.username.value) ==> r == Err(UploadDenied)
    ensures !Falsy(req.username) && IsAdmin(employees, req.username.value) ==>
      && (NoFileGiven(req.file) ==> r == Err(NoFile))
      && (!NoFileGiven(req.file) && !IsAllowedFile(req.file.value.filename) ==> r == Err(TypeNotAllowed))
      && (!NoFileGiven(req.file) && IsAllowedFile(req.file.value.filename) ==>
            && (req.file.value.size > MaxFileSize ==> r == Err(TooLarge))
            && (req.file.value.size <= MaxFileSize && FindUser(users, req.username.value).None? ==>
                  r == Err(UserNotFound)))
  {
    if Falsy(req.username) then Err(NoUsername)
    else if !IsAdmin(employees, req.username.value) then Err(UploadDenied)
    else if NoFileGiven(req.file) then Err(NoFile)
    else if !IsAllowedFile(req.file.value.filename) then Err(TypeNotAllowed)
    else if req.file.value.size > MaxFileSize then Err(TooLarge)
    else match FindUser(users, req.username.value)
      case None => Err(UserNotFound)
      case Some(user) =>
        var name := req.file.value.filename;
        Ok(ValidUpload(name, req.file.value.size, FileType(name), user.id))
  }

  /** The size limit is inclusive: a file of exactly 25 MiB passes the size
      check, one byte more is refused, and only the size decides between the two. */
  lemma SizeLimitInclusive(username: string, filename: string, employees: seq<Employee>, users: seq<User>)
    requires username != "" && filename != ""
    ensures UploadCheck(UploadRequest(Some(username), Some(UploadedFile(filename, MaxFileSize))), employees, users)
            != Err(TooLarge)
    ensures IsAdmin(employees, username) && IsAllowedFile(filename) ==>
      UploadCheck(UploadRequest(Some(username), Some(UploadedFile(filename, MaxFileSize + 1))), employees, users)
      == Err(TooLarge)
  {
  }

  /** The table without the row at position `k`. */
  function Without(files: seq<FileMetadata>, k: int): (r: seq<FileMetadata>)
    requires 0 <= k < |files|
    ensures |r| == |files| - 1
  {
    files[..k] + files[k + 1..]
  }

  /** Deleting the row at `k` (the one `query.get` found for its id)
      removes exactly that row: every other row stays, in its order, and no
      row with that id is left. */
  lemma DeleteRemovesExactlyThat(files: seq<FileMetadata>, k: int)
    requires IdsUnique(files, FileId)
    requires 0 <= k < |files|
    ensures var r := Without(files, k);
      && (forall i :: 0 <= i < |r| ==> r[i].id != files[k].id)
      && (forall f :: f in r <==> f in files && f.id != files[k].id)
      && multiset(r) + multiset{files[k]} == multiset(files)
  {
    var before, after := files[..k], files[k + 1..];
    assert files == before + [files[k]] + after;
    forall i | 0 <= i < |before| ensures before[i].id != files[k].id {
      assert before[i] == files[i];
    }
    forall i | 0 <= i < |after| ensures after[i].id != files[k].id {
      assert after[i] == files[k + 1 + i];
    }
    assert Without(files, k) == before + after;
  }

  /** The sort key of a row for one of the accepted `sort_by` columns. */
  function KeyOf(f: FileMetadata, column: string): Key {
    if column == "size" then IntKey(f.size)
    else if column == "type" then TextKey(f.fileType)
    else if column == "upload_date" then IntKey(f.uploadDate)
    else TextKey(f.name)
  }

  function ColumnKey(column: string): FileMetadata -> Key {
    f => KeyOf(f, column)
  }

  class FileStore {
    var files: seq<FileMetadata>
    var nextId: int
    /** The module-level `current_time`, read once when the routes were
        loaded; every upload stores it as its `upload_date`. */
    const loadTime: int

    ghost predicate Valid()
      reads this
    {
      && IdsUnique(files, FileId)
      && (forall i :: 0 <= i < |files| ==> files[i].id < nextId)
    }

    constructor (loadTime: int)
      ensures Valid()
      ensures files == [] && this.loadTime == loadTime
    {
      files := [];
      nextId := 1;
      this.loadTime := loadTime;
    }

    /** `POST /upload`: after the check cascade, inserts one row with the
        file's name, size and type, the uploader's id and the load time, and
        answers 201 with the new id; `commitError` is the message of the
        exception the commit raises, if it does, and then the insert is
        rolled back and the answer is 500. */
    method Upload(req: UploadRequest, employees: seq<Employee>, users: seq<User>, commitError: Option<string>)
      returns (reply: Reply, fileId: Option<int>)
      requires Valid()
      modifies this
      ensures Valid()
      ensures var c := UploadCheck(req, employees, users);
        && (c.Err? ==> reply == c.error && fileId.None? && files == old(files))
        && (c.Ok? && commitError.Some? ==>
              reply == Reply(500, DatabaseErrorPrefix + commitError.value) && fileId.None? && files == old(files))
        && (c.Ok? && commitError.None? ==>
              && reply == Reply(201, "File uploaded successfully")
              && fileId == Some(old(nextId))
              && files == old(files) + [FileMetadata(old(nextId), c.value.name, c.value.size,
                                                     c.value.fileType, loadTime, c.value.userId)])
    {
      var c := UploadCheck(req, employees, users);
      if c.Err? {
        return c.error, None;
      }
      if commitError.Some? {
        return Reply(500, DatabaseErrorPrefix + commitError.value), None;
      }
      var u := c.value;
      files := files + [FileMetadata(nextId, u.name, u.size, u.fileType, loadTime, u.userId)];
      fileId := Some(nextId);
      nextId := nextId + 1;
      reply := Reply(201, "File uploaded successfully");
    }

    /** `DELETE /delete/<file_id>`: the username and admin checks, then 404
        for an unknown id; otherwise that row is deleted and committed (or,
        when the commit raises, rolled back with a 500). */
    method Delete(username: Option<string>, employees: seq<Employee>, id: int, commitError: Option<string>)
      returns (reply: Reply)
      requires Valid()
      modifies this
      ensures Valid()
      ensures nextId == old(nextId)
      ensures Falsy(username) ==> reply == NoUsername && files == old(files)
      ensures !Falsy(username) && !IsAdmin(employees, username.value) ==> reply == DeleteDenied && files == old(files)
      ensures !Falsy(username) && IsAdmin(employees, username.value) ==>
        var k := IndexOfId(old(files), id, FileId);
        && (k < 0 ==> reply == FileNotFound && files == old(files))
        && (k >= 0 && commitError.Some? ==>
              reply == Reply(500, DatabaseErrorPrefix + commitError.value) && files == old(files))
        && (k >= 0 && commitError.None? ==>
              reply == Reply(200, "File deleted successfully") && files == Without(old(files), k))
    {
      if Falsy(username) {
        return NoUsername;
      }
      if !IsAdmin(employees, username.value) {
        return DeleteDenied;
      }
      var k := IndexOfId(files, id, FileId);
      if k < 0 {
        return FileNotFound;
      }
      if commitError.Some? {
        return Reply(500, DatabaseErrorPrefix + commitError.value);
      }
      files := files[..k] + files[k + 1..];
      reply := Reply(200, "File deleted successfully");
    }

    /** `GET /list_files`: the username and admin checks, then the sort
        column (default "name"), which must be one of the four accepted, and
        the order, ascending only for exactly "asc" (the default). The rows
        come back all of them, each once, ordered by that column. */
    function ListFiles(username: Option<string>, employees: seq<Employee>, sortBy: Option<string>, order: Option<string>)
      : (r: Result<seq<FileMetadata>, Reply>)
      reads this
      ensures Falsy(username) ==> r == Err(NoUsername)
      ensures !Falsy(username) && !IsAdmin(employees, username.value) ==> r == Err(ListDenied)
      ensures !Falsy(username) && IsAdmin(employees, username.value) ==>
        var column := if sortBy.Some? then sortBy.value else "name";
        var desc := order.Some? && order.value != "asc";
        && (column !in SortColumns ==> r == Err(InvalidSort))
        && (column in SortColumns ==>
              && r.Ok?
              && multiset(r.value) == multiset(files)
              && SortedBy(r.value, ColumnKey(column), desc))
    {
      if Falsy(username) then Err(NoUsername)
      else if !IsAdmin(employees, username.value) then Err(ListDenied)
      else
        var column := if sortBy.Some? then sortBy.value else "name";
        var sortOrder := if order.Some? then order.value else "asc";
        if column !in SortColumns then Err(InvalidSort)
        else
          SortByCorrect(files, ColumnKey(column), sortOrder != "asc");
          Ok(SortBy(files, ColumnKey(column), sortOrder != "asc"))
    }
  }
}
