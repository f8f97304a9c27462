/**
  The pure pieces of the profile page (frontend/src/pages/Profile.jsx): the
  photo-file guards of `handlePhotoUpload`, the changed-field diff of
  `handleUpdateDetails`, and the `|| ""` defaulting that fills the edit form.
  The page state keeps only the parts these handlers read or write; requests
  are returned as values instead of being sent.
*/
module ProfileForm {
  import opened Common

  /** `5 * 1024 * 1024`: the largest accepted photo, in bytes. */
  const MaxPhotoBytes: nat := 5 * 1024 * 1024
  const ImageTypePrefix: string := "image/"
  const InvalidTypeMessage: string := "Please select a valid image file"
  const TooLargeMessage: string := "File size must be less than 5MB"
  const FetchFailedMessage: string := "Failed to fetch user data"
  const UpdateFailedMessage: string := "Failed to update profile"

  datatype PhotoFile = PhotoFile(mimeType: string, size: nat)

  /** `file.type.startsWith("image/")`, case-sensitive. */
  predicate IsImageType(t: string) {
    ImageTypePrefix <= t
  }

  datatype PhotoCheck = NoFile | Rejected(message: string) | Accepted(file: PhotoFile)

  /** The guards of `handlePhotoUpload` on `event.target.files[0]`: presence, then type, then size. */
  function CheckPhoto(files: seq<PhotoFile>): (r: PhotoCheck)
    ensures r.NoFile? <==> |files| == 0
    // the type check comes first: any non-image is reported as such, whatever its size
    ensures r == Rejected(InvalidTypeMessage) <==> |files| > 0 && !IsImageType(files[0].mimeType)
    ensures r == Rejected(TooLargeMessage) <==>
      |files| > 0 && IsImageType(files[0].mimeType) && files[0].size > MaxPhotoBytes
    // an image of at most 5 MiB is accepted, and it is the selected file that goes on to upload
    ensures r.Accepted? <==>
      |files| > 0 && IsImageType(files[0].mimeType) && files[0].size <= MaxPhotoBytes
    ensures r.Accepted? ==> r.file == files[0]
  {
    if |files| == 0 then NoFile
    else
      var file := files[0];
      if !IsImageType(file.mimeType) then Rejected(InvalidTypeMessage)
      else if file.size > MaxPhotoBytes then Rejected(TooLargeMessage)
      else Accepted(file)
  }

  /** The strict `>` admits exactly 5 MiB; one byte more is refused, and a non-image is refused for its type. */
  lemma PhotoSizeBoundary(t: string)
    requires IsImageType(t)
    ensures CheckPhoto([PhotoFile(t, 5242880)]).Accepted?
    ensures CheckPhoto([PhotoFile(t, 5242881)]) == Rejected(TooLargeMessage)
    ensures CheckPhoto([PhotoFile("text/plain", 5242881)]) == Rejected(InvalidTypeMessage)
  {
    assert ImageTypePrefix[0] != "text/plain"[0];
  }

  /** A user property as the server returns it: possibly missing or null. */
  datatype JsValue = Undefined | Null | Str(s: string)

  datatype User = User(fullName: JsValue, username: JsValue, email: JsValue)

  /** The edit form always holds strings. */
  datatype EditForm = EditForm(fullName: string, username: string, email: string)

  datatype FieldName = FullName | Username | Email

  function UserValue(u: User, k: FieldName): JsValue {
    match k
    case FullName => u.fullName
    case Username => u.username
    case Email => u.email
  }

  function FormValue(f: EditForm, k: FieldName): string {
    match k
    case FullName => f.fullName
    case Username => f.username
    case Email => f.email
  }

  /** `v || ""` for a property that is a string, missing or null. */
  function OrEmpty(v: JsValue): string {
    match v
    case Str(s) => s
    case _ => ""
  }

  /** The form filled from a user on fetch and on cancel. */
  function FillForm(u: User): (f: EditForm)
    // a string property is copied as is; a missing or null one becomes ""
    ensures forall k: FieldName :: UserValue(u, k).Str? ==> FormValue(f, k) == UserValue(u, k).s
    ensures forall k: FieldName :: !UserValue(u, k).Str? ==> FormValue(f, k) == ""
  {
    EditForm(OrEmpty(u.fullName), OrEmpty(u.username), OrEmpty(u.email))
  }

  /** `editForm.k !== user.k`: a string never strictly equals a missing or null property. */
  predicate Differs(f: EditForm, u: User, k: FieldName) {
    UserValue(u, k) != Str(FormValue(f, k))
  }

  /** The `updates` object of `handleUpdateDetails`, built field by field. */
  function ChangedFields(f: EditForm, u: User): (updates: map<FieldName, string>)
    // exactly the fields whose form value differs from the user's, carrying the form value
    ensures forall k :: k in updates <==> Differs(f, u, k)
    ensures forall k :: k in updates ==> updates[k] == FormValue(f, k)
  {
    var u1: map<FieldName, string> := if u.fullName != Str(f.fullName) then map[FullName := f.fullName] else map[];
    var u2 := if u.username != Str(f.username) then u1[Username := f.username] else u1;
    if u.email != Str(f.email) then u2[Email := f.email] else u2
  }

  /** The part of the page state these handlers touch. */
  datatype ProfileState = ProfileState(user: Option<User>, form: EditForm, editing: bool, error: Option<string>)

  /** What `fetchUserData` gets back: a failed request, or a body that may be null. */
  datatype FetchReply = FetchFailed | Fetched(body: Option<User>)

  function FetchUser(s: ProfileState, reply: FetchReply): (r: ProfileState)
    // a user that arrives is stored and the form is filled from it
    ensures reply.Fetched? && reply.body.Some? ==>
      r.user == reply.body && r.form == FillForm(reply.body.value) && r.error == s.error
    // a failed request leaves user and form alone and reports the failure
    ensures reply == FetchFailed ==> r.user == s.user && r.form == s.form && r.error == Some(FetchFailedMessage)
    // a null body is stored, then reading its properties throws and the failure is reported
    ensures reply == Fetched(None) ==> r.user.None? && r.form == s.form && r.error == Some(FetchFailedMessage)
    ensures r.editing == s.editing
  {
    match reply
    case FetchFailed => s.(error := Some(FetchFailedMessage))
    case Fetched(None) => s.(user := None, error := Some(FetchFailedMessage))
    case Fetched(Some(u)) => s.(user := Some(u), form := FillForm(u))
  }

  /** `handleEditCancel`; without a user, reading `user.fullName` throws before any state is set. */
  function CancelEdit(s: ProfileState): (r: ProfileState)
    ensures s.user.None? ==> r == s
    ensures s.user.Some? ==>
      r.form == FillForm(s.user.value) && !r.editing && r.error.None? && r.user == s.user
  {
    match s.user
    case None => s
    case Some(u) => s.(form := FillForm(u), editing := false, error := None)
  }

  /** The state after `handleUpdateDetails` reaches its request, and the request body if one is sent. */
  datatype SaveOutcome = SaveOutcome(state: ProfileState, request: Option<map<FieldName, string>>)

  function SaveDetails(s: ProfileState): (r: SaveOutcome)
    // a request carries exactly the changed fields, and never an empty body
    ensures r.request.Some? ==>
      s.user.Some? && r.request.value == ChangedFields(s.form, s.user.value) && |r.request.value| > 0
    // nothing changed: no request, editing is left, the error is cleared
    ensures s.user.Some? && (forall k :: !Differs(s.form, s.user.value, k)) ==>
      r.request.None? && !r.state.editing && r.state.error.None?
    ensures s.user.Some? && (exists k :: Differs(s.form, s.user.value, k)) ==> r.request.Some?
    // without a user, the property read throws inside the try and the generic failure is reported
    ensures s.user.None? ==> r.request.None? && r.state == s.(error := Some(UpdateFailedMessage))
    ensures r.state.user == s.user && r.state.form == s.form
  {
    match s.user
    case None => SaveOutcome(s.(error := Some(UpdateFailedMessage)), None)
    case Some(u) =>
      var updates := ChangedFields(s.form, u);
      if |updates| == 0 then
        SaveOutcome(s.(editing := false, error := None), None)
      else
        assert exists k :: k in updates;
        SaveOutcome(s.(error := None), Some(updates))
  }

  /**
    Round trip: after a fetch or a cancel fills the form from a user whose
    properties are all strings, saving the unedited form sends nothing.
  */
  lemma FillThenSaveSendsNothing(s: ProfileState, u: User)
    requires u.fullName.Str? && u.username.Str? && u.email.Str?
    ensures SaveDetails(FetchUser(s, Fetched(Some(u)))).request.None?
    ensures s.user == Some(u) ==> SaveDetails(CancelEdit(s)).request.None?
    ensures s.user == Some(u) ==> !SaveDetails(CancelEdit(s)).state.editing
  {
  }

  /**
    As written, a missing or null property is filled in as "" and then compared
    strictly against the missing value, so an unedited save still sends "" for it.
  */
  lemma UnsetPropertyIsSentAsEmpty(s: ProfileState, u: User, k: FieldName)
    requires s.user == Some(u) && s.form == FillForm(u)
    requires !UserValue(u, k).Str?
    ensures SaveDetails(s).request.Some?
    ensures k in SaveDetails(s).request.value && SaveDetails(s).request.value[k] == ""
  {
  }

  /** The state after `handlePhotoUpload` passes or fails its guards, and the file to upload. */
  datatype UploadOutcome = UploadOutcome(state: ProfileState, upload: Option<PhotoFile>)

  function PhotoUpload(s: ProfileState, files: seq<PhotoFile>): (r: UploadOutcome)
    // no file selected: nothing at all happens
    ensures |files| == 0 ==> r.state == s && r.upload.None?
    // a rejected file only sets the error message, and nothing is uploaded
    ensures CheckPhoto(files).Rejected? ==>
      r.upload.None? && r.state == s.(error := Some(CheckPhoto(files).message))
    // an accepted file is the one uploaded, with the error cleared
    ensures r.upload.Some? <==> CheckPhoto(files).Accepted?
    ensures r.upload.Some? ==> r.upload.value == files[0] && r.state == s.(error := None)
  {
    match CheckPhoto(files)
    case NoFile => UploadOutcome(s, None)
    case Rejected(m) => UploadOutcome(s.(error := Some(m)), None)
    case Accepted(f) => UploadOutcome(s.(error := None), Some(f))
  }
}
