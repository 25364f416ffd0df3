/** The avatar form: the preview starts at the user's image or a generated
    initials avatar, a dropped or picked file replaces it only when it is a
    PNG or JPEG of at most 2 MB, and submitting sends the preview to the
    account endpoint. */
module UploadAvatar {
  import opened Effects

  /** The fields of the (partial) user record the form reads. */
  datatype User = User(name: Option<string>, image: Option<string>)

  /** The component's state: the preview (`undefined` until the effect runs)
      and the loading flag. */
  datatype Avatar = Avatar(image: Option<string>, loading: bool)

  /** A picked or dropped file: its size in bytes and its MIME type. */
  datatype File = File(size: nat, mime: string)

  const InitialsAvatar: string := "https://api.dicebear.com/7.x/initials/svg?seed="
  const MaxAvatarBytes: nat := 2 * 1024 * 1024
  const SizeError: string := "File size too big (max 2MB)"
  const TypeError: string := "File type not supported (.png or .jpg only)"

  /** JavaScript truthiness of an optional string. */
  predicate Truthy(s: Option<string>) {
    s.Some? && s.value != ""
  }

  /** How a template literal renders an optional value. */
  function Show(s: Option<string>): string {
    if s.Some? then s.value else "undefined"
  }

  /** The state before the effect has run. */
  const Mounted: Avatar := Avatar(None, false)

  /** The effect run whenever `user` changes: the preview becomes the user's
      image, or the initials avatar seeded with the name. */
  function SyncImage(s: Avatar, user: User): (synced: Avatar)
    ensures Truthy(synced.image) && synced.loading == s.loading
    ensures Truthy(user.image) ==> synced.image == user.image
  {
    var img := if Truthy(user.image) then user.image.value else InitialsAvatar + Show(user.name);
    assert img != "" by {
      if !Truthy(user.image) {
        assert img[0] == InitialsAvatar[0];
      }
    }
    s.(image := Some(img))
  }

  /** The size check as written: megabytes as a real quotient, compared with 2. */
  predicate TooBig(size: nat) {
    (size as real) / 1024.0 / 1024.0 > 2.0
  }

  predicate SupportedType(mime: string) {
    mime == "image/png" || mime == "image/jpeg"
  }

  /** The error `onAvatarUpload` reports for a file, size first: none
      exactly for a PNG or JPEG of at most 2 MB. */
  function CheckFile(file: File): (err: Option<string>)
    ensures err.None? <==> file.size <= MaxAvatarBytes && SupportedType(file.mime)
    ensures file.size > MaxAvatarBytes ==> err == Some(SizeError)
  {
    TooBigIff(file.size);
    if TooBig(file.size) then Some(SizeError)
    else if !SupportedType(file.mime) then Some(TypeError)
    else None
  }

  /** `onAvatarUpload`: a rejected file toasts its error and leaves the state
      alone; an accepted one becomes the preview. `dataUrl` is what the
      FileReader yields for the file. */
  function OnAvatarUpload(s: Avatar, file: File, dataUrl: string): (r: (Avatar, seq<Effect>))
    ensures Requests(r.1) == [] && r.0.loading == s.loading
    ensures file.size <= MaxAvatarBytes && SupportedType(file.mime) ==> r == (s.(image := Some(dataUrl)), [])
    ensures !(file.size <= MaxAvatarBytes && SupportedType(file.mime)) ==> r.0 == s && |r.1| == 1
  {
    var err := CheckFile(file);
    if err.Some? then (s, [ToastError(err.value)]) else (s.(image := Some(dataUrl)), [])
  }

  /** `isDisabled()`: an enabled button always has a non-empty image that
      differs from the stored one, and nothing in flight. */
  function IsDisabled(s: Avatar, user: User): (disabled: bool)
    ensures !disabled ==> s.image.Some? && s.image.value != "" && s.image != user.image && !s.loading
    ensures !disabled ==> ImageBody(s.image) == map["image" := JStr(s.image.value)]
  {
    !Truthy(s.image) || s.image == user.image || s.loading
  }

  /** The JSON body `{ image }`: an undefined preview is dropped by `JSON.stringify`. */
  function ImageBody(image: Option<string>): map<string, Json> {
    if image.Some? then map["image" := JStr(image.value)] else NoBody
  }

  /** `handleSubmit`, given the server's outcome: one PUT of the preview,
      the preview kept and the loading flag off at the end. */
  function HandleSubmit(s: Avatar, outcome: Outcome<()>): (r: (Avatar, seq<Effect>))
    ensures Requests(r.1) == [Request(PUT, "/api/users", [], ImageBody(s.image))]
    ensures r.0.image == s.image && !r.0.loading && Quiet(r.1)
  {
    var sent := [SetLoading(true), Send(Request(PUT, "/api/users", [], ImageBody(s.image))), SetLoading(false)];
    var trace := sent + Report(outcome, [ToastSuccess("successfully-updated")]);
    assert trace == [trace[0]] + ([trace[1]] + ([trace[2]] + [trace[3]]));
    RequestsAppend([trace[0]], [trace[1]] + ([trace[2]] + [trace[3]]));
    RequestsAppend([trace[1]], [trace[2]] + [trace[3]]);
    RequestsAppend([trace[2]], [trace[3]]);
    (s.(loading := false), trace)
  }

  /** The size test on the real quotient is the integer test "more than
      2 * 1024 * 1024 bytes". */
  lemma TooBigIff(size: nat)
    ensures TooBig(size) <==> size > MaxAvatarBytes
  {
    var r := size as real;
    assert r / 1024.0 / 1024.0 == r / 1048576.0;
    if r / 1048576.0 > 2.0 {
      assert r > 2.0 * 1048576.0;
    }
  }

  /** A file is accepted exactly when it is a PNG or JPEG of at most 2 MB;
      an oversized file is reported as too big whatever its type. */
  lemma CheckFileIff(file: File)
    ensures CheckFile(file).None? <==> file.size <= MaxAvatarBytes && SupportedType(file.mime)
    ensures file.size > MaxAvatarBytes ==> CheckFile(file) == Some("File size too big (max 2MB)")
    ensures file.size <= MaxAvatarBytes && !SupportedType(file.mime) ==>
              CheckFile(file) == Some("File type not supported (.png or .jpg only)")
  {
    TooBigIff(file.size);
  }

  /** Reading a file never sends a request. An accepted file replaces the
      preview silently and keeps the loading flag; a rejected one changes
      nothing and shows exactly one error toast. */
  lemma UploadOutcome(s: Avatar, file: File, dataUrl: string)
    ensures var (s', trace) := OnAvatarUpload(s, file, dataUrl);
      && s'.loading == s.loading && Requests(trace) == []
      && (file.size <= MaxAvatarBytes && SupportedType(file.mime) ==> s'.image == Some(dataUrl) && trace == [])
      && (!(file.size <= MaxAvatarBytes && SupportedType(file.mime)) ==>
            s' == s && |trace| == 1 && trace[0].ToastError? && Quiet(trace))
  {
    CheckFileIff(file);
  }

  /** After the effect the preview is always set, and the submit button is
      disabled exactly when the preview is the user's stored image: a user with
      an image starts disabled, a user without one starts with the initials
      avatar ready to be saved. */
  lemma InitialGuard(user: User)
    ensures Truthy(SyncImage(Mounted, user).image)
    ensures IsDisabled(SyncImage(Mounted, user), user) <==> Truthy(user.image)
    ensures !Truthy(user.image) ==> SyncImage(Mounted, user).image == Some(InitialsAvatar + Show(user.name))
  {
    var img := SyncImage(Mounted, user).image.value;
    if !Truthy(user.image) {
      assert img[..|InitialsAvatar|] == InitialsAvatar;
      assert |img| > 0;
      if user.image.Some? {
        assert user.image.value == "";
        assert img != "";
      }
    }
  }

  /** Uploading the image the user already has leaves the form unsubmittable;
      while a save is in flight nothing can be submitted. */
  lemma SameImageDisabled(s: Avatar, user: User, file: File)
    requires Truthy(user.image)
    ensures IsDisabled(OnAvatarUpload(s, file, user.image.value).0, user) <==>
              CheckFile(file).None? || IsDisabled(s, user)
    ensures IsDisabled(s.(loading := true), user)
  {
  }

  /** Submitting sends exactly one PUT to /api/users carrying the preview,
      brackets it with the loading flag, ends not loading, keeps the preview,
      never navigates or invalidates, and reports the outcome with one toast:
      the server's message on failure, the success text otherwise. */
  lemma SubmitTrace(s: Avatar, outcome: Outcome<()>)
    ensures var (s', trace) := HandleSubmit(s, outcome);
      && s'.image == s.image && !s'.loading
      && |trace| == 4 && trace[0] == SetLoading(true) && trace[2] == SetLoading(false)
      && Requests(trace) == [Request(PUT, "/api/users", [], ImageBody(s.image))]
      && (s.image.Some? ==> Requests(trace)[0].body["image"] == JStr(s.image.value))
      && Quiet(trace)
      && (outcome.Err? ==> trace[3] == ToastError(outcome.message) && SuccessToasts(trace) == [])
      && (outcome.Ok? ==> SuccessToasts(trace) == ["successfully-updated"])
  {
    var trace := HandleSubmit(s, outcome).1;
    assert trace == [trace[0]] + ([trace[1]] + ([trace[2]] + [trace[3]]));
    RequestsAppend([trace[0]], [trace[1]] + ([trace[2]] + [trace[3]]));
    RequestsAppend([trace[1]], [trace[2]] + [trace[3]]);
    RequestsAppend([trace[2]], [trace[3]]);
    SuccessToastsAppend([trace[0]], [trace[1]] + ([trace[2]] + [trace[3]]));
    SuccessToastsAppend([trace[1]], [trace[2]] + [trace[3]]);
    SuccessToastsAppend([trace[2]], [trace[3]]);
  }
}
