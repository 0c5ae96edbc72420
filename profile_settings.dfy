/**
 * The profile settings page: a form over the signed-in user's name, email and
 * passwords, three loading flags, and the avatar shown. The password change and the
 * avatar upload check their input before anything is sent; the backend's answers and
 * the clock are inputs.
 */
module ProfileSettings {
  import opened Common
  import Text
  import opened UseAuth

  /** The signed-in user as the page reads it. */
  datatype User = User(id: string, email: Option<string>, fullName: Option<string>, avatarUrl: Option<string>)

  /** The chosen file. */
  datatype File = File(name: string, size: nat, mime: string)

  /** `x || ''` */
  function OrEmpty(o: Option<string>): string
  {
    if o.Some? then o.value else ""
  }

  function IdOf(user: Option<User>): Option<string>
  {
    if user.Some? then Some(user.value.id) else None
  }

  /** The largest avatar accepted: 5 MiB. */
  const MaxAvatarBytes: nat := 5 * 1024 * 1024

  /** The shortest new password accepted. */
  const MinPasswordLength: nat := 6

  /** How a password change ends: refused before any request, or the request and its answer. */
  datatype PasswordOutcome = Mismatch | TooShort | PasswordRequest(password: string, error: Option<string>)

  /** How an avatar upload ends: refused before any request, or what was sent and answered. */
  datatype AvatarOutcome =
    | NoFile
    | TooLarge
    | NotAnImage
    | Uploaded(upload: AvatarResult, profile: Option<ProfileResult>)

  // ---------------------------------------------------------------------------
  // Initials
  // ---------------------------------------------------------------------------

  /** `pieces.map(n => n[0]).join('')`: an empty piece yields undefined, which joins as nothing. */
  function FirstChars(pieces: seq<string>): (r: string)
    ensures |r| <= |pieces|
  {
    if pieces == [] then "" else pieces[0][..if pieces[0] == "" then 0 else 1] + FirstChars(pieces[1..])
  }

  /** `getInitials(name)` */
  function Initials(name: string): (r: string)
    ensures forall i | 0 <= i < |r| :: !('a' <= r[i] <= 'z')
  {
    Text.ToUpper(FirstChars(Text.Split(name, ' ')))
  }

  lemma ToUpperAppend(a: string, b: string)
    ensures Text.ToUpper(a + b) == Text.ToUpper(a) + Text.ToUpper(b)
  {
    assert forall i | 0 <= i < |a + b| :: Text.ToUpper(a + b)[i] == (Text.ToUpper(a) + Text.ToUpper(b))[i];
  }

  /** One word gives its first letter, upper-cased; the empty name gives nothing. */
  lemma InitialsOfWord(w: string)
    requires ' ' !in w
    ensures Initials(w) == if w == "" then "" else [Text.UpperChar(w[0])]
  {
    Text.SplitNoSeparator(w, ' ');
    assert FirstChars([w]) == w[..if w == "" then 0 else 1] + FirstChars([]);
  }

  /** The initials of several words are the initials of the first followed by those of the rest. */
  lemma InitialsOfWords(first: string, rest: string)
    requires ' ' !in first
    ensures Initials(first + " " + rest) == Initials(first) + Initials(rest)
  {
    Text.SplitAtFirst(first, rest, ' ');
    var tail := Text.Split(rest, ' ');
    assert ([first] + tail)[1..] == tail;
    Text.SplitNoSeparator(first, ' ');
    assert FirstChars([first]) == first[..if first == "" then 0 else 1];
    ToUpperAppend(first[..if first == "" then 0 else 1], FirstChars(tail));
  }

  /** The page's state cells. */
  class ProfileSettingsPage {
    var fullName: string
    var email: string
    var currentPassword: string
    var newPassword: string
    var confirmPassword: string
    var loadingProfile: bool
    var loadingPassword: bool
    var loadingAvatar: bool
    var avatarUrl: string
    /** The value of the matching loading flag while the last request was awaited. */
    ghost var loadingDuringCall: bool

    constructor (user: Option<User>)
      ensures fullName == (if user.Some? then OrEmpty(user.value.fullName) else "")
      ensures email == (if user.Some? then OrEmpty(user.value.email) else "")
      ensures currentPassword == "" && newPassword == "" && confirmPassword == ""
      ensures !loadingProfile && !loadingPassword && !loadingAvatar
      ensures avatarUrl == (if user.Some? then OrEmpty(user.value.avatarUrl) else "")
    {
      fullName := if user.Some? then OrEmpty(user.value.fullName) else "";
      email := if user.Some? then OrEmpty(user.value.email) else "";
      currentPassword, newPassword, confirmPassword := "", "", "";
      loadingProfile, loadingPassword, loadingAvatar := false, false, false;
      avatarUrl := if user.Some? then OrEmpty(user.value.avatarUrl) else "";
      loadingDuringCall := false;
    }

    /** `handleInputChange(field, value)`: only the named field changes. */
    method HandleInputChange(field: string, value: string)
      requires field in {"full_name", "email", "current_password", "new_password", "confirm_password"}
      modifies this
      ensures fullName == (if field == "full_name" then value else old(fullName))
      ensures email == (if field == "email" then value else old(email))
      ensures currentPassword == (if field == "current_password" then value else old(currentPassword))
      ensures newPassword == (if field == "new_password" then value else old(newPassword))
      ensures confirmPassword == (if field == "confirm_password" then value else old(confirmPassword))
      ensures loadingProfile == old(loadingProfile) && loadingPassword == old(loadingPassword)
      ensures loadingAvatar == old(loadingAvatar) && avatarUrl == old(avatarUrl)
    {
      match field
      case "full_name" => fullName := value;
      case "email" => email := value;
      case "current_password" => currentPassword := value;
      case "new_password" => newPassword := value;
      case _ => confirmPassword := value;
    }

    /** `handleProfileUpdate`: the name and email are sent; the profile flag is on during the call only. */
    method HandleProfileUpdate(user: Option<User>, authError: Option<string>, profileError: Option<string>)
      returns (r: ProfileResult)
      modifies this
      ensures r == UpdateProfile(IdOf(user), Updates(Some(old(fullName)), Some(old(email)), None), authError, profileError)
      ensures !loadingProfile && loadingDuringCall
      ensures fullName == old(fullName) && email == old(email) && newPassword == old(newPassword)
      ensures currentPassword == old(currentPassword) && confirmPassword == old(confirmPassword)
      ensures loadingPassword == old(loadingPassword) && loadingAvatar == old(loadingAvatar) && avatarUrl == old(avatarUrl)
    {
      loadingProfile := true;
      loadingDuringCall := loadingProfile;
      r := UpdateProfile(IdOf(user), Updates(Some(fullName), Some(email), None), authError, profileError);
      loadingProfile := false;
    }

    /**
     * `handlePasswordUpdate`: a mismatch is refused first, then a password shorter than
     * six characters, both before any request and without touching the flag. After a
     * request the flag is off; on success the three password fields are cleared.
     */
    method HandlePasswordUpdate(passwordError: Option<string>) returns (outcome: PasswordOutcome)
      modifies this
      ensures old(newPassword) != old(confirmPassword) ==> outcome == Mismatch
      ensures old(newPassword) == old(confirmPassword) && |old(newPassword)| < MinPasswordLength ==> outcome == TooShort
      ensures outcome.PasswordRequest? <==> old(newPassword) == old(confirmPassword) && |old(newPassword)| >= MinPasswordLength
      ensures outcome.PasswordRequest? ==>
        outcome == PasswordRequest(old(newPassword), passwordError) && !loadingPassword && loadingDuringCall
      ensures !outcome.PasswordRequest? ==> loadingPassword == old(loadingPassword)
      ensures outcome.PasswordRequest? && passwordError.None? ==>
        currentPassword == "" && newPassword == "" && confirmPassword == ""
      ensures !(outcome.PasswordRequest? && passwordError.None?) ==>
        currentPassword == old(currentPassword) && newPassword == old(newPassword) && confirmPassword == old(confirmPassword)
      ensures fullName == old(fullName) && email == old(email)
      ensures loadingProfile == old(loadingProfile) && loadingAvatar == old(loadingAvatar) && avatarUrl == old(avatarUrl)
    {
      if newPassword != confirmPassword {
        return Mismatch;
      }
      if |newPassword| < MinPasswordLength {
        return TooShort;
      }
      loadingPassword := true;
      loadingDuringCall := loadingPassword;
      outcome := PasswordRequest(newPassword, passwordError);
      if passwordError.None? {
        currentPassword, newPassword, confirmPassword := "", "", "";
      }
      loadingPassword := false;
    }

    /**
     * `handleAvatarUpload`: no file does nothing; a file over 5 MiB is refused, then a
     * type that does not start with `image/`, both before any request. A reported
     * non-empty URL becomes the avatar and is written to the profile.
     */
    method HandleAvatarUpload(user: Option<User>, file: Option<File>, now: nat, uploadError: Option<string>,
                              publicUrl: string, authError: Option<string>, profileError: Option<string>)
      returns (outcome: AvatarOutcome)
      modifies this
      ensures file.None? ==> outcome == NoFile
      ensures file.Some? && file.value.size > MaxAvatarBytes ==> outcome == TooLarge
      ensures file.Some? && file.value.size <= MaxAvatarBytes && !("image/" <= file.value.mime) ==> outcome == NotAnImage
      ensures outcome.Uploaded? <==> file.Some? && file.value.size <= MaxAvatarBytes && "image/" <= file.value.mime
      ensures outcome.Uploaded? ==>
        outcome.upload == UploadAvatar(IdOf(user), file.value.name, now, uploadError, publicUrl)
        && !loadingAvatar && loadingDuringCall
      ensures !outcome.Uploaded? ==> loadingAvatar == old(loadingAvatar)
      ensures outcome.Uploaded? && outcome.upload.url.Some? && publicUrl != "" ==>
        avatarUrl == publicUrl
        && outcome.profile == Some(UpdateProfile(IdOf(user), Updates(None, None, Some(publicUrl)), authError, profileError))
      ensures !(outcome.Uploaded? && outcome.upload.url.Some? && publicUrl != "") ==> avatarUrl == old(avatarUrl)
      ensures fullName == old(fullName) && email == old(email) && currentPassword == old(currentPassword)
      ensures newPassword == old(newPassword) && confirmPassword == old(confirmPassword)
      ensures loadingProfile == old(loadingProfile) && loadingPassword == old(loadingPassword)
    {
      if file.None? {
        return NoFile;
      }
      var f := file.value;
      if f.size > MaxAvatarBytes {
        return TooLarge;
      }
      if !("image/" <= f.mime) {
        return NotAnImage;
      }
      loadingAvatar := true;
      loadingDuringCall := loadingAvatar;
      var upload := UploadAvatar(IdOf(user), f.name, now, uploadError, publicUrl);
      var profile := None;
      if upload.error.None? && upload.url.Some? && upload.url.value != "" {
        avatarUrl := upload.url.value;
        profile := Some(UpdateProfile(IdOf(user), Updates(None, None, Some(upload.url.value)), authError, profileError));
      }
      outcome := Uploaded(upload, profile);
      loadingAvatar := false;
    }
  }
}
