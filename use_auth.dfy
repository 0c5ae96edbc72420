/**
 * The two account operations of the auth hook that hold logic of their own:
 * `updateProfile`, which sends only the non-empty fields and stops at the first backend
 * error, and `uploadAvatar`, which names the stored object after the user, the clock and
 * the file's extension. The signed-in user, the clock and the backend's answers are inputs.
 */
module UseAuth {
  import opened Common
  import Text

  /** What the hooks return as `error`: the one made locally, or a backend error. */
  datatype AuthError = NoAuthenticatedUser | BackendError(message: string)

  /** The optional fields of `updateProfile`'s argument. */
  datatype Updates = Updates(fullName: Option<string>, email: Option<string>, avatarUrl: Option<string>)

  /** The requests the hook sends, in order. */
  datatype Call =
    | AuthUpdate(data: map<string, string>, email: Option<string>)  // `auth.updateUser({ data, email? })`
    | ProfileRowUpdate(userId: string, fields: map<string, string>) // `profiles.update(fields).eq('user_id', id)`
    | Upload(objectName: string)                                    // `storage.from('avatars').upload(name, file)`

  /** A field is sent when it is present and not the empty string. */
  predicate Truthy(o: Option<string>)
  {
    o.Some? && o.value != ""
  }

  function Only(key: string, o: Option<string>): map<string, string>
  {
    if Truthy(o) then map[key := o.value] else map[]
  }

  /** The object built for both the auth metadata and the profile row. */
  function Selected(u: Updates): (fields: map<string, string>)
    ensures "full_name" in fields <==> Truthy(u.fullName)
    ensures "email" in fields <==> Truthy(u.email)
    ensures "avatar_url" in fields <==> Truthy(u.avatarUrl)
    ensures forall k | k in fields :: k in {"full_name", "email", "avatar_url"} && fields[k] != ""
    ensures "full_name" in fields ==> fields["full_name"] == u.fullName.value
    ensures "email" in fields ==> fields["email"] == u.email.value
    ensures "avatar_url" in fields ==> fields["avatar_url"] == u.avatarUrl.value
  {
    Only("full_name", u.fullName) + Only("avatar_url", u.avatarUrl) + Only("email", u.email)
  }

  /** What `updateProfile` sends and returns. */
  datatype ProfileResult = ProfileResult(calls: seq<Call>, error: Option<AuthError>)

  /** `updateProfile(updates)`; `authError` and `profileError` are the backend's answers to the two requests. */
  function UpdateProfile(userId: Option<string>, u: Updates, authError: Option<string>, profileError: Option<string>): (r: ProfileResult)
    ensures userId.None? ==> r == ProfileResult([], Some(NoAuthenticatedUser))
    ensures userId.Some? && Selected(u) == map[] ==> r == ProfileResult([], None)
    ensures |r.calls| <= 2
    ensures forall i | 0 <= i < |r.calls| :: (i == 0) == r.calls[i].AuthUpdate?
    ensures forall i | 0 <= i < |r.calls| && r.calls[i].AuthUpdate? ::
      r.calls[i] == AuthUpdate(Selected(u), if Truthy(u.email) then u.email else None)
    ensures forall i | 0 <= i < |r.calls| && r.calls[i].ProfileRowUpdate? ::
      r.calls[i] == ProfileRowUpdate(userId.value, Selected(u))
    ensures userId.Some? && Selected(u) != map[] && authError.Some? ==>
      |r.calls| == 1 && r.error == Some(BackendError(authError.value))
    ensures userId.Some? && Selected(u) != map[] ==> |r.calls| == (if authError.Some? then 1 else 2)
    ensures userId.Some? && Selected(u) != map[] && authError.None? && profileError.Some? ==>
      r.error == Some(BackendError(profileError.value))
    ensures r.error.None? <==> userId.Some? && (Selected(u) == map[] || (authError.None? && profileError.None?))
  {
    if userId.None? then ProfileResult([], Some(NoAuthenticatedUser))
    else
      var fields := Selected(u);
      if fields == map[] then ProfileResult([], None)
      else
        var auth := AuthUpdate(fields, if Truthy(u.email) then u.email else None);
        if authError.Some? then ProfileResult([auth], Some(BackendError(authError.value)))
        else
          var calls := [auth, ProfileRowUpdate(userId.value, fields)];
          if profileError.Some? then ProfileResult(calls, Some(BackendError(profileError.value)))
          else ProfileResult(calls, None)
  }

  // ---------------------------------------------------------------------------
  // Avatar upload
  // ---------------------------------------------------------------------------

  /** `name.split('.').pop()`: the text after the last dot, the whole name when there is none. */
  function Extension(fileName: string): (ext: string)
    ensures '.' !in ext && |ext| <= |fileName|
  {
    var parts := Text.Split(fileName, '.');
    Text.JoinSplit(fileName, '.');
    JoinedLastShorter(parts, '.');
    parts[|parts| - 1]
  }

  lemma {:induction false} JoinedLastShorter(parts: seq<string>, sep: char)
    requires |parts| >= 1
    ensures |parts[|parts| - 1]| <= |Text.Join(parts, sep)|
  {
    if |parts| > 1 {
      JoinedLastShorter(parts[1..], sep);
    }
  }

  /** A name without a dot is its own extension. */
  lemma ExtensionWithoutDot(fileName: string)
    requires '.' !in fileName
    ensures Extension(fileName) == fileName
  {
    Text.SplitNoSeparator(fileName, '.');
  }

  /** The extension is what follows the last dot. */
  lemma {:induction false} ExtensionAfterLastDot(base: string, ext: string)
    requires '.' !in ext
    ensures Extension(base + "." + ext) == ext
  {
    var parts := Text.Split(base + "." + ext, '.');
    if base == [] {
      Text.SplitAtFirst(base, ext, '.');
      Text.SplitNoSeparator(ext, '.');
    } else {
      var s := base + "." + ext;
      assert s[1..] == base[1..] + "." + ext;
      ExtensionAfterLastDot(base[1..], ext);
      var rest := Text.Split(s[1..], '.');
      Text.SplitCount(s[1..], '.');
      assert '.' in s[1..] by {
        assert s[1..][|base| - 1] == '.';
      }
    }
  }

  /** `${user.id}/${Date.now()}.${fileExt}`: in the user's folder, named by the clock. */
  function ObjectName(userId: string, now: nat, fileName: string): (name: string)
    ensures |name| == |userId| + |Text.NatToString(now)| + |Extension(fileName)| + 2
    ensures name[..|userId| + 1] == userId + "/"
    ensures name[|userId| + 1..|userId| + 1 + |Text.NatToString(now)|] == Text.NatToString(now)
  {
    userId + "/" + Text.NatToString(now) + "." + Extension(fileName)
  }

  /** The stored object keeps the file's extension. */
  lemma ObjectNameExtension(userId: string, now: nat, fileName: string)
    ensures Extension(ObjectName(userId, now, fileName)) == Extension(fileName)
  {
    ExtensionAfterLastDot(userId + "/" + Text.NatToString(now), Extension(fileName));
  }

  /** Two uploads of one file by one user at different times name different objects. */
  lemma ObjectNamesDiffer(userId: string, m: nat, n: nat, fileName: string)
    requires m != n
    ensures ObjectName(userId, m, fileName) != ObjectName(userId, n, fileName)
  {
    var a, b := ObjectName(userId, m, fileName), ObjectName(userId, n, fileName);
    if a == b {
      var k := |userId| + 1;
      var sm, sn := Text.NatToString(m), Text.NatToString(n);
      assert |sm| == |sn|;
      assert a[k..k + |sm|] == sm;
      assert b[k..k + |sn|] == sn;
      Text.NatToStringInjective(m, n);
    }
  }

  /** What `uploadAvatar` sends and returns. */
  datatype AvatarResult = AvatarResult(calls: seq<Call>, error: Option<AuthError>, url: Option<string>)

  /** `uploadAvatar(file)` with the clock reading `now`, the storage answer and the public URL it reports. */
  function UploadAvatar(userId: Option<string>, fileName: string, now: nat, uploadError: Option<string>, publicUrl: string): (r: AvatarResult)
    ensures userId.None? ==> r == AvatarResult([], Some(NoAuthenticatedUser), None)
    ensures userId.Some? ==> r.calls == [Upload(ObjectName(userId.value, now, fileName))]
    ensures r.url.Some? <==> r.error.None?
    ensures userId.Some? ==> (r.error.None? <==> uploadError.None?)
    ensures userId.Some? && uploadError.Some? ==> r.error == Some(BackendError(uploadError.value))
    ensures r.url.Some? ==> r.url.value == publicUrl
  {
    if userId.None? then AvatarResult([], Some(NoAuthenticatedUser), None)
    else
      var calls := [Upload(ObjectName(userId.value, now, fileName))];
      if uploadError.Some? then AvatarResult(calls, Some(BackendError(uploadError.value)), None)
      else AvatarResult(calls, None, Some(publicUrl))
  }
}
