/** The top bar's avatar: the stored photo under the uploads path, or a generated avatar
    seeded with the user's name. */
module Topbar {
  import opened Wrappers
  import opened Text
  import opened JsValues
  import AuthRoutes

  const UploadsPrefix: string := "/uploads"
  const GeneratedAvatar: string := "https://api.dicebear.com/7.x/initials/svg?seed="

  /** `photo.startsWith('/uploads') ? photo : `/uploads${photo}`` */
  function PrefixUploads(photo: string): (src: string)
    ensures StartsWith(src, UploadsPrefix)
    ensures StartsWith(photo, UploadsPrefix) ==> src == photo
    ensures !StartsWith(photo, UploadsPrefix) ==> src == UploadsPrefix + photo
  {
    if StartsWith(photo, UploadsPrefix) then photo
    else
      assert (UploadsPrefix + photo)[..|UploadsPrefix|] == UploadsPrefix;
      UploadsPrefix + photo
  }

  /** Prefixing twice is prefixing once. */
  lemma {:induction false} PrefixUploadsIdempotent(photo: string)
    ensures PrefixUploads(PrefixUploads(photo)) == PrefixUploads(photo)
  {
  }

  /** The path the photo upload stores is shown as stored. */
  lemma {:induction false} UploadedPhotoShown(filename: string)
    ensures PrefixUploads(AuthRoutes.AvatarDir + filename) == AuthRoutes.AvatarDir + filename
  {
    assert (AuthRoutes.AvatarDir + filename)[..|UploadsPrefix|] == UploadsPrefix;
  }

  /** `${user?.name || 'User'}` for a name that is a string or missing. */
  function Seed(user: Value): (s: string)
    ensures Get(user, "name").Str? && Get(user, "name").s != "" ==> s == Get(user, "name").s
    ensures !Truthy(Get(user, "name")) ==> s == "User"
  {
    match Or(Get(user, "name"), Str("User"))
    case Str(s) => s
    case _ => "User"
  }

  /** The generated avatar of a user. */
  function Generated(user: Value): (src: string)
    ensures StartsWith(src, GeneratedAvatar) && src[|GeneratedAvatar|..] == Seed(user)
  {
    var src := GeneratedAvatar + Seed(user);
    assert src[..|GeneratedAvatar|] == GeneratedAvatar;
    src
  }

  /** The avatar `src`: the prefixed photo while it loads, the generated avatar without a
      photo or once loading the photo failed. A truthy photo that is not a string makes the
      render throw (`None`). */
  function AvatarSrc(user: Value, loadFailed: bool): (src: Option<string>)
    ensures Get(user, "photo").Str? && Get(user, "photo").s != "" ==>
      src == Some(if loadFailed then Generated(user) else PrefixUploads(Get(user, "photo").s))
    ensures !Truthy(Get(user, "photo")) ==> src == Some(Generated(user))
    ensures src.None? <==> Truthy(Get(user, "photo")) && !Get(user, "photo").Str?
  {
    var photo := Get(user, "photo");
    if !Truthy(photo) then Some(Generated(user))
    else if !photo.Str? then None
    else if loadFailed then Some(Generated(user))
    else Some(PrefixUploads(photo.s))
  }

  /** A photo that is shown always comes from the uploads path. */
  lemma {:induction false} ShownPhotoUnderUploads(user: Value)
    requires Truthy(Get(user, "photo")) && Get(user, "photo").Str?
    ensures AvatarSrc(user, false).Some? && StartsWith(AvatarSrc(user, false).value, UploadsPrefix)
  {
  }
}
