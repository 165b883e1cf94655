/**
 * `UploadUserProfileImageUseCase.Execute` of internal/usecases/
 * upload_user_profile_image.go: the image is stored at
 * `<user id>/<ten random letters and digits><extension>` in the profile-image
 * bucket, and only once that upload succeeds is the returned URL written to
 * the user's `avatar_url`.
 *
 * The storage service is an object that records each upload request and
 * answers with the outcome given as a parameter; the file's bytes are not
 * modelled.
 */
module UploadProfileImage {
  import opened Wrappers
  import Uuids
  import Users
  import Config
  import UserRepository
  import GenerateUtils

  /** `avatarFileNameLangth`: the length of the random file name. */
  const AvatarNameLength: nat := 10

  /**
   * `path.Ext`: the suffix of `p` from the final '.' of its final
   * '/'-separated element, or "" when that element has no '.'.
   */
  function Ext(p: string): (r: string)
    ensures |r| <= |p| && r == p[|p| - |r|..]
    ensures r != "" ==> r[0] == '.' && forall j :: 1 <= j < |r| ==> r[j] != '.' && r[j] != '/'
    ensures r == "" ==> forall j :: 0 <= j < |p| && p[j] == '.' ==> exists k :: j < k < |p| && p[k] == '/'
  {
    if p == [] || p[|p| - 1] == '/' then ""
    else if p[|p| - 1] == '.' then "."
    else
      var e := Ext(p[..|p| - 1]);
      if e == "" then "" else e + [p[|p| - 1]]
  }

  /** The object path `fmt.Sprintf("%s/%s%s", userID, name, extension)`. */
  function ObjectPath(user: Uuids.Uuid, name: string, filename: string): string
  {
    Uuids.ToString(user) + ("/" + (name + Ext(filename)))
  }

  /** The user record `Execute` hands to the repository: the id, the new URL and the update instant, all else zero. */
  function AvatarUser(user: Uuids.Uuid, url: string, now: int): Users.User
  {
    Users.User(user, "", "", "", url, 0, 0, now)
  }

  /** An upload request: the bucket, the object path, and whether only images are accepted. */
  datatype UploadRequest = UploadRequest(bucket: string, path: string, imagesOnly: bool)

  /** A failed upload, whatever its cause (MIME type, request, or a non-success status). */
  datatype StorageError = UploadFailed

  /** An error `Execute` returns: the storage's or the repository's, each as it came. */
  datatype UploadError = Storage(storageError: StorageError) | Repo(repoError: UserRepository.RepoError)

  class StorageService {
    /** The upload requests received, in order. */
    var requests: seq<UploadRequest>

    constructor()
      ensures requests == []
    {
      requests := [];
    }

    /** `UploadFile`: records the request and answers with `outcome`, the public URL or the failure. */
    method UploadFile(bucket: string, path: string, imagesOnly: bool, outcome: Result<string, StorageError>)
        returns (r: Result<string, StorageError>)
      modifies this
      ensures requests == old(requests) + [UploadRequest(bucket, path, imagesOnly)]
      ensures r == outcome
    {
      requests := requests + [UploadRequest(bucket, path, imagesOnly)];
      r := outcome;
    }
  }

  class UploadUserProfileImageUseCase {
    const userRepo: UserRepository.UserRepository
    const storage: StorageService
    const config: Config.Config

    constructor(userRepo: UserRepository.UserRepository, storage: StorageService, config: Config.Config)
      ensures this.userRepo == userRepo && this.storage == storage && this.config == config
    {
      this.userRepo := userRepo;
      this.storage := storage;
      this.config := config;
    }

    /**
     * One upload to the profile-image bucket, images only, at the user's
     * object path. A failed upload is returned with "" and the users table is
     * not touched; otherwise the URL is written to the user's `avatar_url`,
     * and returned unless that write fails.
     */
    method Execute(user: Uuids.Uuid, filename: string, draws: seq<nat>, now: int,
                   uploaded: Result<string, StorageError>, dbError: bool)
        returns (url: string, err: Option<UploadError>)
      requires |draws| == AvatarNameLength
      requires forall i :: 0 <= i < |draws| ==> draws[i] < |GenerateUtils.Charset|
      modifies storage, userRepo
      ensures storage.requests == old(storage.requests)
                + [UploadRequest(config.profileImageBucket, ObjectPath(user, GenerateUtils.Picked(GenerateUtils.Charset, draws), filename), true)]
      ensures uploaded.Err? ==> url == "" && err == Some(Storage(uploaded.error)) && userRepo.sent == old(userRepo.sent)
      ensures uploaded.Ok? ==>
                userRepo.sent == old(userRepo.sent) + [UserRepository.UpdateProfileImageStatement(AvatarUser(user, uploaded.value, now), now)]
      ensures uploaded.Ok? && dbError ==> url == "" && err == Some(Repo(UserRepository.ExecFailed))
      ensures uploaded.Ok? && !dbError ==> url == uploaded.value && err == None
    {
      var extension := Ext(filename);
      var name := GenerateUtils.GenerateString(AvatarNameLength, draws);
      var userFolderPath := Uuids.ToString(user) + ("/" + (name + extension));
      var r := storage.UploadFile(config.profileImageBucket, userFolderPath, true, uploaded);
      if r.Err? {
        return "", Some(Storage(r.error));
      }
      var e := userRepo.UpdateProfileImage(AvatarUser(user, r.value, now), now, dbError);
      if e.Some? {
        return "", Some(Repo(e.value));
      }
      return r.value, None;
    }
  }

  // ---- properties ---------------------------------------------------------

  /** A final element `<stem>.<tail>` whose tail has no '.' has the extension `.<tail>`. */
  lemma {:induction false} ExtAfterDot(s: string, t: string)
    requires forall j :: 0 <= j < |t| ==> t[j] != '.' && t[j] != '/'
    ensures Ext(s + ("." + t)) == "." + t
  {
    if t != [] {
      var init := t[..|t| - 1];
      ExtAfterDot(s, init);
      assert (s + ("." + t))[..|s + ("." + t)| - 1] == s + ("." + init);
      assert ("." + init) + [t[|t| - 1]] == "." + t;
    }
  }

  /** After the last '/' there is no '.', so there is no extension, whatever dots come before it. */
  lemma {:induction false} ExtAfterSlash(s: string, t: string)
    requires forall j :: 0 <= j < |t| ==> t[j] != '.' && t[j] != '/'
    ensures Ext(s + ("/" + t)) == ""
  {
    if t != [] {
      var init := t[..|t| - 1];
      ExtAfterSlash(s, init);
      assert (s + ("/" + t))[..|s + ("/" + t)| - 1] == s + ("/" + init);
    }
  }

  /** Only the last dot counts, and a dot before the last '/' does not. */
  lemma ExtExamples()
    ensures Ext("photo" + ("." + "jpg")) == ".jpg"
    ensures Ext("archive.tar" + ("." + "gz")) == ".gz"
    ensures Ext("dir.d" + ("/" + "file")) == ""
  {
    ExtAfterDot("photo", "jpg");
    ExtAfterDot("archive.tar", "gz");
    ExtAfterSlash("dir.d", "file");
  }

  /**
   * The object lies in the user's own folder: the path is the user's id, a
   * '/', a file name of ten letters and digits, and the extension of the
   * uploaded file's name, and its first 36 characters read back as the user.
   */
  lemma ObjectPathShape(user: Uuids.Uuid, draws: seq<nat>, filename: string)
    requires |draws| == AvatarNameLength
    requires forall i :: 0 <= i < |draws| ==> draws[i] < |GenerateUtils.Charset|
    ensures var name := GenerateUtils.Picked(GenerateUtils.Charset, draws);
      var p := ObjectPath(user, name, filename);
      && p[..36] == Uuids.ToString(user) && p[36] == '/'
      && Uuids.Parse(p[..36]) == Some(user)
      && p[37..47] == name && (forall i :: 37 <= i < 47 ==> GenerateUtils.IsAlnumAscii(p[i]))
      && p[47..] == Ext(filename)
  {
    var name := GenerateUtils.Picked(GenerateUtils.Charset, draws);
    GenerateUtils.PickedFaithful(draws, draws);
    Uuids.ParseToString(user);
    PathParts(Uuids.ToString(user), name, Ext(filename));
  }

  /** The pieces of `a/bc` sit where their lengths put them. */
  lemma PathParts(a: string, b: string, c: string)
    ensures var p := a + ("/" + (b + c));
      && p[..|a|] == a && p[|a|] == '/'
      && p[|a| + 1..|a| + 1 + |b|] == b && p[|a| + 1 + |b|..] == c
      && forall i :: |a| + 1 <= i < |a| + 1 + |b| ==> p[i] == b[i - |a| - 1]
  {
  }
}
