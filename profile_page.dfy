/**
 * The profile editor (client/app/dashboard/profile/page.tsx): tag lists
 * edited with Enter and a remove button, the profile loaded with a default
 * for missing links, saved whole, and saved again after an avatar upload.
 */
module ProfilePage {
  import opened Js
  import opened Options
  import Seqs
  import UserModel
  import UserController
  import ToastContext

  // --------------------------------------------------------------- TagInput

  /** `trim() !== ""`. */
  predicate NonBlank(s: string) {
    Trim(s) != ""
  }

  /** The tags and the input text after a key press. */
  function KeyDown(tags: seq<string>, input: string, key: string): (seq<string>, string) {
    if key == "Enter" && NonBlank(input) then
      (if Trim(input) in tags then tags else tags + [Trim(input)], "")
    else (tags, input)
  }

  /**
   * Enter on a non-blank input adds its trimmed text once and clears the
   * input, even for a tag already there; anything else changes nothing.
   */
  lemma KeyDownEffect(tags: seq<string>, input: string, key: string)
    ensures var (t, i) := KeyDown(tags, input, key);
      && (key == "Enter" && NonBlank(input) ==> i == "" && Trim(input) in t
                                                 && (forall x :: x in t <==> x in tags || x == Trim(input))
                                                 && (Trim(input) in tags ==> t == tags))
      && (!(key == "Enter" && NonBlank(input)) ==> t == tags && i == input)
      && tags == t[..|tags|]
  {
  }

  /** A duplicate-free tag list stays duplicate-free, and an added tag has no surrounding spaces. */
  lemma KeyDownKeepsDistinct(tags: seq<string>, input: string, key: string)
    requires Seqs.Distinct(tags)
    ensures Seqs.Distinct(KeyDown(tags, input, key).0)
    ensures |KeyDown(tags, input, key).0| > |tags| ==> KeyDown(tags, input, key).0 == tags + [Trim(input)]
                                                        && Trim(Trim(input)) == Trim(input)
  {
    if |KeyDown(tags, input, key).0| > |tags| {
      TrimShape(input);
      TrimIdempotent(input);
    }
  }

  lemma TrimIdempotent(s: string)
    ensures Trim(Trim(s)) == Trim(s)
  {
    TrimShape(s);
    var t := Trim(s);
    TrimShape(t);
    if t != "" {
      assert TrimStart(t) == t;
      assert TrimEnd(t) == t;
    }
  }

  /** `tags.filter((tag) => tag !== tagToRemove)`. */
  function Without(tags: seq<string>, tag: string): (r: seq<string>)
    ensures forall x :: x in r <==> x in tags && x != tag
    ensures |r| <= |tags|
  {
    if tags == [] then []
    else (if tags[0] == tag then [] else [tags[0]]) + Without(tags[1..], tag)
  }

  /** Removing a tag keeps the other tags in their order and keeps the list duplicate-free. */
  lemma {:induction false} WithoutKeepsOrder(tags: seq<string>, tag: string)
    ensures Seqs.Subsequence(Without(tags, tag), tags)
    ensures Seqs.Distinct(tags) ==> Seqs.Distinct(Without(tags, tag))
  {
    if tags != [] {
      WithoutKeepsOrder(tags[1..], tag);
      var rest := Without(tags[1..], tag);
      if Seqs.Distinct(tags) {
        assert Seqs.Distinct(tags[1..]);
      }
      if tags[0] == tag {
        assert Without(tags, tag) == rest;
        Seqs.SubsequenceSkip(rest, tags);
      } else {
        assert ([tags[0]] + rest)[1..] == rest;
        if Seqs.Distinct(tags) {
          assert tags[0] !in rest;
        }
      }
    }
  }

  lemma {:induction false} WithoutAbsent(tags: seq<string>, tag: string)
    requires tag !in tags
    ensures Without(tags, tag) == tags
  {
    if tags != [] {
      WithoutAbsent(tags[1..], tag);
      assert tags == [tags[0]] + tags[1..];
    }
  }

  /** Removing a tag just added by Enter gives back the list before it. */
  lemma {:induction false} RemoveUndoesAdd(tags: seq<string>, input: string)
    requires NonBlank(input) && Trim(input) !in tags
    ensures Without(KeyDown(tags, input, "Enter").0, Trim(input)) == tags
  {
    AppendWithout(tags, Trim(input));
    WithoutAbsent(tags, Trim(input));
  }

  lemma {:induction false} AppendWithout(tags: seq<string>, tag: string)
    ensures Without(tags + [tag], tag) == Without(tags, tag)
  {
    if tags == [] {
      assert ([tag])[1..] == [];
    } else {
      assert (tags + [tag])[1..] == tags[1..] + [tag];
      AppendWithout(tags[1..], tag);
    }
  }

  class TagInput {
    var tags: seq<string>
    var inputValue: string

    /** No tag twice; the editor keeps this once it holds, but accepts any list it is given. */
    ghost predicate Valid()
      reads this
    {
      Seqs.Distinct(tags)
    }

    constructor (tags: seq<string>)
      ensures this.tags == tags && inputValue == ""
    {
      this.tags := tags;
      inputValue := "";
    }

    method ChangeInput(text: string)
      modifies this`inputValue
      ensures inputValue == text
    {
      inputValue := text;
    }

    /** `handleKeyDown`. */
    method HandleKeyDown(key: string)
      modifies this
      ensures old(Valid()) ==> Valid()
      ensures (tags, inputValue) == KeyDown(old(tags), old(inputValue), key)
    {
      if Valid() {
        KeyDownKeepsDistinct(tags, inputValue, key);
      }
      if key == "Enter" && Trim(inputValue) != "" {
        if Trim(inputValue) !in tags {
          tags := tags + [Trim(inputValue)];
        }
        inputValue := "";
      }
    }

    /** `removeTag`. */
    method RemoveTag(tag: string)
      modifies this`tags
      ensures old(Valid()) ==> Valid()
      ensures tags == Without(old(tags), tag)
    {
      if Valid() {
        WithoutKeepsOrder(tags, tag);
      }
      tags := Without(tags, tag);
    }
  }

  // ------------------------------------------------------------ the profile

  /** The fields of the profile reply the page edits; `socialLinks` may be missing. */
  datatype Fetched = Fetched(
    name: string, title: string, bio: string, avatar: string, socialLinks: Field<UserModel.SocialLinks>,
    expertise: seq<string>, availability: seq<UserModel.DayAvailability>, learningGoals: seq<string>)

  /** The profile state once loaded. */
  datatype Profile = Profile(
    name: string, title: string, bio: string, avatar: string, socialLinks: UserModel.SocialLinks,
    expertise: seq<string>, availability: seq<UserModel.DayAvailability>, learningGoals: seq<string>)

  /** The load: a missing `socialLinks` becomes three empty links. */
  function WithDefaults(f: Fetched): (p: Profile)
    ensures p.socialLinks == if f.socialLinks.Given? then f.socialLinks.value else UserModel.EmptyLinks
    ensures p.name == f.name && p.title == f.title && p.bio == f.bio && p.avatar == f.avatar
    ensures p.expertise == f.expertise && p.availability == f.availability && p.learningGoals == f.learningGoals
  {
    Profile(f.name, f.title, f.bio, f.avatar,
            if f.socialLinks.Given? then f.socialLinks.value else UserModel.EmptyLinks,
            f.expertise, f.availability, f.learningGoals)
  }

  /** The editable fields of a stored user, as the profile reply carries them. */
  function FetchedOf(u: UserModel.User): Fetched {
    Fetched(u.name, u.title, u.bio, u.avatar, Given(u.socialLinks), u.expertise, u.availability, u.learningGoals)
  }

  /** `PUT /api/users/profile` with the whole profile as the body. */
  function Body(p: Profile): UserController.ProfileBody {
    UserController.ProfileBody(
      Given(p.name), Given(p.title), Given(p.bio), Given(p.avatar),
      Given(UserController.LinksBody(Given(p.socialLinks.linkedIn), Given(p.socialLinks.twitter), Given(p.socialLinks.github))),
      Given(p.expertise), Given(p.availability), Given(p.learningGoals))
  }

  /** Loading a profile and saving it unedited leaves the stored user as it was. */
  lemma SaveUnchanged(u: UserModel.User)
    ensures UserController.MergeProfile(u, Body(WithDefaults(FetchedOf(u)))) == u
  {
    assert Body(WithDefaults(FetchedOf(u))) == UserController.BodyOf(u);
    UserController.MergeOwnBody(u);
  }

  /**
   * The default links never reach the store: saving a profile whose reply had
   * no `socialLinks` keeps the stored links, while links the reply carried,
   * all non-empty, are stored as they are.
   */
  lemma DefaultLinksKeepStored(u: UserModel.User, f: Fetched)
    ensures !f.socialLinks.Given? ==>
              UserController.MergeProfile(u, Body(WithDefaults(f))).socialLinks == u.socialLinks
    ensures f.socialLinks.Given? && f.socialLinks.value.linkedIn != "" && f.socialLinks.value.twitter != ""
            && f.socialLinks.value.github != "" ==>
              UserController.MergeProfile(u, Body(WithDefaults(f))).socialLinks == f.socialLinks.value
  {
  }

  /**
   * The save after an upload changes only the stored avatar, to the
   * uploaded URL; an empty URL changes nothing.
   */
  lemma AvatarSaveChangesOnlyAvatar(u: UserModel.User, url: string)
    ensures UserController.MergeProfile(u, Body(WithDefaults(FetchedOf(u)).(avatar := url)))
            == if url != "" then u.(avatar := url) else u
  {
    UserController.MergeOwnBody(u);
  }

  const LoadFailed := "Failed to load profile."
  const SaveDone := "Profile updated successfully!"
  const SaveFailed := "Failed to update profile."
  const UploadDone := "Avatar uploaded! Saving profile..."
  const UploadFailed := "Failed to upload avatar."

  class ProfileEditor {
    var profile: Option<Profile>
    var isLoading: bool
    /** The body of every `PUT /api/users/profile` sent, in order. */
    var saved: seq<UserController.ProfileBody>
    const toasts: ToastContext.ToastProvider

    constructor (toasts: ToastContext.ToastProvider)
      ensures profile == None && isLoading && saved == [] && this.toasts == toasts
    {
      profile, isLoading, saved := None, true, [];
      this.toasts := toasts;
    }

    /** `fetchProfile`, with the reply (`None` when it fails). */
    method FetchProfile(session: bool, response: Option<Fetched>)
      modifies this`profile, this`isLoading, toasts
      ensures !session ==> profile == old(profile) && isLoading == old(isLoading) && toasts.toast == old(toasts.toast)
      ensures session ==> !isLoading
      ensures session && response.Some? ==> profile == Some(WithDefaults(response.value)) && toasts.toast == old(toasts.toast)
      ensures session && response.None? ==>
                profile == old(profile) && toasts.toast == Some(ToastContext.Toast(LoadFailed, ToastContext.Error))
    {
      if session {
        if response.Some? {
          profile := Some(WithDefaults(response.value));
        } else {
          toasts.ShowToast(LoadFailed, ToastContext.Error);
        }
        isLoading := false;
      }
    }

    /** `handleSave(dataToSave)`, with the server's updated profile (`None` when the request fails). */
    method HandleSave(dataToSave: Profile, response: Option<Profile>)
      modifies this`profile, this`saved, toasts
      ensures saved == old(saved) + [Body(dataToSave)]
      ensures response.Some? ==> profile == response && toasts.toast == Some(ToastContext.Toast(SaveDone, ToastContext.Success))
      ensures response.None? ==> profile == old(profile) && toasts.toast == Some(ToastContext.Toast(SaveFailed, ToastContext.Error))
    {
      saved := saved + [Body(dataToSave)];
      if response.Some? {
        profile := response;
        toasts.ShowToast(SaveDone, ToastContext.Success);
      } else {
        toasts.ShowToast(SaveFailed, ToastContext.Error);
      }
    }

    /**
     * `handleAvatarUpload` for `files` chosen files and the uploaded image's
     * URL (`None` when the upload fails): the profile with the new avatar is
     * shown and then saved.
     */
    method HandleAvatarUpload(files: nat, upload: Option<string>, saveResponse: Option<Profile>)
      requires profile.Some?
      modifies this`profile, this`saved, toasts
      ensures files == 0 || upload.None? ==> saved == old(saved) && profile == old(profile)
      ensures files == 0 ==> toasts.toast == old(toasts.toast)
      ensures files > 0 && upload.None? ==> toasts.toast == Some(ToastContext.Toast(UploadFailed, ToastContext.Error))
      ensures files > 0 && upload.Some? ==>
                && saved == old(saved) + [Body(old(profile).value.(avatar := upload.value))]
                && profile == (if saveResponse.Some? then saveResponse else Some(old(profile).value.(avatar := upload.value)))
                && toasts.toast == Some(if saveResponse.Some? then ToastContext.Toast(SaveDone, ToastContext.Success)
                                        else ToastContext.Toast(SaveFailed, ToastContext.Error))
    {
      if files == 0 {
        return;
      }
      if upload.None? {
        toasts.ShowToast(UploadFailed, ToastContext.Error);
        return;
      }
      var newProfile := profile.value.(avatar := upload.value);
      profile := Some(newProfile);
      toasts.ShowToast(UploadDone, ToastContext.Info);
      HandleSave(newProfile, saveResponse);
    }
  }
}
