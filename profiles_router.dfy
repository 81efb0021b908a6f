/** The profile handlers (routes/profiles.js), over the `profiles` collection in its natural order. */
module ProfilesRouter {
  import opened Common
  import opened Json
  import Arrays
  import Strings
  import Joi
  import ProfileValidation
  import ExperienceValidation
  import EducationValidation
  import ObjectIdValidation
  import opened ProfileModel

  const NoProfileForUser: ErrorMap := map["newProfile" := "There is no profile for this user"]
  const NoProfiles: ErrorMap := map["noProfile" := "There are no profiles"]
  const NoProfileForHandle: ErrorMap := map["noProfile" := "There is no profile for this user"]
  const HandleTaken: ErrorMap := map["handle" := "Handle already exists"]
  const ProfileNotFound: ErrorMap := map["error" := "Profile not found"]
  const NoSuchExperience: ErrorMap := map["error" := "Experience data with given ID doesn't exist"]
  const NoSuchEducation: ErrorMap := map["error" := "Education data with given ID doesn't exist"]

  /** A handler's answer together with the collection it leaves behind. */
  datatype Handled<P> = Handled(reply: Response<P>, profiles: seq<Profile>)

  function OwnedBy(user: Id): Profile -> bool
  {
    (p: Profile) => p.user == user
  }

  function WithHandle(handle: string): Profile -> bool
  {
    (p: Profile) => p.handle == handle
  }

  /** At most one profile per user and per handle, each with its required fields. */
  predicate Consistent(profiles: seq<Profile>)
  {
    && (forall i, j :: 0 <= i < j < |profiles| ==> profiles[i].user != profiles[j].user)
    && (forall i, j :: 0 <= i < j < |profiles| ==> profiles[i].handle != profiles[j].handle)
    && (forall i :: 0 <= i < |profiles| ==> Savable(profiles[i]))
  }

  /** The member's value as sent, or `null` when absent. */
  function ValueOf(body: Body, key: string): Value
  {
    match Lookup(body, key) case Some(v) => v case None => Null
  }

  // ---------------------------------------------------------------------------
  // Reads
  // ---------------------------------------------------------------------------

  /** GET /: the requester's profile. */
  function HandleGetOwn(profiles: seq<Profile>, me: Id): (r: Response<Profile>)
    ensures r.Ok? <==> exists i :: 0 <= i < |profiles| && profiles[i].user == me
    ensures r.Ok? ==> r.body in profiles && r.body.user == me
    ensures !r.Ok? ==> r == Err(404, NoProfileForUser)
  {
    var i := Arrays.FindFirst(profiles, OwnedBy(me));
    if i < 0 then Err(404, NoProfileForUser) else Ok(profiles[i])
  }

  /** GET /all: every profile, or 404 when there is none. */
  function HandleAll(profiles: seq<Profile>): (r: Response<seq<Profile>>)
    ensures r.Ok? <==> |profiles| > 0
    ensures r.Ok? ==> r.body == profiles
    ensures !r.Ok? ==> r == Err(404, NoProfiles)
  {
    if |profiles| == 0 then Err(404, NoProfiles) else Ok(profiles)
  }

  /** GET /handle/:handle. */
  function HandleByHandle(profiles: seq<Profile>, handle: string): (r: Response<Profile>)
    ensures r.Ok? <==> exists i :: 0 <= i < |profiles| && profiles[i].handle == handle
    ensures r.Ok? ==> r.body in profiles && r.body.handle == handle
    ensures !r.Ok? ==> r == Err(404, NoProfileForHandle)
  {
    var i := Arrays.FindFirst(profiles, WithHandle(handle));
    if i < 0 then Err(404, NoProfileForHandle) else Ok(profiles[i])
  }

  /** GET /user/:user_id: check the id, then find the user's profile. */
  function HandleByUser(profiles: seq<Profile>, user: Id): (r: Response<Profile>)
    ensures !Joi.IsObjectId(user) ==> r == Err(400, ObjectIdValidation.InvalidId)
    ensures Joi.IsObjectId(user) ==> r == HandleGetOwn(profiles, user)
  {
    var v := ObjectIdValidation.Check(Some(user));
    if v.Reject? then Err(v.status, v.errors)
    else
      var i := Arrays.FindFirst(profiles, OwnedBy(user));
      if i < 0 then Err(404, NoProfileForUser) else Ok(profiles[i])
  }

  // ---------------------------------------------------------------------------
  // Create or edit
  // ---------------------------------------------------------------------------

  /**
   * `profileFields`: the whitelisted members present in the body, the requester as `user`,
   * `skills` split on commas when sent, and the picked `social` members (all absent when
   * `social` is not sent).
   */
  datatype Fields = Fields(
    user: Id, handle: string, company: Option<string>, website: Option<string>,
    location: Option<string>, bio: Option<string>, status: string,
    githubusername: Option<string>, skills: Option<seq<string>>, social: Social)

  /** `_.pick(req.body.social, [...])`: the five networks of an object, nothing from anything else. */
  function PickedSocial(body: Body): (s: Social)
    ensures !(Lookup(body, "social").Some? && Lookup(body, "social").value.Obj?) ==> s == NoSocial
    ensures Lookup(body, "social").Some? && Lookup(body, "social").value.Obj? ==>
      var es := Lookup(body, "social").value.entries;
      && s.youtube == StrMember(es, "youtube") && s.twitter == StrMember(es, "twitter")
      && s.facebook == StrMember(es, "facebook") && s.linkedin == StrMember(es, "linkedin")
      && s.instagram == StrMember(es, "instagram")
  {
    match Lookup(body, "social")
    case Some(Obj(es)) =>
      Social(StrMember(es, "youtube"), StrMember(es, "twitter"), StrMember(es, "facebook"),
             StrMember(es, "linkedin"), StrMember(es, "instagram"))
    case _ => NoSocial
  }

  /** `req.body.skills.split(',')` when `skills` is sent: comma-free pieces that join back to it. */
  function PickedSkills(body: Body): (skills: Option<seq<string>>)
    ensures skills.Some? <==> StrMember(body, "skills").Some?
    ensures skills.Some? ==>
      && |skills.value| >= 1 && Strings.Join(skills.value, ',') == StrMember(body, "skills").value
      && forall i :: 0 <= i < |skills.value| ==> ',' !in skills.value[i]
  {
    match StrMember(body, "skills") case Some(s) => Some(Strings.Split(s, ',')) case None => None
  }

  /** The requester as owner, and each picked member as the body sends it. */
  function Picked(me: Id, body: Body): (f: Fields)
    ensures f.user == me
    ensures StrMember(body, "handle").Some? ==> Some(f.handle) == StrMember(body, "handle")
    ensures StrMember(body, "status").Some? ==> Some(f.status) == StrMember(body, "status")
    ensures f.company == StrMember(body, "company") && f.website == StrMember(body, "website")
    ensures f.location == StrMember(body, "location") && f.bio == StrMember(body, "bio")
    ensures f.githubusername == StrMember(body, "githubusername")
    ensures f.skills.Some? <==> StrMember(body, "skills").Some?
  {
    Fields(me, Text(body, "handle"), StrMember(body, "company"), StrMember(body, "website"),
           StrMember(body, "location"), StrMember(body, "bio"), Text(body, "status"),
           StrMember(body, "githubusername"), PickedSkills(body), PickedSocial(body))
  }

  /** The body members the upsert reads: the `_.pick` list, `skills` and `social`. */
  const PickedKeys: set<string> :=
    {"handle", "company", "website", "location", "bio", "status", "githubusername", "skills", "social"}

  /** Whatever else a body carries, two bodies that agree on the picked members give the same fields. */
  lemma PickedReadsOnlyThese(me: Id, b1: Body, b2: Body)
    requires forall k :: k in PickedKeys ==> Lookup(b1, k) == Lookup(b2, k)
    ensures Picked(me, b1) == Picked(me, b2)
  {
    assert Lookup(b1, "social") == Lookup(b2, "social");
    assert Lookup(b1, "skills") == Lookup(b2, "skills");
  }

  /** A `$set` of one optional field: the sent value, or the stored one. */
  function Override<T>(sent: Option<T>, stored: Option<T>): Option<T>
  {
    if sent.Some? then sent else stored
  }

  /** `$set: profileFields` on a stored profile: `social` is replaced as a whole. */
  function SetFields(p: Profile, f: Fields): (q: Profile)
    ensures Carries(q, f)
    ensures q.id == p.id && q.experience == p.experience && q.education == p.education
    ensures f.company.None? ==> q.company == p.company
    ensures f.website.None? ==> q.website == p.website
    ensures f.location.None? ==> q.location == p.location
    ensures f.bio.None? ==> q.bio == p.bio
    ensures f.githubusername.None? ==> q.githubusername == p.githubusername
    ensures f.skills.None? ==> q.skills == p.skills
  {
    p.(user := f.user, handle := f.handle,
       company := Override(f.company, p.company), website := Override(f.website, p.website),
       location := Override(f.location, p.location), bio := Override(f.bio, p.bio),
       status := f.status, githubusername := Override(f.githubusername, p.githubusername),
       skills := if f.skills.Some? then f.skills.value else p.skills,
       social := f.social)
  }

  /** `new Profile(profileFields)`: no entries yet, and no skills unless sent. */
  function NewProfile(id: Id, f: Fields): (q: Profile)
    ensures Carries(q, f)
    ensures q.id == id && q.experience == [] && q.education == []
    ensures f.skills.None? ==> q.skills == []
    ensures f.company.None? ==> q.company.None?
    ensures f.website.None? ==> q.website.None?
    ensures f.location.None? ==> q.location.None?
    ensures f.bio.None? ==> q.bio.None?
    ensures f.githubusername.None? ==> q.githubusername.None?
  {
    Profile(id, f.user, f.handle, f.company, f.website, f.location, f.status,
            if f.skills.Some? then f.skills.value else [], f.bio, f.githubusername, [], [], f.social)
  }

  /** The fields a profile requires: a handle and a status. */
  predicate Required(f: Fields)
  {
    f.handle != "" && f.status != ""
  }

  /**
   * The store half of POST /: when the user has a profile, refuse a changed handle that some
   * profile holds and otherwise `$set` the fields on it; when not, refuse a handle that some
   * profile holds and otherwise store a new profile under the database-supplied `id`.
   */
  function SaveFields(profiles: seq<Profile>, f: Fields, id: Id): (h: Handled<Profile>)
    ensures !h.reply.Ok? ==> h == Handled(Err(400, HandleTaken), profiles)
    ensures h.reply.Ok? ==> h.reply.body.user == f.user && h.reply.body.handle == f.handle
  {
    var i := Arrays.FindFirst(profiles, OwnedBy(f.user));
    if i >= 0 then
      if profiles[i].handle != f.handle && Arrays.FindFirst(profiles, WithHandle(f.handle)) >= 0 then
        Handled(Err(400, HandleTaken), profiles)
      else
        var p := SetFields(profiles[i], f);
        Handled(Ok(p), profiles[i := p])
    else if Arrays.FindFirst(profiles, WithHandle(f.handle)) >= 0 then
      Handled(Err(400, HandleTaken), profiles)
    else
      var p := NewProfile(id, f);
      Handled(Ok(p), profiles + [p])
  }

  /** POST /: validate the body, then save the picked fields for the requester. */
  function HandleUpsert(profiles: seq<Profile>, me: Id, fm: Formats, body: Body, id: Id): (h: Handled<Profile>)
    ensures ProfileValidation.Verdict(fm, body).Reject? ==>
      h == Handled(Err(400, ProfileValidation.Verdict(fm, body).errors), profiles)
    ensures ProfileValidation.Acceptable(fm, body) ==> h == SaveFields(profiles, Picked(me, body), id)
  {
    var v := ProfileValidation.Verdict(fm, body);
    if v.Reject? then Handled(Err(400, v.errors), profiles)
    else SaveFields(profiles, Picked(me, body), id)
  }

  // ---------------------------------------------------------------------------
  // Experience and education entries
  // ---------------------------------------------------------------------------

  /** The picked experience members; a truthy `current` as sent replaces `to` by null. */
  function NewExperience(body: Body, entryId: Id, current: bool): (e: Experience)
    ensures e.id == entryId && e.current == current
    ensures Truthy(Lookup(body, "current")) ==> e.to == Some(Null)
    ensures !Truthy(Lookup(body, "current")) ==> e.to == Lookup(body, "to")
    ensures Lookup(body, "from").Some? ==> Some(e.from) == Lookup(body, "from")
    ensures StrMember(body, "title").Some? ==> Some(e.title) == StrMember(body, "title")
    ensures StrMember(body, "company").Some? ==> Some(e.company) == StrMember(body, "company")
    ensures e.location == StrMember(body, "location") && e.description == StrMember(body, "description")
  {
    Experience(entryId, Text(body, "title"), Text(body, "company"), StrMember(body, "location"),
               ValueOf(body, "from"),
               if Truthy(Lookup(body, "current")) then Some(Null) else Lookup(body, "to"),
               current, StrMember(body, "description"))
  }

  /** The picked education members, treated as for experience. */
  function NewEducation(body: Body, entryId: Id, current: bool): (e: Education)
    ensures e.id == entryId && e.current == current
    ensures Truthy(Lookup(body, "current")) ==> e.to == Some(Null)
    ensures !Truthy(Lookup(body, "current")) ==> e.to == Lookup(body, "to")
    ensures Lookup(body, "from").Some? ==> Some(e.from) == Lookup(body, "from")
    ensures StrMember(body, "school").Some? ==> Some(e.school) == StrMember(body, "school")
    ensures StrMember(body, "degree").Some? ==> Some(e.degree) == StrMember(body, "degree")
    ensures StrMember(body, "fieldofstudy").Some? ==> Some(e.fieldofstudy) == StrMember(body, "fieldofstudy")
    ensures e.description == StrMember(body, "description")
  {
    Education(entryId, Text(body, "school"), Text(body, "degree"), Text(body, "fieldofstudy"),
              ValueOf(body, "from"),
              if Truthy(Lookup(body, "current")) then Some(Null) else Lookup(body, "to"),
              current, StrMember(body, "description"))
  }

  /** The store half of POST /experience: `$push` the entry onto the user's profile; with none, a JSON `null`. */
  function PushExperience(profiles: seq<Profile>, me: Id, e: Experience): (h: Handled<Option<Profile>>)
    ensures h.reply.Ok?
    ensures h.reply.body.None? <==> forall i :: 0 <= i < |profiles| ==> profiles[i].user != me
    ensures h.reply.body.None? ==> h.profiles == profiles
    ensures h.reply.body.Some? ==> exists i ::
      && 0 <= i < |profiles| && profiles[i].user == me
      && h.reply.body.value == profiles[i].(experience := profiles[i].experience + [e])
      && h.profiles == profiles[i := h.reply.body.value]
  {
    var i := Arrays.FindFirst(profiles, OwnedBy(me));
    if i < 0 then Handled(Ok(None), profiles)
    else
      var p := profiles[i].(experience := profiles[i].experience + [e]);
      Handled(Ok(Some(p)), profiles[i := p])
  }

  /** The store half of POST /education: `$push` the entry onto the user's profile; with none, a JSON `null`. */
  function PushEducation(profiles: seq<Profile>, me: Id, e: Education): (h: Handled<Option<Profile>>)
    ensures h.reply.Ok?
    ensures h.reply.body.None? <==> forall i :: 0 <= i < |profiles| ==> profiles[i].user != me
    ensures h.reply.body.None? ==> h.profiles == profiles
    ensures h.reply.body.Some? ==> exists i ::
      && 0 <= i < |profiles| && profiles[i].user == me
      && h.reply.body.value == profiles[i].(education := profiles[i].education + [e])
      && h.profiles == profiles[i := h.reply.body.value]
  {
    var i := Arrays.FindFirst(profiles, OwnedBy(me));
    if i < 0 then Handled(Ok(None), profiles)
    else
      var p := profiles[i].(education := profiles[i].education + [e]);
      Handled(Ok(Some(p)), profiles[i := p])
  }

  /**
   * POST /experience: validate, then push the entry, with `current` as Mongoose stores it,
   * onto the requester's profile.
   */
  function HandleAddExperience(profiles: seq<Profile>, me: Id, fm: Formats, body: Body, entryId: Id)
    : (h: Handled<Option<Profile>>)
    ensures ExperienceValidation.Verdict(fm, body).Reject? ==>
      h == Handled(Err(400, ExperienceValidation.Verdict(fm, body).errors), profiles)
    ensures ExperienceValidation.Acceptable(fm, body) ==>
      h == PushExperience(profiles, me, NewExperience(body, entryId, StoredCurrent(Lookup(body, "current"))))
    ensures h.reply != Fault
  {
    var v := ExperienceValidation.Verdict(fm, body);
    if v.Reject? then Handled(Err(400, v.errors), profiles)
    else PushExperience(profiles, me, NewExperience(body, entryId, StoredCurrent(Lookup(body, "current"))))
  }

  /** POST /education, shaped like POST /experience. */
  function HandleAddEducation(profiles: seq<Profile>, me: Id, fm: Formats, body: Body, entryId: Id)
    : (h: Handled<Option<Profile>>)
    ensures EducationValidation.Verdict(fm, body).Reject? ==>
      h == Handled(Err(400, EducationValidation.Verdict(fm, body).errors), profiles)
    ensures EducationValidation.Acceptable(fm, body) ==>
      h == PushEducation(profiles, me, NewEducation(body, entryId, StoredCurrent(Lookup(body, "current"))))
    ensures h.reply != Fault
  {
    var v := EducationValidation.Verdict(fm, body);
    if v.Reject? then Handled(Err(400, v.errors), profiles)
    else PushEducation(profiles, me, NewEducation(body, entryId, StoredCurrent(Lookup(body, "current"))))
  }

  /**
   * DELETE /experience/:exp_id: check the id, find the requester's profile, splice out the
   * entry at `experience.map(item => item.id).indexOf(exp_id)`.
   */
  function HandleRemoveExperience(profiles: seq<Profile>, me: Id, entryId: Id): (h: Handled<Profile>)
    ensures !h.reply.Ok? ==> h.profiles == profiles
    ensures !Joi.IsObjectId(entryId) ==> h.reply == Err(400, ObjectIdValidation.InvalidId)
    ensures Joi.IsObjectId(entryId) && (forall i :: 0 <= i < |profiles| ==> profiles[i].user != me) ==>
      h.reply == Err(404, ProfileNotFound)
    ensures h.reply.Ok? ==> exists i ::
      && 0 <= i < |profiles| && profiles[i].user == me
      && entryId in ExperienceIds(profiles[i].experience)
      && h.profiles == profiles[i := h.reply.body]
  {
    var v := ObjectIdValidation.Check(Some(entryId));
    if v.Reject? then Handled(Err(v.status, v.errors), profiles)
    else
      var i := Arrays.FindFirst(profiles, OwnedBy(me));
      if i < 0 then Handled(Err(404, ProfileNotFound), profiles)
      else
        var k := Arrays.IndexOf(ExperienceIds(profiles[i].experience), entryId);
        if k < 0 then Handled(Err(404, NoSuchExperience), profiles)
        else
          var p := profiles[i].(experience := Arrays.Splice(profiles[i].experience, k));
          Handled(Ok(p), profiles[i := p])
  }

  /**
   * DELETE /education/:edu_id as written: the profile found is dereferenced without a
   * check, so a requester with no profile gets the resulting exception.
   */
  function HandleRemoveEducationAsWritten(profiles: seq<Profile>, me: Id, entryId: Id): (h: Handled<Profile>)
    ensures !h.reply.Ok? ==> h.profiles == profiles
  {
    var v := ObjectIdValidation.Check(Some(entryId));
    if v.Reject? then Handled(Err(v.status, v.errors), profiles)
    else
      var i := Arrays.FindFirst(profiles, OwnedBy(me));
      if i < 0 then Handled(Fault, profiles)
      else
        var k := Arrays.IndexOf(EducationIds(profiles[i].education), entryId);
        if k < 0 then Handled(Err(404, NoSuchEducation), profiles)
        else
          var p := profiles[i].(education := Arrays.Splice(profiles[i].education, k));
          Handled(Ok(p), profiles[i := p])
  }

  /** DELETE /education/:edu_id with the missing-profile answer of the experience route. */
  function HandleRemoveEducation(profiles: seq<Profile>, me: Id, entryId: Id): (h: Handled<Profile>)
    ensures !h.reply.Ok? ==> h.profiles == profiles
    ensures h.reply != Fault
    ensures !Joi.IsObjectId(entryId) ==> h.reply == Err(400, ObjectIdValidation.InvalidId)
    ensures Joi.IsObjectId(entryId) && (forall i :: 0 <= i < |profiles| ==> profiles[i].user != me) ==>
      h.reply == Err(404, ProfileNotFound)
    ensures h.reply.Ok? ==> exists i ::
      && 0 <= i < |profiles| && profiles[i].user == me
      && entryId in EducationIds(profiles[i].education)
      && h.profiles == profiles[i := h.reply.body]
  {
    var v := ObjectIdValidation.Check(Some(entryId));
    if v.Reject? then Handled(Err(v.status, v.errors), profiles)
    else
      var i := Arrays.FindFirst(profiles, OwnedBy(me));
      if i < 0 then Handled(Err(404, ProfileNotFound), profiles)
      else
        var k := Arrays.IndexOf(EducationIds(profiles[i].education), entryId);
        if k < 0 then Handled(Err(404, NoSuchEducation), profiles)
        else
          var p := profiles[i].(education := Arrays.Splice(profiles[i].education, k));
          Handled(Ok(p), profiles[i := p])
  }

  /** DELETE /: remove the requester's first profile, if any, and answer `{deleted: true}` regardless. */
  function HandleDelete(profiles: seq<Profile>, me: Id): (h: Handled<Deleted>)
    ensures h.reply == Ok(Deleted)
    ensures (forall i :: 0 <= i < |profiles| ==> profiles[i].user != me) ==> h.profiles == profiles
    ensures (exists i :: 0 <= i < |profiles| && profiles[i].user == me) ==> exists i ::
      && 0 <= i < |profiles| && profiles[i].user == me
      && h.profiles == profiles[..i] + profiles[i + 1..]
  {
    var i := Arrays.FindFirst(profiles, OwnedBy(me));
    if i < 0 then Handled(Ok(Deleted), profiles)
    else Handled(Ok(Deleted), profiles[..i] + profiles[i + 1..])
  }

  // ---------------------------------------------------------------------------
  // Properties
  // ---------------------------------------------------------------------------

  /** A profile that is the requester's, in a consistent collection, is the first one found. */
  lemma OwnerFound(profiles: seq<Profile>, me: Id, i: nat)
    requires Consistent(profiles) && i < |profiles| && profiles[i].user == me
    ensures Arrays.FindFirst(profiles, OwnedBy(me)) == i
  {
    Arrays.FirstIsUnique(profiles, OwnedBy(me), i);
  }

  lemma HolderFound(profiles: seq<Profile>, handle: string, j: nat)
    requires j < |profiles| && profiles[j].handle == handle
    ensures Arrays.FindFirst(profiles, WithHandle(handle)) >= 0
  {
    assert WithHandle(handle)(profiles[j]);
  }

  /** An existing profile asking for a changed handle that another profile holds: 400, nothing written. */
  lemma SaveChangedHandleTaken(profiles: seq<Profile>, f: Fields, id: Id, i: nat, j: nat)
    requires Consistent(profiles)
    requires i < |profiles| && profiles[i].user == f.user && profiles[i].handle != f.handle
    requires j < |profiles| && profiles[j].handle == f.handle
    ensures SaveFields(profiles, f, id) == Handled(Err(400, HandleTaken), profiles)
  {
    OwnerFound(profiles, f.user, i);
    HolderFound(profiles, f.handle, j);
  }

  /**
   * An existing profile keeping its handle: no uniqueness lookup is made, whatever the other
   * profiles hold, and the fields are `$set` on it in place.
   */
  lemma SaveSameHandleSets(profiles: seq<Profile>, f: Fields, id: Id, i: nat)
    requires Consistent(profiles)
    requires i < |profiles| && profiles[i].user == f.user && profiles[i].handle == f.handle
    ensures var p := SetFields(profiles[i], f);
      SaveFields(profiles, f, id) == Handled(Ok(p), profiles[i := p])
  {
    OwnerFound(profiles, f.user, i);
  }

  /** An existing profile moving to a handle no profile holds: the fields are `$set` on it in place. */
  lemma SaveChangedHandleFree(profiles: seq<Profile>, f: Fields, id: Id, i: nat)
    requires Consistent(profiles)
    requires i < |profiles| && profiles[i].user == f.user
    requires forall k :: 0 <= k < |profiles| ==> profiles[k].handle != f.handle
    ensures var p := SetFields(profiles[i], f);
      SaveFields(profiles, f, id) == Handled(Ok(p), profiles[i := p])
  {
    OwnerFound(profiles, f.user, i);
  }

  /** A new profile asking for a handle some profile holds: 400, nothing saved. */
  lemma SaveNewHandleTaken(profiles: seq<Profile>, f: Fields, id: Id, j: nat)
    requires forall k :: 0 <= k < |profiles| ==> profiles[k].user != f.user
    requires j < |profiles| && profiles[j].handle == f.handle
    ensures SaveFields(profiles, f, id) == Handled(Err(400, HandleTaken), profiles)
  {
    HolderFound(profiles, f.handle, j);
  }

  /** A new profile with a free handle is appended. */
  lemma SaveCreates(profiles: seq<Profile>, f: Fields, id: Id)
    requires forall k :: 0 <= k < |profiles| ==> profiles[k].user != f.user
    requires forall k :: 0 <= k < |profiles| ==> profiles[k].handle != f.handle
    ensures var p := NewProfile(id, f);
      SaveFields(profiles, f, id) == Handled(Ok(p), profiles + [p])
  {
  }

  /** The picked fields of an acceptable body: the requester, the sent handle and status, the split skills. */
  lemma PickedFromBody(me: Id, fm: Formats, body: Body)
    requires ProfileValidation.Acceptable(fm, body)
    ensures var f := Picked(me, body);
      && Required(f) && f.user == me
      && Some(f.handle) == StrMember(body, "handle")
      && Some(f.status) == StrMember(body, "status")
  {
  }

  /** A successful upsert saved the picked fields of an acceptable body. */
  lemma UpsertAnswer(profiles: seq<Profile>, me: Id, fm: Formats, body: Body, id: Id)
    requires HandleUpsert(profiles, me, fm, body, id).reply.Ok?
    ensures ProfileValidation.Acceptable(fm, body)
    ensures HandleUpsert(profiles, me, fm, body, id) == SaveFields(profiles, Picked(me, body), id)
  {
  }

  /** A profile carries the fields: every required one, and every optional one that was sent. */
  predicate Carries(p: Profile, f: Fields)
  {
    && p.user == f.user && p.handle == f.handle && p.status == f.status && p.social == f.social
    && (f.company.Some? ==> p.company == f.company)
    && (f.website.Some? ==> p.website == f.website)
    && (f.location.Some? ==> p.location == f.location)
    && (f.bio.Some? ==> p.bio == f.bio)
    && (f.githubusername.Some? ==> p.githubusername == f.githubusername)
    && (f.skills.Some? ==> p.skills == f.skills.value)
  }

  /** Whatever a successful save answers carries the saved fields. */
  lemma SaveCarries(profiles: seq<Profile>, f: Fields, id: Id)
    requires SaveFields(profiles, f, id).reply.Ok?
    ensures Carries(SaveFields(profiles, f, id).reply.body, f)
  {
    var i := Arrays.FindFirst(profiles, OwnedBy(f.user));
    if i >= 0 {
      assert SaveFields(profiles, f, id).reply.body == SetFields(profiles[i], f);
    } else {
      assert SaveFields(profiles, f, id).reply.body == NewProfile(id, f);
    }
  }

  /**
   * What an upsert writes: the requester as `user`, the sent handle and status, the
   * comma-split skills when sent, and the picked `social` members in place of the stored ones.
   */
  lemma UpsertWritesPicked(profiles: seq<Profile>, me: Id, fm: Formats, body: Body, id: Id)
    requires HandleUpsert(profiles, me, fm, body, id).reply.Ok?
    ensures var p := HandleUpsert(profiles, me, fm, body, id).reply.body;
      && p.user == me
      && Some(p.handle) == StrMember(body, "handle") && p.handle != ""
      && Some(p.status) == StrMember(body, "status") && p.status != ""
      && (StrMember(body, "skills").Some? ==> p.skills == Strings.Split(StrMember(body, "skills").value, ','))
      && p.social == PickedSocial(body)
  {
    UpsertAnswer(profiles, me, fm, body, id);
    PickedFromBody(me, fm, body);
    SaveCarries(profiles, Picked(me, body), id);
  }

  /** The optional whitelisted fields an upsert receives are the ones written. */
  lemma UpsertWritesOptional(profiles: seq<Profile>, me: Id, fm: Formats, body: Body, id: Id)
    requires HandleUpsert(profiles, me, fm, body, id).reply.Ok?
    ensures var p := HandleUpsert(profiles, me, fm, body, id).reply.body;
      && (StrMember(body, "company").Some? ==> p.company == StrMember(body, "company"))
      && (StrMember(body, "website").Some? ==> p.website == StrMember(body, "website"))
      && (StrMember(body, "location").Some? ==> p.location == StrMember(body, "location"))
      && (StrMember(body, "bio").Some? ==> p.bio == StrMember(body, "bio"))
      && (StrMember(body, "githubusername").Some? ==> p.githubusername == StrMember(body, "githubusername"))
  {
    UpsertAnswer(profiles, me, fm, body, id);
    SaveCarries(profiles, Picked(me, body), id);
  }

  /** Sent skills are the comma-separated pieces of the sent string, which join back to it. */
  lemma SkillsRoundTrip(body: Body)
    requires StrMember(body, "skills").Some?
    ensures Strings.Join(PickedSkills(body).value, ',') == StrMember(body, "skills").value
    ensures forall k :: 0 <= k < |PickedSkills(body).value| ==> ',' !in PickedSkills(body).value[k]
  {
  }

  /** Replacing a profile by one for the same user, under its handle or a free one, keeps consistency. */
  lemma ReplaceKeepsConsistent(profiles: seq<Profile>, i: nat, p: Profile)
    requires Consistent(profiles) && i < |profiles| && Savable(p)
    requires p.user == profiles[i].user
    requires p.handle == profiles[i].handle || forall k :: 0 <= k < |profiles| ==> profiles[k].handle != p.handle
    ensures Consistent(profiles[i := p])
  {
  }

  lemma AppendKeepsConsistent(profiles: seq<Profile>, p: Profile)
    requires Consistent(profiles) && Savable(p)
    requires forall k :: 0 <= k < |profiles| ==> profiles[k].user != p.user && profiles[k].handle != p.handle
    ensures Consistent(profiles + [p])
  {
  }

  /** Saving fields with a handle and a status keeps one profile per user and per handle. */
  lemma SaveKeepsConsistent(profiles: seq<Profile>, f: Fields, id: Id)
    requires Consistent(profiles) && Required(f)
    ensures Consistent(SaveFields(profiles, f, id).profiles)
  {
    var h := SaveFields(profiles, f, id);
    if h.reply.Ok? {
      var i := Arrays.FindFirst(profiles, OwnedBy(f.user));
      if i >= 0 {
        ReplaceKeepsConsistent(profiles, i, SetFields(profiles[i], f));
      } else {
        AppendKeepsConsistent(profiles, NewProfile(id, f));
      }
    }
  }

  /** An upsert keeps one profile per user and per handle. */
  lemma UpsertKeepsConsistent(profiles: seq<Profile>, me: Id, fm: Formats, body: Body, id: Id)
    requires Consistent(profiles)
    ensures Consistent(HandleUpsert(profiles, me, fm, body, id).profiles)
  {
    if ProfileValidation.Acceptable(fm, body) {
      PickedFromBody(me, fm, body);
      SaveKeepsConsistent(profiles, Picked(me, body), id);
    }
  }

  lemma SetFieldsTwice(p: Profile, f: Fields)
    ensures SetFields(SetFields(p, f), f) == SetFields(p, f)
  {
  }

  lemma SetFieldsOnNew(id: Id, f: Fields)
    ensures SetFields(NewProfile(id, f), f) == NewProfile(id, f)
  {
  }

  /** Saving to a stored profile that already carries the fields changes nothing. */
  lemma SaveStoredAgain(q: seq<Profile>, f: Fields, id: Id, i: int)
    requires 0 <= i == Arrays.FindFirst(q, OwnedBy(f.user))
    requires q[i] == SetFields(q[i], f) && q[i].handle == f.handle
    ensures SaveFields(q, f, id) == Handled(Ok(q[i]), q)
  {
  }

  /** Saving the same fields twice: the second save answers the same and writes nothing new. */
  lemma SaveIdempotent(profiles: seq<Profile>, f: Fields, id: Id, id2: Id)
    requires SaveFields(profiles, f, id).reply.Ok?
    ensures var h := SaveFields(profiles, f, id);
      SaveFields(h.profiles, f, id2) == h
  {
    var h := SaveFields(profiles, f, id);
    var i := Arrays.FindFirst(profiles, OwnedBy(f.user));
    if i >= 0 {
      var p := SetFields(profiles[i], f);
      assert h == Handled(Ok(p), profiles[i := p]);
      SetFieldsTwice(profiles[i], f);
      ResetSameOwner(profiles, f.user, i, p);
      SaveStoredAgain(profiles[i := p], f, id2, i);
    } else {
      var p := NewProfile(id, f);
      assert h == Handled(Ok(p), profiles + [p]);
      assert forall k :: 0 <= k < |profiles| ==> (profiles + [p])[k] == profiles[k];
      Arrays.FirstIsUnique(profiles + [p], OwnedBy(f.user), |profiles|);
      SetFieldsOnNew(id, f);
      SaveStoredAgain(profiles + [p], f, id2, |profiles|);
    }
  }

  /** Sending the same profile twice: the second upsert answers the same and writes nothing new. */
  lemma UpsertIdempotent(profiles: seq<Profile>, me: Id, fm: Formats, body: Body, id: Id, id2: Id)
    requires HandleUpsert(profiles, me, fm, body, id).reply.Ok?
    ensures var h := HandleUpsert(profiles, me, fm, body, id);
      HandleUpsert(h.profiles, me, fm, body, id2) == h
  {
    UpsertAnswer(profiles, me, fm, body, id);
    SaveIdempotent(profiles, Picked(me, body), id, id2);
  }

  /** After a successful save, the user's own profile is the one it answered. */
  lemma SaveThenGetOwn(profiles: seq<Profile>, f: Fields, id: Id)
    requires Consistent(profiles) && Required(f)
    requires SaveFields(profiles, f, id).reply.Ok?
    ensures var h := SaveFields(profiles, f, id);
      HandleGetOwn(h.profiles, f.user) == h.reply
  {
    var h := SaveFields(profiles, f, id);
    SaveKeepsConsistent(profiles, f, id);
    var i := Arrays.FindFirst(profiles, OwnedBy(f.user));
    if i >= 0 {
      OwnerFound(h.profiles, f.user, i);
    } else {
      OwnerFound(h.profiles, f.user, |profiles|);
    }
  }

  /** After a successful upsert, the requester's own profile is the one it answered. */
  lemma UpsertThenGetOwn(profiles: seq<Profile>, me: Id, fm: Formats, body: Body, id: Id)
    requires Consistent(profiles)
    requires HandleUpsert(profiles, me, fm, body, id).reply.Ok?
    ensures var h := HandleUpsert(profiles, me, fm, body, id);
      HandleGetOwn(h.profiles, me) == h.reply
  {
    UpsertAnswer(profiles, me, fm, body, id);
    PickedFromBody(me, fm, body);
    SaveThenGetOwn(profiles, Picked(me, body), id);
  }

  /** The entry POST /experience appends can be saved; so can the education entry. */
  lemma NewExperienceSavable(fm: Formats, body: Body, entryId: Id, current: bool)
    requires ExperienceValidation.Acceptable(fm, body)
    ensures ExperienceSavable(NewExperience(body, entryId, current))
  {
  }

  lemma NewEducationSavable(fm: Formats, body: Body, entryId: Id, current: bool)
    requires EducationValidation.Acceptable(fm, body)
    ensures EducationSavable(NewEducation(body, entryId, current))
  {
  }

  /**
   * A successful POST /experience on a user with a profile appends exactly one entry at the
   * end of the first profile owned by the user, carrying the fresh id; a truthy `current` as
   * sent leaves `to` null.
   */
  lemma AddExperienceAppends(profiles: seq<Profile>, me: Id, fm: Formats, body: Body, entryId: Id, i: nat)
    requires HandleAddExperience(profiles, me, fm, body, entryId).reply.Ok?
    requires i == Arrays.FindFirst(profiles, OwnedBy(me))
    ensures var h := HandleAddExperience(profiles, me, fm, body, entryId);
      && h.reply.body.Some?
      && var es := h.reply.body.value.experience;
      && |es| == |profiles[i].experience| + 1
      && es[..|es| - 1] == profiles[i].experience
      && es[|es| - 1].id == entryId
      && (Truthy(Lookup(body, "current")) ==> es[|es| - 1].to == Some(Null))
      && (es[|es| - 1].current <==> CastBoolean(Lookup(body, "current")) == Some(true))
      && (es[|es| - 1].current ==> es[|es| - 1].to == Some(Null))
      && h.profiles == profiles[i := h.reply.body.value]
  {
    var e := NewExperience(body, entryId, StoredCurrent(Lookup(body, "current")));
    var es := profiles[i].experience + [e];
    assert PushExperience(profiles, me, e).reply.body.value.experience == es;
    assert es[..|es| - 1] == profiles[i].experience;
  }

  /**
   * A `current: ''`, which the validator lets through and the cast refuses, does not stop the
   * push: the entry is stored with `current` false and `to` as sent.
   */
  lemma EmptyCurrentStoredFalse(profiles: seq<Profile>, me: Id, fm: Formats, body: Body, entryId: Id)
    requires ExperienceValidation.Acceptable(fm, body) && Lookup(body, "current") == Some(Str(""))
    ensures var h := HandleAddExperience(profiles, me, fm, body, entryId);
      && h.reply.Ok?
      && (h.reply.body.Some? ==>
            var es := h.reply.body.value.experience;
            && |es| > 0 && !es[|es| - 1].current && es[|es| - 1].to == Lookup(body, "to"))
  {
    var e := NewExperience(body, entryId, StoredCurrent(Lookup(body, "current")));
    assert !e.current && e.to == Lookup(body, "to");
  }

  /** `Joi.boolean().allow('')` refuses `null`, so no accepted entry body sends a null `current`. */
  lemma CurrentNeverNull(fm: Formats, body: Body)
    ensures ExperienceValidation.Acceptable(fm, body) ==> Lookup(body, "current") != Some(Null)
    ensures EducationValidation.Acceptable(fm, body) ==> Lookup(body, "current") != Some(Null)
  {
  }

  /** Pushing onto a consistent collection an entry that can be saved keeps it consistent. */
  lemma PushExperienceKeepsConsistent(profiles: seq<Profile>, me: Id, e: Experience)
    requires Consistent(profiles) && ExperienceSavable(e)
    ensures Consistent(PushExperience(profiles, me, e).profiles)
  {
    var i := Arrays.FindFirst(profiles, OwnedBy(me));
    if i >= 0 {
      AppendExperienceKeepsSavable(profiles[i], e);
      ReplaceKeepsConsistent(profiles, i, profiles[i].(experience := profiles[i].experience + [e]));
    }
  }

  /** An entry addition keeps the collection consistent. */
  lemma AddExperienceKeepsConsistent(profiles: seq<Profile>, me: Id, fm: Formats, body: Body, entryId: Id)
    requires Consistent(profiles)
    ensures Consistent(HandleAddExperience(profiles, me, fm, body, entryId).profiles)
  {
    if ExperienceValidation.Acceptable(fm, body) {
      var current := StoredCurrent(Lookup(body, "current"));
      NewExperienceSavable(fm, body, entryId, current);
      PushExperienceKeepsConsistent(profiles, me, NewExperience(body, entryId, current));
    }
  }

  lemma AppendExperienceKeepsSavable(p: Profile, e: Experience)
    requires Savable(p) && ExperienceSavable(e)
    ensures Savable(p.(experience := p.experience + [e]))
  {
    var es := p.experience + [e];
    assert forall k :: 0 <= k < |p.experience| ==> es[k] == p.experience[k];
  }

  /** Pushing onto a consistent collection an entry that can be saved keeps it consistent. */
  lemma PushEducationKeepsConsistent(profiles: seq<Profile>, me: Id, e: Education)
    requires Consistent(profiles) && EducationSavable(e)
    ensures Consistent(PushEducation(profiles, me, e).profiles)
  {
    var i := Arrays.FindFirst(profiles, OwnedBy(me));
    if i >= 0 {
      AppendEducationKeepsSavable(profiles[i], e);
      ReplaceKeepsConsistent(profiles, i, profiles[i].(education := profiles[i].education + [e]));
    }
  }

  /** An entry addition keeps the collection consistent. */
  lemma AddEducationKeepsConsistent(profiles: seq<Profile>, me: Id, fm: Formats, body: Body, entryId: Id)
    requires Consistent(profiles)
    ensures Consistent(HandleAddEducation(profiles, me, fm, body, entryId).profiles)
  {
    if EducationValidation.Acceptable(fm, body) {
      var current := StoredCurrent(Lookup(body, "current"));
      NewEducationSavable(fm, body, entryId, current);
      PushEducationKeepsConsistent(profiles, me, NewEducation(body, entryId, current));
    }
  }

  lemma AppendEducationKeepsSavable(p: Profile, e: Education)
    requires Savable(p) && EducationSavable(e)
    ensures Savable(p.(education := p.education + [e]))
  {
    var es := p.education + [e];
    assert forall k :: 0 <= k < |p.education| ==> es[k] == p.education[k];
  }

  /** An id that is on none of the requester's entries: 404 and nothing changes. */
  lemma RemoveExperienceMissing(profiles: seq<Profile>, me: Id, entryId: Id, i: nat)
    requires Consistent(profiles) && Joi.IsObjectId(entryId)
    requires i < |profiles| && profiles[i].user == me && entryId !in ExperienceIds(profiles[i].experience)
    ensures HandleRemoveExperience(profiles, me, entryId) == Handled(Err(404, NoSuchExperience), profiles)
  {
    OwnerFound(profiles, me, i);
  }

  lemma RemoveEducationMissing(profiles: seq<Profile>, me: Id, entryId: Id, i: nat)
    requires Consistent(profiles) && Joi.IsObjectId(entryId)
    requires i < |profiles| && profiles[i].user == me && entryId !in EducationIds(profiles[i].education)
    ensures HandleRemoveEducation(profiles, me, entryId) == Handled(Err(404, NoSuchEducation), profiles)
  {
    OwnerFound(profiles, me, i);
  }

  /** The requester's profile holding the entry: the first entry with that id is taken out. */
  lemma RemoveExperiencePresent(profiles: seq<Profile>, me: Id, entryId: Id, i: nat)
    requires Consistent(profiles) && Joi.IsObjectId(entryId)
    requires i < |profiles| && profiles[i].user == me && entryId in ExperienceIds(profiles[i].experience)
    ensures var k := Arrays.IndexOf(ExperienceIds(profiles[i].experience), entryId);
      var p := profiles[i].(experience := profiles[i].experience[..k] + profiles[i].experience[k + 1..]);
      HandleRemoveExperience(profiles, me, entryId) == Handled(Ok(p), profiles[i := p])
  {
    OwnerFound(profiles, me, i);
  }

  /** A removal takes out exactly the first entry with that id, keeping the others in order. */
  lemma RemoveExperienceRemovesIt(profiles: seq<Profile>, me: Id, entryId: Id) returns (i: int, k: int)
    requires HandleRemoveExperience(profiles, me, entryId).reply.Ok?
    ensures 0 <= i < |profiles| && profiles[i].user == me
    ensures 0 <= k < |profiles[i].experience| && profiles[i].experience[k].id == entryId
    ensures entryId !in ExperienceIds(profiles[i].experience[..k])
    ensures var p := profiles[i].(experience := profiles[i].experience[..k] + profiles[i].experience[k + 1..]);
      HandleRemoveExperience(profiles, me, entryId) == Handled(Ok(p), profiles[i := p])
  {
    var h := HandleRemoveExperience(profiles, me, entryId);
    i := Arrays.FindFirst(profiles, OwnedBy(me));
    var es := profiles[i].experience;
    k := Arrays.IndexOf(ExperienceIds(es), entryId);
    assert h.reply.body == profiles[i].(experience := Arrays.Splice(es, k));
    Arrays.SpliceAtIndexOf(es, ExperienceIds(es), entryId);
    assert ExperienceIds(es[..k]) == ExperienceIds(es)[..k];
  }


  /** The requester's profile holding the entry: the first entry with that id is taken out. */
  lemma RemoveEducationPresent(profiles: seq<Profile>, me: Id, entryId: Id, i: nat)
    requires Consistent(profiles) && Joi.IsObjectId(entryId)
    requires i < |profiles| && profiles[i].user == me && entryId in EducationIds(profiles[i].education)
    ensures var k := Arrays.IndexOf(EducationIds(profiles[i].education), entryId);
      var p := profiles[i].(education := profiles[i].education[..k] + profiles[i].education[k + 1..]);
      HandleRemoveEducation(profiles, me, entryId) == Handled(Ok(p), profiles[i := p])
  {
    OwnerFound(profiles, me, i);
  }

  lemma RemoveEducationRemovesIt(profiles: seq<Profile>, me: Id, entryId: Id) returns (i: int, k: int)
    requires HandleRemoveEducation(profiles, me, entryId).reply.Ok?
    ensures 0 <= i < |profiles| && profiles[i].user == me
    ensures 0 <= k < |profiles[i].education| && profiles[i].education[k].id == entryId
    ensures entryId !in EducationIds(profiles[i].education[..k])
    ensures var p := profiles[i].(education := profiles[i].education[..k] + profiles[i].education[k + 1..]);
      HandleRemoveEducation(profiles, me, entryId) == Handled(Ok(p), profiles[i := p])
  {
    var h := HandleRemoveEducation(profiles, me, entryId);
    i := Arrays.FindFirst(profiles, OwnedBy(me));
    var es := profiles[i].education;
    k := Arrays.IndexOf(EducationIds(es), entryId);
    assert h.reply.body == profiles[i].(education := Arrays.Splice(es, k));
    Arrays.SpliceAtIndexOf(es, EducationIds(es), entryId);
    assert EducationIds(es[..k]) == EducationIds(es)[..k];
  }


  /** Replacing the requester's first profile by another of theirs keeps it the first one found. */
  lemma ResetSameOwner(profiles: seq<Profile>, me: Id, i: int, p: Profile)
    requires i == Arrays.FindFirst(profiles, OwnedBy(me)) && 0 <= i && p.user == me
    ensures Arrays.FindFirst(profiles[i := p], OwnedBy(me)) == i
  {
    Arrays.FirstIsUnique(profiles[i := p], OwnedBy(me), i);
  }

  /** An entry appended under an id no earlier entry has is the one `indexOf` finds, and splicing it restores. */
  lemma RemoveExperienceAppended(es: seq<Experience>, e: Experience, entryId: Id) returns (k: int)
    requires e.id == entryId && entryId !in ExperienceIds(es)
    ensures k == Arrays.IndexOf(ExperienceIds(es + [e]), entryId) == |es|
    ensures Arrays.Splice(es + [e], k) == es
  {
    var keys := ExperienceIds(es + [e]);
    forall m | 0 <= m < |es| ensures keys[m] != entryId {
      assert keys[m] == ExperienceIds(es)[m];
    }
    assert keys[|es|] == entryId;
    k := Arrays.IndexOf(keys, entryId);
    assert (es + [e])[..|es|] == es;
  }

  lemma RemoveEducationAppended(es: seq<Education>, e: Education, entryId: Id) returns (k: int)
    requires e.id == entryId && entryId !in EducationIds(es)
    ensures k == Arrays.IndexOf(EducationIds(es + [e]), entryId) == |es|
    ensures Arrays.Splice(es + [e], k) == es
  {
    var keys := EducationIds(es + [e]);
    forall m | 0 <= m < |es| ensures keys[m] != entryId {
      assert keys[m] == EducationIds(es)[m];
    }
    assert keys[|es|] == entryId;
    k := Arrays.IndexOf(keys, entryId);
    assert (es + [e])[..|es|] == es;
  }

  lemma RemoveExperienceAfterAdd(q: seq<Profile>, me: Id, entryId: Id, i: int, before: seq<Experience>, e: Experience)
    requires Joi.IsObjectId(entryId)
    requires 0 <= i == Arrays.FindFirst(q, OwnedBy(me))
    requires q[i].experience == before + [e] && e.id == entryId && entryId !in ExperienceIds(before)
    ensures HandleRemoveExperience(q, me, entryId).profiles == q[i := q[i].(experience := before)]
  {
    var k := RemoveExperienceAppended(before, e, entryId);
  }

  lemma RemoveEducationAfterAdd(q: seq<Profile>, me: Id, entryId: Id, i: int, before: seq<Education>, e: Education)
    requires Joi.IsObjectId(entryId)
    requires 0 <= i == Arrays.FindFirst(q, OwnedBy(me))
    requires q[i].education == before + [e] && e.id == entryId && entryId !in EducationIds(before)
    ensures HandleRemoveEducation(q, me, entryId).profiles == q[i := q[i].(education := before)]
  {
    var k := RemoveEducationAppended(before, e, entryId);
  }

  /** Removing an entry just pushed under a fresh, well-formed id gives back the collection. */
  lemma PushThenRemoveExperience(profiles: seq<Profile>, me: Id, e: Experience)
    requires Joi.IsObjectId(e.id)
    requires forall i :: 0 <= i < |profiles| ==> e.id !in ExperienceIds(profiles[i].experience)
    requires PushExperience(profiles, me, e).reply.body.Some?
    ensures HandleRemoveExperience(PushExperience(profiles, me, e).profiles, me, e.id).profiles == profiles
  {
    var i := Arrays.FindFirst(profiles, OwnedBy(me));
    var before := profiles[i].experience;
    var p := profiles[i].(experience := before + [e]);
    ResetSameOwner(profiles, me, i, p);
    RemoveExperienceAfterAdd(profiles[i := p], me, e.id, i, before, e);
    assert p.(experience := before) == profiles[i];
  }

  lemma AddThenRemoveExperience(profiles: seq<Profile>, me: Id, fm: Formats, body: Body, entryId: Id)
    requires Joi.IsObjectId(entryId)
    requires forall i :: 0 <= i < |profiles| ==> entryId !in ExperienceIds(profiles[i].experience)
    requires var r := HandleAddExperience(profiles, me, fm, body, entryId).reply; r.Ok? && r.body.Some?
    ensures var h := HandleAddExperience(profiles, me, fm, body, entryId);
      HandleRemoveExperience(h.profiles, me, entryId).profiles == profiles
  {
    PushThenRemoveExperience(profiles, me, NewExperience(body, entryId, StoredCurrent(Lookup(body, "current"))));
  }

  lemma PushThenRemoveEducation(profiles: seq<Profile>, me: Id, e: Education)
    requires Joi.IsObjectId(e.id)
    requires forall i :: 0 <= i < |profiles| ==> e.id !in EducationIds(profiles[i].education)
    requires PushEducation(profiles, me, e).reply.body.Some?
    ensures HandleRemoveEducation(PushEducation(profiles, me, e).profiles, me, e.id).profiles == profiles
  {
    var i := Arrays.FindFirst(profiles, OwnedBy(me));
    var before := profiles[i].education;
    var p := profiles[i].(education := before + [e]);
    ResetSameOwner(profiles, me, i, p);
    RemoveEducationAfterAdd(profiles[i := p], me, e.id, i, before, e);
    assert p.(education := before) == profiles[i];
  }

  lemma AddThenRemoveEducation(profiles: seq<Profile>, me: Id, fm: Formats, body: Body, entryId: Id)
    requires Joi.IsObjectId(entryId)
    requires forall i :: 0 <= i < |profiles| ==> entryId !in EducationIds(profiles[i].education)
    requires var r := HandleAddEducation(profiles, me, fm, body, entryId).reply; r.Ok? && r.body.Some?
    ensures var h := HandleAddEducation(profiles, me, fm, body, entryId);
      HandleRemoveEducation(h.profiles, me, entryId).profiles == profiles
  {
    PushThenRemoveEducation(profiles, me, NewEducation(body, entryId, StoredCurrent(Lookup(body, "current"))));
  }

  /** Removing a profile keeps the collection consistent, and leaves the requester with none. */
  lemma DeleteRemovesOwn(profiles: seq<Profile>, me: Id)
    requires Consistent(profiles)
    ensures var r := HandleDelete(profiles, me).profiles;
      && Consistent(r)
      && (forall k :: 0 <= k < |r| ==> r[k].user != me)
      && (forall k :: 0 <= k < |profiles| && profiles[k].user != me ==> profiles[k] in r)
  {
    var i := Arrays.FindFirst(profiles, OwnedBy(me));
    if i >= 0 {
      assert HandleDelete(profiles, me).profiles == profiles[..i] + profiles[i + 1..];
      RemoveAtKeepsConsistent(profiles, i);
      RemoveAtKeepsOthers(profiles, i);
    }
  }

  lemma RemoveAtKeepsConsistent(profiles: seq<Profile>, i: int)
    requires Consistent(profiles) && 0 <= i < |profiles|
    ensures Consistent(profiles[..i] + profiles[i + 1..])
    ensures forall q :: q in profiles[..i] + profiles[i + 1..] ==> q.user != profiles[i].user
  {
    var r := profiles[..i] + profiles[i + 1..];
    assert forall k :: 0 <= k < i ==> r[k] == profiles[k];
    assert forall k :: i <= k < |r| ==> r[k] == profiles[k + 1];
  }

  lemma RemoveAtKeepsOthers(profiles: seq<Profile>, i: int)
    requires 0 <= i < |profiles|
    ensures forall k :: 0 <= k < |profiles| && k != i ==> profiles[k] in profiles[..i] + profiles[i + 1..]
  {
    var r := profiles[..i] + profiles[i + 1..];
    forall k | 0 <= k < |profiles| && k != i ensures profiles[k] in r {
      if k < i {
        assert r[k] == profiles[k];
      } else {
        assert r[k - 1] == profiles[k];
      }
    }
  }


  // ---------------------------------------------------------------------------
  // The education route's missing-profile case
  // ---------------------------------------------------------------------------

  /**
   * A requester without a profile removing an education entry: as written the handler
   * dereferences the missing profile; the corrected route answers 404 like the experience route.
   */
  lemma RemoveEducationWithoutProfile(profiles: seq<Profile>, me: Id, entryId: Id)
    requires Joi.IsObjectId(entryId)
    requires forall i :: 0 <= i < |profiles| ==> profiles[i].user != me
    ensures HandleRemoveEducationAsWritten(profiles, me, entryId).reply == Fault
    ensures HandleRemoveEducation(profiles, me, entryId) == Handled(Err(404, ProfileNotFound), profiles)
  {
  }

  /** The concrete request: an empty collection and a well-formed id. */
  lemma RemoveEducationWithoutProfileExample(me: Id)
    ensures HandleRemoveEducationAsWritten([], me, "5f8d0d55b54764421b7156c9").reply == Fault
    ensures HandleRemoveEducation([], me, "5f8d0d55b54764421b7156c9").reply == Err(404, ProfileNotFound)
  {
    var id := "5f8d0d55b54764421b7156c9";
    assert forall k :: 0 <= k < |id| ==> Joi.IsHexDigit(id[k]);
    RemoveEducationWithoutProfile([], me, id);
  }

  /** When the requester has a profile the two versions of the route agree. */
  lemma EducationRoutesAgree(profiles: seq<Profile>, me: Id, entryId: Id, i: nat)
    requires i < |profiles| && profiles[i].user == me
    ensures HandleRemoveEducationAsWritten(profiles, me, entryId) == HandleRemoveEducation(profiles, me, entryId)
  {
    assert OwnedBy(me)(profiles[i]);
  }

  lemma RemoveExperienceKeepsSavable(p: Profile, k: int)
    requires Savable(p) && 0 <= k < |p.experience|
    ensures Savable(p.(experience := p.experience[..k] + p.experience[k + 1..]))
  {
    var r := p.experience[..k] + p.experience[k + 1..];
    assert forall m :: 0 <= m < k ==> r[m] == p.experience[m];
    assert forall m :: k <= m < |r| ==> r[m] == p.experience[m + 1];
  }

  lemma RemoveEducationKeepsSavable(p: Profile, k: int)
    requires Savable(p) && 0 <= k < |p.education|
    ensures Savable(p.(education := p.education[..k] + p.education[k + 1..]))
  {
    var r := p.education[..k] + p.education[k + 1..];
    assert forall m :: 0 <= m < k ==> r[m] == p.education[m];
    assert forall m :: k <= m < |r| ==> r[m] == p.education[m + 1];
  }

  /** Removing an entry keeps the collection consistent. */
  lemma RemoveExperienceKeepsConsistent(profiles: seq<Profile>, me: Id, entryId: Id)
    requires Consistent(profiles)
    ensures Consistent(HandleRemoveExperience(profiles, me, entryId).profiles)
  {
    var h := HandleRemoveExperience(profiles, me, entryId);
    if h.reply.Ok? {
      var i, k := RemoveExperienceRemovesIt(profiles, me, entryId);
      RemoveExperienceKeepsSavable(profiles[i], k);
      ReplaceKeepsConsistent(profiles, i, h.reply.body);
    }
  }

  lemma RemoveEducationKeepsConsistent(profiles: seq<Profile>, me: Id, entryId: Id)
    requires Consistent(profiles)
    ensures Consistent(HandleRemoveEducation(profiles, me, entryId).profiles)
  {
    var h := HandleRemoveEducation(profiles, me, entryId);
    if h.reply.Ok? {
      var i, k := RemoveEducationRemovesIt(profiles, me, entryId);
      RemoveEducationKeepsSavable(profiles[i], k);
      ReplaceKeepsConsistent(profiles, i, h.reply.body);
    }
  }

  // ---------------------------------------------------------------------------
  // The collection and its routes
  // ---------------------------------------------------------------------------

  /** The `profiles` collection; each method is one route handler. */
  class ProfileStore {
    var profiles: seq<Profile>

    constructor()
      ensures profiles == []
    {
      profiles := [];
    }

    /** GET /. */
    method GetOwn(me: Id) returns (reply: Response<Profile>)
      ensures reply == HandleGetOwn(profiles, me)
    {
      var i := Arrays.Find(profiles, OwnedBy(me));
      if i < 0 {
        return Err(404, NoProfileForUser);
      }
      reply := Ok(profiles[i]);
    }

    /** GET /all. */
    method All() returns (reply: Response<seq<Profile>>)
      ensures reply == HandleAll(profiles)
    {
      if |profiles| == 0 {
        return Err(404, NoProfiles);
      }
      reply := Ok(profiles);
    }

    /** GET /handle/:handle. */
    method ByHandle(handle: string) returns (reply: Response<Profile>)
      ensures reply == HandleByHandle(profiles, handle)
    {
      var i := Arrays.Find(profiles, WithHandle(handle));
      if i < 0 {
        return Err(404, NoProfileForHandle);
      }
      reply := Ok(profiles[i]);
    }

    /** GET /user/:user_id. */
    method ByUser(user: Id) returns (reply: Response<Profile>)
      ensures reply == HandleByUser(profiles, user)
    {
      var v := ObjectIdValidation.Check(Some(user));
      if v.Reject? {
        return Err(v.status, v.errors);
      }
      var i := Arrays.Find(profiles, OwnedBy(user));
      if i < 0 {
        return Err(404, NoProfileForUser);
      }
      reply := Ok(profiles[i]);
    }

    /** POST /: the database supplies `id` for a new profile. */
    method Upsert(me: Id, fm: Formats, body: Body, id: Id) returns (reply: Response<Profile>)
      requires Consistent(profiles)
      modifies this
      ensures Handled(reply, profiles) == HandleUpsert(old(profiles), me, fm, body, id)
      ensures Consistent(profiles)
    {
      UpsertKeepsConsistent(profiles, me, fm, body, id);
      var v := ProfileValidation.Validate(fm, body);
      if v.Reject? {
        return Err(400, v.errors);
      }
      var fields := Picked(me, body);
      var i := Arrays.Find(profiles, OwnedBy(me));
      if i >= 0 {
        if profiles[i].handle != fields.handle {
          var holder := Arrays.Find(profiles, WithHandle(fields.handle));
          if holder >= 0 {
            return Err(400, HandleTaken);
          }
        }
        var updated := SetFields(profiles[i], fields);
        profiles := profiles[i := updated];
        reply := Ok(updated);
      } else {
        var holder := Arrays.Find(profiles, WithHandle(fields.handle));
        if holder >= 0 {
          return Err(400, HandleTaken);
        }
        var created := NewProfile(id, fields);
        profiles := profiles + [created];
        reply := Ok(created);
      }
    }

    /** POST /experience: the database supplies the entry's id. */
    method AddExperience(me: Id, fm: Formats, body: Body, entryId: Id) returns (reply: Response<Option<Profile>>)
      requires Consistent(profiles)
      modifies this
      ensures Handled(reply, profiles) == HandleAddExperience(old(profiles), me, fm, body, entryId)
      ensures Consistent(profiles)
    {
      AddExperienceKeepsConsistent(profiles, me, fm, body, entryId);
      var v := ExperienceValidation.Validate(fm, body);
      if v.Reject? {
        return Err(400, v.errors);
      }
      var entry := NewExperience(body, entryId, StoredCurrent(Lookup(body, "current")));
      var i := Arrays.Find(profiles, OwnedBy(me));
      if i < 0 {
        return Ok(None);
      }
      var updated := profiles[i].(experience := profiles[i].experience + [entry]);
      profiles := profiles[i := updated];
      reply := Ok(Some(updated));
    }

    /** POST /education: the database supplies the entry's id. */
    method AddEducation(me: Id, fm: Formats, body: Body, entryId: Id) returns (reply: Response<Option<Profile>>)
      requires Consistent(profiles)
      modifies this
      ensures Handled(reply, profiles) == HandleAddEducation(old(profiles), me, fm, body, entryId)
      ensures Consistent(profiles)
    {
      AddEducationKeepsConsistent(profiles, me, fm, body, entryId);
      var v := EducationValidation.Validate(fm, body);
      if v.Reject? {
        return Err(400, v.errors);
      }
      var entry := NewEducation(body, entryId, StoredCurrent(Lookup(body, "current")));
      var i := Arrays.Find(profiles, OwnedBy(me));
      if i < 0 {
        return Ok(None);
      }
      var updated := profiles[i].(education := profiles[i].education + [entry]);
      profiles := profiles[i := updated];
      reply := Ok(Some(updated));
    }

    /** DELETE /experience/:exp_id. */
    method RemoveExperience(me: Id, entryId: Id) returns (reply: Response<Profile>)
      requires Consistent(profiles)
      modifies this
      ensures Handled(reply, profiles) == HandleRemoveExperience(old(profiles), me, entryId)
      ensures Consistent(profiles)
    {
      RemoveExperienceKeepsConsistent(profiles, me, entryId);
      var v := ObjectIdValidation.Check(Some(entryId));
      if v.Reject? {
        return Err(v.status, v.errors);
      }
      var i := Arrays.Find(profiles, OwnedBy(me));
      if i < 0 {
        return Err(404, ProfileNotFound);
      }
      var index := Arrays.IndexOf(ExperienceIds(profiles[i].experience), entryId);
      if index < 0 {
        return Err(404, NoSuchExperience);
      }
      var updated := profiles[i].(experience := Arrays.Splice(profiles[i].experience, index));
      profiles := profiles[i := updated];
      reply := Ok(updated);
    }

    /** DELETE /education/:edu_id, with the missing-profile check. */
    method RemoveEducation(me: Id, entryId: Id) returns (reply: Response<Profile>)
      requires Consistent(profiles)
      modifies this
      ensures Handled(reply, profiles) == HandleRemoveEducation(old(profiles), me, entryId)
      ensures Consistent(profiles)
    {
      RemoveEducationKeepsConsistent(profiles, me, entryId);
      var v := ObjectIdValidation.Check(Some(entryId));
      if v.Reject? {
        return Err(v.status, v.errors);
      }
      var i := Arrays.Find(profiles, OwnedBy(me));
      if i < 0 {
        return Err(404, ProfileNotFound);
      }
      var index := Arrays.IndexOf(EducationIds(profiles[i].education), entryId);
      if index < 0 {
        return Err(404, NoSuchEducation);
      }
      var updated := profiles[i].(education := Arrays.Splice(profiles[i].education, index));
      profiles := profiles[i := updated];
      reply := Ok(updated);
    }

    /** DELETE /. */
    method Delete(me: Id) returns (reply: Response<Deleted>)
      requires Consistent(profiles)
      modifies this
      ensures Handled(reply, profiles) == HandleDelete(old(profiles), me)
      ensures Consistent(profiles)
    {
      DeleteRemovesOwn(profiles, me);
      var i := Arrays.Find(profiles, OwnedBy(me));
      if i >= 0 {
        profiles := profiles[..i] + profiles[i + 1..];
      }
      reply := Ok(Deleted);
    }
  }
}
