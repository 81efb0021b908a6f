/** The profile document (models/profile.js) with its embedded experience and education. */
module ProfileModel {
  import opened Common
  import opened Json

  /** The `social` sub-object: exactly five optional strings. */
  datatype Social = Social(
    youtube: Option<string>, twitter: Option<string>, facebook: Option<string>,
    linkedin: Option<string>, instagram: Option<string>)

  const NoSocial := Social(None, None, None, None, None)

  /**
   * An experience entry.  `from` and `to` keep the date value as sent (`to == Some(Null)`
   * is an explicit null); `current` defaults to false.
   */
  datatype Experience = Experience(
    id: Id, title: string, company: string, location: Option<string>,
    from: Value, to: Option<Value>, current: bool, description: Option<string>)

  /** An education entry, shaped like an experience entry. */
  datatype Education = Education(
    id: Id, school: string, degree: string, fieldofstudy: string,
    from: Value, to: Option<Value>, current: bool, description: Option<string>)

  /** A profile; `skills` is an array of strings, empty unless set. */
  datatype Profile = Profile(
    id: Id, user: Id, handle: string, company: Option<string>, website: Option<string>,
    location: Option<string>, status: string, skills: seq<string>, bio: Option<string>,
    githubusername: Option<string>, experience: seq<Experience>, education: seq<Education>,
    social: Social)

  /** Mongoose `required`: present and, for strings, not empty; `from` must not be null. */
  predicate ExperienceSavable(e: Experience)
  {
    e.title != "" && e.company != "" && e.from != Null
  }

  predicate EducationSavable(e: Education)
  {
    e.school != "" && e.degree != "" && e.fieldofstudy != "" && e.from != Null
  }

  predicate Savable(p: Profile)
  {
    && p.handle != "" && p.status != ""
    && (forall i :: 0 <= i < |p.experience| ==> ExperienceSavable(p.experience[i]))
    && (forall i :: 0 <= i < |p.education| ==> EducationSavable(p.education[i]))
  }

  /**
   * Mongoose's Boolean cast of a sent `current`: absent takes the default `false`;
   * `true`, `'true'`, `1`, `'1'`, `'yes'` become true and `false`, `'false'`, `0`, `'0'`, `'no'`
   * become false; any other number or string (the validators let `''` through) and an
   * object are a cast error (None).  Mongoose keeps a `null` as null; the model gives None,
   * and no body the validators accept carries a null `current`.
   */
  function CastBoolean(v: Option<Value>): (r: Option<bool>)
    ensures v.None? ==> r == Some(false)
    ensures v.Some? && v.value.Bool? ==> r == Some(v.value.b)
    ensures v.Some? && v.value.Num? ==>
      r == (if v.value.n == 1 then Some(true) else if v.value.n == 0 then Some(false) else None)
    ensures v.Some? && v.value.Str? && v.value.s in {"true", "1", "yes"} ==> r == Some(true)
    ensures v.Some? && v.value.Str? && v.value.s in {"false", "0", "no"} ==> r == Some(false)
    ensures v.Some? && v.value.Str? && v.value.s !in {"true", "1", "yes", "false", "0", "no"} ==> r.None?
    ensures v.Some? && (v.value.Null? || v.value.Obj?) ==> r.None?
  {
    match v
    case None => Some(false)
    case Some(Bool(b)) => Some(b)
    case Some(Num(n)) => if n == 1 then Some(true) else if n == 0 then Some(false) else None
    case Some(Str(s)) =>
      if s in {"true", "1", "yes"} then Some(true)
      else if s in {"false", "0", "no"} then Some(false)
      else None
    case Some(_) => None
  }

  /**
   * The `current` a pushed entry stores.  A value the cast refuses is recorded on the new
   * sub-document as a cast error and the path keeps its default `false`; the update runs no
   * validators, so the error is never reported and the push goes ahead.
   */
  function StoredCurrent(v: Option<Value>): (b: bool)
    ensures b <==> CastBoolean(v) == Some(true)
    ensures b ==> Truthy(v)
  {
    match CastBoolean(v)
    case Some(c) => c
    case None => false
  }

  /** An entry id list, for `experience.map(item => item.id)`. */
  function ExperienceIds(es: seq<Experience>): (ids: seq<Id>)
    ensures |ids| == |es|
    ensures forall i :: 0 <= i < |es| ==> ids[i] == es[i].id
  {
    if es == [] then [] else [es[0].id] + ExperienceIds(es[1..])
  }

  /** `education.map(item => item.id)`. */
  function EducationIds(es: seq<Education>): (ids: seq<Id>)
    ensures |ids| == |es|
    ensures forall i :: 0 <= i < |es| ==> ids[i] == es[i].id
  {
    if es == [] then [] else [es[0].id] + EducationIds(es[1..])
  }
}
