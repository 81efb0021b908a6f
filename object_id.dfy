/** The identifier validator (validations/objectId.js). */
module ObjectIdValidation {
  import opened Common
  import Joi

  /** The only body the validator ever writes. */
  const InvalidId: ErrorMap := map["objectId" := "Invalid objectId"]

  /**
   * `Joi.objectId().validate(id)`: an absent id (JavaScript `undefined`) is not required and
   * passes; a present one must be 24 hexadecimal digits.  A failure answers 400 with exactly
   * `{objectId: 'Invalid objectId'}` and returns `undefined`, so the caller stops.
   */
  function Check(id: Option<string>): (v: Joi.Verdict)
    ensures v.Pass? <==> id.None? || Joi.IsObjectId(id.value)
    ensures v.Reject? ==> v == Joi.Reject(400, InvalidId)
  {
    match id
    case None => Joi.Pass
    case Some(s) => if Joi.IsObjectId(s) then Joi.Pass else Joi.Reject(400, InvalidId)
  }

  /** Only the format of the id matters, never anything else about the request. */
  lemma OnlyFormatMatters(a: string, b: string)
    requires Joi.IsObjectId(a) <==> Joi.IsObjectId(b)
    ensures Check(Some(a)) == Check(Some(b))
  {
  }
}
