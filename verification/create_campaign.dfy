/** The campaign creation page's submit: PIX-key guard, image upload, campaign insert. */
module CreateCampaign {
  import opened Common
  import opened Schema

  /** The form's fields; the ticket price is already in cents. */
  datatype CampaignForm = CampaignForm(titulo: string, descricao: string, precoCents: int, modo: CampaignMode, destaque: bool)

  datatype CampaignOutcome = NoPixKey | UploadFailed | InsertFailed | Created(id: string)

  /**
   * The submit. `premios` is the page's prize list, which the insert does not
   * carry; no plan limit is consulted. `newId` is the id the database gives
   * the row (an id in use makes the insert fail).
   */
  function SubmitCampaign(db: Db, u: UserRow, form: CampaignForm, premios: seq<string>, image: ImageUpload,
                          newId: string, insertFails: bool): (r: (Db, CampaignOutcome))
    ensures r.1 == NoPixKey <==> !HasPixKey(u)
    ensures r.1 == UploadFailed <==> HasPixKey(u) && image == UploadError
    ensures !r.1.Created? ==> r.0 == db
    ensures r.1.Created? <==> HasPixKey(u) && image != UploadError && !insertFails && newId !in db.campaigns
    ensures r.1.Created? ==>
              && r.1.id == newId && newId in r.0.campaigns
              && r.0 == db.(campaigns := db.campaigns[newId := r.0.campaigns[newId]])
              && r.0.campaigns[newId].userId == u.id
              && r.0.campaigns[newId].imagem == (if image.Uploaded? then Some(image.url) else None)
  {
    if !HasPixKey(u) then (db, NoPixKey)
    else if image == UploadError then (db, UploadFailed)
    else if insertFails || newId in db.campaigns then (db, InsertFailed)
    else
      var imagem := if image.Uploaded? then Some(image.url) else None;
      var c := Campanha(u.id, form.titulo, Some(form.descricao), form.precoCents, form.modo, form.destaque, imagem);
      (db.(campaigns := db.campaigns[newId := c]), Created(newId))
  }

  /** What is inserted does not depend on the prize list the page collected. */
  lemma PrizesNotStored(db: Db, u: UserRow, form: CampaignForm, p1: seq<string>, p2: seq<string>, image: ImageUpload,
                        newId: string, insertFails: bool)
    ensures SubmitCampaign(db, u, form, p1, image, newId, insertFails) == SubmitCampaign(db, u, form, p2, image, newId, insertFails)
  {
  }
}
