/**
 * The raffle creation page: the plan gate in front of the form, then the
 * submit handler's PIX-key guard, image upload, raffle insert and the
 * insert of the ticket rows 1..N.
 */
module CreateRaffle {
  import opened Common
  import opened Schema
  import opened JsNumbers
  import opened Plans
  import opened RaffleTickets

  /** The form's fields; the ticket value is already in cents. */
  datatype RaffleForm = RaffleForm(titulo: string, descricao: string, valorCents: int, quantidade: string)

  datatype CreateOutcome =
    | LimitReached        // the page shows the upgrade notice instead of the form
    | NoPixKey
    | UploadFailed
    | RaffleInsertFailed
    | TicketsFailed       // the raffle row stays behind without tickets
    | Created(id: string)

  /** The ids of the raffles a user owns. */
  function OwnedRaffles(db: Db, userId: string): set<string> {
    set id | id in db.raffles && db.raffles[id].rifa.userId == userId
  }

  /** `rifasCount`: how many raffles the user owns. */
  function RaffleCount(db: Db, userId: string): nat {
    |OwnedRaffles(db, userId)|
  }

  /** The row the page inserts; a NaN quantity leaves it without a quantity, which the column refuses. */
  function NewRifa(u: UserRow, form: RaffleForm, imagem: Option<string>, quantidade: int): (r: Rifa)
    ensures r.status == Ativa && r.bilhetePremiado.None? && r.userId == u.id
    ensures r.quantidadeBilhetes == quantidade && r.imagem == imagem
  {
    Rifa(u.id, form.titulo, Some(form.descricao), form.valorCents, quantidade, imagem, Ativa, None)
  }

  /** The rows 1..n the page inserts into the new raffle's empty table. */
  function GeneratedTickets(n: int): (t: Tickets)
    ensures t == InitialTable(n)
  {
    NewTicketsFillTable(n);
    InsertRows(map[], NewTickets(n)).value
  }

  /**
   * The submit handler, once the form is shown. `newId` is the id the
   * database gives the raffle row (an id in use makes the insert fail);
   * `insertFails` / `ticketsFail` stand for other errors those inserts report.
   */
  function HandleSubmit(db: Db, u: UserRow, form: RaffleForm, image: ImageUpload, newId: string,
                        insertFails: bool, ticketsFail: bool): (r: (Db, CreateOutcome))
    ensures r.1 != LimitReached
    ensures r.1 == NoPixKey <==> !HasPixKey(u)
    ensures r.1 == UploadFailed <==> HasPixKey(u) && image == UploadError
    ensures r.1 == RaffleInsertFailed <==>
              HasPixKey(u) && image != UploadError && (insertFails || newId in db.raffles || ParseInt(form.quantidade).None?)
    ensures !r.1.Created? && r.1 != TicketsFailed ==> r.0 == db
    ensures r.1 == TicketsFailed <==>
              HasPixKey(u) && image != UploadError && !insertFails && newId !in db.raffles
              && ParseInt(form.quantidade).Some? && ticketsFail
    ensures r.1.Created? || r.1 == TicketsFailed ==>
              && newId in r.0.raffles
              && r.0 == db.(raffles := db.raffles[newId := r.0.raffles[newId]])
              && r.0.raffles[newId].rifa == NewRifa(u, form, if image.Uploaded? then Some(image.url) else None, ParseInt(form.quantidade).value)
    ensures r.1 == TicketsFailed ==> r.0.raffles[newId].bilhetes == map[]
    ensures r.1.Created? ==> r.1.id == newId && r.0.raffles[newId].bilhetes == InitialTable(ParseInt(form.quantidade).value)
  {
    if !HasPixKey(u) then (db, NoPixKey)
    else if image == UploadError then (db, UploadFailed)
    else
      var imagem := if image.Uploaded? then Some(image.url) else None;
      match ParseInt(form.quantidade)
      case None => (db, RaffleInsertFailed)
      case Some(n) =>
        if insertFails || newId in db.raffles then (db, RaffleInsertFailed)
        else
          var rifa := NewRifa(u, form, imagem, n);
          if ticketsFail then (db.(raffles := db.raffles[newId := RaffleRecord(rifa, map[])]), TicketsFailed)
          else (db.(raffles := db.raffles[newId := RaffleRecord(rifa, GeneratedTickets(n))]), Created(newId))
  }

  /** Opening the page: the form is only reachable while the user is under the plan's raffle limit. */
  function SubmitRaffle(db: Db, u: UserRow, form: RaffleForm, image: ImageUpload, newId: string,
                        insertFails: bool, ticketsFail: bool): (r: (Db, CreateOutcome))
    ensures r.1 == LimitReached <==> !CanCreateRifa(RaffleCount(db, u.id), ProfileLimits(u.plano))
    ensures r.1 == LimitReached ==> r.0 == db
  {
    if !CanCreateRifa(RaffleCount(db, u.id), ProfileLimits(u.plano)) then (db, LimitReached)
    else HandleSubmit(db, u, form, image, newId, insertFails, ticketsFail)
  }

  /** Adding a raffle under a fresh id adds one to its owner's count and to no one else's. */
  lemma AddRaffleCounts(db: Db, newId: string, rec: RaffleRecord, userId: string)
    requires newId !in db.raffles
    ensures var db' := db.(raffles := db.raffles[newId := rec]);
      RaffleCount(db', userId) == RaffleCount(db, userId) + (if rec.rifa.userId == userId then 1 else 0)
  {
    var db' := db.(raffles := db.raffles[newId := rec]);
    var before := OwnedRaffles(db, userId);
    var after := OwnedRaffles(db', userId);
    var added := if rec.rifa.userId == userId then {newId} else {};
    forall id ensures id in after <==> id in before + added {
      if id != newId {
        assert id in db'.raffles <==> id in db.raffles;
      }
    }
    assert after == before + added;
    assert newId !in before;
  }

  /** A new raffle is owned by its creator: the count grows by one and no one else's changes. */
  lemma CreationCounts(db: Db, u: UserRow, form: RaffleForm, image: ImageUpload, newId: string,
                       insertFails: bool, ticketsFail: bool, other: string)
    requires var r := HandleSubmit(db, u, form, image, newId, insertFails, ticketsFail); r.1.Created? || r.1 == TicketsFailed
    ensures var r := HandleSubmit(db, u, form, image, newId, insertFails, ticketsFail);
      && RaffleCount(r.0, u.id) == RaffleCount(db, u.id) + 1
      && (other != u.id ==> RaffleCount(r.0, other) == RaffleCount(db, other))
  {
    var r := HandleSubmit(db, u, form, image, newId, insertFails, ticketsFail);
    AddRaffleCounts(db, newId, r.0.raffles[newId], u.id);
    AddRaffleCounts(db, newId, r.0.raffles[newId], other);
  }

  /**
   * The plan limit holds across creations: a user at or under the limit is
   * still at or under it after any submit.
   */
  lemma LimitPreserved(db: Db, u: UserRow, form: RaffleForm, image: ImageUpload, newId: string,
                       insertFails: bool, ticketsFail: bool)
    requires RaffleCount(db, u.id) <= ProfileLimits(u.plano).rifas
    ensures RaffleCount(SubmitRaffle(db, u, form, image, newId, insertFails, ticketsFail).0, u.id) <= ProfileLimits(u.plano).rifas
  {
    var r := SubmitRaffle(db, u, form, image, newId, insertFails, ticketsFail);
    if r.1.Created? || r.1 == TicketsFailed {
      CreationCounts(db, u, form, image, newId, insertFails, ticketsFail, u.id);
    }
  }

  /**
   * The submit handler does not re-check the plan's ticket cap: a quantity
   * above it that reaches the handler is created in full. The cap lives only
   * in the input's `max` attribute, which the browser's form validation (not
   * modelled) checks before the handler runs.
   */
  lemma TicketCapNotEnforced(db: Db, u: UserRow, form: RaffleForm, image: ImageUpload, newId: string, n: int)
    requires HasPixKey(u) && image != UploadError && newId !in db.raffles
    requires form.quantidade == IntToString(n) && n > ProfileLimits(u.plano).bilhetes
    ensures var r := HandleSubmit(db, u, form, image, newId, false, false);
      r.1 == Created(newId) && |r.0.raffles[newId].bilhetes| == n
  {
    ParseIntOfToString(n);
    InitialTableSize(n);
  }
}
