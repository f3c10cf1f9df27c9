/**
 * The create-checkout function: validates the request, derives the per-ticket
 * amount, and assembles the Stripe session (customer email, product text,
 * return URLs and the metadata the payment webhook reads back).
 * Money is in integer cents; `valor` is the total for all tickets.
 */
module Checkout {
  import opened Common
  import opened Schema
  import opened JsNumbers

  /** The request body. `comprador` is None when the field is absent. */
  datatype CheckoutRequest = CheckoutRequest(valor: int, quantidade: int, tipo: string, itemId: string, comprador: Option<Buyer>)

  /** The strings the webhook finds under `session.metadata`. */
  datatype Metadata = Metadata(tipo: string, itemId: string, quantidade: string, nome: string, cpf: string, telefone: string)

  /** The session fields this model keeps. */
  datatype Session = Session(
    customerEmail: string,
    productName: string,
    description: string,
    unitAmount: int,
    quantity: int,
    successUrl: string,
    cancelUrl: string,
    metadata: Metadata)

  /** Why the handler answers 500: the two input checks, or Stripe. */
  datatype CheckoutError = MissingData | IncompleteBuyer | StripeFailed

  datatype CheckoutResult = Created(session: Session) | Rejected(error: CheckoutError)

  /** `!valor || !quantidade || !tipo || !itemId || !compradorInfo`, for integer amounts. */
  predicate MissingRequired(req: CheckoutRequest) {
    req.valor == 0 || req.quantidade == 0 || !Truthy(req.tipo) || !Truthy(req.itemId) || req.comprador.None?
  }

  /** One of the buyer's three fields is empty. */
  predicate IncompleteBuyerInfo(b: Buyer) {
    !Truthy(b.nome) || !Truthy(b.cpf) || !Truthy(b.telefone)
  }

  /** The buyer's Stripe customer is found or created under this email. */
  function CustomerEmail(cpf: string): (email: string)
    ensures |email| == |cpf| + 15
    ensures email[..|cpf|] == cpf && email[|cpf|..] == "@checkout.local"
  {
    cpf + "@checkout.local"
  }

  /**
   * The item title shown on the product: the raffle's or campaign's title,
   * "Rifa" / "Campanha" when the row is missing or its title empty, and ""
   * for any other `tipo`.
   */
  function ItemTitle(tipo: string, titulo: Option<string>): string {
    if tipo == "rifa" then OrElse(titulo, "Rifa")
    else if tipo == "campanha" then OrElse(titulo, "Campanha")
    else ""
  }

  /** `"Bilhetes de Rifa - <title>"`, and the campaign wording for every other `tipo`. */
  function ProductName(tipo: string, title: string): string {
    (if tipo == "rifa" then "Bilhetes de Rifa" else "Bilhetes de Campanha") + " - " + title
  }

  /**
   * `Math.round(valor / quantidade)`: the per-ticket amount, so that
   * quantity times it is within half a ticket's rounding of the total.
   */
  function UnitAmount(valor: int, quantidade: int): (unit: int)
    requires quantidade != 0
    ensures var q := if quantidade > 0 then quantidade else -quantidade;
      -q <= 2 * (unit * quantidade - valor) <= q
  {
    RoundDiv(valor, quantidade)
  }

  /** Where Stripe sends a buyer who cancels: back to the item's page. */
  function CancelUrl(origin: string, tipo: string, itemId: string): string {
    origin + "/" + tipo + "/" + itemId
  }

  /** `"/" + tipo + "/" + itemId`. */
  function CancelPath(tipo: string, itemId: string): (path: string)
    ensures |path| == |tipo| + |itemId| + 2
    ensures path[0] == '/' && path[1 + |tipo|] == '/'
    ensures path[1..1 + |tipo|] == tipo && path[2 + |tipo|..] == itemId
  {
    "/" + tipo + "/" + itemId
  }

  /**
   * The handler. `origin` is the request's Origin header; `titulo` is the
   * looked-up item's title (None when the lookup found no row).
   * `stripeFails` stands for a missing `STRIPE_SECRET_KEY` or an error from
   * any Stripe call (the customer lookup or creation, the session creation);
   * each is thrown and answered with the 500 of the catch block.
   */
  function CreateCheckout(req: CheckoutRequest, origin: string, titulo: Option<string>, stripeFails: bool): (r: CheckoutResult)
    ensures r == Rejected(MissingData) <==> MissingRequired(req)
    ensures r == Rejected(IncompleteBuyer) <==> !MissingRequired(req) && IncompleteBuyerInfo(req.comprador.value)
    ensures r == Rejected(StripeFailed) <==>
              !MissingRequired(req) && !IncompleteBuyerInfo(req.comprador.value) && stripeFails
    ensures r.Created? <==> !MissingRequired(req) && !IncompleteBuyerInfo(req.comprador.value) && !stripeFails
    ensures r.Created? ==>
              var b := req.comprador.value;
              var s := r.session;
              && s.quantity == req.quantidade
              && s.unitAmount == UnitAmount(req.valor, req.quantidade)
              && s.customerEmail == CustomerEmail(b.cpf)
              && s.cancelUrl == origin + CancelPath(req.tipo, req.itemId)
              && s.productName == ProductName(req.tipo, ItemTitle(req.tipo, titulo))
              && s.metadata == Metadata(req.tipo, req.itemId, IntToString(req.quantidade), b.nome, b.cpf, b.telefone)
  {
    if MissingRequired(req) then Rejected(MissingData)
    else
      var b := req.comprador.value;
      if IncompleteBuyerInfo(b) then Rejected(IncompleteBuyer)
      else if stripeFails then Rejected(StripeFailed)
      else
        var title := ItemTitle(req.tipo, titulo);
        Created(Session(
          CustomerEmail(b.cpf),
          ProductName(req.tipo, title),
          IntToString(req.quantidade) + " bilhete(s) para " + title,
          UnitAmount(req.valor, req.quantidade),
          req.quantidade,
          origin + "/pagamento-sucesso?session_id={CHECKOUT_SESSION_ID}",
          CancelUrl(origin, req.tipo, req.itemId),
          Metadata(req.tipo, req.itemId, IntToString(req.quantidade), b.nome, b.cpf, b.telefone)))
  }

  /** The quantity written into the metadata is read back by the webhook's `parseInt` unchanged. */
  lemma MetadataQuantityRoundTrip(req: CheckoutRequest, origin: string, titulo: Option<string>, stripeFails: bool)
    requires CreateCheckout(req, origin, titulo, stripeFails).Created?
    ensures ParseInt(CreateCheckout(req, origin, titulo, stripeFails).session.metadata.quantidade) == Some(req.quantidade)
  {
    ParseIntOfToString(req.quantidade);
  }

  /** The product line names the kind of ticket and the item, falling back to a generic title. */
  lemma ProductNames(tipo: string, titulo: Option<string>)
    ensures tipo == "rifa" && (titulo.None? || titulo == Some("")) ==>
              ProductName(tipo, ItemTitle(tipo, titulo)) == "Bilhetes de Rifa - Rifa"
    ensures tipo == "campanha" && (titulo.None? || titulo == Some("")) ==>
              ProductName(tipo, ItemTitle(tipo, titulo)) == "Bilhetes de Campanha - Campanha"
    ensures tipo == "rifa" && titulo.Some? && titulo.value != "" ==>
              ProductName(tipo, ItemTitle(tipo, titulo)) == "Bilhetes de Rifa - " + titulo.value
    ensures tipo == "campanha" && titulo.Some? && titulo.value != "" ==>
              ProductName(tipo, ItemTitle(tipo, titulo)) == "Bilhetes de Campanha - " + titulo.value
    ensures tipo != "rifa" && tipo != "campanha" ==> ProductName(tipo, ItemTitle(tipo, titulo)) == "Bilhetes de Campanha - "
  {
  }
}
