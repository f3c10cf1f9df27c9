/**
 * Row shapes and enumerations of the database schema: raffles ("rifas") with
 * their numbered tickets, campaigns ("campanhas") with their pledges, and the
 * organiser accounts with their plan.
 */
module Schema {
  import opened Common

  datatype TicketStatus = Disponivel | Reservado | Confirmado
  datatype PledgeStatus = Aguardando | Pago | Cancelado
  datatype RaffleStatus = Ativa | Encerrada
  datatype Plan = Economico | Padrao | Premium
  datatype CampaignMode = Simples | Combo
  datatype PaymentMethod = MetodoPix
  datatype PaymentStatus = Pendente | PagamentoConfirmado | PagamentoCancelado
  datatype PaymentKind = TipoRifa | TipoCampanha

  /** The enumerations in declaration order, and their string values as the generated constants list them. */
  const TicketStatuses: seq<TicketStatus> := [Disponivel, Reservado, Confirmado]
  const StatusBilheteNames: seq<string> := ["disponivel", "reservado", "confirmado"]
  const PledgeStatuses: seq<PledgeStatus> := [Aguardando, Pago, Cancelado]
  const StatusBilheteCampanhaNames: seq<string> := ["aguardando", "pago", "cancelado"]
  const RaffleStatuses: seq<RaffleStatus> := [Ativa, Encerrada]
  const StatusRifaNames: seq<string> := ["ativa", "encerrada"]
  const Plans: seq<Plan> := [Economico, Padrao, Premium]
  const PlanoTypeNames: seq<string> := ["economico", "padrao", "premium"]
  const CampaignModes: seq<CampaignMode> := [Simples, Combo]
  const ModoCampanhaNames: seq<string> := ["simples", "combo"]
  const PaymentMethods: seq<PaymentMethod> := [MetodoPix]
  const MetodoPagamentoNames: seq<string> := ["pix"]
  const PaymentStatuses: seq<PaymentStatus> := [Pendente, PagamentoConfirmado, PagamentoCancelado]
  const StatusPagamentoNames: seq<string> := ["pendente", "confirmado", "cancelado"]
  const PaymentKinds: seq<PaymentKind> := [TipoRifa, TipoCampanha]
  const TipoPagamentoNames: seq<string> := ["rifa", "campanha"]

  function TicketStatusName(s: TicketStatus): (name: string)
    ensures name in StatusBilheteNames
  {
    match s
    case Disponivel => "disponivel"
    case Reservado => "reservado"
    case Confirmado => "confirmado"
  }

  function PledgeStatusName(s: PledgeStatus): (name: string)
    ensures name in StatusBilheteCampanhaNames
  {
    match s
    case Aguardando => "aguardando"
    case Pago => "pago"
    case Cancelado => "cancelado"
  }

  function RaffleStatusName(s: RaffleStatus): (name: string)
    ensures name in StatusRifaNames
  {
    match s
    case Ativa => "ativa"
    case Encerrada => "encerrada"
  }

  function PlanName(p: Plan): (name: string)
    ensures name in PlanoTypeNames
  {
    match p
    case Economico => "economico"
    case Padrao => "padrao"
    case Premium => "premium"
  }

  function CampaignModeName(m: CampaignMode): (name: string)
    ensures name in ModoCampanhaNames
  {
    match m
    case Simples => "simples"
    case Combo => "combo"
  }

  function PaymentMethodName(m: PaymentMethod): (name: string)
    ensures name in MetodoPagamentoNames
  {
    "pix"
  }

  function PaymentStatusName(s: PaymentStatus): (name: string)
    ensures name in StatusPagamentoNames
  {
    match s
    case Pendente => "pendente"
    case PagamentoConfirmado => "confirmado"
    case PagamentoCancelado => "cancelado"
  }

  function PaymentKindName(k: PaymentKind): (name: string)
    ensures name in TipoPagamentoNames
  {
    match k
    case TipoRifa => "rifa"
    case TipoCampanha => "campanha"
  }

  /** Reads a plan column value; anything outside the enumeration is rejected. */
  function ParsePlan(s: string): (p: Option<Plan>)
    ensures p.Some? <==> s in PlanoTypeNames
    ensures p.Some? ==> PlanName(p.value) == s
  {
    if s == "economico" then Some(Economico)
    else if s == "padrao" then Some(Padrao)
    else if s == "premium" then Some(Premium)
    else None
  }

  /** Reads a ticket status column value. */
  function ParseTicketStatus(s: string): (t: Option<TicketStatus>)
    ensures t.Some? <==> s in StatusBilheteNames
    ensures t.Some? ==> TicketStatusName(t.value) == s
  {
    if s == "disponivel" then Some(Disponivel)
    else if s == "reservado" then Some(Reservado)
    else if s == "confirmado" then Some(Confirmado)
    else None
  }

  /** Reads a pledge status column value. */
  function ParsePledgeStatus(s: string): (t: Option<PledgeStatus>)
    ensures t.Some? <==> s in StatusBilheteCampanhaNames
    ensures t.Some? ==> PledgeStatusName(t.value) == s
  {
    if s == "aguardando" then Some(Aguardando)
    else if s == "pago" then Some(Pago)
    else if s == "cancelado" then Some(Cancelado)
    else None
  }

  /** Reads a raffle status column value. */
  function ParseRaffleStatus(s: string): (t: Option<RaffleStatus>)
    ensures t.Some? <==> s in StatusRifaNames
    ensures t.Some? ==> RaffleStatusName(t.value) == s
  {
    if s == "ativa" then Some(Ativa)
    else if s == "encerrada" then Some(Encerrada)
    else None
  }

  /** The constants list of ticket statuses names each member once, in declaration order. */
  lemma TicketStatusConstants()
    ensures |StatusBilheteNames| == |TicketStatuses| && NoDuplicates(StatusBilheteNames)
    ensures forall i :: 0 <= i < |TicketStatuses| ==> StatusBilheteNames[i] == TicketStatusName(TicketStatuses[i])
    ensures forall s: TicketStatus :: s in TicketStatuses
  {
    forall s: TicketStatus ensures s in TicketStatuses {
      assert s == TicketStatuses[if s.Disponivel? then 0 else if s.Reservado? then 1 else 2];
    }
  }

  /** The constants list of pledge statuses names each member once, in declaration order. */
  lemma PledgeStatusConstants()
    ensures |StatusBilheteCampanhaNames| == |PledgeStatuses| && NoDuplicates(StatusBilheteCampanhaNames)
    ensures forall i :: 0 <= i < |PledgeStatuses| ==> StatusBilheteCampanhaNames[i] == PledgeStatusName(PledgeStatuses[i])
    ensures forall s: PledgeStatus :: s in PledgeStatuses
  {
    forall s: PledgeStatus ensures s in PledgeStatuses {
      assert s == PledgeStatuses[if s.Aguardando? then 0 else if s.Pago? then 1 else 2];
    }
  }

  /** The constants list of raffle statuses names each member once, in declaration order. */
  lemma RaffleStatusConstants()
    ensures |StatusRifaNames| == |RaffleStatuses| && NoDuplicates(StatusRifaNames)
    ensures forall i :: 0 <= i < |RaffleStatuses| ==> StatusRifaNames[i] == RaffleStatusName(RaffleStatuses[i])
    ensures forall s: RaffleStatus :: s in RaffleStatuses
  {
    forall s: RaffleStatus ensures s in RaffleStatuses {
      assert s == RaffleStatuses[if s.Ativa? then 0 else 1];
    }
  }

  /** The constants list of plans names each member once, in declaration order. */
  lemma PlanConstants()
    ensures |PlanoTypeNames| == |Plans| && NoDuplicates(PlanoTypeNames)
    ensures forall i :: 0 <= i < |Plans| ==> PlanoTypeNames[i] == PlanName(Plans[i])
    ensures forall p: Plan :: p in Plans
  {
    forall p: Plan ensures p in Plans {
      assert p == Plans[if p.Economico? then 0 else if p.Padrao? then 1 else 2];
    }
  }

  /** The remaining constants lists (campaign mode, payment method, payment status, payment kind). */
  lemma OtherConstants()
    ensures |ModoCampanhaNames| == |CampaignModes| && NoDuplicates(ModoCampanhaNames)
    ensures forall i :: 0 <= i < |CampaignModes| ==> ModoCampanhaNames[i] == CampaignModeName(CampaignModes[i])
    ensures forall m: CampaignMode :: m in CampaignModes
    ensures |MetodoPagamentoNames| == |PaymentMethods| && MetodoPagamentoNames[0] == PaymentMethodName(MetodoPix)
    ensures |StatusPagamentoNames| == |PaymentStatuses| && NoDuplicates(StatusPagamentoNames)
    ensures forall i :: 0 <= i < |PaymentStatuses| ==> StatusPagamentoNames[i] == PaymentStatusName(PaymentStatuses[i])
    ensures forall s: PaymentStatus :: s in PaymentStatuses
    ensures |TipoPagamentoNames| == |PaymentKinds| && NoDuplicates(TipoPagamentoNames)
    ensures forall i :: 0 <= i < |PaymentKinds| ==> TipoPagamentoNames[i] == PaymentKindName(PaymentKinds[i])
    ensures forall k: PaymentKind :: k in PaymentKinds
  {
    forall m: CampaignMode ensures m in CampaignModes {
      assert m == CampaignModes[if m.Simples? then 0 else 1];
    }
    forall s: PaymentStatus ensures s in PaymentStatuses {
      assert s == PaymentStatuses[if s.Pendente? then 0 else if s.PagamentoConfirmado? then 1 else 2];
    }
    forall k: PaymentKind ensures k in PaymentKinds {
      assert k == PaymentKinds[if k.TipoRifa? then 0 else 1];
    }
  }

  /** The buyer details a purchase carries. */
  datatype Buyer = Buyer(nome: string, cpf: string, telefone: string)

  /**
   * A row of bilhetes_rifa, without its raffle id and number (the table key).
   * The buyer columns are nullable; the status column is never written null.
   */
  datatype TicketRow = TicketRow(status: TicketStatus, nomeComprador: Option<string>, cpf: Option<string>, telefone: Option<string>)

  /** One raffle's tickets, keyed by ticket number. */
  type Tickets = map<int, TicketRow>

  /** A row of rifas. Money is in integer cents. */
  datatype Rifa = Rifa(
    userId: string,
    titulo: string,
    descricao: Option<string>,
    valorBilhete: int,
    quantidadeBilhetes: int,
    imagem: Option<string>,
    status: RaffleStatus,
    bilhetePremiado: Option<int>)

  /** A row of campanhas. */
  datatype Campanha = Campanha(
    userId: string,
    titulo: string,
    descricao: Option<string>,
    precoBilhete: int,
    modo: CampaignMode,
    destaque: bool,
    imagem: Option<string>)

  /** A row of bilhetes_campanha: a pledge of `quantidade` unnumbered units. */
  datatype Pledge = Pledge(
    id: string,
    campanhaId: string,
    nomeComprador: string,
    cpf: string,
    telefone: string,
    quantidade: int,
    status: PledgeStatus)

  /** A row of users. */
  datatype UserRow = UserRow(id: string, email: string, nome: string, chavePix: Option<string>, plano: Option<Plan>)

  /** A raffle together with its tickets (a ticket cannot outlive its raffle). */
  datatype RaffleRecord = RaffleRecord(rifa: Rifa, bilhetes: Tickets)

  /** The tables the core reads and writes. */
  datatype Db = Db(raffles: map<string, RaffleRecord>, campaigns: map<string, Campanha>, pledges: seq<Pledge>)

  /** The creation pages' image step: no file chosen, the uploaded file's public URL, or a failed upload. */
  datatype ImageUpload = NoImage | Uploaded(url: string) | UploadError

  /** `!profile.chave_pix` is false: the user has a non-empty PIX key. */
  predicate HasPixKey(u: UserRow) {
    u.chavePix.Some? && Truthy(u.chavePix.value)
  }

  /** Identity of a ticket row: its raffle and its number. */
  type TicketId = (string, int)
}
