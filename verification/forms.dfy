/**
 * The small client-side validators in front of an action: the sign-up
 * form's password checks, the ticket lookup's search form, and the raffle
 * page's buy button.
 */
module Forms {
  import opened Common
  import opened Schema
  import TicketLookup
  import Grid

  // ----------------------------------------------------------------- sign-up

  /**
   * `String.prototype.length`: UTF-16 code units, so a character outside the
   * Basic Multilingual Plane counts twice.
   */
  function Utf16Length(s: string): (n: nat)
    ensures |s| <= n <= 2 * |s|
    decreases |s|
  {
    if |s| == 0 then 0 else (if s[0] as int > 0xFFFF then 2 else 1) + Utf16Length(s[1..])
  }

  /** The shortest password the sign-up form accepts, in UTF-16 code units. */
  const MinPasswordLength := 6

  datatype SignUpForm = SignUpForm(nome: string, email: string, password: string, confirmPassword: string)

  /** What the sign-up submit does: one of two error toasts, or the sign-up call with these arguments. */
  datatype SignUpOutcome = PasswordsDiffer | PasswordTooShort | SignUp(email: string, password: string, nome: string)

  /** `handleSubmit` of the sign-up page: the mismatch check first, then the length check. */
  function SubmitSignUp(f: SignUpForm): (r: SignUpOutcome)
    ensures r == PasswordsDiffer <==> f.password != f.confirmPassword
    ensures r == PasswordTooShort <==> f.password == f.confirmPassword && Utf16Length(f.password) < MinPasswordLength
    ensures r.SignUp? <==> f.password == f.confirmPassword && Utf16Length(f.password) >= MinPasswordLength
    ensures r.SignUp? ==> r == SignUp(f.email, f.password, f.nome)
  {
    if f.password != f.confirmPassword then PasswordsDiffer
    else if Utf16Length(f.password) < MinPasswordLength then PasswordTooShort
    else SignUp(f.email, f.password, f.nome)
  }

  /** Two different passwords are reported as a mismatch even when both are too short. */
  lemma MismatchFirst(f: SignUpForm)
    requires f.password != f.confirmPassword && Utf16Length(f.password) < MinPasswordLength
    ensures SubmitSignUp(f) == PasswordsDiffer
  {
  }

  /** Six characters always suffice; three characters outside the Basic Multilingual Plane already do. */
  lemma LengthCountsCodeUnits()
    ensures forall f: SignUpForm :: f.password == f.confirmPassword && |f.password| >= MinPasswordLength ==> SubmitSignUp(f).SignUp?
    ensures SubmitSignUp(SignUpForm("", "", "\U{1F600}\U{1F600}\U{1F600}", "\U{1F600}\U{1F600}\U{1F600}")).SignUp?
  {
    var p := "\U{1F600}\U{1F600}\U{1F600}";
    assert Utf16Length(p) == 6 by {
      assert p[1..][1..][1..] == [];
    }
  }

  // ------------------------------------------------------------ lookup search

  /** `handleSearch` of the search form: None when either field is empty, else the strings to search for, unchanged. */
  function SubmitSearch(cpf: string, telefone: string): (r: Option<(string, string)>)
    ensures r.None? <==> cpf == [] || telefone == []
    ensures r.Some? ==> r.value == (cpf, telefone)
  {
    if !Truthy(cpf) || !Truthy(telefone) then None else Some((cpf, telefone))
  }

  /** Nothing is trimmed: a field holding only a space counts as filled in. */
  lemma BlankIsFilledIn()
    ensures SubmitSearch(" ", " ") == Some((" ", " "))
  {
  }

  /**
   * The page stores the submitted pair and sets `shouldSearch`, so the lookup
   * query is enabled exactly when the form lets the search through.
   */
  lemma SearchEnablesLookup(cpf: string, telefone: string)
    ensures SubmitSearch(cpf, telefone).Some? <==> TicketLookup.Enabled(true, cpf, telefone)
  {
  }

  // ---------------------------------------------------------------- buy button

  /** What the buy button does: one of two error toasts, or open the PIX payment modal. */
  datatype BuyOutcome = NoNumbers | MissingBuyerData | OpenPixModal

  /** `handleComprar`: the selection is checked before the buyer's fields. */
  function Comprar(selected: seq<int>, comprador: Buyer): (r: BuyOutcome)
    ensures r == NoNumbers <==> selected == []
    ensures r == MissingBuyerData <==> selected != [] && (comprador.nome == [] || comprador.cpf == [] || comprador.telefone == [])
    ensures r == OpenPixModal <==> selected != [] && comprador.nome != [] && comprador.cpf != [] && comprador.telefone != []
  {
    if |selected| == 0 then NoNumbers
    else if !Truthy(comprador.nome) || !Truthy(comprador.cpf) || !Truthy(comprador.telefone) then MissingBuyerData
    else OpenPixModal
  }

  /** The buy button is enabled only while the raffle is active. */
  function BuyEnabled(status: RaffleStatus): bool {
    status == Ativa
  }

  /** The grid is told the raffle is closed whenever it is not active. */
  function GridClosed(status: RaffleStatus): bool {
    status != Ativa
  }

  /** A closed raffle disables the buy button and ignores every click on the grid. */
  lemma ClosedRaffleFrozen(status: RaffleStatus, sel: seq<int>, bilhetes: seq<Grid.GridTicket>, n: int)
    requires status == Encerrada
    ensures !BuyEnabled(status)
    ensures Grid.Click(sel, bilhetes, GridClosed(status), n) == (sel, None)
  {
  }
}
