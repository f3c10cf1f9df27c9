/**
 * The two prize-list editors: the prize form component (records with a
 * title, a description and a 1-based position) and the campaign creation
 * page's plain list of prize titles.
 */
module Prizes {
  import opened Common

  /** A prize of the prize form; `id` is set only for prizes read back from storage. */
  datatype Premio = Premio(id: Option<string>, titulo: string, descricao: string, posicao: int)

  /** A field assignment `{ ...premio, [campo]: valor }`. */
  datatype Campo = CampoId(id: string) | CampoTitulo(titulo: string) | CampoDescricao(descricao: string) | CampoPosicao(posicao: int)

  /** Positions run 1, 2, ... in list order. */
  predicate Numbered(ps: seq<Premio>) {
    forall i :: 0 <= i < |ps| ==> ps[i].posicao == i + 1
  }

  /** Two prizes agree on everything but the position. */
  predicate SameContent(a: Premio, b: Premio) {
    a.id == b.id && a.titulo == b.titulo && a.descricao == b.descricao
  }

  /** `adicionarPremio`: append an empty prize at position length + 1. */
  function Adicionar(ps: seq<Premio>): (r: seq<Premio>)
    ensures |r| == |ps| + 1 && r[..|ps|] == ps
    ensures r[|ps|] == Premio(None, "", "", |ps| + 1)
  {
    ps + [Premio(None, "", "", |ps| + 1)]
  }

  /** Adding keeps a numbered list numbered. */
  lemma AddKeepsNumbering(ps: seq<Premio>)
    requires Numbered(ps)
    ensures Numbered(Adicionar(ps))
  {
  }

  /** The list without the element at `index` (`filter((_, i) => i !== index)`); unchanged when no element has that index. */
  function Without(ps: seq<Premio>, index: int): (r: seq<Premio>)
    ensures |r| == (if 0 <= index < |ps| then |ps| - 1 else |ps|)
    ensures forall i :: 0 <= i < |r| && (i < index || !(index < |ps|)) ==> r[i] == ps[i]
    ensures 0 <= index < |ps| ==> forall i :: index <= i < |r| ==> r[i] == ps[i + 1]
  {
    if 0 <= index < |ps| then ps[..index] + ps[index + 1..] else ps
  }

  /** Position i + 1 for element i, everything else kept. */
  function Renumber(ps: seq<Premio>): (r: seq<Premio>)
    ensures |r| == |ps| && Numbered(r)
    ensures forall i :: 0 <= i < |ps| ==> SameContent(r[i], ps[i])
  {
    seq(|ps|, i requires 0 <= i < |ps| => ps[i].(posicao := i + 1))
  }

  /** `removerPremio`: drop the element at `index`, then renumber whatever remains. */
  function Remover(ps: seq<Premio>, index: int): (r: seq<Premio>)
    ensures Numbered(r)
    ensures |r| == (if 0 <= index < |ps| then |ps| - 1 else |ps|)
    ensures forall i :: 0 <= i < |r| && (i < index || !(index < |ps|)) ==> SameContent(r[i], ps[i])
    ensures 0 <= index < |ps| ==> forall i :: index <= i < |r| ==> SameContent(r[i], ps[i + 1])
  {
    Renumber(Without(ps, index))
  }

  /** Removing the prize just added restores a numbered list. */
  lemma RemoveUndoesAdd(ps: seq<Premio>)
    requires Numbered(ps)
    ensures Remover(Adicionar(ps), |ps|) == ps
  {
    var r := Remover(Adicionar(ps), |ps|);
    assert Without(Adicionar(ps), |ps|) == ps;
    assert forall i :: 0 <= i < |ps| ==> r[i] == ps[i];
  }

  /** Applies one field assignment to a prize. */
  function Set(p: Premio, campo: Campo): Premio {
    match campo
    case CampoId(v) => p.(id := Some(v))
    case CampoTitulo(v) => p.(titulo := v)
    case CampoDescricao(v) => p.(descricao := v)
    case CampoPosicao(v) => p.(posicao := v)
  }

  /** `atualizarPremio`: the element at `index` gets the new field value; no other element changes. */
  function Atualizar(ps: seq<Premio>, index: int, campo: Campo): (r: seq<Premio>)
    ensures |r| == |ps|
    ensures forall i :: 0 <= i < |ps| && i != index ==> r[i] == ps[i]
    ensures 0 <= index < |ps| ==> r[index] == Set(ps[index], campo)
  {
    seq(|ps|, i requires 0 <= i < |ps| => if i == index then Set(ps[i], campo) else ps[i])
  }

  /** Editing a title or a description keeps a numbered list numbered, and writes only that field. */
  lemma UpdateKeepsNumbering(ps: seq<Premio>, index: int, campo: Campo)
    requires Numbered(ps) && !campo.CampoPosicao?
    ensures Numbered(Atualizar(ps, index, campo))
    ensures 0 <= index < |ps| && campo.CampoTitulo? ==>
              Atualizar(ps, index, campo)[index] == ps[index].(titulo := campo.titulo)
  {
  }

  // ----------------------------------------------- the creation page's list

  /** The page's initial list: one empty title. */
  const InitialTitles: seq<string> := [""]

  /** `addPremio`: append an empty title. */
  function AddTitle(ts: seq<string>): (r: seq<string>)
    ensures |r| == |ts| + 1 && r[..|ts|] == ts && r[|ts|] == ""
  {
    ts + [""]
  }

  /** `removePremio`: drop the title at `index`, but only while more than one is left. */
  function RemoveTitle(ts: seq<string>, index: int): (r: seq<string>)
    ensures |ts| >= 1 ==> |r| >= 1
    ensures |r| == (if |ts| > 1 && 0 <= index < |ts| then |ts| - 1 else |ts|)
    ensures forall i :: 0 <= i < |r| && (i < index || |ts| <= 1 || !(index < |ts|)) ==> r[i] == ts[i]
    ensures |ts| > 1 && 0 <= index < |ts| ==> forall i :: index <= i < |r| ==> r[i] == ts[i + 1]
  {
    if |ts| > 1 then
      if 0 <= index < |ts| then ts[..index] + ts[index + 1..] else ts
    else ts
  }

  /** `updatePremio`: replace the title at `index`. */
  function UpdateTitle(ts: seq<string>, index: nat, value: string): (r: seq<string>)
    requires index < |ts|
    ensures |r| == |ts| && r[index] == value
    ensures forall i :: 0 <= i < |ts| && i != index ==> r[i] == ts[i]
  {
    ts[index := value]
  }

  /** An edit of the creation page's list. */
  datatype TitleEdit = Add | Remove(at: int) | Update(index: nat, value: string)

  /** Applies a run of edits; an update outside the list is not offered by the page and is skipped. */
  function ApplyTitleEdits(ts: seq<string>, edits: seq<TitleEdit>): seq<string>
    decreases |edits|
  {
    if |edits| == 0 then ts
    else
      var next := match edits[0]
        case Add => AddTitle(ts)
        case Remove(i) => RemoveTitle(ts, i)
        case Update(i, v) => if i < |ts| then UpdateTitle(ts, i, v) else ts;
      ApplyTitleEdits(next, edits[1..])
  }

  /** Starting from the one empty title, no sequence of edits empties the list. */
  lemma {:induction false} TitlesNeverEmpty(ts: seq<string>, edits: seq<TitleEdit>)
    requires |ts| >= 1
    ensures |ApplyTitleEdits(ts, edits)| >= 1
    decreases |edits|
  {
    if |edits| > 0 {
      var next := match edits[0]
        case Add => AddTitle(ts)
        case Remove(i) => RemoveTitle(ts, i)
        case Update(i, v) => if i < |ts| then UpdateTitle(ts, i, v) else ts;
      TitlesNeverEmpty(next, edits[1..]);
    }
  }

  /** The page's list, edited any number of times, always holds at least one title. */
  lemma InitialTitlesNeverEmpty(edits: seq<TitleEdit>)
    ensures |ApplyTitleEdits(InitialTitles, edits)| >= 1
  {
    TitlesNeverEmpty(InitialTitles, edits);
  }
}
