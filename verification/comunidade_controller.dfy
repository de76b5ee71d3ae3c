/** Create, fetch, update and delete of communities. A community has no
    cross-entity rule of its own: only its two required fields are checked. */
module ComunidadeController {
  import opened Js
  import opened Outcomes
  import opened Db

  /** The fields `createComunidade` and `updateComunidade` read from the body. */
  datatype ComunidadeBody = ComunidadeBody(
    nome: Value,
    localizacao: Value,
    descricao: Value,
    dataFundacao: Value,
    metaSustentabilidade: Value)

  /** The body that restates a stored community field for field. */
  function BodyOf(c: Comunidade): ComunidadeBody {
    ComunidadeBody(c.nome, c.localizacao, c.descricao, c.dataFundacao, c.metaSustentabilidade)
  }

  /** An update body that supplies no field at all. */
  const EmptyPatch := ComunidadeBody(Undefined, Undefined, Undefined, Undefined, Undefined)

  function CreateComunidade(s: Store, b: ComunidadeBody): (r: Result<Saved<Comunidade>>)
    requires s.Wf()
    ensures r.Err? <==> !Truthy(b.nome) || !Truthy(b.localizacao)
    ensures r.Err? ==> r.error == MissingFields
    ensures r.Ok? ==>
      && r.value.id !in s.comunidades.rows
      && r.value.record.nome == b.nome
      && r.value.record.localizacao == b.localizacao
      && r.value.record.descricao == b.descricao
      && r.value.record.dataFundacao == b.dataFundacao
      && r.value.record.metaSustentabilidade == b.metaSustentabilidade
      && r.value.store.comunidades.rows == s.comunidades.rows[r.value.id := r.value.record]
      && r.value.store.moradores == s.moradores
      && r.value.store.iniciativas == s.iniciativas
      && r.value.store.metricas == s.metricas
      && r.value.store.Wf()
  {
    if !Truthy(b.nome) || !Truthy(b.localizacao) then
      Err(MissingFields)
    else
      var c := Comunidade(b.nome, b.localizacao, b.descricao, b.dataFundacao, b.metaSustentabilidade);
      var (t, id) := s.comunidades.Insert(c);
      Ok(Saved(s.(comunidades := t), id, c))
  }

  function GetComunidadeById(s: Store, id: nat): (r: Result<Comunidade>)
    ensures r.Ok? <==> id in s.comunidades.rows
    ensures r.Ok? ==> r.value == s.comunidades.rows[id]
    ensures r.Err? ==> r.error == NotFound(ComunidadeKind)
  {
    if id in s.comunidades.rows then Ok(s.comunidades.rows[id]) else Err(NotFound(ComunidadeKind))
  }

  /** The partial-update merge: `nome`, `localizacao` and `dataFundacao`
      keep the stored value unless the body supplies a truthy one;
      `descricao` and `metaSustentabilidade` take any defined value. */
  function MergeComunidade(cur: Comunidade, p: ComunidadeBody): (r: Comunidade)
    ensures Truthy(p.nome) ==> r.nome == p.nome
    ensures !Truthy(p.nome) ==> r.nome == cur.nome
    ensures Truthy(p.localizacao) ==> r.localizacao == p.localizacao
    ensures !Truthy(p.localizacao) ==> r.localizacao == cur.localizacao
    ensures p.descricao != Undefined ==> r.descricao == p.descricao
    ensures p.descricao == Undefined ==> r.descricao == cur.descricao
    ensures Truthy(p.dataFundacao) ==> r.dataFundacao == p.dataFundacao
    ensures !Truthy(p.dataFundacao) ==> r.dataFundacao == cur.dataFundacao
    ensures p.metaSustentabilidade != Undefined ==> r.metaSustentabilidade == p.metaSustentabilidade
    ensures p.metaSustentabilidade == Undefined ==> r.metaSustentabilidade == cur.metaSustentabilidade
  {
    Comunidade(
      Or(p.nome, cur.nome),
      Or(p.localizacao, cur.localizacao),
      IfDefined(p.descricao, cur.descricao),
      Or(p.dataFundacao, cur.dataFundacao),
      IfDefined(p.metaSustentabilidade, cur.metaSustentabilidade))
  }

  function UpdateComunidade(s: Store, id: nat, b: ComunidadeBody): (r: Result<Saved<Comunidade>>)
    ensures r.Err? <==> id !in s.comunidades.rows
    ensures r.Err? ==> r.error == NotFound(ComunidadeKind)
    ensures r.Ok? ==>
      && id in s.comunidades.rows
      && r.value.id == id
      && r.value.record == MergeComunidade(s.comunidades.rows[id], b)
      && r.value.store.comunidades.rows == s.comunidades.rows[id := r.value.record]
      && r.value.store.comunidades.next == s.comunidades.next
      && r.value.store.moradores == s.moradores
      && r.value.store.iniciativas == s.iniciativas
      && r.value.store.metricas == s.metricas
  {
    if id !in s.comunidades.rows then
      Err(NotFound(ComunidadeKind))
    else
      var c := MergeComunidade(s.comunidades.rows[id], b);
      Ok(Saved(s.(comunidades := s.comunidades.Put(id, c)), id, c))
  }

  /** Removes the community only: residents and initiatives that reference
      it keep their (now dangling) `comunidadeId`. */
  function DeleteComunidade(s: Store, id: nat): (r: Result<Store>)
    ensures r.Err? <==> id !in s.comunidades.rows
    ensures r.Err? ==> r.error == NotFound(ComunidadeKind)
    ensures r.Ok? ==>
      && r.value.comunidades.rows == s.comunidades.rows - {id}
      && r.value.comunidades.next == s.comunidades.next
      && r.value.moradores == s.moradores
      && r.value.iniciativas == s.iniciativas
      && r.value.metricas == s.metricas
  {
    if id !in s.comunidades.rows then Err(NotFound(ComunidadeKind))
    else Ok(s.(comunidades := s.comunidades.Remove(id)))
  }

  /** Updating with a body that restates the stored fields changes nothing. */
  lemma UpdateComunidadeIdempotent(s: Store, id: nat)
    requires id in s.comunidades.rows
    ensures UpdateComunidade(s, id, BodyOf(s.comunidades.rows[id]))
         == Ok(Saved(s, id, s.comunidades.rows[id]))
  {
    var c := s.comunidades.rows[id];
    assert MergeComunidade(c, BodyOf(c)) == c;
    assert s.comunidades.rows[id := c] == s.comunidades.rows;
  }

  /** A body that supplies nothing leaves the record as it is. */
  lemma MergeComunidadeEmptyPatch(c: Comunidade)
    ensures MergeComunidade(c, EmptyPatch) == c
  {
  }

  /** Sending the same body twice has the effect of sending it once. */
  lemma MergeComunidadeTwice(c: Comunidade, p: ComunidadeBody)
    ensures MergeComunidade(MergeComunidade(c, p), p) == MergeComunidade(c, p)
  {
  }

  /** Fetching the id a successful create returned yields the created record. */
  lemma GetAfterCreateComunidade(s: Store, b: ComunidadeBody)
    requires s.Wf()
    requires CreateComunidade(s, b).Ok?
    ensures var v := CreateComunidade(s, b).value;
      GetComunidadeById(v.store, v.id) == Ok(v.record)
  {
  }

  /** After a successful delete the id is no longer found. */
  lemma GetAfterDeleteComunidade(s: Store, id: nat)
    requires DeleteComunidade(s, id).Ok?
    ensures GetComunidadeById(DeleteComunidade(s, id).value, id) == Err(NotFound(ComunidadeKind))
  {
  }
}
