/** Create, fetch, update and delete of initiatives: the controller that
    carries the cross-entity rule that an initiative's responsible resident
    belongs to the initiative's community. */
module IniciativaController {
  import opened Js
  import opened Outcomes
  import opened Db
  import opened Enumerations

  /** The fields `createIniciativa` and `updateIniciativa` read from the
      body; an id of 0 means the body does not carry one. */
  datatype IniciativaBody = IniciativaBody(
    titulo: Value,
    descricao: Value,
    categoria: Value,
    dataInicio: Value,
    dataFim: Value,
    status: Value,
    comunidadeId: nat,
    responsavelId: nat)

  function BodyOf(i: Iniciativa): IniciativaBody {
    IniciativaBody(i.titulo, i.descricao, i.categoria, i.dataInicio, i.dataFim, i.status,
                   i.comunidadeId, i.responsavelId)
  }

  const EmptyPatch := IniciativaBody(Undefined, Undefined, Undefined, Undefined, Undefined, Undefined, 0, 0)

  /** The responsible resident `rid` exists and lives in community `cid`. */
  ghost predicate LedFrom(s: Store, rid: nat, cid: nat) {
    rid in s.moradores.rows && s.moradores.rows[rid].comunidadeId == cid
  }

  /** Every check `createIniciativa` can fail, each judged on its own. */
  ghost function CreateViolations(reg: Registry, s: Store, b: IniciativaBody): set<Error> {
    (if !Truthy(b.titulo) || !Truthy(b.categoria) || b.comunidadeId == 0 || b.responsavelId == 0
     then {MissingFields} else {})
    + (if !reg.IsCategoria(b.categoria) then {InvalidCategoria} else {})
    + (if Truthy(b.status) && !reg.IsStatus(b.status) then {InvalidStatus} else {})
    + (if b.comunidadeId !in s.comunidades.rows then {ReferenceNotFound(ComunidadeRef)} else {})
    + (if b.responsavelId !in s.moradores.rows then {ReferenceNotFound(ResponsavelRef)} else {})
    + (if b.responsavelId in s.moradores.rows
          && s.moradores.rows[b.responsavelId].comunidadeId != b.comunidadeId
       then {ResponsavelOutsideComunidade} else {})
  }

  /** Required fields, categoria, status (only when supplied), community,
      responsible resident, then the resident's community; the first failure
      is reported and nothing is written. A missing status defaults to
      PLANEJADA. */
  function CreateIniciativa(reg: Registry, s: Store, b: IniciativaBody): (r: Result<Saved<Iniciativa>>)
    requires s.Wf()
    ensures r.Ok? <==> CreateViolations(reg, s, b) == {}
    ensures r.Err? ==> FirstOf(r.error, CreateViolations(reg, s, b))
    ensures r.Ok? ==>
      && r.value.id !in s.iniciativas.rows
      && r.value.record.titulo == b.titulo
      && r.value.record.descricao == b.descricao
      && r.value.record.categoria == b.categoria
      && r.value.record.dataInicio == b.dataInicio
      && r.value.record.dataFim == b.dataFim
      && r.value.record.status == (if Truthy(b.status) then b.status else Str(reg.planejada))
      && r.value.record.comunidadeId == b.comunidadeId
      && r.value.record.responsavelId == b.responsavelId
      && r.value.record.comunidadeId in s.comunidades.rows
      && LedFrom(s, r.value.record.responsavelId, r.value.record.comunidadeId)
      && reg.IsCategoria(r.value.record.categoria)
      && (reg.Valid() ==> reg.IsStatus(r.value.record.status))
      && r.value.store.iniciativas.rows == s.iniciativas.rows[r.value.id := r.value.record]
      && r.value.store.comunidades == s.comunidades
      && r.value.store.moradores == s.moradores
      && r.value.store.metricas == s.metricas
      && r.value.store.Wf()
  {
    if !Truthy(b.titulo) || !Truthy(b.categoria) || b.comunidadeId == 0 || b.responsavelId == 0 then
      Err(MissingFields)
    else if !reg.IsCategoria(b.categoria) then
      Err(InvalidCategoria)
    else if Truthy(b.status) && !reg.IsStatus(b.status) then
      Err(InvalidStatus)
    else if b.comunidadeId !in s.comunidades.rows then
      Err(ReferenceNotFound(ComunidadeRef))
    else if b.responsavelId !in s.moradores.rows then
      Err(ReferenceNotFound(ResponsavelRef))
    else if s.moradores.rows[b.responsavelId].comunidadeId != b.comunidadeId then
      Err(ResponsavelOutsideComunidade)
    else
      var i := Iniciativa(b.titulo, b.descricao, b.categoria, b.dataInicio, b.dataFim,
                          Or(b.status, Str(reg.planejada)), b.comunidadeId, b.responsavelId);
      var (t, id) := s.iniciativas.Insert(i);
      Ok(Saved(s.(iniciativas := t), id, i))
  }

  function GetIniciativaById(s: Store, id: nat): (r: Result<Iniciativa>)
    ensures r.Ok? <==> id in s.iniciativas.rows
    ensures r.Ok? ==> r.value == s.iniciativas.rows[id]
    ensures r.Err? ==> r.error == NotFound(IniciativaKind)
  {
    if id in s.iniciativas.rows then Ok(s.iniciativas.rows[id]) else Err(NotFound(IniciativaKind))
  }

  /** `titulo`, `categoria`, `dataInicio`, `status`, `comunidadeId` and
      `responsavelId` keep the stored value unless the body supplies a truthy
      one; `descricao` and `dataFim` take any defined value. */
  function MergeIniciativa(cur: Iniciativa, p: IniciativaBody): (r: Iniciativa)
    ensures Truthy(p.titulo) ==> r.titulo == p.titulo
    ensures !Truthy(p.titulo) ==> r.titulo == cur.titulo
    ensures p.descricao != Undefined ==> r.descricao == p.descricao
    ensures p.descricao == Undefined ==> r.descricao == cur.descricao
    ensures Truthy(p.categoria) ==> r.categoria == p.categoria
    ensures !Truthy(p.categoria) ==> r.categoria == cur.categoria
    ensures Truthy(p.dataInicio) ==> r.dataInicio == p.dataInicio
    ensures !Truthy(p.dataInicio) ==> r.dataInicio == cur.dataInicio
    ensures p.dataFim != Undefined ==> r.dataFim == p.dataFim
    ensures p.dataFim == Undefined ==> r.dataFim == cur.dataFim
    ensures Truthy(p.status) ==> r.status == p.status
    ensures !Truthy(p.status) ==> r.status == cur.status
    ensures p.comunidadeId != 0 ==> r.comunidadeId == p.comunidadeId
    ensures p.comunidadeId == 0 ==> r.comunidadeId == cur.comunidadeId
    ensures p.responsavelId != 0 ==> r.responsavelId == p.responsavelId
    ensures p.responsavelId == 0 ==> r.responsavelId == cur.responsavelId
  {
    Iniciativa(
      Or(p.titulo, cur.titulo),
      IfDefined(p.descricao, cur.descricao),
      Or(p.categoria, cur.categoria),
      Or(p.dataInicio, cur.dataInicio),
      IfDefined(p.dataFim, cur.dataFim),
      Or(p.status, cur.status),
      IdOr(p.comunidadeId, cur.comunidadeId),
      IdOr(p.responsavelId, cur.responsavelId))
  }

  /** Every check `updateIniciativa` can fail. Only supplied fields are
      checked; the membership rule applies only when a responsible resident
      is supplied, against the effective community (the supplied one, else
      the stored one). */
  ghost function UpdateViolations(reg: Registry, s: Store, id: nat, b: IniciativaBody): set<Error> {
    (if id !in s.iniciativas.rows then {NotFound(IniciativaKind)} else {})
    + (if Truthy(b.categoria) && !reg.IsCategoria(b.categoria) then {InvalidCategoria} else {})
    + (if Truthy(b.status) && !reg.IsStatus(b.status) then {InvalidStatus} else {})
    + (if b.comunidadeId != 0 && b.comunidadeId !in s.comunidades.rows
       then {ReferenceNotFound(ComunidadeRef)} else {})
    + (if b.responsavelId != 0 && b.responsavelId !in s.moradores.rows
       then {ReferenceNotFound(ResponsavelRef)} else {})
    + (if id in s.iniciativas.rows && b.responsavelId != 0 && b.responsavelId in s.moradores.rows
          && !LedFrom(s, b.responsavelId, IdOr(b.comunidadeId, s.iniciativas.rows[id].comunidadeId))
       then {ResponsavelOutsideComunidade} else {})
  }

  /** Only the initiative's own record changes. A supplied responsible
      resident is checked against the effective community; a supplied
      community alone is only checked for existence. */
  function UpdateIniciativa(reg: Registry, s: Store, id: nat, b: IniciativaBody): (r: Result<Saved<Iniciativa>>)
    ensures r.Ok? <==> UpdateViolations(reg, s, id, b) == {}
    ensures r.Err? ==> FirstOf(r.error, UpdateViolations(reg, s, id, b))
    ensures r.Ok? ==>
      && id in s.iniciativas.rows
      && r.value.id == id
      && r.value.record == MergeIniciativa(s.iniciativas.rows[id], b)
      && (b.responsavelId != 0 ==> LedFrom(s, r.value.record.responsavelId, r.value.record.comunidadeId))
      && (b.comunidadeId != 0 ==> r.value.record.comunidadeId in s.comunidades.rows)
      && r.value.store.iniciativas.rows == s.iniciativas.rows[id := r.value.record]
      && r.value.store.iniciativas.next == s.iniciativas.next
      && r.value.store.comunidades == s.comunidades
      && r.value.store.moradores == s.moradores
      && r.value.store.metricas == s.metricas
  {
    if id !in s.iniciativas.rows then
      Err(NotFound(IniciativaKind))
    else if Truthy(b.categoria) && !reg.IsCategoria(b.categoria) then
      Err(InvalidCategoria)
    else if Truthy(b.status) && !reg.IsStatus(b.status) then
      Err(InvalidStatus)
    else if b.comunidadeId != 0 && b.comunidadeId !in s.comunidades.rows then
      Err(ReferenceNotFound(ComunidadeRef))
    else if b.responsavelId != 0 && b.responsavelId !in s.moradores.rows then
      Err(ReferenceNotFound(ResponsavelRef))
    else if b.responsavelId != 0
         && s.moradores.rows[b.responsavelId].comunidadeId != IdOr(b.comunidadeId, s.iniciativas.rows[id].comunidadeId) then
      Err(ResponsavelOutsideComunidade)
    else
      var i := MergeIniciativa(s.iniciativas.rows[id], b);
      Ok(Saved(s.(iniciativas := s.iniciativas.Put(id, i)), id, i))
  }

  /** Removes the initiative only: metrics that reference it stay. */
  function DeleteIniciativa(s: Store, id: nat): (r: Result<Store>)
    ensures r.Err? <==> id !in s.iniciativas.rows
    ensures r.Err? ==> r.error == NotFound(IniciativaKind)
    ensures r.Ok? ==>
      && r.value.iniciativas.rows == s.iniciativas.rows - {id}
      && r.value.iniciativas.next == s.iniciativas.next
      && r.value.comunidades == s.comunidades
      && r.value.moradores == s.moradores
      && r.value.metricas == s.metricas
  {
    if id !in s.iniciativas.rows then Err(NotFound(IniciativaKind))
    else Ok(s.(iniciativas := s.iniciativas.Remove(id)))
  }

  /** Restating the stored fields changes nothing, provided the stored
      values would pass the update checks themselves: a valid (or falsy)
      categoria and status, an existing community, and a responsible
      resident who lives in it. */
  lemma UpdateIniciativaIdempotent(reg: Registry, s: Store, id: nat)
    requires id in s.iniciativas.rows
    requires var i := s.iniciativas.rows[id];
      && (Truthy(i.categoria) ==> reg.IsCategoria(i.categoria))
      && (Truthy(i.status) ==> reg.IsStatus(i.status))
      && (i.comunidadeId != 0 ==> i.comunidadeId in s.comunidades.rows)
      && (i.responsavelId != 0 ==> LedFrom(s, i.responsavelId, i.comunidadeId))
    ensures UpdateIniciativa(reg, s, id, BodyOf(s.iniciativas.rows[id]))
         == Ok(Saved(s, id, s.iniciativas.rows[id]))
  {
    var i := s.iniciativas.rows[id];
    assert MergeIniciativa(i, BodyOf(i)) == i;
    assert s.iniciativas.rows[id := i] == s.iniciativas.rows;
  }

  lemma MergeIniciativaEmptyPatch(i: Iniciativa)
    ensures MergeIniciativa(i, EmptyPatch) == i
  {
  }

  lemma MergeIniciativaTwice(i: Iniciativa, p: IniciativaBody)
    ensures MergeIniciativa(MergeIniciativa(i, p), p) == MergeIniciativa(i, p)
  {
  }

  lemma GetAfterCreateIniciativa(reg: Registry, s: Store, b: IniciativaBody)
    requires s.Wf()
    requires CreateIniciativa(reg, s, b).Ok?
    ensures var v := CreateIniciativa(reg, s, b).value;
      GetIniciativaById(v.store, v.id) == Ok(v.record)
  {
  }

  lemma GetAfterUpdateIniciativa(reg: Registry, s: Store, id: nat, b: IniciativaBody)
    requires UpdateIniciativa(reg, s, id, b).Ok?
    ensures GetIniciativaById(UpdateIniciativa(reg, s, id, b).value.store, id)
         == Ok(MergeIniciativa(s.iniciativas.rows[id], b))
  {
  }

  lemma GetAfterDeleteIniciativa(s: Store, id: nat)
    requires DeleteIniciativa(s, id).Ok?
    ensures GetIniciativaById(DeleteIniciativa(s, id).value, id) == Err(NotFound(IniciativaKind))
  {
  }
}
