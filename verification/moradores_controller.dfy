/** Create, fetch, update and delete of residents. A resident must point at
    an existing community when created or moved, and the store's unique
    constraint on `email` is reported as its own failure. */
module MoradoresController {
  import opened Js
  import opened Outcomes
  import opened Db

  /** The fields `createMorador` and `updateMorador` read from the body;
      `comunidadeId` 0 means the body does not carry one. */
  datatype MoradorBody = MoradorBody(
    nome: Value,
    email: Value,
    telefone: Value,
    dataNascimento: Value,
    comunidadeId: nat)

  function BodyOf(m: Morador): MoradorBody {
    MoradorBody(m.nome, m.email, m.telefone, m.dataNascimento, m.comunidadeId)
  }

  const EmptyPatch := MoradorBody(Undefined, Undefined, Undefined, Undefined, 0)

  /** Ids of the residents whose stored email is `email`. */
  function EmailOwners(rows: map<nat, Morador>, email: Value): (ids: set<nat>)
    ensures forall k :: k in ids <==> k in rows && rows[k].email == email
  {
    set k | k in rows && rows[k].email == email
  }

  /** Every check `createMorador` can fail, each judged on its own. */
  ghost function CreateViolations(s: Store, b: MoradorBody): set<Error> {
    (if !Truthy(b.nome) || !Truthy(b.email) || b.comunidadeId == 0 then {MissingFields} else {})
    + (if b.comunidadeId !in s.comunidades.rows then {ReferenceNotFound(ComunidadeRef)} else {})
    + (if EmailOwners(s.moradores.rows, b.email) != {} then {EmailAlreadyRegistered} else {})
  }

  /** Required fields, then the community, then the store's unique email;
      the first failure is reported and nothing is written. */
  function CreateMorador(s: Store, b: MoradorBody): (r: Result<Saved<Morador>>)
    requires s.Wf()
    ensures r.Ok? <==> CreateViolations(s, b) == {}
    ensures r.Err? ==> FirstOf(r.error, CreateViolations(s, b))
    ensures r.Ok? ==>
      && r.value.id !in s.moradores.rows
      && r.value.record == Morador(b.nome, b.email, b.telefone, b.dataNascimento, b.comunidadeId)
      && r.value.record.comunidadeId in s.comunidades.rows
      && (forall k :: k in s.moradores.rows ==> s.moradores.rows[k].email != b.email)
      && r.value.store.moradores.rows == s.moradores.rows[r.value.id := r.value.record]
      && r.value.store.comunidades == s.comunidades
      && r.value.store.iniciativas == s.iniciativas
      && r.value.store.metricas == s.metricas
      && r.value.store.Wf()
  {
    if !Truthy(b.nome) || !Truthy(b.email) || b.comunidadeId == 0 then
      Err(MissingFields)
    else if b.comunidadeId !in s.comunidades.rows then
      Err(ReferenceNotFound(ComunidadeRef))
    else if EmailOwners(s.moradores.rows, b.email) != {} then
      Err(EmailAlreadyRegistered)
    else
      var m := Morador(b.nome, b.email, b.telefone, b.dataNascimento, b.comunidadeId);
      var (t, id) := s.moradores.Insert(m);
      Ok(Saved(s.(moradores := t), id, m))
  }

  function GetMoradorById(s: Store, id: nat): (r: Result<Morador>)
    ensures r.Ok? <==> id in s.moradores.rows
    ensures r.Ok? ==> r.value == s.moradores.rows[id]
    ensures r.Err? ==> r.error == NotFound(MoradorKind)
  {
    if id in s.moradores.rows then Ok(s.moradores.rows[id]) else Err(NotFound(MoradorKind))
  }

  /** `nome`, `email`, `dataNascimento` and `comunidadeId` keep the stored
      value unless the body supplies a truthy one; `telefone` takes any
      defined value. */
  function MergeMorador(cur: Morador, p: MoradorBody): (r: Morador)
    ensures Truthy(p.nome) ==> r.nome == p.nome
    ensures !Truthy(p.nome) ==> r.nome == cur.nome
    ensures Truthy(p.email) ==> r.email == p.email
    ensures !Truthy(p.email) ==> r.email == cur.email
    ensures p.telefone != Undefined ==> r.telefone == p.telefone
    ensures p.telefone == Undefined ==> r.telefone == cur.telefone
    ensures Truthy(p.dataNascimento) ==> r.dataNascimento == p.dataNascimento
    ensures !Truthy(p.dataNascimento) ==> r.dataNascimento == cur.dataNascimento
    ensures p.comunidadeId != 0 ==> r.comunidadeId == p.comunidadeId
    ensures p.comunidadeId == 0 ==> r.comunidadeId == cur.comunidadeId
  {
    Morador(
      Or(p.nome, cur.nome),
      Or(p.email, cur.email),
      IfDefined(p.telefone, cur.telefone),
      Or(p.dataNascimento, cur.dataNascimento),
      IdOr(p.comunidadeId, cur.comunidadeId))
  }

  /** Every check `updateMorador` can fail. The community is looked up only
      when the body names one other than the current one; the unique email
      constraint is judged on the merged record against the other residents. */
  ghost function UpdateViolations(s: Store, id: nat, b: MoradorBody): set<Error> {
    (if id !in s.moradores.rows then {NotFound(MoradorKind)} else {})
    + (if id in s.moradores.rows && b.comunidadeId != 0
          && b.comunidadeId != s.moradores.rows[id].comunidadeId
          && b.comunidadeId !in s.comunidades.rows
       then {ReferenceNotFound(ComunidadeRef)} else {})
    + (if id in s.moradores.rows
          && EmailOwners(s.moradores.rows, Or(b.email, s.moradores.rows[id].email)) - {id} != {}
       then {EmailAlreadyRegistered} else {})
  }

  /** Only the resident's own record changes: initiatives that name it as
      responsible are neither checked nor touched, even when it moves to
      another community. */
  function UpdateMorador(s: Store, id: nat, b: MoradorBody): (r: Result<Saved<Morador>>)
    ensures r.Ok? <==> UpdateViolations(s, id, b) == {}
    ensures r.Err? ==> FirstOf(r.error, UpdateViolations(s, id, b))
    ensures r.Ok? ==>
      && id in s.moradores.rows
      && r.value.id == id
      && r.value.record == MergeMorador(s.moradores.rows[id], b)
      && (forall k :: k in s.moradores.rows && k != id ==> s.moradores.rows[k].email != r.value.record.email)
      && r.value.store.moradores.rows == s.moradores.rows[id := r.value.record]
      && r.value.store.moradores.next == s.moradores.next
      && r.value.store.comunidades == s.comunidades
      && r.value.store.iniciativas == s.iniciativas
      && r.value.store.metricas == s.metricas
  {
    if id !in s.moradores.rows then
      Err(NotFound(MoradorKind))
    else
      var cur := s.moradores.rows[id];
      if b.comunidadeId != 0 && b.comunidadeId != cur.comunidadeId && b.comunidadeId !in s.comunidades.rows then
        Err(ReferenceNotFound(ComunidadeRef))
      else
        var m := MergeMorador(cur, b);
        if EmailOwners(s.moradores.rows, m.email) - {id} != {} then
          Err(EmailAlreadyRegistered)
        else
          assert forall k :: (k in s.moradores.rows && k != id && s.moradores.rows[k].email == m.email
                              ==> k in EmailOwners(s.moradores.rows, m.email) - {id});
          Ok(Saved(s.(moradores := s.moradores.Put(id, m)), id, m))
  }

  /** Removes the resident only: initiatives that name it as responsible
      keep their (now dangling) `responsavelId`. */
  function DeleteMorador(s: Store, id: nat): (r: Result<Store>)
    ensures r.Err? <==> id !in s.moradores.rows
    ensures r.Err? ==> r.error == NotFound(MoradorKind)
    ensures r.Ok? ==>
      && r.value.moradores.rows == s.moradores.rows - {id}
      && r.value.moradores.next == s.moradores.next
      && r.value.comunidades == s.comunidades
      && r.value.iniciativas == s.iniciativas
      && r.value.metricas == s.metricas
  {
    if id !in s.moradores.rows then Err(NotFound(MoradorKind))
    else Ok(s.(moradores := s.moradores.Remove(id)))
  }

  /** Restating the stored fields changes nothing, provided no other
      resident holds the same email. */
  lemma UpdateMoradorIdempotent(s: Store, id: nat)
    requires id in s.moradores.rows
    requires forall k :: k in s.moradores.rows && k != id ==> s.moradores.rows[k].email != s.moradores.rows[id].email
    ensures UpdateMorador(s, id, BodyOf(s.moradores.rows[id])) == Ok(Saved(s, id, s.moradores.rows[id]))
  {
    var m := s.moradores.rows[id];
    assert MergeMorador(m, BodyOf(m)) == m;
    assert EmailOwners(s.moradores.rows, m.email) - {id} == {};
    assert s.moradores.rows[id := m] == s.moradores.rows;
  }

  lemma MergeMoradorEmptyPatch(m: Morador)
    ensures MergeMorador(m, EmptyPatch) == m
  {
  }

  lemma MergeMoradorTwice(m: Morador, p: MoradorBody)
    ensures MergeMorador(MergeMorador(m, p), p) == MergeMorador(m, p)
  {
  }

  lemma GetAfterCreateMorador(s: Store, b: MoradorBody)
    requires s.Wf()
    requires CreateMorador(s, b).Ok?
    ensures var v := CreateMorador(s, b).value;
      GetMoradorById(v.store, v.id) == Ok(v.record)
  {
  }

  lemma GetAfterDeleteMorador(s: Store, id: nat)
    requires DeleteMorador(s, id).Ok?
    ensures GetMoradorById(DeleteMorador(s, id).value, id) == Err(NotFound(MoradorKind))
  {
  }
}
