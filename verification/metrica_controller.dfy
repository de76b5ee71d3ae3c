/** Create, fetch, update and delete of metrics. A metric must point at an
    existing initiative; its `valor` may legitimately be 0. */
module MetricaController {
  import opened Js
  import opened Outcomes
  import opened Db

  /** The fields `createMetrica` and `updateMetrica` read from the body;
      `iniciativaId` 0 means the body does not carry one, `valor` None means
      it is `undefined`. */
  datatype MetricaBody = MetricaBody(
    iniciativaId: nat,
    tipo: Value,
    valor: Option<int>,
    unidade: Value,
    dataRegistro: Value)

  function BodyOf(m: Metrica): MetricaBody {
    MetricaBody(m.iniciativaId, m.tipo, Some(m.valor), m.unidade, m.dataRegistro)
  }

  const EmptyPatch := MetricaBody(0, Undefined, None, Undefined, Undefined)

  /** Every check `createMetrica` can fail, each judged on its own. */
  ghost function CreateViolations(s: Store, b: MetricaBody): set<Error> {
    (if b.iniciativaId == 0 || !Truthy(b.tipo) || b.valor.None? || !Truthy(b.unidade)
     then {MissingFields} else {})
    + (if b.iniciativaId !in s.iniciativas.rows then {ReferenceNotFound(IniciativaRef)} else {})
  }

  /** Required fields (a defined `valor`, so 0 passes), then the initiative.
      `now` is the clock reading used when no `dataRegistro` is supplied. */
  function CreateMetrica(s: Store, b: MetricaBody, now: Value): (r: Result<Saved<Metrica>>)
    requires s.Wf()
    ensures r.Ok? <==> CreateViolations(s, b) == {}
    ensures r.Err? ==> FirstOf(r.error, CreateViolations(s, b))
    ensures r.Ok? ==>
      && b.valor.Some?
      && r.value.id !in s.metricas.rows
      && r.value.record.iniciativaId == b.iniciativaId
      && r.value.record.iniciativaId in s.iniciativas.rows
      && r.value.record.tipo == b.tipo
      && r.value.record.valor == b.valor.value
      && r.value.record.unidade == b.unidade
      && r.value.record.dataRegistro == (if Truthy(b.dataRegistro) then b.dataRegistro else now)
      && r.value.store.metricas.rows == s.metricas.rows[r.value.id := r.value.record]
      && r.value.store.comunidades == s.comunidades
      && r.value.store.moradores == s.moradores
      && r.value.store.iniciativas == s.iniciativas
      && r.value.store.Wf()
  {
    if b.iniciativaId == 0 || !Truthy(b.tipo) || b.valor.None? || !Truthy(b.unidade) then
      Err(MissingFields)
    else if b.iniciativaId !in s.iniciativas.rows then
      Err(ReferenceNotFound(IniciativaRef))
    else
      var m := Metrica(b.iniciativaId, b.tipo, b.valor.value, b.unidade, Or(b.dataRegistro, now));
      var (t, id) := s.metricas.Insert(m);
      Ok(Saved(s.(metricas := t), id, m))
  }

  function GetMetricaById(s: Store, id: nat): (r: Result<Metrica>)
    ensures r.Ok? <==> id in s.metricas.rows
    ensures r.Ok? ==> r.value == s.metricas.rows[id]
    ensures r.Err? ==> r.error == NotFound(MetricaKind)
  {
    if id in s.metricas.rows then Ok(s.metricas.rows[id]) else Err(NotFound(MetricaKind))
  }

  /** `valor` takes any defined value, 0 included; `iniciativaId`, `tipo`,
      `unidade` and `dataRegistro` keep the stored value unless the body
      supplies a truthy one. */
  function MergeMetrica(cur: Metrica, p: MetricaBody): (r: Metrica)
    ensures p.iniciativaId != 0 ==> r.iniciativaId == p.iniciativaId
    ensures p.iniciativaId == 0 ==> r.iniciativaId == cur.iniciativaId
    ensures Truthy(p.tipo) ==> r.tipo == p.tipo
    ensures !Truthy(p.tipo) ==> r.tipo == cur.tipo
    ensures p.valor.Some? ==> r.valor == p.valor.value
    ensures p.valor.None? ==> r.valor == cur.valor
    ensures Truthy(p.unidade) ==> r.unidade == p.unidade
    ensures !Truthy(p.unidade) ==> r.unidade == cur.unidade
    ensures Truthy(p.dataRegistro) ==> r.dataRegistro == p.dataRegistro
    ensures !Truthy(p.dataRegistro) ==> r.dataRegistro == cur.dataRegistro
  {
    Metrica(
      IdOr(p.iniciativaId, cur.iniciativaId),
      Or(p.tipo, cur.tipo),
      match p.valor case Some(v) => v case None => cur.valor,
      Or(p.unidade, cur.unidade),
      Or(p.dataRegistro, cur.dataRegistro))
  }

  /** Every check `updateMetrica` can fail: the initiative is looked up only
      when the body names one other than the current one. */
  ghost function UpdateViolations(s: Store, id: nat, b: MetricaBody): set<Error> {
    (if id !in s.metricas.rows then {NotFound(MetricaKind)} else {})
    + (if id in s.metricas.rows && b.iniciativaId != 0
          && b.iniciativaId != s.metricas.rows[id].iniciativaId
          && b.iniciativaId !in s.iniciativas.rows
       then {ReferenceNotFound(IniciativaRef)} else {})
  }

  function UpdateMetrica(s: Store, id: nat, b: MetricaBody): (r: Result<Saved<Metrica>>)
    ensures r.Ok? <==> UpdateViolations(s, id, b) == {}
    ensures r.Err? ==> FirstOf(r.error, UpdateViolations(s, id, b))
    ensures r.Ok? ==>
      && id in s.metricas.rows
      && r.value.id == id
      && r.value.record == MergeMetrica(s.metricas.rows[id], b)
      && r.value.store.metricas.rows == s.metricas.rows[id := r.value.record]
      && r.value.store.metricas.next == s.metricas.next
      && r.value.store.comunidades == s.comunidades
      && r.value.store.moradores == s.moradores
      && r.value.store.iniciativas == s.iniciativas
  {
    if id !in s.metricas.rows then
      Err(NotFound(MetricaKind))
    else
      var cur := s.metricas.rows[id];
      if b.iniciativaId != 0 && b.iniciativaId != cur.iniciativaId && b.iniciativaId !in s.iniciativas.rows then
        Err(ReferenceNotFound(IniciativaRef))
      else
        var m := MergeMetrica(cur, b);
        Ok(Saved(s.(metricas := s.metricas.Put(id, m)), id, m))
  }

  function DeleteMetrica(s: Store, id: nat): (r: Result<Store>)
    ensures r.Err? <==> id !in s.metricas.rows
    ensures r.Err? ==> r.error == NotFound(MetricaKind)
    ensures r.Ok? ==>
      && r.value.metricas.rows == s.metricas.rows - {id}
      && r.value.metricas.next == s.metricas.next
      && r.value.comunidades == s.comunidades
      && r.value.moradores == s.moradores
      && r.value.iniciativas == s.iniciativas
  {
    if id !in s.metricas.rows then Err(NotFound(MetricaKind))
    else Ok(s.(metricas := s.metricas.Remove(id)))
  }

  /** Restating the stored fields changes nothing: the initiative is not
      looked up again because it is the current one. */
  lemma UpdateMetricaIdempotent(s: Store, id: nat)
    requires id in s.metricas.rows
    ensures UpdateMetrica(s, id, BodyOf(s.metricas.rows[id])) == Ok(Saved(s, id, s.metricas.rows[id]))
  {
    var m := s.metricas.rows[id];
    assert MergeMetrica(m, BodyOf(m)) == m;
    assert s.metricas.rows[id := m] == s.metricas.rows;
  }

  lemma MergeMetricaEmptyPatch(m: Metrica)
    ensures MergeMetrica(m, EmptyPatch) == m
  {
  }

  lemma MergeMetricaTwice(m: Metrica, p: MetricaBody)
    ensures MergeMetrica(MergeMetrica(m, p), p) == MergeMetrica(m, p)
  {
  }

  /** A zero `valor` is stored, not mistaken for an absent one. */
  lemma ZeroValorIsStored(s: Store, id: nat)
    requires id in s.metricas.rows
    ensures UpdateMetrica(s, id, EmptyPatch.(valor := Some(0))).Ok?
    ensures UpdateMetrica(s, id, EmptyPatch.(valor := Some(0))).value.record.valor == 0
  {
  }

  lemma GetAfterCreateMetrica(s: Store, b: MetricaBody, now: Value)
    requires s.Wf()
    requires CreateMetrica(s, b, now).Ok?
    ensures var v := CreateMetrica(s, b, now).value;
      GetMetricaById(v.store, v.id) == Ok(v.record)
  {
  }

  lemma GetAfterDeleteMetrica(s: Store, id: nat)
    requires DeleteMetrica(s, id).Ok?
    ensures GetMetricaById(DeleteMetrica(s, id).value, id) == Err(NotFound(MetricaKind))
  {
  }
}
