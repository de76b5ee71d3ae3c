/** Every mutating controller call as one request type, and the store-wide
    properties each kind of request keeps or, in two documented cases,
    does not keep. */
module Requests {
  import opened Js
  import opened Outcomes
  import opened Db
  import opened Enumerations
  import opened Invariants
  import C = ComunidadeController
  import R = MoradoresController
  import I = IniciativaController
  import M = MetricaController
  import D = DashboardController

  datatype Request =
    | CreateComunidadeReq(comunidade: C.ComunidadeBody)
    | UpdateComunidadeReq(id: nat, comunidade: C.ComunidadeBody)
    | DeleteComunidadeReq(id: nat)
    | CreateMoradorReq(morador: R.MoradorBody)
    | UpdateMoradorReq(id: nat, morador: R.MoradorBody)
    | DeleteMoradorReq(id: nat)
    | CreateIniciativaReq(iniciativa: I.IniciativaBody)
    | UpdateIniciativaReq(id: nat, iniciativa: I.IniciativaBody)
    | DeleteIniciativaReq(id: nat)
    | CreateMetricaReq(metrica: M.MetricaBody, now: Value)
    | UpdateMetricaReq(id: nat, metrica: M.MetricaBody)
    | DeleteMetricaReq(id: nat)

  function StoreOf<T>(r: Result<Saved<T>>): Result<Store> {
    match r
    case Ok(v) => Ok(v.store)
    case Err(e) => Err(e)
  }

  /** Runs one request against the store: either the new store or the
      error, in which case the store is the one passed in. */
  function Apply(reg: Registry, s: Store, req: Request): (r: Result<Store>)
    requires s.Wf()
    ensures r.Ok? ==> r.value.Wf()
  {
    match req
    case CreateComunidadeReq(b) => StoreOf(C.CreateComunidade(s, b))
    case UpdateComunidadeReq(id, b) => StoreOf(C.UpdateComunidade(s, id, b))
    case DeleteComunidadeReq(id) => C.DeleteComunidade(s, id)
    case CreateMoradorReq(b) => StoreOf(R.CreateMorador(s, b))
    case UpdateMoradorReq(id, b) => StoreOf(R.UpdateMorador(s, id, b))
    case DeleteMoradorReq(id) => R.DeleteMorador(s, id)
    case CreateIniciativaReq(b) => StoreOf(I.CreateIniciativa(reg, s, b))
    case UpdateIniciativaReq(id, b) => StoreOf(I.UpdateIniciativa(reg, s, id, b))
    case DeleteIniciativaReq(id) => I.DeleteIniciativa(s, id)
    case CreateMetricaReq(b, now) => StoreOf(M.CreateMetrica(s, b, now))
    case UpdateMetricaReq(id, b) => StoreOf(M.UpdateMetrica(s, id, b))
    case DeleteMetricaReq(id) => M.DeleteMetrica(s, id)
  }

  /** Every request keeps the ids well formed, every stored categoria and
      status inside the registry, and every email unique. */
  lemma ApplyPreservesConsistent(reg: Registry, s: Store, req: Request)
    requires reg.Valid() && Consistent(reg, s)
    requires Apply(reg, s, req).Ok?
    ensures Consistent(reg, Apply(reg, s, req).value)
  {
    var s' := Apply(reg, s, req).value;
    match req
    case UpdateIniciativaReq(id, b) =>
      var i := s'.iniciativas.rows[id];
      assert reg.IsCategoria(i.categoria) && reg.IsStatus(i.status) by {
        assert I.UpdateViolations(reg, s, id, b) == {};
      }
    case UpdateMoradorReq(id, b) =>
      assert EmailsUnique(s');
    case _ =>
  }

  /** Resident `rid` is the responsible party of some initiative. */
  ghost predicate Leads(s: Store, rid: nat) {
    exists k :: k in s.iniciativas.rows && s.iniciativas.rows[k].responsavelId == rid
  }

  /** The requests under which responsible-party containment is kept: all
      but moving or deleting a resident who leads an initiative, and moving
      an initiative to another community without naming a responsible. */
  ghost predicate KeepsContainment(s: Store, req: Request) {
    match req
    case UpdateMoradorReq(id, b) =>
      || b.comunidadeId == 0
      || (id in s.moradores.rows && b.comunidadeId == s.moradores.rows[id].comunidadeId)
      || !Leads(s, id)
    case DeleteMoradorReq(id) => !Leads(s, id)
    case UpdateIniciativaReq(id, b) =>
      || b.comunidadeId == 0
      || b.responsavelId != 0
      || (id in s.iniciativas.rows && b.comunidadeId == s.iniciativas.rows[id].comunidadeId)
    case _ => true
  }

  /** Containment survives every request that `KeepsContainment` admits:
      creation always checks it, and an update that names a responsible
      checks it against the effective community. */
  lemma ApplyPreservesContainment(reg: Registry, s: Store, req: Request)
    requires s.Wf() && Contained(s) && KeepsContainment(s, req)
    requires Apply(reg, s, req).Ok?
    ensures Contained(Apply(reg, s, req).value)
  {
    var s' := Apply(reg, s, req).value;
    match req
    case UpdateMoradorReq(id, b) =>
      if !Leads(s, id) {
        assert forall k :: k in s.iniciativas.rows ==> s.iniciativas.rows[k].responsavelId != id;
      }
    case DeleteMoradorReq(id) =>
      assert forall k :: k in s.iniciativas.rows ==> s.iniciativas.rows[k].responsavelId != id;
    case _ =>
  }

  /** Creating a metric moves each impact sum by exactly what the metric
      contributes to it: its value for its own type, nothing for the others. */
  lemma CreateMetricaMovesImpact(reg: Registry, s: Store, b: M.MetricaBody, now: Value,
                                 before: D.Snapshot, after: D.Snapshot)
    requires s.Wf() && M.CreateMetrica(s, b, now).Ok?
    requires D.Describes(reg, s, before)
    requires D.Describes(reg, M.CreateMetrica(s, b, now).value.store, after)
    ensures b.tipo == D.ReducaoCO2 ==>
      after.impactoEstimado.reducaoCO2 == before.impactoEstimado.reducaoCO2 + b.valor.value
    ensures b.tipo != D.ReducaoCO2 ==>
      after.impactoEstimado.reducaoCO2 == before.impactoEstimado.reducaoCO2
    ensures b.tipo == D.EconomiaAgua ==>
      after.impactoEstimado.economiaAgua == before.impactoEstimado.economiaAgua + b.valor.value
    ensures b.tipo != D.EconomiaAgua ==>
      after.impactoEstimado.economiaAgua == before.impactoEstimado.economiaAgua
    ensures b.tipo == D.ResiduosReciclados ==>
      after.impactoEstimado.residuosReciclados == before.impactoEstimado.residuosReciclados + b.valor.value
    ensures b.tipo != D.ResiduosReciclados ==>
      after.impactoEstimado.residuosReciclados == before.impactoEstimado.residuosReciclados
  {
    var v := M.CreateMetrica(s, b, now).value;
    D.ImpactSumInsert(s.metricas.rows, D.ReducaoCO2, v.id, v.record);
    D.ImpactSumInsert(s.metricas.rows, D.EconomiaAgua, v.id, v.record);
    D.ImpactSumInsert(s.metricas.rows, D.ResiduosReciclados, v.id, v.record);
  }

  // ---------------------------------------------------------------------
  // The two containment gaps, on a concrete store

  /** Community 1 and 2; resident 1 lives in 1 and leads initiative 1 of 1. */
  function GapStore(): Store {
    Store(
      Table(map[1 := Comunidade(Str("Vila Verde"), Str("Recife"), Undefined, Undefined, Undefined),
                2 := Comunidade(Str("Alto Azul"), Str("Natal"), Undefined, Undefined, Undefined)], 3),
      Table(map[1 := Morador(Str("Ana"), Str("ana@vila.org"), Undefined, Undefined, 1)], 2),
      Table(map[1 := Iniciativa(Str("Horta"), Undefined, Str("ambiental"), Str("2024-01-01"),
                                Undefined, Str("ativa"), 1, 1)], 2),
      Table(map[], 1))
  }

  /** Moving an initiative to another community without naming a
      responsible passes every check and leaves it led from outside. */
  lemma ComunidadeOnlyUpdateBreaksContainment(reg: Registry)
    ensures Contained(GapStore())
    ensures KeepsContainment(GapStore(), UpdateIniciativaReq(1, I.EmptyPatch.(comunidadeId := 2))) == false
    ensures Apply(reg, GapStore(), UpdateIniciativaReq(1, I.EmptyPatch.(comunidadeId := 2))).Ok?
    ensures !Contained(Apply(reg, GapStore(), UpdateIniciativaReq(1, I.EmptyPatch.(comunidadeId := 2))).value)
  {
    var s := GapStore();
    var r := I.UpdateIniciativa(reg, s, 1, I.EmptyPatch.(comunidadeId := 2));
    assert I.UpdateViolations(reg, s, 1, I.EmptyPatch.(comunidadeId := 2)) == {};
    assert r.value.store.iniciativas.rows[1].comunidadeId == 2;
  }

  /** Moving the responsible resident to another community passes every
      check and leaves the initiative it leads behind. */
  lemma MovingResponsavelBreaksContainment(reg: Registry)
    ensures KeepsContainment(GapStore(), UpdateMoradorReq(1, R.EmptyPatch.(comunidadeId := 2))) == false
    ensures Apply(reg, GapStore(), UpdateMoradorReq(1, R.EmptyPatch.(comunidadeId := 2))).Ok?
    ensures !Contained(Apply(reg, GapStore(), UpdateMoradorReq(1, R.EmptyPatch.(comunidadeId := 2))).value)
  {
    var s := GapStore();
    var r := R.UpdateMorador(s, 1, R.EmptyPatch.(comunidadeId := 2));
    assert R.EmailOwners(s.moradores.rows, Str("ana@vila.org")) - {1} == {};
    assert R.UpdateViolations(s, 1, R.EmptyPatch.(comunidadeId := 2)) == {};
    var s' := r.value.store;
    assert Apply(reg, s, UpdateMoradorReq(1, R.EmptyPatch.(comunidadeId := 2))) == Ok(s');
    assert s'.iniciativas.rows[1].responsavelId == 1 && s'.iniciativas.rows[1].comunidadeId == 1;
    assert s'.moradores.rows[1].comunidadeId == 2;
  }

  /** Deleting the responsible resident is accepted and leaves the
      initiative it led pointing at no resident. */
  lemma DeletingResponsavelBreaksContainment(reg: Registry)
    ensures KeepsContainment(GapStore(), DeleteMoradorReq(1)) == false
    ensures Apply(reg, GapStore(), DeleteMoradorReq(1)).Ok?
    ensures !Contained(Apply(reg, GapStore(), DeleteMoradorReq(1)).value)
  {
    var s := GapStore();
    assert Leads(s, 1) by {
      assert s.iniciativas.rows[1].responsavelId == 1;
    }
    var s' := Apply(reg, s, DeleteMoradorReq(1)).value;
    assert 1 !in s'.moradores.rows && s'.iniciativas.rows[1].responsavelId == 1;
  }
}
