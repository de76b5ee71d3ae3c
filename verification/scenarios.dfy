/** Concrete request sequences from an empty database. */
module Scenarios {
  import opened Js
  import opened Outcomes
  import opened Db
  import opened Enumerations
  import C = ComunidadeController
  import R = MoradoresController
  import I = IniciativaController
  import M = MetricaController
  import D = DashboardController

  function ComunidadeTeste(): C.ComunidadeBody {
    C.ComunidadeBody(Str("Comunidade Teste"), Str("São Paulo, SP"), Str("Comunidade para testes"),
                     Str("2023-01-01"), Str("Reduzir emissões em 30%"))
  }

  function ComunidadeApi(): C.ComunidadeBody {
    C.ComunidadeBody(Str("Comunidade API"), Str("Rio de Janeiro, RJ"), Undefined, Undefined, Undefined)
  }

  function Residente(email: string, comunidadeId: nat): R.MoradorBody {
    R.MoradorBody(Str("Residente"), Str(email), Undefined, Undefined, comunidadeId)
  }

  /** An initiative body with no status, so the default applies. */
  function Horta(categoria: string, comunidadeId: nat, responsavelId: nat): I.IniciativaBody {
    I.IniciativaBody(Str("Horta comunitária"), Undefined, Str(categoria), Str("2024-03-01"),
                     Undefined, Undefined, comunidadeId, responsavelId)
  }

  function MetricaCo2(iniciativaId: nat, valor: int): M.MetricaBody {
    M.MetricaBody(iniciativaId, D.ReducaoCO2, Some(valor), Str("kg"), Undefined)
  }

  /** A community, a resident of it and an initiative led by that resident
      with no status: the initiative is stored as planned. */
  lemma ScenarioA(reg: Registry, categoria: string)
    requires categoria in reg.categorias && categoria != ""
    ensures
      var c1 := C.CreateComunidade(Empty(), ComunidadeTeste());
      && c1.Ok?
      && c1.value.record.nome == Str("Comunidade Teste")
      && var r1 := R.CreateMorador(c1.value.store, Residente("ana@teste.org", c1.value.id));
      && r1.Ok?
      && var i1 := I.CreateIniciativa(reg, r1.value.store, Horta(categoria, c1.value.id, r1.value.id));
      && i1.Ok?
      && i1.value.record.status == Str(reg.planejada)
  {
  }

  /** A resident of the second community cannot lead an initiative of the
      first: the request is refused with the relationship error. */
  lemma ScenarioB(reg: Registry, categoria: string)
    requires categoria in reg.categorias && categoria != ""
    ensures
      var c1 := C.CreateComunidade(Empty(), ComunidadeTeste());
      && c1.Ok?
      && var c2 := C.CreateComunidade(c1.value.store, ComunidadeApi());
      && c2.Ok?
      && c2.value.id != c1.value.id
      && var r2 := R.CreateMorador(c2.value.store, Residente("bia@teste.org", c2.value.id));
      && r2.Ok?
      && I.CreateIniciativa(reg, r2.value.store, Horta(categoria, c1.value.id, r2.value.id))
         == Err(ResponsavelOutsideComunidade)
  {
  }

  /** Two CO2 metrics of 10 and 15 on one initiative: the CO2 impact is 25. */
  lemma ScenarioC(reg: Registry, categoria: string)
    requires categoria in reg.categorias && categoria != ""
    ensures
      var c1 := C.CreateComunidade(Empty(), ComunidadeTeste());
      && c1.Ok?
      && var r1 := R.CreateMorador(c1.value.store, Residente("ana@teste.org", c1.value.id));
      && r1.Ok?
      && var i1 := I.CreateIniciativa(reg, r1.value.store, Horta(categoria, c1.value.id, r1.value.id));
      && i1.Ok?
      && var m1 := M.CreateMetrica(i1.value.store, MetricaCo2(i1.value.id, 10), Str("2024-05-01"));
      && m1.Ok?
      && var m2 := M.CreateMetrica(m1.value.store, MetricaCo2(i1.value.id, 15), Str("2024-05-02"));
      && m2.Ok?
      && D.ImpactSum(m2.value.store.metricas.rows, D.ReducaoCO2) == 25
  {
    var c1 := C.CreateComunidade(Empty(), ComunidadeTeste()).value;
    var r1 := R.CreateMorador(c1.store, Residente("ana@teste.org", c1.id)).value;
    var i1 := I.CreateIniciativa(reg, r1.store, Horta(categoria, c1.id, r1.id)).value;
    var m1 := M.CreateMetrica(i1.store, MetricaCo2(i1.id, 10), Str("2024-05-01")).value;
    var m2 := M.CreateMetrica(m1.store, MetricaCo2(i1.id, 15), Str("2024-05-02")).value;
    D.ImpactSumNone(i1.store.metricas.rows, D.ReducaoCO2);
    D.ImpactSumInsert(i1.store.metricas.rows, D.ReducaoCO2, m1.id, m1.record);
    D.ImpactSumInsert(m1.store.metricas.rows, D.ReducaoCO2, m2.id, m2.record);
  }
}
