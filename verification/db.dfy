/** The entity store: one table per entity, each a map from id to record
    with the autoincrement counter the database assigns new ids from. */
module Db {
  import opened Js

  datatype Comunidade = Comunidade(
    nome: Value,
    localizacao: Value,
    descricao: Value,
    dataFundacao: Value,
    metaSustentabilidade: Value)

  datatype Morador = Morador(
    nome: Value,
    email: Value,
    telefone: Value,
    dataNascimento: Value,
    comunidadeId: nat)

  datatype Iniciativa = Iniciativa(
    titulo: Value,
    descricao: Value,
    categoria: Value,
    dataInicio: Value,
    dataFim: Value,
    status: Value,
    comunidadeId: nat,
    responsavelId: nat)

  datatype Metrica = Metrica(
    iniciativaId: nat,
    tipo: Value,
    valor: int,
    unidade: Value,
    dataRegistro: Value)

  datatype Table<T> = Table(rows: map<nat, T>, next: nat) {

    /** Ids start at 1 and every id in use is below the counter, so the
        counter is always fresh and 0 is never an id. */
    ghost predicate Wf() {
      next > 0 && forall k :: k in rows ==> 0 < k < next
    }

    /** `Model.create`: store `v` under a fresh id. */
    function Insert(v: T): (r: (Table<T>, nat))
      requires Wf()
      ensures r.1 > 0 && r.1 !in rows
      ensures r.0.rows == rows[r.1 := v]
      ensures r.0.Wf()
    {
      (Table(rows[next := v], next + 1), next)
    }

    /** `instance.update`: replace the record stored under `id`. */
    function Put(id: nat, v: T): (r: Table<T>)
      requires id in rows
      ensures r.rows == rows[id := v] && r.rows.Keys == rows.Keys
      ensures Wf() ==> r.Wf()
    {
      Table(rows[id := v], next)
    }

    /** `instance.destroy`: drop the record stored under `id`. */
    function Remove(id: nat): (r: Table<T>)
      ensures r.rows == rows - {id}
      ensures Wf() ==> r.Wf()
    {
      Table(rows - {id}, next)
    }
  }

  datatype Store = Store(
    comunidades: Table<Comunidade>,
    moradores: Table<Morador>,
    iniciativas: Table<Iniciativa>,
    metricas: Table<Metrica>)
  {
    ghost predicate Wf() {
      comunidades.Wf() && moradores.Wf() && iniciativas.Wf() && metricas.Wf()
    }
  }

  /** A freshly synchronised database. */
  function Empty(): (s: Store)
    ensures s.Wf()
  {
    Store(Table(map[], 1), Table(map[], 1), Table(map[], 1), Table(map[], 1))
  }

  /** What a successful create or update hands back: the new store, the id
      written and the record now stored under it. */
  datatype Saved<T> = Saved(store: Store, id: nat, record: T)
}
