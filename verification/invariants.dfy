/** The store-wide properties the controllers are meant to keep. */
module Invariants {
  import opened Js
  import opened Db
  import opened Enumerations

  /** Every initiative's responsible resident exists and lives in the
      initiative's community. */
  ghost predicate Contained(s: Store) {
    forall k :: k in s.iniciativas.rows ==>
      && s.iniciativas.rows[k].responsavelId in s.moradores.rows
      && s.moradores.rows[s.iniciativas.rows[k].responsavelId].comunidadeId == s.iniciativas.rows[k].comunidadeId
  }

  /** Every stored categoria and status is a registry value. */
  ghost predicate EnumsClosed(reg: Registry, s: Store) {
    forall k :: k in s.iniciativas.rows ==>
      reg.IsCategoria(s.iniciativas.rows[k].categoria) && reg.IsStatus(s.iniciativas.rows[k].status)
  }

  /** No two residents share an email (the store's unique constraint). */
  ghost predicate EmailsUnique(s: Store) {
    forall j, k :: j in s.moradores.rows && k in s.moradores.rows && j != k ==>
      s.moradores.rows[j].email != s.moradores.rows[k].email
  }

  /** What every reachable store satisfies. */
  ghost predicate Consistent(reg: Registry, s: Store) {
    s.Wf() && EnumsClosed(reg, s) && EmailsUnique(s)
  }
}
