/** The registry of initiative categories and statuses. Its values are not
    part of this model, so it is a parameter of every operation that uses it. */
module Enumerations {
  import opened Js

  /** No value occurs twice. */
  ghost predicate Distinct(xs: seq<string>) {
    forall i, j :: 0 <= i < j < |xs| ==> xs[i] != xs[j]
  }

  /** `Iniciativa.CATEGORIAS`, `Iniciativa.STATUS` and `Iniciativa.STATUS.PLANEJADA`. */
  datatype Registry = Registry(categorias: seq<string>, status: seq<string>, planejada: string) {

    ghost predicate Valid() {
      Distinct(categorias) && Distinct(status) && planejada in status
    }

    /** `Object.values(Iniciativa.CATEGORIAS).includes(v)` */
    predicate IsCategoria(v: Value) {
      v.Str? && v.s in categorias
    }

    /** `Object.values(Iniciativa.STATUS).includes(v)` */
    predicate IsStatus(v: Value) {
      v.Str? && v.s in status
    }
  }
}
