/** The closed failure taxonomy shared by every controller, and the
    result types the controllers return instead of writing a response. */
module Outcomes {

  /** The entity a path id was looked up in. */
  datatype Kind = ComunidadeKind | MoradorKind | IniciativaKind | MetricaKind

  /** The foreign reference of a request body that was looked up. */
  datatype Reference = ComunidadeRef | ResponsavelRef | IniciativaRef

  datatype Error =
    | NotFound(kind: Kind)                // the record named by the path id does not exist
    | MissingFields                        // a mandatory body field is absent or falsy
    | InvalidCategoria                     // categoria outside the registry
    | InvalidStatus                        // status outside the registry
    | ReferenceNotFound(ref: Reference)    // a referenced record does not exist
    | ResponsavelOutsideComunidade         // the responsible resident lives elsewhere
    | EmailAlreadyRegistered               // the store's unique constraint on email

  /** Precedence of the checks: every controller looks up the path id first,
      then required fields, enumeration membership, referenced records, the
      cross-entity relationship, and the store's own constraint last. */
  function Rank(e: Error): nat {
    match e
    case NotFound(_) => 0
    case MissingFields => 1
    case InvalidCategoria => 2
    case InvalidStatus => 3
    case ReferenceNotFound(r) => if r == ResponsavelRef then 5 else 4
    case ResponsavelOutsideComunidade => 6
    case EmailAlreadyRegistered => 7
  }

  /** `e` is the violation a check run in precedence order meets first. */
  ghost predicate FirstOf(e: Error, violations: set<Error>) {
    e in violations && forall v :: v in violations ==> Rank(e) <= Rank(v)
  }

  /** The status code the routing layer answers with. */
  function HttpStatus(e: Error): nat {
    match e
    case NotFound(_) => 404
    case ReferenceNotFound(_) => 404
    case _ => 400
  }

  datatype Option<T> = None | Some(value: T)

  datatype Result<T> = Ok(value: T) | Err(error: Error)
}
