/** The dashboard: a read-only snapshot of counts, registry buckets, impact
    sums and the most active communities. */
module DashboardController {
  import opened Js
  import opened Db
  import opened Enumerations
  import opened Invariants

  /** The metric types whose values the dashboard sums. */
  const ReducaoCO2: Value := Str("reducaoCO2")
  const EconomiaAgua: Value := Str("economiaAgua")
  const ResiduosReciclados: Value := Str("residuosReciclados")

  /** How many communities the activity ranking lists. */
  const RankingSize: nat := 5

  // ---------------------------------------------------------------------
  // Registry buckets

  datatype Dimension = ByCategoria | ByStatus

  function FieldOf(i: Iniciativa, d: Dimension): Value {
    match d
    case ByCategoria => i.categoria
    case ByStatus => i.status
  }

  /** The initiatives whose field is `c`. */
  function BucketOf(rows: map<nat, Iniciativa>, d: Dimension, c: string): set<nat> {
    set k | k in rows && FieldOf(rows[k], d) == Str(c)
  }

  /** `Iniciativa.count({ where: { <d>: c } })` */
  function CountBucket(rows: map<nat, Iniciativa>, d: Dimension, c: string): nat {
    |BucketOf(rows, d, c)|
  }

  /** One entry per registry value, zero-count values included. */
  function Buckets(rows: map<nat, Iniciativa>, d: Dimension, values: seq<string>): map<string, nat> {
    map c | c in values :: CountBucket(rows, d, c)
  }

  /** No bucket holds more initiatives than there are. */
  lemma CountBucketAtMostTotal(rows: map<nat, Iniciativa>, d: Dimension, c: string)
    ensures CountBucket(rows, d, c) <= |rows|
  {
    var b := BucketOf(rows, d, c);
    assert b <= rows.Keys;
    assert rows.Keys == b + (rows.Keys - b);
    assert |rows.Keys| == |rows|;
  }

  /** The initiatives whose field is one of `values`. */
  ghost function Covered(rows: map<nat, Iniciativa>, d: Dimension, values: seq<string>): set<nat> {
    set k | k in rows && FieldOf(rows[k], d).Str? && FieldOf(rows[k], d).s in values
  }

  /** The bucket counts of `m` added up over `values`. */
  function SumEntries(m: map<string, nat>, values: seq<string>): nat
    requires forall c :: c in values ==> c in m
  {
    if values == [] then 0 else m[values[0]] + SumEntries(m, values[1..])
  }

  /** Splitting off the first registry value splits the covered set into
      that value's bucket and the rest, which do not overlap when the value
      does not recur. */
  lemma CoveredSplit(rows: map<nat, Iniciativa>, d: Dimension, values: seq<string>)
    requires |values| > 0 && values[0] !in values[1..]
    ensures Covered(rows, d, values) == BucketOf(rows, d, values[0]) + Covered(rows, d, values[1..])
    ensures BucketOf(rows, d, values[0]) * Covered(rows, d, values[1..]) == {}
  {
    assert values == [values[0]] + values[1..];
  }

  /** Over distinct values, the buckets add up to the initiatives they cover:
      no initiative is counted twice. */
  lemma {:induction false} SumBucketsCountsCovered(rows: map<nat, Iniciativa>, d: Dimension, values: seq<string>)
    requires Distinct(values)
    ensures SumEntries(Buckets(rows, d, values), values) == |Covered(rows, d, values)|
  {
    if values == [] {
      assert Covered(rows, d, values) == {};
    } else {
      var tail := values[1..];
      assert values[0] !in tail by {
        forall i | 0 <= i < |tail| ensures tail[i] != values[0] {
          assert tail[i] == values[i + 1];
        }
      }
      assert Distinct(tail) by {
        forall i, j | 0 <= i < j < |tail| ensures tail[i] != tail[j] {
          assert tail[i] == values[i + 1] && tail[j] == values[j + 1];
        }
      }
      SumBucketsCountsCovered(rows, d, tail);
      SumEntriesFrame(Buckets(rows, d, values), Buckets(rows, d, tail), tail);
      CoveredSplit(rows, d, values);
      var head := BucketOf(rows, d, values[0]);
      var rest := Covered(rows, d, tail);
      assert |head + rest| == |head| + |rest|;
    }
  }

  /** `SumEntries` only reads the entries it sums. */
  lemma {:induction false} SumEntriesFrame(m: map<string, nat>, m': map<string, nat>, values: seq<string>)
    requires forall c :: c in values ==> c in m && c in m' && m[c] == m'[c]
    ensures SumEntries(m, values) == SumEntries(m', values)
  {
    if values != [] {
      SumEntriesFrame(m, m', values[1..]);
    }
  }

  // ---------------------------------------------------------------------
  // Impact sums

  /** What one metric adds to the sum for `tipo`. */
  function Contribution(m: Metrica, tipo: Value): int {
    if m.tipo == tipo then m.valor else 0
  }

  /** `Metrica.sum("valor", { where: { tipo } }) || 0`: the sum of `valor`
      over the metrics of type `tipo`, 0 when there are none. */
  ghost function ImpactSum(ms: map<nat, Metrica>, tipo: Value): int
    decreases ms.Keys
  {
    if ms.Keys == {} then 0
    else
      var k :| k in ms.Keys;
      Contribution(ms[k], tipo) + ImpactSum(ms - {k}, tipo)
  }

  /** The sum does not depend on which metric is taken first. */
  lemma {:induction false} ImpactSumRemove(ms: map<nat, Metrica>, tipo: Value, x: nat)
    requires x in ms
    ensures ImpactSum(ms, tipo) == Contribution(ms[x], tipo) + ImpactSum(ms - {x}, tipo)
    decreases ms.Keys
  {
    var k :| k in ms.Keys && ImpactSum(ms, tipo) == Contribution(ms[k], tipo) + ImpactSum(ms - {k}, tipo);
    if k != x {
      ImpactSumRemove(ms - {k}, tipo, x);
      ImpactSumRemove(ms - {x}, tipo, k);
      assert ms - {k} - {x} == ms - {x} - {k};
    }
  }

  /** Storing one more metric raises the sum for its type by exactly its
      value and leaves the sums for other types alone. */
  lemma ImpactSumInsert(ms: map<nat, Metrica>, tipo: Value, id: nat, m: Metrica)
    requires id !in ms
    ensures ImpactSum(ms[id := m], tipo) == ImpactSum(ms, tipo) + Contribution(m, tipo)
  {
    ImpactSumRemove(ms[id := m], tipo, id);
    assert ms[id := m] - {id} == ms;
  }

  /** With no metric of type `tipo` the sum is 0, not absent. */
  lemma {:induction false} ImpactSumNone(ms: map<nat, Metrica>, tipo: Value)
    requires forall k :: k in ms ==> ms[k].tipo != tipo
    ensures ImpactSum(ms, tipo) == 0
    decreases ms.Keys
  {
    if ms.Keys != {} {
      var k :| k in ms.Keys;
      ImpactSumRemove(ms, tipo, k);
      ImpactSumNone(ms - {k}, tipo);
    }
  }

  method SumImpact(ms: map<nat, Metrica>, tipo: Value) returns (total: int)
    ensures total == ImpactSum(ms, tipo)
  {
    total := 0;
    var rest := ms;
    while rest.Keys != {}
      invariant total + ImpactSum(rest, tipo) == ImpactSum(ms, tipo)
      decreases rest.Keys
    {
      var k :| k in rest.Keys;
      ImpactSumRemove(rest, tipo, k);
      total := total + Contribution(rest[k], tipo);
      rest := rest - {k};
    }
  }

  // ---------------------------------------------------------------------
  // Most active communities

  datatype Ativa = Ativa(id: nat, nome: Value, totalIniciativas: nat)

  /** `COUNT(iniciativas.id)` over the left join for community `cid`. */
  function IniciativasOf(rows: map<nat, Iniciativa>, cid: nat): nat {
    |set k | k in rows && rows[k].comunidadeId == cid|
  }

  function EntryOf(s: Store, cid: nat): Ativa
    requires cid in s.comunidades.rows
  {
    Ativa(cid, s.comunidades.rows[cid].nome, IniciativasOf(s.iniciativas.rows, cid))
  }

  /** `a` ranks strictly ahead of `b`: more initiatives, or as many and a
      smaller id. */
  predicate Ahead(a: Ativa, b: Ativa) {
    a.totalIniciativas > b.totalIniciativas
    || (a.totalIniciativas == b.totalIniciativas && a.id < b.id)
  }

  ghost function Ids(top: seq<Ativa>): set<nat> {
    set i | 0 <= i < |top| :: top[i].id
  }

  /** `top` lists the `RankingSize` most active communities (all of them when
      there are fewer), each with its name and initiative count, in ranking
      order, and every community left out ranks behind every one listed. */
  ghost predicate IsRanking(s: Store, top: seq<Ativa>) {
    && |top| == (if |s.comunidades.rows| < RankingSize then |s.comunidades.rows| else RankingSize)
    && (forall i :: 0 <= i < |top| ==> top[i].id in s.comunidades.rows && top[i] == EntryOf(s, top[i].id))
    && (forall i, j :: 0 <= i < j < |top| ==> Ahead(top[i], top[j]))
    && (forall c, i :: c in s.comunidades.rows && c !in Ids(top) && 0 <= i < |top| ==>
          Ahead(top[i], EntryOf(s, c)))
  }

  /** The candidate that ranks ahead of all the others. */
  method PickBest(s: Store, cands: set<nat>) returns (best: nat)
    requires cands != {} && cands <= s.comunidades.rows.Keys
    ensures best in cands
    ensures forall c :: c in cands && c != best ==> Ahead(EntryOf(s, best), EntryOf(s, c))
  {
    best :| best in cands;
    var rest := cands - {best};
    while rest != {}
      invariant rest <= cands && best in cands && best !in rest
      invariant forall c :: c in cands - rest && c != best ==> Ahead(EntryOf(s, best), EntryOf(s, c))
      decreases rest
    {
      var c :| c in rest;
      if Ahead(EntryOf(s, c), EntryOf(s, best)) {
        best := c;
      }
      rest := rest - {c};
    }
  }

  /** Every placed entry is the entry of a stored community not remaining. */
  ghost predicate PlacedEntries(s: Store, top: seq<Ativa>, remaining: set<nat>) {
    forall i :: 0 <= i < |top| ==>
      top[i].id in s.comunidades.rows && top[i] == EntryOf(s, top[i].id) && top[i].id !in remaining
  }

  /** The placed entries are in ranking order. */
  ghost predicate Ordered(top: seq<Ativa>) {
    forall i, j :: 0 <= i < j < |top| ==> Ahead(top[i], top[j])
  }

  /** Every remaining community ranks behind every placed one. */
  ghost predicate Behind(s: Store, top: seq<Ativa>, remaining: set<nat>)
    requires remaining <= s.comunidades.rows.Keys
  {
    forall c, i :: c in remaining && 0 <= i < |top| ==> Ahead(top[i], EntryOf(s, c))
  }

  /** `top` is the head of the ranking and `remaining` the communities not
      yet placed, all of which rank behind every placed one. */
  ghost predicate RankedPrefix(s: Store, top: seq<Ativa>, remaining: set<nat>) {
    && remaining <= s.comunidades.rows.Keys
    && |top| + |remaining| == |s.comunidades.rows|
    && PlacedEntries(s, top, remaining)
    && Ordered(top)
    && (forall c :: c in s.comunidades.rows ==> c in remaining || c in Ids(top))
    && Behind(s, top, remaining)
  }

  lemma ExtendOrdered(s: Store, top: seq<Ativa>, remaining: set<nat>, best: nat)
    requires remaining <= s.comunidades.rows.Keys
    requires Ordered(top) && Behind(s, top, remaining) && best in remaining
    ensures Ordered(top + [EntryOf(s, best)])
  {
  }

  lemma ExtendBehind(s: Store, top: seq<Ativa>, remaining: set<nat>, best: nat)
    requires remaining <= s.comunidades.rows.Keys
    requires Behind(s, top, remaining) && best in remaining
    requires forall c :: c in remaining && c != best ==> Ahead(EntryOf(s, best), EntryOf(s, c))
    ensures Behind(s, top + [EntryOf(s, best)], remaining - {best})
  {
  }

  lemma ExtendPlaced(s: Store, top: seq<Ativa>, remaining: set<nat>, best: nat)
    requires PlacedEntries(s, top, remaining) && best in remaining
    requires remaining <= s.comunidades.rows.Keys
    ensures PlacedEntries(s, top + [EntryOf(s, best)], remaining - {best})
    ensures Ids(top + [EntryOf(s, best)]) == Ids(top) + {best}
  {
    var t := top + [EntryOf(s, best)];
    assert forall i :: 0 <= i < |top| ==> t[i] == top[i];
    assert t[|top|] == EntryOf(s, best);
  }

  /** Placing the best remaining community next keeps the prefix ranked. */
  lemma ExtendRanking(s: Store, top: seq<Ativa>, remaining: set<nat>, best: nat)
    requires RankedPrefix(s, top, remaining)
    requires best in remaining
    requires remaining <= s.comunidades.rows.Keys
    requires forall c :: c in remaining && c != best ==> Ahead(EntryOf(s, best), EntryOf(s, c))
    ensures RankedPrefix(s, top + [EntryOf(s, best)], remaining - {best})
  {
    ExtendOrdered(s, top, remaining, best);
    ExtendBehind(s, top, remaining, best);
    ExtendPlaced(s, top, remaining, best);
  }

  /** `Comunidade.findAll` grouped by community, ordered by initiative count
      descending, limited to `RankingSize`; ties go to the smaller id. */
  method RankComunidades(s: Store) returns (top: seq<Ativa>)
    ensures IsRanking(s, top)
  {
    top := [];
    var remaining := s.comunidades.rows.Keys;
    while |top| < RankingSize && remaining != {}
      invariant |top| <= RankingSize
      invariant RankedPrefix(s, top, remaining)
      decreases remaining
    {
      var best := PickBest(s, remaining);
      ExtendRanking(s, top, remaining, best);
      top := top + [EntryOf(s, best)];
      remaining := remaining - {best};
    }
  }

  // ---------------------------------------------------------------------
  // The snapshot

  datatype Impacto = Impacto(reducaoCO2: int, economiaAgua: int, residuosReciclados: int)

  datatype Snapshot = Snapshot(
    totalComunidades: nat,
    totalMoradores: nat,
    totalIniciativas: nat,
    iniciativasPorCategoria: map<string, nat>,
    iniciativasPorStatus: map<string, nat>,
    impactoEstimado: Impacto,
    comunidadesAtivas: seq<Ativa>)

  /** `snap` is the dashboard of store `s` under registry `reg`. */
  ghost predicate Describes(reg: Registry, s: Store, snap: Snapshot) {
    && snap.totalComunidades == |s.comunidades.rows|
    && snap.totalMoradores == |s.moradores.rows|
    && snap.totalIniciativas == |s.iniciativas.rows|
    && snap.iniciativasPorCategoria.Keys == (set c | c in reg.categorias)
    && (forall c :: c in snap.iniciativasPorCategoria ==>
          snap.iniciativasPorCategoria[c] == CountBucket(s.iniciativas.rows, ByCategoria, c))
    && snap.iniciativasPorStatus.Keys == (set c | c in reg.status)
    && (forall c :: c in snap.iniciativasPorStatus ==>
          snap.iniciativasPorStatus[c] == CountBucket(s.iniciativas.rows, ByStatus, c))
    && snap.impactoEstimado.reducaoCO2 == ImpactSum(s.metricas.rows, ReducaoCO2)
    && snap.impactoEstimado.economiaAgua == ImpactSum(s.metricas.rows, EconomiaAgua)
    && snap.impactoEstimado.residuosReciclados == ImpactSum(s.metricas.rows, ResiduosReciclados)
    && IsRanking(s, snap.comunidadesAtivas)
  }

  /** `getMetricas`. The store is a value, so the snapshot cannot change it. */
  method GetMetricas(reg: Registry, s: Store) returns (snap: Snapshot)
    ensures Describes(reg, s, snap)
  {
    var co2 := SumImpact(s.metricas.rows, ReducaoCO2);
    var agua := SumImpact(s.metricas.rows, EconomiaAgua);
    var residuos := SumImpact(s.metricas.rows, ResiduosReciclados);
    var ativas := RankComunidades(s);
    snap := Snapshot(
      |s.comunidades.rows|,
      |s.moradores.rows|,
      |s.iniciativas.rows|,
      Buckets(s.iniciativas.rows, ByCategoria, reg.categorias),
      Buckets(s.iniciativas.rows, ByStatus, reg.status),
      Impacto(co2, agua, residuos),
      ativas);
  }

  /** With a valid registry and only registry values stored, the category
      buckets add up to the number of initiatives, and so do the status
      buckets. */
  lemma BucketsSumToTotal(reg: Registry, s: Store, snap: Snapshot)
    requires reg.Valid() && EnumsClosed(reg, s)
    requires Describes(reg, s, snap)
    ensures SumEntries(snap.iniciativasPorCategoria, reg.categorias) == snap.totalIniciativas
    ensures SumEntries(snap.iniciativasPorStatus, reg.status) == snap.totalIniciativas
  {
    var rows := s.iniciativas.rows;
    SumEntriesFrame(snap.iniciativasPorCategoria, Buckets(rows, ByCategoria, reg.categorias), reg.categorias);
    SumBucketsCountsCovered(rows, ByCategoria, reg.categorias);
    assert Covered(rows, ByCategoria, reg.categorias) == rows.Keys;
    SumEntriesFrame(snap.iniciativasPorStatus, Buckets(rows, ByStatus, reg.status), reg.status);
    SumBucketsCountsCovered(rows, ByStatus, reg.status);
    assert Covered(rows, ByStatus, reg.status) == rows.Keys;
  }

  /** On an empty store every count, bucket and sum is 0 and the ranking is
      empty, while every registry value still has its bucket. */
  lemma EmptyStoreSnapshot(reg: Registry, snap: Snapshot)
    requires Describes(reg, Empty(), snap)
    ensures snap.totalComunidades == 0 && snap.totalMoradores == 0 && snap.totalIniciativas == 0
    ensures forall c :: c in reg.categorias ==> c in snap.iniciativasPorCategoria && snap.iniciativasPorCategoria[c] == 0
    ensures forall c :: c in reg.status ==> c in snap.iniciativasPorStatus && snap.iniciativasPorStatus[c] == 0
    ensures snap.impactoEstimado == Impacto(0, 0, 0)
    ensures snap.comunidadesAtivas == []
  {
    var e := Empty();
    ImpactSumNone(e.metricas.rows, ReducaoCO2);
    ImpactSumNone(e.metricas.rows, EconomiaAgua);
    ImpactSumNone(e.metricas.rows, ResiduosReciclados);
    forall c | c in reg.categorias
      ensures c in snap.iniciativasPorCategoria && snap.iniciativasPorCategoria[c] == 0
    {
      CountBucketAtMostTotal(e.iniciativas.rows, ByCategoria, c);
    }
    forall c | c in reg.status
      ensures c in snap.iniciativasPorStatus && snap.iniciativasPorStatus[c] == 0
    {
      CountBucketAtMostTotal(e.iniciativas.rows, ByStatus, c);
    }
  }
}
