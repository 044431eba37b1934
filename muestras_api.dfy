/** Samples (convex/muestras.ts): generation from an order, result
    entry, patching, deletion, and the read-side queries and joins. */
module MuestrasApi {
  import opened Common
  import opened Tables
  import opened Schema

  /** The results template of a new sample: one entry per parameter of
      the analysis (see `FreezeCopiesTemplate`). */
  function Freeze(datos: seq<Parametro>): (r: seq<Resultado>)
    ensures |r| == |datos|
  {
    seq(|datos|, i requires 0 <= i < |datos| =>
      Resultado(datos[i].nombre, datos[i].medicion, datos[i].estandar, Null))
  }

  /** The parameter list a results array was built from (its values
      dropped). */
  function Template(rs: seq<Resultado>): (r: seq<Parametro>)
    ensures |r| == |rs|
  {
    seq(|rs|, i requires 0 <= i < |rs| => Parametro(rs[i].nombre, rs[i].medicion, rs[i].estandar))
  }

  /** A frozen template keeps the parameters in order, copies their
      three texts and has no value yet; dropping the values gives the
      parameter list back. */
  lemma FreezeCopiesTemplate(datos: seq<Parametro>)
    ensures forall i :: 0 <= i < |datos| ==>
      && Freeze(datos)[i].nombre == datos[i].nombre
      && Freeze(datos)[i].medicion == datos[i].medicion
      && Freeze(datos)[i].estandar == datos[i].estandar
      && Freeze(datos)[i].valor == Null
    ensures Template(Freeze(datos)) == datos
  {
  }

  /** The sample inserted for one line item whose analysis exists. */
  function NewSample(orderId: OrderId, item: OrderItem, a: Analisis, createdAt: int, updatedAt: int): (s: Sample)
    ensures s.orderId == orderId && s.analisisId == item.analisisId && s.estado == Procesando
    ensures s.resultados == Freeze(a.datos)
  {
    Sample(orderId, item.analisisId, Procesando, Freeze(a.datos), createdAt, updatedAt)
  }

  /** The line items whose analysis is in the catalog. */
  function Known(items: seq<OrderItem>, catalog: map<AnalysisId, Analisis>): (r: seq<OrderItem>)
    ensures forall it :: it in r <==> it in items && it.analisisId in catalog
  {
    Filter(items, (it: OrderItem) => it.analisisId in catalog)
  }

  /** The samples `generarMuestrasDeOrden` inserts for `items`, in
      order. The clock is read twice per sample (creation, then update),
      so the j-th sample's stamps are the clock's readings 2j and 2j+1. */
  function Generated(orderId: OrderId, items: seq<OrderItem>, catalog: map<AnalysisId, Analisis>,
                     clock: nat -> int): (r: seq<Sample>)
    ensures |r| <= |items|
    decreases |items|
  {
    if items == [] then []
    else
      var prev := Generated(orderId, items[..|items| - 1], catalog, clock);
      var item := items[|items| - 1];
      if item.analisisId in catalog then
        prev + [NewSample(orderId, item, catalog[item.analisisId], clock(2 * |prev|), clock(2 * |prev| + 1))]
      else prev
  }

  /** `gen` holds, position for position, a sample for each of the
      line items `known`, for order `orderId`. */
  ghost predicate SamplesFor(orderId: OrderId, gen: seq<Sample>, known: seq<OrderItem>,
                             catalog: map<AnalysisId, Analisis>)
  {
    && |gen| == |known|
    && forall j :: 0 <= j < |gen| ==> SampleFor(orderId, gen[j], known[j], catalog)
  }

  /** `s` is the sample generated for `item` in order `orderId`. */
  ghost predicate SampleFor(orderId: OrderId, s: Sample, item: OrderItem, catalog: map<AnalysisId, Analisis>)
  {
    && s.orderId == orderId
    && s.analisisId == item.analisisId
    && s.analisisId in catalog
    && s.estado == Procesando
    && s.resultados == Freeze(catalog[s.analisisId].datos)
  }

  /** The recursion of `GeneratedPerKnownItem`, stated with the
      predicates. */
  lemma {:induction false} GeneratedMatchesKnown(orderId: OrderId, items: seq<OrderItem>,
                                                 catalog: map<AnalysisId, Analisis>, clock: nat -> int)
    ensures SamplesFor(orderId, Generated(orderId, items, catalog, clock), Known(items, catalog), catalog)
    decreases |items|
  {
    if items != [] {
      var front := items[..|items| - 1];
      var item := items[|items| - 1];
      assert items == front + [item];
      GeneratedMatchesKnown(orderId, front, catalog, clock);
      KnownSnoc(front, item, catalog);
      GeneratedSnoc(orderId, front, item, catalog, clock);
      if item.analisisId in catalog {
        var prev := Generated(orderId, front, catalog, clock);
        var sample := NewSample(orderId, item, catalog[item.analisisId], clock(2 * |prev|), clock(2 * |prev| + 1));
        assert SampleFor(orderId, sample, item, catalog);
        SamplesForSnoc(orderId, prev, Known(front, catalog), catalog, sample, item);
      }
    }
  }

  /** One more line item is kept exactly when its analysis exists. */
  lemma KnownSnoc(front: seq<OrderItem>, item: OrderItem, catalog: map<AnalysisId, Analisis>)
    ensures Known(front + [item], catalog) ==
      Known(front, catalog) + (if item.analisisId in catalog then [item] else [])
  {
    FilterAppend(front, [item], (it: OrderItem) => it.analisisId in catalog);
  }

  /** One more line item adds its sample exactly when its analysis
      exists. */
  lemma GeneratedSnoc(orderId: OrderId, front: seq<OrderItem>, item: OrderItem,
                      catalog: map<AnalysisId, Analisis>, clock: nat -> int)
    ensures var prev := Generated(orderId, front, catalog, clock);
      Generated(orderId, front + [item], catalog, clock) ==
        if item.analisisId in catalog then
          prev + [NewSample(orderId, item, catalog[item.analisisId], clock(2 * |prev|), clock(2 * |prev| + 1))]
        else prev
  {
    assert (front + [item])[..|front|] == front;
  }

  /** One more matching sample and line item keep the match. */
  lemma SamplesForSnoc(orderId: OrderId, gen: seq<Sample>, known: seq<OrderItem>,
                       catalog: map<AnalysisId, Analisis>, s: Sample, item: OrderItem)
    requires SamplesFor(orderId, gen, known, catalog) && SampleFor(orderId, s, item, catalog)
    ensures SamplesFor(orderId, gen + [s], known + [item], catalog)
  {
    var gen', known' := gen + [s], known + [item];
    forall j | 0 <= j < |gen'| ensures SampleFor(orderId, gen'[j], known'[j], catalog) {
      if j < |gen| {
        assert gen'[j] == gen[j] && known'[j] == known[j];
      }
    }
  }

  /** One sample per known line item, in line-item order: the j-th
      generated sample belongs to the j-th known item, carries the order
      id, state `procesando`, and a frozen copy of its analysis's
      parameters with every value null. */
  lemma GeneratedPerKnownItem(orderId: OrderId, items: seq<OrderItem>,
                              catalog: map<AnalysisId, Analisis>, clock: nat -> int)
    ensures |Generated(orderId, items, catalog, clock)| == |Known(items, catalog)|
    ensures forall j :: 0 <= j < |Generated(orderId, items, catalog, clock)| ==>
      var s := Generated(orderId, items, catalog, clock)[j];
      && s.orderId == orderId
      && s.analisisId == Known(items, catalog)[j].analisisId
      && s.analisisId in catalog
      && s.estado == Procesando
      && s.resultados == Freeze(catalog[s.analisisId].datos)
  {
    GeneratedMatchesKnown(orderId, items, catalog, clock);
  }

  /** Every line item yields a sample exactly when every item's
      analysis is in the catalog. */
  lemma AllGeneratedIffAllKnown(orderId: OrderId, items: seq<OrderItem>,
                                catalog: map<AnalysisId, Analisis>, clock: nat -> int)
    ensures |Generated(orderId, items, catalog, clock)| == |items| <==>
      forall i :: 0 <= i < |items| ==> items[i].analisisId in catalog
  {
    GeneratedPerKnownItem(orderId, items, catalog, clock);
    var known := (it: OrderItem) => it.analisisId in catalog;
    FilterSplit(items, known);
    if forall i :: 0 <= i < |items| ==> items[i].analisisId in catalog {
      FilterKeepsAll(items, known);
    } else {
      var i :| 0 <= i < |items| && items[i].analisisId !in catalog;
      assert items[i] in Filter(items, x => !known(x));
    }
  }

  /** Generation extends by one line item at a time. */
  lemma GeneratedStep(orderId: OrderId, items: seq<OrderItem>, i: nat, catalog: map<AnalysisId, Analisis>,
                      clock: nat -> int)
    requires i < |items|
    ensures var prev := Generated(orderId, items[..i], catalog, clock);
      Generated(orderId, items[..i + 1], catalog, clock) ==
        if items[i].analisisId in catalog then
          prev + [NewSample(orderId, items[i], catalog[items[i].analisisId], clock(2 * |prev|), clock(2 * |prev| + 1))]
        else prev
  {
    assert items[..i + 1] == items[..i] + [items[i]];
    GeneratedSnoc(orderId, items[..i], items[i], catalog, clock);
  }

  /** `t` is `start` with the samples `news` added under the fresh ids
      `ids`, in that order, after everything `start` already held, which
      is left as it was. */
  ghost predicate Extends(start: Table<SampleId, Sample>, t: Table<SampleId, Sample>,
                          ids: seq<SampleId>, news: seq<Sample>)
  {
    && |ids| == |news|
    && t.order == start.order + ids
    && (forall j :: 0 <= j < |ids| ==> ids[j] !in start.rows)
    && (forall j :: 0 <= j < |ids| ==> ids[j] in t.rows && t.rows[ids[j]] == news[j])
    && (forall s :: s in start.rows ==> s in t.rows && t.rows[s] == start.rows[s])
  }

  /** Inserting one more sample under a fresh id extends the table by
      that sample. */
  lemma ExtendsByInsert(start: Table<SampleId, Sample>, t: Table<SampleId, Sample>,
                        ids: seq<SampleId>, news: seq<Sample>, id: SampleId, sample: Sample)
    requires Extends(start, t, ids, news) && id !in t.rows
    ensures Extends(start, Table(t.rows[id := sample], t.order + [id]), ids + [id], news + [sample])
  {
    var u := Table(t.rows[id := sample], t.order + [id]);
    var ids', news' := ids + [id], news + [sample];
    forall j | 0 <= j < |ids'| ensures ids'[j] in u.rows && u.rows[ids'[j]] == news'[j] {
      if j < |ids| {
        assert ids'[j] == ids[j] && news'[j] == news[j];
        assert ids[j] in t.rows && ids[j] != id;
      }
    }
  }

  /** The loop of `generarMuestrasDeOrden`. The mutation's writes are
      collected in `samples` (with the id supply `next`) and committed
      together when it returns, as the platform commits a mutation as
      one transaction. Returns the new ids in line-item order. */
  method InsertGenerated(db: Database, orderId: OrderId, items: seq<OrderItem>, clock: nat -> int)
    returns (ids: seq<SampleId>)
    requires db.Valid()
    modifies db`samples, db`nextId
    ensures db.Valid()
    ensures Extends(old(db.samples), db.samples, ids, Generated(orderId, items, db.analisis.rows, clock))
  {
    var catalog := db.analisis.rows;
    var start, samples, next := db.samples, db.samples, db.nextId;
    ids := [];
    ghost var news: seq<Sample> := [];
    var i := 0;
    while i < |items|
      invariant 0 <= i <= |items|
      invariant next >= old(db.nextId)
      invariant samples.WellFormed() && forall s :: s in samples.rows ==> s.n < next
      invariant news == Generated(orderId, items[..i], catalog, clock)
      invariant Extends(start, samples, ids, news)
    {
      GeneratedStep(orderId, items, i, catalog, clock);
      var item := items[i];
      if item.analisisId in catalog {
        var id := SampleId(next);
        var sample := NewSample(orderId, item, catalog[item.analisisId], clock(2 * |ids|), clock(2 * |ids| + 1));
        ExtendsByInsert(start, samples, ids, news, id, sample);
        samples := samples.Insert(id, sample);
        next := next + 1;
        ids := ids + [id];
        news := news + [sample];
      }
      i := i + 1;
    }
    assert items[..|items|] == items;
    db.samples, db.nextId := samples, next;
  }

  /** `generarMuestrasDeOrden`: fails, inserting nothing, when the
      order is missing; otherwise inserts one sample per line item whose
      analysis exists (see `InsertGenerated`). */
  method GenerarMuestrasDeOrden(db: Database, orderId: OrderId, clock: nat -> int)
    returns (r: Result<seq<SampleId>, DbError>)
    requires db.Valid()
    modifies db`samples, db`nextId
    ensures db.Valid()
    ensures r.Err? <==> orderId !in old(db.orders.rows)
    ensures r.Err? ==> db.samples == old(db.samples) && db.nextId == old(db.nextId)
    ensures r.Ok? ==>
      Extends(old(db.samples), db.samples, r.value, Generated(orderId, old(db.orders.rows[orderId]).orderItem, db.analisis.rows, clock))
  {
    var order := db.orders.Get(orderId);
    if order.None? {
      return Err(NotFound);
    }
    var ids := InsertGenerated(db, orderId, order.value.orderItem, clock);
    r := Ok(ids);
  }

  /** A sample after `llenarResultadosMuestra`: results replaced
      wholesale, state finished, `updatedAt` set. */
  function Filled(s: Sample, resultados: seq<Resultado>, now: int): (r: Sample)
    ensures r.resultados == resultados && r.estado == Finalizada && r.updatedAt == now
    ensures r.orderId == s.orderId && r.analisisId == s.analisisId && r.createdAt == s.createdAt
  {
    s.(resultados := resultados, estado := Finalizada, updatedAt := now)
  }

  /** Filling twice with the same results is filling once. */
  lemma FilledIdempotent(s: Sample, resultados: seq<Resultado>, t1: int, t2: int)
    ensures Filled(Filled(s, resultados, t1), resultados, t2) == Filled(s, resultados, t2)
  {
  }

  /** `llenarResultadosMuestra`: fills the results of an existing
      sample, whatever its state; fails, changing nothing, when the id
      has no document. */
  method LlenarResultadosMuestra(db: Database, id: SampleId, resultados: seq<Resultado>, now: int)
    returns (r: Outcome<DbError>)
    requires db.Valid()
    modifies db`samples
    ensures db.Valid()
    ensures r.Fail? <==> id !in old(db.samples.rows)
    ensures r.Fail? ==> db.samples == old(db.samples)
    ensures r.Pass? ==> db.samples == old(db.samples).Update(id, Filled(old(db.samples.rows[id]), resultados, now))
  {
    var current := db.samples.Get(id);
    if current.None? {
      return Fail(NotFound);
    }
    db.samples := db.samples.Update(id, Filled(current.value, resultados, now));
    r := Pass;
  }

  /** A sample after `actualizarMuestra`: the supplied fields replaced,
      `updatedAt` set, everything else kept. */
  function SamplePatched(s: Sample, estado: Option<Estado>, resultados: Option<seq<Resultado>>, now: int): (r: Sample)
    ensures r.orderId == s.orderId && r.analisisId == s.analisisId && r.createdAt == s.createdAt
    ensures r.updatedAt == now
    ensures estado.None? ==> r.estado == s.estado
    ensures estado.Some? ==> r.estado == estado.value
    ensures resultados.None? ==> r.resultados == s.resultados
    ensures resultados.Some? ==> r.resultados == resultados.value
  {
    s.(estado := estado.GetOr(s.estado), resultados := resultados.GetOr(s.resultados), updatedAt := now)
  }

  /** Patching the results together with the finished state is the
      same as filling the results; patching nothing only moves
      `updatedAt`. */
  lemma PatchAgreesWithFill(s: Sample, resultados: seq<Resultado>, now: int)
    ensures SamplePatched(s, Some(Finalizada), Some(resultados), now) == Filled(s, resultados, now)
    ensures SamplePatched(s, None, None, now) == s.(updatedAt := now)
  {
  }

  /** `actualizarMuestra`: patches an existing sample; fails, changing
      nothing, when the id has no document. */
  method ActualizarMuestra(db: Database, id: SampleId, estado: Option<Estado>,
                           resultados: Option<seq<Resultado>>, now: int)
    returns (r: Outcome<DbError>)
    requires db.Valid()
    modifies db`samples
    ensures db.Valid()
    ensures r.Fail? <==> id !in old(db.samples.rows)
    ensures r.Fail? ==> db.samples == old(db.samples)
    ensures r.Pass? ==> db.samples == old(db.samples).Update(id, SamplePatched(old(db.samples.rows[id]), estado, resultados, now))
  {
    var current := db.samples.Get(id);
    if current.None? {
      return Fail(NotFound);
    }
    db.samples := db.samples.Update(id, SamplePatched(current.value, estado, resultados, now));
    r := Pass;
  }

  /** `eliminarMuestra`: removes that sample only. */
  method EliminarMuestra(db: Database, id: SampleId) returns (r: Outcome<DbError>)
    requires db.Valid()
    modifies db`samples
    ensures db.Valid()
    ensures r.Fail? <==> id !in old(db.samples.rows)
    ensures db.samples == old(db.samples).Delete(id)
  {
    if id !in db.samples.rows {
      return Fail(NotFound);
    }
    db.samples := db.samples.Delete(id);
    r := Pass;
  }

  /** `obtenerMuestrasPorOrden`: the samples of one order, in creation
      order. */
  function ObtenerMuestrasPorOrden(db: Database, orderId: OrderId): (r: seq<Doc<SampleId, Sample>>)
    reads db
    requires db.Valid()
    ensures forall d :: d in r <==>
      d.id in db.samples.rows && d.fields == db.samples.rows[d.id] && d.fields.orderId == orderId
  {
    forall d ensures d in db.samples.Docs() <==> d.id in db.samples.rows && d.fields == db.samples.rows[d.id] {
      DocListed(db.samples, d);
    }
    Filter(db.samples.Docs(), (d: Doc<SampleId, Sample>) => d.fields.orderId == orderId)
  }

  /** The paid orders of a user, in creation order. */
  function PaidOrdersOf(db: Database, userId: UserId): (r: seq<Doc<OrderId, Order>>)
    reads db
    requires db.Valid()
    ensures forall o :: o in r <==>
      o.id in db.orders.rows && o.fields == db.orders.rows[o.id]
      && o.fields.userId == userId && o.fields.statusPago == Pagado
  {
    forall o ensures o in db.orders.Docs() <==> o.id in db.orders.rows && o.fields == db.orders.rows[o.id] {
      DocListed(db.orders, o);
    }
    Filter(db.orders.Docs(), (o: Doc<OrderId, Order>) => o.fields.userId == userId && o.fields.statusPago == Pagado)
  }

  /** The finished samples of one order. */
  function FinishedOf(samples: seq<Doc<SampleId, Sample>>, orderId: OrderId): (r: seq<Doc<SampleId, Sample>>)
    ensures forall d :: d in r <==> d in samples && d.fields.orderId == orderId && d.fields.estado == Finalizada
  {
    Filter(samples, (d: Doc<SampleId, Sample>) => d.fields.orderId == orderId && d.fields.estado == Finalizada)
  }

  /** The finished samples of each order in turn, concatenated. */
  function FinishedOfAll(samples: seq<Doc<SampleId, Sample>>, orders: seq<Doc<OrderId, Order>>): seq<Doc<SampleId, Sample>>
    decreases |orders|
  {
    if orders == [] then []
    else FinishedOfAll(samples, orders[..|orders| - 1]) + FinishedOf(samples, orders[|orders| - 1].id)
  }

  /** The concatenation grows by one order at a time. */
  lemma FinishedOfAllStep(samples: seq<Doc<SampleId, Sample>>, orders: seq<Doc<OrderId, Order>>, i: nat)
    requires i < |orders|
    ensures FinishedOfAll(samples, orders[..i + 1]) ==
      FinishedOfAll(samples, orders[..i]) + FinishedOf(samples, orders[i].id)
  {
    assert orders[..i + 1][..i] == orders[..i];
  }

  /** A sample is in the concatenation exactly when it is finished and
      belongs to one of the orders. */
  lemma {:induction false} FinishedOfAllMembers(samples: seq<Doc<SampleId, Sample>>,
                                                orders: seq<Doc<OrderId, Order>>, d: Doc<SampleId, Sample>)
    ensures d in FinishedOfAll(samples, orders) <==>
      d in samples && d.fields.estado == Finalizada && exists o :: o in orders && o.id == d.fields.orderId
    decreases |orders|
  {
    if orders != [] {
      var front := orders[..|orders| - 1];
      var last := orders[|orders| - 1];
      assert orders == front + [last];
      FinishedOfAllMembers(samples, front, d);
      if exists o :: o in orders && o.id == d.fields.orderId {
        var o :| o in orders && o.id == d.fields.orderId;
        assert o in front || o == last;
      }
    }
  }

  /** `obtenerMuestrasDeUsuarioFiltradas`: the finished samples of the
      user's paid orders, order by order; nothing when the user has no
      paid order (see `UserFinishedSamples` for what it contains). */
  method ObtenerMuestrasDeUsuarioFiltradas(db: Database, userId: UserId)
    returns (r: seq<Doc<SampleId, Sample>>)
    requires db.Valid()
    ensures r == FinishedOfAll(db.samples.Docs(), PaidOrdersOf(db, userId))
    ensures PaidOrdersOf(db, userId) == [] ==> r == []
  {
    var paidOrders := PaidOrdersOf(db, userId);
    if |paidOrders| == 0 {
      return [];
    }
    var all := db.samples.Docs();
    r := [];
    var i := 0;
    while i < |paidOrders|
      invariant 0 <= i <= |paidOrders|
      invariant r == FinishedOfAll(all, paidOrders[..i])
    {
      FinishedOfAllStep(all, paidOrders, i);
      r := r + FinishedOf(all, paidOrders[i].id);
      i := i + 1;
    }
    assert paidOrders[..i] == paidOrders;
  }

  /** The user's filtered samples are exactly the stored samples that
      are finished and belong to a paid order of that user. */
  lemma UserFinishedSamples(db: Database, userId: UserId, d: Doc<SampleId, Sample>)
    requires db.Valid()
    ensures d in FinishedOfAll(db.samples.Docs(), PaidOrdersOf(db, userId)) <==>
      && d.id in db.samples.rows && d.fields == db.samples.rows[d.id]
      && d.fields.estado == Finalizada
      && d.fields.orderId in db.orders.rows
      && db.orders.rows[d.fields.orderId].userId == userId
      && db.orders.rows[d.fields.orderId].statusPago == Pagado
  {
    FinishedOfAllMembers(db.samples.Docs(), PaidOrdersOf(db, userId), d);
    DocListed(db.samples, d);
    var oid := d.fields.orderId;
    if oid in db.orders.rows {
      assert Doc(oid, db.orders.rows[oid]).id == oid;
    }
  }

  const UnknownAnalysis := "Análisis Desconocido"
  const UnknownPatient := "Paciente Desconocido"
  const NoEmail := "N/A"
  const NoDescription := "Sin descripción."

  /** A sample with the names of its analysis and patient. */
  datatype SampleWithDetails = SampleWithDetails(
    id: SampleId,
    sample: Sample,
    analysisName: string,
    patientName: string,
    patientEmail: string)

  /** The patient of a sample: the user of its order, when both exist. */
  function PatientOf(orders: map<OrderId, Order>, users: map<UserId, User>, s: Sample): (r: Option<User>)
    ensures r.Some? <==> s.orderId in orders && orders[s.orderId].userId in users
    ensures r.Some? ==> r.value == users[orders[s.orderId].userId]
  {
    if s.orderId in orders && orders[s.orderId].userId in users
    then Some(users[orders[s.orderId].userId]) else None
  }

  /** One sample joined with its analysis and patient; a dangling
      reference gives a placeholder, never a failure. An empty stored
      name is kept (only a missing record falls back). */
  function WithDetails(analisis: map<AnalysisId, Analisis>, orders: map<OrderId, Order>,
                       users: map<UserId, User>, id: SampleId, s: Sample): (r: SampleWithDetails)
    ensures r.id == id && r.sample == s
    ensures s.analisisId in analisis ==> r.analysisName == analisis[s.analisisId].nombre
    ensures s.analisisId !in analisis ==> r.analysisName == UnknownAnalysis
    ensures PatientOf(orders, users, s).Some? ==>
      r.patientName == PatientOf(orders, users, s).value.nombre
      && r.patientEmail == PatientOf(orders, users, s).value.correo
    ensures PatientOf(orders, users, s).None? ==> r.patientName == UnknownPatient && r.patientEmail == NoEmail
  {
    var patient := PatientOf(orders, users, s);
    SampleWithDetails(id, s,
      if s.analisisId in analisis then analisis[s.analisisId].nombre else UnknownAnalysis,
      if patient.Some? then patient.value.nombre else UnknownPatient,
      if patient.Some? then patient.value.correo else NoEmail)
  }

  /** `e` is the sample stored under `e.id`, joined with its details. */
  predicate DetailedFrom(db: Database, e: SampleWithDetails)
    reads db
  {
    e.id in db.samples.rows
    && e == WithDetails(db.analisis.rows, db.orders.rows, db.users.rows, e.id, db.samples.rows[e.id])
  }

  /** `getSamplesWithDetails`: every sample, newest first, with its
      details. */
  function GetSamplesWithDetails(db: Database): (r: seq<SampleWithDetails>)
    reads db
    requires db.Valid()
    ensures |r| == |db.samples.rows| == |db.samples.order|
    ensures forall k :: 0 <= k < |r| ==> r[k].id == db.samples.order[|r| - 1 - k]
    ensures forall k :: 0 <= k < |r| ==> DetailedFrom(db, r[k])
  {
    var newest := Reverse(db.samples.Docs());
    var analisis, orders, users := db.analisis.rows, db.orders.rows, db.users.rows;
    seq(|newest|, k requires 0 <= k < |newest| => WithDetails(analisis, orders, users, newest[k].id, newest[k].fields))
  }

  /** Every stored sample appears in the detailed list, and nothing
      else does. */
  lemma EverySampleDetailed(db: Database, id: SampleId)
    requires db.Valid()
    ensures id in db.samples.rows <==>
      exists k :: 0 <= k < |GetSamplesWithDetails(db)| && GetSamplesWithDetails(db)[k].id == id
  {
    var r := GetSamplesWithDetails(db);
    var n := |r|;
    if id in db.samples.rows {
      var i :| 0 <= i < n && db.samples.order[i] == id;
      assert r[n - 1 - i].id == id;
    }
  }

  /** A single sample with its details and its analysis's description. */
  datatype SampleDetails = SampleDetails(
    id: SampleId,
    sample: Sample,
    analysisName: string,
    analysisDescription: string,
    patientName: string,
    patientEmail: string)

  /** `getSampleDetailsById`: nothing exactly when the sample is
      missing; otherwise the sample with the same names the list shows
      and the analysis's description (or a placeholder). */
  function GetSampleDetailsById(db: Database, id: SampleId): (r: Option<SampleDetails>)
    reads db
    ensures r.None? <==> id !in db.samples.rows
    ensures r.Some? ==>
      var listed := WithDetails(db.analisis.rows, db.orders.rows, db.users.rows, id, db.samples.rows[id]);
      && r.value.id == id && r.value.sample == db.samples.rows[id]
      && r.value.analysisName == listed.analysisName
      && r.value.patientName == listed.patientName
      && r.value.patientEmail == listed.patientEmail
    ensures r.Some? ==> var a := r.value.sample.analisisId;
      r.value.analysisDescription == (if a in db.analisis.rows then db.analisis.rows[a].descripcion else NoDescription)
  {
    if id !in db.samples.rows then None
    else
      var s := db.samples.rows[id];
      var listed := WithDetails(db.analisis.rows, db.orders.rows, db.users.rows, id, s);
      Some(SampleDetails(id, s, listed.analysisName,
        if s.analisisId in db.analisis.rows then db.analisis.rows[s.analisisId].descripcion else NoDescription,
        listed.patientName, listed.patientEmail))
  }
}
