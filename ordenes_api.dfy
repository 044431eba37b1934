/** Orders (convex/ordenes.ts): create, partial patch, delete, get, and
    the read-time join with the ordering user. */
module OrdenesApi {
  import opened Common
  import opened Tables
  import opened Schema

  /** The arguments of `crearOrden`, exactly as the caller sends them. */
  datatype CrearOrdenArgs = CrearOrdenArgs(
    userId: UserId,
    statusPago: StatusPago,
    metodoPago: MetodoPago,
    orderItem: seq<OrderItem>,
    totalPago: real,
    montoPagado: real,
    notas: Option<string>,
    descuento: real)

  /** The document `crearOrden` inserts: the caller's fields verbatim,
      plus `updatedAt` and the system creation time. */
  function NewOrder(args: CrearOrdenArgs, now: int, creationTime: int): (o: Order)
    ensures ArgsOf(o) == args
    ensures o.updatedAt == now && o.creationTime == creationTime
  {
    Order(args.userId, args.statusPago, args.metodoPago, args.orderItem, args.totalPago,
          args.montoPagado, args.notas, args.descuento, now, creationTime)
  }

  /** The caller-supplied part of an order. */
  function ArgsOf(o: Order): CrearOrdenArgs
  {
    CrearOrdenArgs(o.userId, o.statusPago, o.metodoPago, o.orderItem, o.totalPago,
                   o.montoPagado, o.notas, o.descuento)
  }

  /** `crearOrden`: inserts the order as supplied, with no check of its
      totals, and returns the new id. */
  method CrearOrden(db: Database, args: CrearOrdenArgs, now: int, creationTime: int)
    returns (id: OrderId)
    requires db.Valid()
    modifies db`orders, db`nextId
    ensures db.Valid()
    ensures id !in old(db.orders.rows)
    ensures db.orders == old(db.orders).Insert(id, NewOrder(args, now, creationTime))
  {
    var n := db.TakeId();
    id := OrderId(n);
    db.orders := db.orders.Insert(id, NewOrder(args, now, creationTime));
  }

  /** The optional fields of `actualizarOrden`; an absent field is left
      as it is. */
  datatype OrderPatch = OrderPatch(
    userId: Option<UserId>,
    statusPago: Option<StatusPago>,
    metodoPago: Option<MetodoPago>,
    orderItem: Option<seq<OrderItem>>,
    totalPago: Option<real>,
    montoPagado: Option<real>,
    notas: Option<string>,
    descuento: Option<real>)

  /** The patch that supplies nothing. */
  const NoChanges := OrderPatch(None, None, None, None, None, None, None, None)

  /** An order after a patch: each supplied field replaced, `updatedAt`
      set, every other field kept. */
  function Patched(o: Order, p: OrderPatch, now: int): (r: Order)
    ensures r.creationTime == o.creationTime && r.updatedAt == now
    ensures r.userId == (if p.userId.Some? then p.userId.value else o.userId)
    ensures r.statusPago == (if p.statusPago.Some? then p.statusPago.value else o.statusPago)
    ensures r.metodoPago == (if p.metodoPago.Some? then p.metodoPago.value else o.metodoPago)
    ensures r.orderItem == (if p.orderItem.Some? then p.orderItem.value else o.orderItem)
    ensures r.totalPago == (if p.totalPago.Some? then p.totalPago.value else o.totalPago)
    ensures r.montoPagado == (if p.montoPagado.Some? then p.montoPagado.value else o.montoPagado)
    ensures r.notas == (if p.notas.Some? then p.notas else o.notas)
    ensures r.descuento == (if p.descuento.Some? then p.descuento.value else o.descuento)
  {
    Order(
      p.userId.GetOr(o.userId),
      p.statusPago.GetOr(o.statusPago),
      p.metodoPago.GetOr(o.metodoPago),
      p.orderItem.GetOr(o.orderItem),
      p.totalPago.GetOr(o.totalPago),
      p.montoPagado.GetOr(o.montoPagado),
      if p.notas.Some? then p.notas else o.notas,
      p.descuento.GetOr(o.descuento),
      now,
      o.creationTime)
  }

  /** A patch that supplies nothing changes only `updatedAt`, and
      applying a patch twice is applying it once. */
  lemma PatchLaws(o: Order, p: OrderPatch, t1: int, t2: int)
    ensures Patched(o, NoChanges, t1) == o.(updatedAt := t1)
    ensures Patched(Patched(o, p, t1), p, t2) == Patched(o, p, t2)
  {
  }

  /** `actualizarOrden`: patches an existing order; fails, changing
      nothing, when the id has no document. */
  method ActualizarOrden(db: Database, id: OrderId, p: OrderPatch, now: int)
    returns (r: Outcome<DbError>)
    requires db.Valid()
    modifies db`orders
    ensures db.Valid()
    ensures r.Fail? <==> id !in old(db.orders.rows)
    ensures r.Fail? ==> db.orders == old(db.orders)
    ensures r.Pass? ==> db.orders == old(db.orders).Update(id, Patched(old(db.orders.rows[id]), p, now))
  {
    var current := db.orders.Get(id);
    if current.None? {
      return Fail(NotFound);
    }
    db.orders := db.orders.Update(id, Patched(current.value, p, now));
    r := Pass;
  }

  /** `eliminarOrden`: removes that order only; its samples are left
      in place, pointing at an id that no longer resolves. */
  method EliminarOrden(db: Database, id: OrderId) returns (r: Outcome<DbError>)
    requires db.Valid()
    modifies db`orders
    ensures db.Valid()
    ensures r.Fail? <==> id !in old(db.orders.rows)
    ensures db.orders == old(db.orders).Delete(id)
  {
    if id !in db.orders.rows {
      return Fail(NotFound);
    }
    db.orders := db.orders.Delete(id);
    r := Pass;
  }

  /** `obtenerOrdenPorId`: the stored order unchanged, or nothing. */
  function ObtenerOrdenPorId(db: Database, id: OrderId): (r: Option<Order>)
    reads db
    ensures r.None? <==> id !in db.orders.rows
    ensures r.Some? ==> r.value == db.orders.rows[id]
  {
    db.orders.Get(id)
  }

  /** An order with its user's name and email denormalised in. */
  datatype OrderWithUser = OrderWithUser(
    id: OrderId,
    order: Order,
    nombreUsuario: string,
    correoUsuario: string)

  const UserNotFoundName := "Usuario no encontrado"
  const NoEmail := "N/A"

  /** The join of one order with its user, falling back to placeholder
      strings when the user is missing. */
  function WithUser(users: map<UserId, User>, d: Doc<OrderId, Order>): (r: OrderWithUser)
    ensures r.id == d.id && r.order == d.fields
    ensures d.fields.userId in users ==>
      r.nombreUsuario == users[d.fields.userId].nombre && r.correoUsuario == users[d.fields.userId].correo
    ensures d.fields.userId !in users ==>
      r.nombreUsuario == UserNotFoundName && r.correoUsuario == NoEmail
  {
    var u := if d.fields.userId in users then Some(users[d.fields.userId]) else None;
    OrderWithUser(d.id, d.fields,
      if u.Some? then u.value.nombre else UserNotFoundName,
      if u.Some? then u.value.correo else NoEmail)
  }

  /** `e` is the order stored under `e.id`, joined with its user. */
  predicate JoinedWithUser(users: map<UserId, User>, orders: map<OrderId, Order>, e: OrderWithUser)
  {
    e.id in orders && e == WithUser(users, Doc(e.id, orders[e.id]))
  }

  /** `obtenerOrdenesConUsuario`: one entry per order, newest first,
      each joined with its user. */
  function ObtenerOrdenesConUsuario(db: Database): (r: seq<OrderWithUser>)
    reads db
    requires db.Valid()
    ensures |r| == |db.orders.rows| == |db.orders.order|
    ensures forall k :: 0 <= k < |r| ==> r[k].id == db.orders.order[|r| - 1 - k]
    ensures forall k :: 0 <= k < |r| ==> JoinedWithUser(db.users.rows, db.orders.rows, r[k])
  {
    var newest := Reverse(db.orders.Docs());
    var users := db.users.rows;
    seq(|newest|, k requires 0 <= k < |newest| => WithUser(users, newest[k]))
  }

  /** Every stored order appears in the joined list, and nothing else
      does. */
  lemma EveryOrderJoined(db: Database, id: OrderId)
    requires db.Valid()
    ensures id in db.orders.rows <==>
      exists k :: 0 <= k < |ObtenerOrdenesConUsuario(db)| && ObtenerOrdenesConUsuario(db)[k].id == id
  {
    var r := ObtenerOrdenesConUsuario(db);
    var n := |r|;
    if id in db.orders.rows {
      var i :| 0 <= i < n && db.orders.order[i] == id;
      assert r[n - 1 - i].id == id;
    }
  }

  /** `obtenerOrdenPorIdConUsuario`: nothing exactly when the order is
      missing; otherwise the order joined with its user. */
  function ObtenerOrdenPorIdConUsuario(db: Database, id: OrderId): (r: Option<OrderWithUser>)
    reads db
    ensures r.None? <==> id !in db.orders.rows
    ensures r.Some? ==> r.value.id == id && r.value.order == db.orders.rows[id]
    ensures r.Some? ==> r.value == WithUser(db.users.rows, Doc(id, db.orders.rows[id]))
  {
    if id in db.orders.rows then Some(WithUser(db.users.rows, Doc(id, db.orders.rows[id]))) else None
  }
}
