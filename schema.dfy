/** The records and enumerations of the database schema, and the
    database itself: four document tables. */
module Schema {
  import opened Common
  import opened Tables

  /** Document ids, one type per table (`v.id("analisis")`, ...). */
  datatype AnalysisId = AnalysisId(n: nat)
  datatype UserId = UserId(n: nat)
  datatype OrderId = OrderId(n: nat)
  datatype SampleId = SampleId(n: nat)

  /** Payment status of an order. */
  datatype StatusPago = Pendiente | Pagado | Cancelado | Reembolsado

  /** Payment method of an order. */
  datatype MetodoPago = Efectivo | Tarjeta | Transferencia | Paypal

  /** Processing state of a sample. */
  datatype Estado = SinTomar | Procesando | Finalizada

  /** The literal a payment status is stored as. */
  function StatusPagoText(s: StatusPago): string
  {
    match s
    case Pendiente => "pendiente"
    case Pagado => "pagado"
    case Cancelado => "cancelado"
    case Reembolsado => "reembolsado"
  }

  /** One parameter of an analysis's template: its name, its unit and
      its reference range. */
  datatype Parametro = Parametro(nombre: string, medicion: string, estandar: string)

  /** A measured value: a string, a number, a boolean or null. */
  datatype Valor = Null | Text(text: string) | Number(number: real) | Bool(flag: bool)

  /** One entry of a sample's results: a parameter and its value. */
  datatype Resultado = Resultado(nombre: string, medicion: string, estandar: string, valor: Valor)

  /** A catalog entry. */
  datatype Analisis = Analisis(
    nombre: string,
    descripcion: string,
    diasDeEspera: real,
    costo: real,
    datos: seq<Parametro>,
    createdAt: int,
    updatedAt: int)

  /** A user, kept in step with the identity provider. */
  datatype User = User(
    nombre: string,
    correo: string,
    idClerk: string,
    createdAt: int,
    updatedAt: int)

  /** A line item of an order; name and price are copies taken from
      the catalog when the order was written. */
  datatype OrderItem = OrderItem(
    analisisId: AnalysisId,
    nombre: string,
    cantidad: real,
    precioUnitario: real,
    subtotal: real)

  /** An order. `creationTime` is the system field `_creationTime`. */
  datatype Order = Order(
    userId: UserId,
    statusPago: StatusPago,
    metodoPago: MetodoPago,
    orderItem: seq<OrderItem>,
    totalPago: real,
    montoPagado: real,
    notas: Option<string>,
    descuento: real,
    updatedAt: int,
    creationTime: int)

  /** A sample taken for one line item of an order. */
  datatype Sample = Sample(
    orderId: OrderId,
    analisisId: AnalysisId,
    estado: Estado,
    resultados: seq<Resultado>,
    createdAt: int,
    updatedAt: int)

  /** The way a write fails: the platform refuses to patch or delete
      a document that does not exist, and a mutation that finds no
      order throws. */
  datatype DbError = NotFound

  /** The database: four tables and the supply of fresh ids. */
  class Database {
    var analisis: Table<AnalysisId, Analisis>
    var users: Table<UserId, User>
    var orders: Table<OrderId, Order>
    var samples: Table<SampleId, Sample>
    var nextId: nat

    /** Every table is well formed and every id in use is below the
        next id to hand out. */
    ghost predicate Valid()
      reads this
    {
      && analisis.WellFormed() && users.WellFormed()
      && orders.WellFormed() && samples.WellFormed()
      && (forall a :: a in analisis.rows ==> a.n < nextId)
      && (forall u :: u in users.rows ==> u.n < nextId)
      && (forall o :: o in orders.rows ==> o.n < nextId)
      && (forall s :: s in samples.rows ==> s.n < nextId)
    }

    /** An empty database. */
    constructor ()
      ensures Valid()
      ensures analisis.rows == map[] && users.rows == map[]
      ensures orders.rows == map[] && samples.rows == map[]
    {
      analisis, users, orders, samples := Empty(), Empty(), Empty(), Empty();
      nextId := 0;
    }

    /** Hands out an id no table uses yet. */
    method TakeId() returns (n: nat)
      requires Valid()
      modifies this`nextId
      ensures Valid() && n == old(nextId) && nextId == n + 1
      ensures AnalysisId(n) !in analisis.rows && UserId(n) !in users.rows
      ensures OrderId(n) !in orders.rows && SampleId(n) !in samples.rows
    {
      n := nextId;
      nextId := nextId + 1;
    }

    /** Stores a new user under a fresh id. */
    method InsertUser(u: User) returns (id: UserId)
      requires Valid()
      modifies this`users, this`nextId
      ensures Valid()
      ensures id !in old(users.rows) && users == old(users).Insert(id, u)
    {
      var n := TakeId();
      id := UserId(n);
      users := users.Insert(id, u);
    }

    /** Replaces a stored user. */
    method UpdateUser(id: UserId, u: User)
      requires Valid() && id in users.rows
      modifies this`users
      ensures Valid()
      ensures users == old(users).Update(id, u)
    {
      users := users.Update(id, u);
    }

    /** Removes a user. */
    method DeleteUser(id: UserId)
      requires Valid()
      modifies this`users
      ensures Valid()
      ensures users == old(users).Delete(id)
    {
      users := users.Delete(id);
    }
  }
}
