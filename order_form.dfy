/** The form that creates an order (app/orders/create/page.tsx): line
    items priced from the catalog, the discounted total, and the checks
    and payload of the submission. */
module OrderForm {
  import opened Common
  import opened Schema
  import opened OrdenesApi

  /** A line item while it is being edited: the analysis may not be
      chosen yet. */
  datatype FormItem = FormItem(
    analisisId: Option<AnalysisId>,
    nombre: string,
    cantidad: real,
    precioUnitario: real,
    subtotal: real)

  /** The item a new line starts with: no analysis, quantity 1, price
      and subtotal 0. */
  const BlankItem := FormItem(None, "", 1.0, 0.0, 0.0)

  /** The edits the form makes to an item: choosing an analysis, or
      typing a quantity or a unit price. */
  datatype ItemChange = ChooseAnalysis(id: AnalysisId) | SetCantidad(cantidad: real) | SetPrecio(precio: real)

  /** One item after an edit. Choosing a known analysis copies its name
      and cost and prices the item; an id missing from the catalog
      zeroes price and subtotal and keeps the name. Typing a quantity or
      a price reprices the item. */
  function ItemChanged(item: FormItem, change: ItemChange, catalog: map<AnalysisId, Analisis>): (r: FormItem)
    ensures change.ChooseAnalysis? ==> r.analisisId == Some(change.id) && r.cantidad == item.cantidad
    ensures change.ChooseAnalysis? && change.id in catalog ==>
      r.nombre == catalog[change.id].nombre && r.precioUnitario == catalog[change.id].costo
      && r.subtotal == item.cantidad * catalog[change.id].costo
    ensures change.ChooseAnalysis? && change.id !in catalog ==>
      r.nombre == item.nombre && r.precioUnitario == 0.0 && r.subtotal == 0.0
    ensures change.SetCantidad? ==>
      r == item.(cantidad := change.cantidad, subtotal := change.cantidad * item.precioUnitario)
    ensures change.SetPrecio? ==>
      r == item.(precioUnitario := change.precio, subtotal := item.cantidad * change.precio)
    ensures !change.ChooseAnalysis? || change.id in catalog ==> r.subtotal == r.cantidad * r.precioUnitario
  {
    match change
    case ChooseAnalysis(id) =>
      var chosen := item.(analisisId := Some(id));
      if id in catalog then
        chosen.(nombre := catalog[id].nombre, precioUnitario := catalog[id].costo,
                subtotal := chosen.cantidad * catalog[id].costo)
      else
        chosen.(precioUnitario := 0.0, subtotal := 0.0)
    case SetCantidad(c) =>
      item.(cantidad := c, subtotal := c * item.precioUnitario)
    case SetPrecio(p) =>
      item.(precioUnitario := p, subtotal := item.cantidad * p)
  }

  /** The sum of the items' subtotals. */
  function SubtotalSum(items: seq<FormItem>): real
  {
    if items == [] then 0.0 else SubtotalSum(items[..|items| - 1]) + items[|items| - 1].subtotal
  }

  /** Changing one item changes the sum by the change in its subtotal. */
  lemma {:induction false} SubtotalSumUpdate(items: seq<FormItem>, i: nat, item: FormItem)
    requires i < |items|
    ensures SubtotalSum(items[i := item]) == SubtotalSum(items) - items[i].subtotal + item.subtotal
  {
    var n := |items|;
    var front := items[..n - 1];
    if i == n - 1 {
      assert items[i := item][..n - 1] == front;
    } else {
      assert items[i := item][..n - 1] == front[i := item];
      SubtotalSumUpdate(front, i, item);
    }
  }

  /** The discount percentage as read: an empty or unreadable entry
      counts as 0 (`Number(x) || 0`). */
  function Percent(descuento: Option<real>): real
  {
    descuento.GetOr(0.0)
  }

  /** The amount a percentage takes off a subtotal. */
  function DiscountAmount(subtotal: real, percent: real): (r: real)
    ensures 0.0 <= percent && 0.0 <= subtotal ==> 0.0 <= r
    ensures percent == 0.0 ==> r == 0.0
    ensures percent == 100.0 ==> r == subtotal
  {
    subtotal * (percent / 100.0)
  }

  /** The total the form shows and sends: the subtotal less the
      discount, and 0 when that would be negative. */
  function DiscountedTotal(subtotal: real, percent: real): (r: real)
    ensures r >= 0.0
    ensures r == RealMax(subtotal - DiscountAmount(subtotal, percent), 0.0)
  {
    var t := subtotal - DiscountAmount(subtotal, percent);
    if t >= 0.0 then t else 0.0
  }

  /** The larger of two reals (`Math.max` on amounts). */
  function RealMax(a: real, b: real): real { if a < b then b else a }

  /** With a percentage between 0 and 100 the total and the discount
      add up to the subtotal, and the total is at most the subtotal;
      above 100 the total is 0. */
  lemma DiscountLaws(subtotal: real, percent: real)
    requires subtotal >= 0.0
    ensures 0.0 <= percent <= 100.0 ==>
      DiscountedTotal(subtotal, percent) + DiscountAmount(subtotal, percent) == subtotal
      && DiscountedTotal(subtotal, percent) <= subtotal
    ensures percent > 100.0 ==> DiscountedTotal(subtotal, percent) == 0.0
  {
    if 0.0 <= percent <= 100.0 {
      assert DiscountAmount(subtotal, percent) <= subtotal * 1.0;
    }
    if percent > 100.0 {
      assert DiscountAmount(subtotal, percent) >= subtotal * 1.0;
    }
  }

  /** Why a submission is refused. */
  datatype SubmitError = MissingRequiredFields

  /** The form's state. `montoPagado` and `descuento` are `None` while
      their inputs are empty (or, for the discount, unreadable). */
  class CreateOrderForm {
    var catalog: map<AnalysisId, Analisis>
    var userId: Option<UserId>
    var statusPago: StatusPago
    var metodoPago: MetodoPago
    var items: seq<FormItem>
    var totalPago: real
    var montoPagado: Option<real>
    var notas: string
    var descuento: Option<real>

    /** There is always at least one line, and the total shown is the
        discounted sum of the subtotals (the effect that recomputes it
        runs after every change to the items or the discount). */
    ghost predicate Valid()
      reads this
    {
      && |items| >= 1
      && totalPago == DiscountedTotal(SubtotalSum(items), Percent(descuento))
    }

    /** The form as first shown: no user, pending cash payment, one
        blank line, total 0, every input empty. */
    constructor (catalog: map<AnalysisId, Analisis>)
      ensures Valid()
      ensures this.catalog == catalog && userId == None && statusPago == Pendiente && metodoPago == Efectivo
      ensures items == [BlankItem] && totalPago == 0.0
      ensures montoPagado == None && notas == "" && descuento == None
    {
      this.catalog := catalog;
      userId, statusPago, metodoPago := None, Pendiente, Efectivo;
      var first := [BlankItem];
      assert first[..0] == [];
      items := first;
      totalPago := 0.0;
      montoPagado, notas, descuento := None, "", None;
    }

    /** The effect on `order_item` and `descuento`: recompute the
        total. */
    method RecomputeTotal()
      requires |items| >= 1
      modifies this`totalPago
      ensures Valid()
    {
      totalPago := DiscountedTotal(SubtotalSum(items), Percent(descuento));
    }

    /** `handleItemChange`: item `index` is edited; the others keep
        their values and places. */
    method HandleItemChange(index: nat, change: ItemChange)
      requires Valid() && index < |items|
      modifies this`items, this`totalPago
      ensures Valid()
      ensures items == old(items)[index := ItemChanged(old(items)[index], change, catalog)]
      ensures SubtotalSum(items) == SubtotalSum(old(items)) - old(items)[index].subtotal + items[index].subtotal
    {
      SubtotalSumUpdate(items, index, ItemChanged(items[index], change, catalog));
      items := items[index := ItemChanged(items[index], change, catalog)];
      RecomputeTotal();
    }

    /** `addOrderItem`: one blank line at the end; the total is
        unchanged. */
    method AddOrderItem()
      requires Valid()
      modifies this`items, this`totalPago
      ensures Valid()
      ensures items == old(items) + [BlankItem]
      ensures totalPago == old(totalPago)
    {
      items := items + [BlankItem];
      assert items[..|items| - 1] == old(items);
      RecomputeTotal();
    }

    /** `removeLastOrderItem`: drops the last line unless it is the only
        one. */
    method RemoveLastOrderItem()
      requires Valid()
      modifies this`items, this`totalPago
      ensures Valid()
      ensures |old(items)| > 1 ==> items == old(items)[..|old(items)| - 1]
      ensures |old(items)| == 1 ==> items == old(items)
    {
      if |items| > 1 {
        items := items[..|items| - 1];
        RecomputeTotal();
      }
    }

    /** The discount input changes; the total follows. */
    method SetDescuento(d: Option<real>)
      requires Valid()
      modifies this`descuento, this`totalPago
      ensures Valid()
      ensures descuento == d
    {
      descuento := d;
      RecomputeTotal();
    }

    /** The user is chosen. */
    method SelectUser(u: UserId)
      modifies this`userId
      ensures userId == Some(u)
    {
      userId := Some(u);
    }

    /** The amount-paid input changes. */
    method SetMontoPagado(m: Option<real>)
      modifies this`montoPagado
      ensures montoPagado == m
    {
      montoPagado := m;
    }

    /** `handleSubmit`'s checks and payload. A form without a user,
        without an amount paid, or with a line whose analysis is not
        chosen is refused. Otherwise the order goes out with the lines
        field for field, the total shown, and the discount as an amount
        (not the percentage typed). */
    function Submission(): (r: Result<CrearOrdenArgs, SubmitError>)
      reads this
      ensures r.Err? <==>
        userId.None? || montoPagado.None? || exists i :: 0 <= i < |items| && items[i].analisisId.None?
      ensures r.Ok? ==> r.value.userId == userId.value && r.value.montoPagado == montoPagado.value
      ensures r.Ok? ==> r.value.statusPago == statusPago && r.value.metodoPago == metodoPago
      ensures r.Ok? ==> r.value.totalPago == totalPago && r.value.notas == Some(notas)
      ensures r.Ok? ==> r.value.descuento == DiscountAmount(SubtotalSum(items), Percent(descuento))
      ensures r.Ok? ==> |r.value.orderItem| == |items| && forall i :: 0 <= i < |items| ==>
        r.value.orderItem[i] == OrderItem(items[i].analisisId.value, items[i].nombre, items[i].cantidad,
                                          items[i].precioUnitario, items[i].subtotal)
    {
      if userId.None? || montoPagado.None? || exists i :: 0 <= i < |items| && items[i].analisisId.None? then
        Err(MissingRequiredFields)
      else
        var lines := items;
        var sent := seq(|lines|, i requires 0 <= i < |lines| && lines[i].analisisId.Some? =>
          OrderItem(lines[i].analisisId.value, lines[i].nombre, lines[i].cantidad,
                    lines[i].precioUnitario, lines[i].subtotal));
        Ok(CrearOrdenArgs(userId.value, statusPago, metodoPago, sent, totalPago, montoPagado.value,
                          Some(notas), DiscountAmount(SubtotalSum(items), Percent(descuento))))
    }
  }

  /** What the form sends is a consistent order: its total is the
      discounted sum of its lines and, with a discount between 0 and
      100 percent on non-negative lines, total and discount add up to
      the sum of the subtotals. */
  lemma SubmissionConsistent(form: CreateOrderForm)
    requires form.Valid() && form.Submission().Ok?
    requires SubtotalSum(form.items) >= 0.0 && 0.0 <= Percent(form.descuento) <= 100.0
    ensures form.Submission().value.totalPago + form.Submission().value.descuento == SubtotalSum(form.items)
  {
    DiscountLaws(SubtotalSum(form.items), Percent(form.descuento));
  }
}
