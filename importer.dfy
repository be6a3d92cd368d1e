/**
 * The importer's effect on the sales database, as values: the keyed tables
 * it reads and writes, the upsert rule of each table, the per-sale step
 * (warehouse, client, employee, header, lines, payments) and the run over
 * all the sales of a file, with the counters it reports.
 *
 * Every upsert in the application saves at once, so each lookup sees the
 * rows added before it; the model threads the tables through the steps in
 * the same order. Rows the application keys by a generated integer id
 * (clients, employees, sale headers) are sequences whose index is the id;
 * rows it looks up by a code or a name (products, warehouses, payment
 * methods) are maps from that code or name.
 */
module Importer {
  import opened Wrappers
  import opened Text
  import opened Numeric
  import opened ImportDtos
  import ImportCsv

  // ---------------------------------------------------------------------
  // Tables

  datatype Producto = Producto(nombre: string, categoria: Option<string>, precioVenta: real)

  datatype Cliente = Cliente(nombre: string, identificacion: Option<string>, email: Option<string>,
                             telefono: Option<string>)

  /** An employee; its warehouse is the warehouse's code. */
  datatype Empleado = Empleado(usuarioIdIdentity: string, nombres: string, almacen: Option<string>)

  /** A sale line; its product is the product's code. */
  datatype VentaDet = VentaDet(producto: string, cantidad: real, precioUnitario: real, descuento: real,
                               subtotal: real, categoria: Option<string>, attributes: Attributes)

  /** A payment; its method is the method's name. */
  datatype VentaPago = VentaPago(metodo: string, monto: real)

  /** A sale header; client and employee are row indices, the warehouse is its code. */
  datatype VentaCab = VentaCab(fecha: int, numero: Option<string>, cliente: Option<nat>,
                               empleado: Option<nat>, almacen: string, total: real,
                               observacion: Option<string>, detalles: seq<VentaDet>,
                               pagos: seq<VentaPago>)

  /**
   * The tables the importer touches: products by code, clients, warehouse
   * names by code, payment methods (their PermiteVuelto flag) by name,
   * employees and sale headers.
   */
  datatype Db = Db(productos: map<string, Producto>, clientes: seq<Cliente>,
                   almacenes: map<string, string>, metodos: map<string, bool>,
                   empleados: seq<Empleado>, ventas: seq<VentaCab>)

  /** The part of ImportResultVm the importer fills in. */
  datatype Counters = Counters(nombreArchivo: string, ventasInsertadas: nat, productosUpsert: nat,
                               clientesUpsert: nat, almacenesUpsert: nat, metodosPagoUpsert: nat,
                               errores: seq<string>)

  /** A text that is present and not blank. */
  predicate Given(s: Option<string>) {
    s.Some? && !Blank(s.value)
  }

  // ---------------------------------------------------------------------
  // The first row that matches (FirstOrDefaultAsync, in insertion order)

  function First<T>(xs: seq<T>, p: T -> bool): (r: Option<nat>)
    ensures r.Some? ==> r.value < |xs| && p(xs[r.value]) && forall j :: 0 <= j < r.value ==> !p(xs[j])
    ensures r.None? ==> forall j :: 0 <= j < |xs| ==> !p(xs[j])
  {
    if xs == [] then None
    else if p(xs[0]) then Some(0)
    else match First(xs[1..], p)
         case None => None
         case Some(j) => Some(j + 1)
  }

  /** Only the first match counts: the result is determined by which rows match. */
  lemma FirstUnique<T>(xs: seq<T>, p: T -> bool, i: nat)
    requires i < |xs| && p(xs[i]) && forall j :: 0 <= j < i ==> !p(xs[j])
    ensures First(xs, p) == Some(i)
  {
    assert p(xs[i]);
  }

  lemma FirstNone<T>(xs: seq<T>, p: T -> bool)
    requires forall j :: 0 <= j < |xs| ==> !p(xs[j])
    ensures First(xs, p) == None
  {
  }

  /** A row appended after the search does not change an earlier match. */
  lemma FirstAppend<T>(xs: seq<T>, x: T, p: T -> bool)
    ensures First(xs + [x], p) == (if First(xs, p).Some? then First(xs, p)
                                   else if p(x) then Some(|xs|) else None)
  {
    var ys := xs + [x];
    assert forall j :: 0 <= j < |xs| ==> ys[j] == xs[j];
    match First(xs, p)
    case Some(i) =>
      FirstUnique(ys, p, i);
    case None =>
      if p(x) {
        FirstUnique(ys, p, |xs|);
      } else {
        FirstNone(ys, p);
      }
  }

  /** Replacing a row by one that matches exactly when it did does not change the result. */
  lemma FirstUpdate<T>(xs: seq<T>, i: nat, y: T, p: T -> bool)
    requires i < |xs| && p(y) == p(xs[i])
    ensures First(xs[i := y], p) == First(xs, p)
  {
    var ys := xs[i := y];
    assert forall j :: 0 <= j < |xs| ==> p(ys[j]) == p(xs[j]);
    match First(xs, p)
    case Some(k) =>
      FirstUnique(ys, p, k);
    case None =>
      FirstNone(ys, p);
  }

  // ---------------------------------------------------------------------
  // Warehouses (UpsertAlmacenAsync)

  /** The warehouse table after the upsert: inserted when its code is new, renamed from a non-blank name otherwise. */
  function UpsertAlmacen(als: map<string, string>, a: AlmacenDto): (r: map<string, string>)
    ensures a.codigo in r && r.Keys == als.Keys + {a.codigo}
    ensures forall c :: c in als && c != a.codigo ==> r[c] == als[c]
  {
    if a.codigo !in als then als[a.codigo := a.nombre]
    else if !Blank(a.nombre) && als[a.codigo] != a.nombre then als[a.codigo := a.nombre]
    else als
  }

  /**
   * A new code is stored with the given name; a known code takes the given
   * name only when it is not blank.
   */
  lemma UpsertAlmacenName(als: map<string, string>, a: AlmacenDto)
    ensures a.codigo !in als ==> UpsertAlmacen(als, a)[a.codigo] == a.nombre
    ensures a.codigo in als && !Blank(a.nombre) ==> UpsertAlmacen(als, a)[a.codigo] == a.nombre
    ensures a.codigo in als && Blank(a.nombre) ==> UpsertAlmacen(als, a) == als
  {
  }

  /** Upserting the same warehouse again changes nothing. */
  lemma UpsertAlmacenIdempotent(als: map<string, string>, a: AlmacenDto)
    ensures UpsertAlmacen(UpsertAlmacen(als, a), a) == UpsertAlmacen(als, a)
  {
  }

  // ---------------------------------------------------------------------
  // Clients (UpsertClienteAsync)

  /** The first client with the given identification. */
  function ClienteById(cs: seq<Cliente>, id: Option<string>): Option<nat> {
    First(cs, HasId(id))
  }

  function HasId(id: Option<string>): (p: Cliente -> bool)
    ensures forall c :: p(c) <==> c.identificacion == id
  {
    (c: Cliente) => c.identificacion == id
  }

  function HasName(nombre: string): (p: Cliente -> bool)
    ensures forall c :: p(c) <==> c.nombre == nombre
  {
    (c: Cliente) => c.nombre == nombre
  }

  /** The first client with the given name. */
  function ClienteByName(cs: seq<Cliente>, nombre: string): Option<nat> {
    First(cs, HasName(nombre))
  }

  /** The client a record refers to: by identification when it has one, otherwise (or failing that) by name. */
  function FindCliente(cs: seq<Cliente>, dto: ClienteDto): (r: Option<nat>)
    ensures r.Some? ==> r.value < |cs|
    ensures r.Some? ==> (Given(dto.identificacion) && cs[r.value].identificacion == dto.identificacion)
                        || cs[r.value].nombre == dto.nombre
    ensures r.Some? && cs[r.value].nombre == dto.nombre && !(Given(dto.identificacion) && cs[r.value].identificacion == dto.identificacion) ==>
              forall j :: 0 <= j < r.value ==> cs[j].nombre != dto.nombre
    ensures r.None? <==> (forall j :: 0 <= j < |cs| ==> cs[j].nombre != dto.nombre)
                         && (Given(dto.identificacion) ==> forall j :: 0 <= j < |cs| ==> cs[j].identificacion != dto.identificacion)
  {
    var byId := if Given(dto.identificacion) then ClienteById(cs, dto.identificacion) else None;
    if byId.Some? then byId else ClienteByName(cs, dto.nombre)
  }

  /** An existing client takes the record's non-blank name, e-mail and telephone; nothing else changes. */
  function MergeCliente(c: Cliente, dto: ClienteDto): (m: Cliente)
    ensures m.identificacion == c.identificacion
  {
    c.(nombre := if !Blank(dto.nombre) then dto.nombre else c.nombre,
       email := if Given(dto.email) then dto.email else c.email,
       telefono := if Given(dto.telefono) then dto.telefono else c.telefono)
  }

  /** The client table after the upsert and the client's row index. */
  function UpsertCliente(cs: seq<Cliente>, dto: ClienteDto): (r: (seq<Cliente>, nat))
    ensures r.1 < |r.0|
  {
    match FindCliente(cs, dto)
    case None => (cs + [Cliente(dto.nombre, dto.identificacion, dto.email, dto.telefono)], |cs|)
    case Some(i) => (cs[i := MergeCliente(cs[i], dto)], i)
  }

  /**
   * A client that is not found is appended with the record's fields; a
   * client that is found keeps its place, and the other clients are
   * untouched.
   */
  lemma UpsertClienteRows(cs: seq<Cliente>, dto: ClienteDto)
    ensures var (cs', i) := UpsertCliente(cs, dto);
            FindCliente(cs, dto).None? ==>
              cs' == cs + [Cliente(dto.nombre, dto.identificacion, dto.email, dto.telefono)] && i == |cs|
    ensures var (cs', i) := UpsertCliente(cs, dto);
            FindCliente(cs, dto).Some? ==>
              |cs'| == |cs| && i == FindCliente(cs, dto).value
              && cs'[i] == MergeCliente(cs[i], dto)
              && forall j :: 0 <= j < |cs| && j != i ==> cs'[j] == cs[j]
  {
  }

  /** Merging the same record twice is merging it once. */
  lemma MergeClienteIdempotent(c: Cliente, dto: ClienteDto)
    ensures MergeCliente(MergeCliente(c, dto), dto) == MergeCliente(c, dto)
  {
  }

  /** Upserting the same client again finds the same row and changes nothing. */
  lemma UpsertClienteIdempotent(cs: seq<Cliente>, dto: ClienteDto)
    ensures var (cs', i) := UpsertCliente(cs, dto);
            UpsertCliente(cs', dto) == (cs', i)
  {
    var (cs', i) := UpsertCliente(cs, dto);
    var byId := HasId(dto.identificacion);
    var byName := HasName(dto.nombre);
    match FindCliente(cs, dto)
    case None =>
      var c := Cliente(dto.nombre, dto.identificacion, dto.email, dto.telefono);
      assert cs' == cs + [c] && i == |cs|;
      FirstAppend(cs, c, byName);
      if Given(dto.identificacion) {
        FirstAppend(cs, c, byId);
      }
      assert FindCliente(cs', dto) == Some(i);
      assert MergeCliente(c, dto) == c;
      assert cs'[i := c] == cs';
    case Some(k) =>
      var m := MergeCliente(cs[k], dto);
      assert cs' == cs[k := m] && i == k;
      FirstUpdate(cs, k, m, byId);
      if !Given(dto.identificacion) || ClienteById(cs, dto.identificacion).None? {
        assert cs[k].nombre == dto.nombre;
        assert m.nombre == dto.nombre;
        FirstUpdate(cs, k, m, byName);
      }
      assert FindCliente(cs', dto) == Some(k);
      MergeClienteIdempotent(cs[k], dto);
      assert cs'[k] == m;
      assert cs'[k := MergeCliente(m, dto)] == cs';
  }

  // ---------------------------------------------------------------------
  // Employees (the block of the sale loop that resolves the seller)

  /** The first employee with the given user id. */
  function EmpleadoByUser(es: seq<Empleado>, user: string): Option<nat> {
    First(es, HasUser(user))
  }

  function HasUser(user: string): (p: Empleado -> bool)
    ensures forall e :: p(e) <==> e.usuarioIdIdentity == user
  {
    (e: Empleado) => e.usuarioIdIdentity == user
  }

  function WorksAt(nombre: string, almacen: string): (p: Empleado -> bool)
    ensures forall e :: p(e) <==> e.nombres == nombre && e.almacen == Some(almacen)
  {
    (e: Empleado) => e.nombres == nombre && e.almacen == Some(almacen)
  }

  /** The first employee with the given name in the given warehouse. */
  function EmpleadoByName(es: seq<Empleado>, nombre: string, almacen: string): Option<nat> {
    First(es, WorksAt(nombre, almacen))
  }

  /** The record gives a user id and some employee has it. */
  predicate UserListed(es: seq<Empleado>, user: Option<string>) {
    Given(user) && exists j :: 0 <= j < |es| && es[j].usuarioIdIdentity == user.value
  }

  /**
   * The employee table and the seller's row index: by user id when the
   * record gives one; failing that, by name within the warehouse, created
   * when missing (with the record's user id or, when it has none, the given
   * fresh id); no seller when the record has no usable name.
   */
  function ResolveEmpleado(es: seq<Empleado>, e: Option<EmpleadoDto>, almacen: string, guid: string)
    : (r: (seq<Empleado>, Option<nat>))
    ensures r.1.Some? ==> r.1.value < |r.0|
    ensures e.None? ==> r == (es, None)
    ensures e.Some? && UserListed(es, e.value.usuarioIdIdentity) ==>
              var u := e.value.usuarioIdIdentity.value;
              r.0 == es && r.1.Some? && es[r.1.value].usuarioIdIdentity == u
              && forall j :: 0 <= j < r.1.value ==> es[j].usuarioIdIdentity != u
    ensures e.Some? && !UserListed(es, e.value.usuarioIdIdentity) && Blank(e.value.nombre) ==> r == (es, None)
    ensures e.Some? && !UserListed(es, e.value.usuarioIdIdentity) && !Blank(e.value.nombre)
            && (exists j :: 0 <= j < |es| && es[j].nombres == e.value.nombre && es[j].almacen == Some(almacen)) ==>
              r.0 == es && r.1.Some? && es[r.1.value].nombres == e.value.nombre && es[r.1.value].almacen == Some(almacen)
              && forall j :: 0 <= j < r.1.value ==> !(es[j].nombres == e.value.nombre && es[j].almacen == Some(almacen))
    ensures e.Some? && !UserListed(es, e.value.usuarioIdIdentity) && !Blank(e.value.nombre)
            && (forall j :: 0 <= j < |es| ==> !(es[j].nombres == e.value.nombre && es[j].almacen == Some(almacen))) ==>
              r == (es + [Empleado(e.value.usuarioIdIdentity.GetOr(guid), e.value.nombre, Some(almacen))], Some(|es|))
  {
    if e.None? then (es, None)
    else
      var dto := e.value;
      var byUser := if Given(dto.usuarioIdIdentity) then EmpleadoByUser(es, dto.usuarioIdIdentity.value) else None;
      if byUser.Some? then (es, byUser)
      else if Blank(dto.nombre) then (es, None)
      else match EmpleadoByName(es, dto.nombre, almacen)
           case Some(i) => (es, Some(i))
           case None => (es + [Empleado(dto.usuarioIdIdentity.GetOr(guid), dto.nombre, Some(almacen))], Some(|es|))
  }

  /** An employee is only ever appended, never changed. */
  lemma ResolveEmpleadoAppends(es: seq<Empleado>, e: Option<EmpleadoDto>, almacen: string, guid: string)
    ensures var (es', _) := ResolveEmpleado(es, e, almacen, guid);
            es' == es || (e.Some? && !Blank(e.value.nombre) &&
                          es' == es + [Empleado(e.value.usuarioIdIdentity.GetOr(guid), e.value.nombre, Some(almacen))])
  {
  }

  /** Resolving the same seller again, whatever the fresh id, finds the same row and adds none. */
  lemma ResolveEmpleadoIdempotent(es: seq<Empleado>, e: Option<EmpleadoDto>, almacen: string,
                                  guid: string, guid': string)
    ensures var (es', i) := ResolveEmpleado(es, e, almacen, guid);
            ResolveEmpleado(es', e, almacen, guid') == (es', i)
  {
    if e.Some? {
      var dto := e.value;
      var byUser := if Given(dto.usuarioIdIdentity) then EmpleadoByUser(es, dto.usuarioIdIdentity.value) else None;
      if byUser.None? && !Blank(dto.nombre) && EmpleadoByName(es, dto.nombre, almacen).None? {
        var n := Empleado(dto.usuarioIdIdentity.GetOr(guid), dto.nombre, Some(almacen));
        FirstAppend(es, n, WorksAt(dto.nombre, almacen));
        assert EmpleadoByName(es + [n], dto.nombre, almacen) == Some(|es|);
        if Given(dto.usuarioIdIdentity) {
          FirstAppend(es, n, HasUser(dto.usuarioIdIdentity.value));
          assert EmpleadoByUser(es + [n], dto.usuarioIdIdentity.value) == Some(|es|);
        }
      }
    }
  }

  // ---------------------------------------------------------------------
  // Payment methods (UpsertMetodoPagoAsync)

  /** The method a payment names: its name, or "Efectivo" when the name is blank. */
  function MethodKey(nombre: string): (k: string)
    ensures !Blank(k)
    ensures !Blank(nombre) ==> k == nombre
  {
    if Blank(nombre) then "Efectivo" else nombre
  }

  /** The method table after the upsert: a new method is added, an existing one is left as it is. */
  function UpsertMetodo(ms: map<string, bool>, nombre: string): (r: map<string, bool>)
    ensures r.Keys == ms.Keys + {MethodKey(nombre)}
    ensures forall k :: k in ms ==> r[k] == ms[k]
  {
    var n := MethodKey(nombre);
    if n in ms then ms else ms[n := EqualsIgnoreCase(n, "Efectivo")]
  }

  /** A new method gives change exactly when its name is "Efectivo" up to case. */
  lemma UpsertMetodoNew(ms: map<string, bool>, nombre: string)
    requires MethodKey(nombre) !in ms
    ensures UpsertMetodo(ms, nombre)[MethodKey(nombre)] <==> EqualsIgnoreCase(MethodKey(nombre), "Efectivo")
  {
  }

  /** A blank name is the cash method, which gives change. */
  lemma BlankMethodIsCash(ms: map<string, bool>, nombre: string)
    requires Blank(nombre) && "Efectivo" !in ms
    ensures MethodKey(nombre) == "Efectivo" && UpsertMetodo(ms, nombre)["Efectivo"]
  {
  }

  /** The methods of a payment list, added one after another. */
  function UpsertMetodos(ms: map<string, bool>, pagos: seq<VentaPagoDto>): (r: map<string, bool>)
    ensures ms.Keys <= r.Keys
    ensures forall k :: k in ms ==> r[k] == ms[k]
  {
    if pagos == [] then ms
    else UpsertMetodo(UpsertMetodos(ms, pagos[..|pagos| - 1]), pagos[|pagos| - 1].metodo)
  }

  /** How many of the methods were new. */
  function MetodoInserts(ms: map<string, bool>, pagos: seq<VentaPagoDto>): nat {
    if pagos == [] then 0
    else
      var before := UpsertMetodos(ms, pagos[..|pagos| - 1]);
      MetodoInserts(ms, pagos[..|pagos| - 1]) + (if MethodKey(pagos[|pagos| - 1].metodo) in before then 0 else 1)
  }

  /** Every method of the list is in the table afterwards. */
  lemma {:induction false} UpsertMetodosHas(ms: map<string, bool>, pagos: seq<VentaPagoDto>)
    ensures forall p :: p in pagos ==> MethodKey(p.metodo) in UpsertMetodos(ms, pagos)
    decreases |pagos|
  {
    if pagos != [] {
      var pre := pagos[..|pagos| - 1];
      UpsertMetodosHas(ms, pre);
      assert forall p :: p in pagos ==> p in pre || p == pagos[|pagos| - 1];
    }
  }

  /** The count is the number of methods added to the table. */
  lemma {:induction false} UpsertMetodosCount(ms: map<string, bool>, pagos: seq<VentaPagoDto>)
    ensures |UpsertMetodos(ms, pagos).Keys| == |ms.Keys| + MetodoInserts(ms, pagos)
    decreases |pagos|
  {
    if pagos != [] {
      var pre := pagos[..|pagos| - 1];
      UpsertMetodosCount(ms, pre);
      var before := UpsertMetodos(ms, pre);
      var k := MethodKey(pagos[|pagos| - 1].metodo);
      if k !in before {
        assert UpsertMetodos(ms, pagos).Keys == before.Keys + {k};
        assert |before.Keys + {k}| == |before.Keys| + 1;
      } else {
        assert UpsertMetodos(ms, pagos).Keys == before.Keys;
      }
    }
  }

  /** A list whose methods are all known changes nothing and adds none. */
  lemma {:induction false} UpsertMetodosKnown(ms: map<string, bool>, pagos: seq<VentaPagoDto>)
    requires forall p :: p in pagos ==> MethodKey(p.metodo) in ms
    ensures UpsertMetodos(ms, pagos) == ms && MetodoInserts(ms, pagos) == 0
    decreases |pagos|
  {
    if pagos != [] {
      var pre := pagos[..|pagos| - 1];
      assert forall p :: p in pre ==> p in pagos;
      assert pagos[|pagos| - 1] in pagos;
      UpsertMetodosKnown(ms, pre);
    }
  }

  /** Adding the methods of the same payments again changes nothing and adds none. */
  lemma UpsertMetodosIdempotent(ms: map<string, bool>, pagos: seq<VentaPagoDto>)
    ensures UpsertMetodos(UpsertMetodos(ms, pagos), pagos) == UpsertMetodos(ms, pagos)
    ensures MetodoInserts(UpsertMetodos(ms, pagos), pagos) == 0
  {
    UpsertMetodosHas(ms, pagos);
    UpsertMetodosKnown(UpsertMetodos(ms, pagos), pagos);
  }

  // ---------------------------------------------------------------------
  // Products (UpsertProductoAsync)

  /** A product created from a record: its price defaults to 0. */
  function NewProducto(d: ProductoDto): Producto {
    Producto(d.nombre, d.categoria, d.precioVenta.GetOr(0.0))
  }

  /** An existing product takes the record's non-blank name, given category and given price. */
  function MergeProducto(p: Producto, d: ProductoDto): Producto {
    p.(nombre := if !Blank(d.nombre) then d.nombre else p.nombre,
       categoria := if d.categoria.Some? then d.categoria else p.categoria,
       precioVenta := if d.precioVenta.Some? then d.precioVenta.value else p.precioVenta)
  }

  /** The product table after the upsert keyed by the record's code. */
  function UpsertProducto(ps: map<string, Producto>, d: ProductoDto): (r: map<string, Producto>)
    ensures r.Keys == ps.Keys + {d.codigo}
    ensures forall c :: c in ps && c != d.codigo ==> r[c] == ps[c]
  {
    if d.codigo in ps then ps[d.codigo := MergeProducto(ps[d.codigo], d)] else ps[d.codigo := NewProducto(d)]
  }

  /**
   * A new code gets the record's name and category and its price or 0; a
   * known code changes a field only to a value the record gives (a
   * non-blank name, a category, a price), and always does when it gives one.
   */
  lemma UpsertProductoRule(ps: map<string, Producto>, d: ProductoDto)
    ensures var r := UpsertProducto(ps, d)[d.codigo];
            d.codigo !in ps ==> r.nombre == d.nombre && r.categoria == d.categoria
                                && r.precioVenta == (if d.precioVenta.Some? then d.precioVenta.value else 0.0)
    ensures var r := UpsertProducto(ps, d)[d.codigo];
            d.codigo in ps ==>
              (r.nombre == ps[d.codigo].nombre || (!Blank(d.nombre) && r.nombre == d.nombre))
              && (!Blank(d.nombre) ==> r.nombre == d.nombre)
              && (r.categoria == ps[d.codigo].categoria || r.categoria == d.categoria)
              && (d.categoria.Some? ==> r.categoria == d.categoria)
              && (r.precioVenta == ps[d.codigo].precioVenta || Some(r.precioVenta) == d.precioVenta)
              && (d.precioVenta.Some? ==> r.precioVenta == d.precioVenta.value)
  {
  }

  /** The products of a sale's lines, upserted one after another. */
  function UpsertProductos(ps: map<string, Producto>, ds: seq<VentaDetDto>): (r: map<string, Producto>)
    ensures ps.Keys <= r.Keys
  {
    if ds == [] then ps
    else UpsertProducto(UpsertProductos(ps, ds[..|ds| - 1]), ds[|ds| - 1].producto)
  }

  /** How many of the products were new (ProductosUpsert). */
  function ProductoInserts(ps: map<string, Producto>, ds: seq<VentaDetDto>): nat {
    if ds == [] then 0
    else
      var before := UpsertProductos(ps, ds[..|ds| - 1]);
      ProductoInserts(ps, ds[..|ds| - 1]) + (if ds[|ds| - 1].producto.codigo in before then 0 else 1)
  }

  /** Every product of the lines is in the table afterwards. */
  lemma {:induction false} UpsertProductosHas(ps: map<string, Producto>, ds: seq<VentaDetDto>)
    ensures forall d :: d in ds ==> d.producto.codigo in UpsertProductos(ps, ds)
    decreases |ds|
  {
    if ds != [] {
      var pre := ds[..|ds| - 1];
      UpsertProductosHas(ps, pre);
      assert forall d :: d in ds ==> d in pre || d == ds[|ds| - 1];
    }
  }

  /** ProductosUpsert counts exactly the codes added to the table. */
  lemma {:induction false} UpsertProductosCount(ps: map<string, Producto>, ds: seq<VentaDetDto>)
    ensures |UpsertProductos(ps, ds).Keys| == |ps.Keys| + ProductoInserts(ps, ds)
    decreases |ds|
  {
    if ds != [] {
      var pre := ds[..|ds| - 1];
      UpsertProductosCount(ps, pre);
      var before := UpsertProductos(ps, pre);
      var k := ds[|ds| - 1].producto.codigo;
      if k !in before {
        assert UpsertProductos(ps, ds).Keys == before.Keys + {k};
        assert |before.Keys + {k}| == |before.Keys| + 1;
      } else {
        assert UpsertProductos(ps, ds).Keys == before.Keys;
      }
    }
  }

  /** Lines whose products are all known add no product. */
  lemma {:induction false} UpsertProductosKnown(ps: map<string, Producto>, ds: seq<VentaDetDto>)
    requires forall d :: d in ds ==> d.producto.codigo in ps
    ensures ProductoInserts(ps, ds) == 0
    decreases |ds|
  {
    if ds != [] {
      var pre := ds[..|ds| - 1];
      assert forall d :: d in pre ==> d in ds;
      assert ds[|ds| - 1] in ds;
      UpsertProductosKnown(ps, pre);
    }
  }

  // One field of one product, written by the records that give a value for it.

  /** The value of a field after the writes ws: the last value given, or x when none gives one. */
  function Reg<V, D>(x: V, ws: seq<D>, w: D -> Option<V>): V {
    if ws == [] then x
    else
      var o := w(ws[|ws| - 1]);
      if o.Some? then o.value else Reg(x, ws[..|ws| - 1], w)
  }

  lemma {:induction false} RegIdempotent<V, D>(x: V, ws: seq<D>, w: D -> Option<V>)
    ensures Reg(Reg(x, ws, w), ws, w) == Reg(x, ws, w)
    decreases |ws|
  {
    if ws != [] && w(ws[|ws| - 1]).None? {
      RegIdempotent(x, ws[..|ws| - 1], w);
    }
  }

  lemma {:induction false} RegFront<V, D>(x: V, z: D, ws: seq<D>, w: D -> Option<V>)
    ensures Reg(x, [z] + ws, w) == Reg(if w(z).Some? then w(z).value else x, ws, w)
    decreases |ws|
  {
    if ws != [] {
      assert ([z] + ws)[..|ws|] == [z] + ws[..|ws| - 1];
      RegFront(x, z, ws[..|ws| - 1], w);
    }
  }

  /**
   * A field first set by a record's own value and then written by the rest
   * of the records is not changed by writing all the records again.
   */
  lemma RegAgain<V, D>(x0: V, z: D, ws: seq<D>, w: D -> Option<V>)
    requires w(z).Some? ==> w(z).value == x0
    ensures Reg(Reg(x0, ws, w), [z] + ws, w) == Reg(x0, ws, w)
  {
    RegFront(Reg(x0, ws, w), z, ws, w);
    RegIdempotent(x0, ws, w);
  }

  function NameWrite(d: ProductoDto): Option<string> {
    if !Blank(d.nombre) then Some(d.nombre) else None
  }

  function CategoriaWrite(d: ProductoDto): Option<Option<string>> {
    if d.categoria.Some? then Some(d.categoria) else None
  }

  function PrecioWrite(d: ProductoDto): Option<real> {
    d.precioVenta
  }

  // One product, upserted by the records with its code.

  function Get(ps: map<string, Producto>, k: string): Option<Producto> {
    if k in ps then Some(ps[k]) else None
  }

  function UpsertOne(o: Option<Producto>, d: ProductoDto): Producto {
    match o
    case None => NewProducto(d)
    case Some(p) => MergeProducto(p, d)
  }

  function KeyFold(o: Option<Producto>, ws: seq<ProductoDto>): Option<Producto> {
    if ws == [] then o else Some(UpsertOne(KeyFold(o, ws[..|ws| - 1]), ws[|ws| - 1]))
  }

  /** The products of the lines with the given code, in line order. */
  function Writes(ds: seq<VentaDetDto>, k: string): seq<ProductoDto> {
    if ds == [] then []
    else
      var ws := Writes(ds[..|ds| - 1], k);
      if ds[|ds| - 1].producto.codigo == k then ws + [ds[|ds| - 1].producto] else ws
  }

  /** Each product of the table is the one-key fold of the lines with its code. */
  lemma {:induction false} KeyWise(ps: map<string, Producto>, ds: seq<VentaDetDto>, k: string)
    ensures Get(UpsertProductos(ps, ds), k) == KeyFold(Get(ps, k), Writes(ds, k))
    decreases |ds|
  {
    if ds != [] {
      var pre := ds[..|ds| - 1];
      KeyWise(ps, pre, k);
      var d := ds[|ds| - 1].producto;
      if d.codigo == k {
        var ws := Writes(pre, k) + [d];
        assert ws[..|ws| - 1] == Writes(pre, k);
      }
    }
  }

  lemma {:induction false} KeyFoldFields(p: Producto, ws: seq<ProductoDto>)
    ensures KeyFold(Some(p), ws) == Some(Producto(Reg(p.nombre, ws, NameWrite),
                                                  Reg(p.categoria, ws, CategoriaWrite),
                                                  Reg(p.precioVenta, ws, PrecioWrite)))
    decreases |ws|
  {
    if ws != [] {
      KeyFoldFields(p, ws[..|ws| - 1]);
    }
  }

  lemma {:induction false} KeyFoldFront(o: Option<Producto>, z: ProductoDto, ws: seq<ProductoDto>)
    ensures KeyFold(o, [z] + ws) == KeyFold(Some(UpsertOne(o, z)), ws)
    decreases |ws|
  {
    if ws == [] {
      assert ([z] + ws)[..0] == [];
    } else {
      assert ([z] + ws)[..|ws|] == [z] + ws[..|ws| - 1];
      KeyFoldFront(o, z, ws[..|ws| - 1]);
    }
  }

  /** Upserting the same records of one product again leaves the product as it is. */
  lemma KeyFoldIdempotent(o: Option<Producto>, ws: seq<ProductoDto>)
    ensures KeyFold(KeyFold(o, ws), ws) == KeyFold(o, ws)
  {
    if ws != [] {
      match o
      case Some(p) =>
        KeyFoldFields(p, ws);
        var q := KeyFold(o, ws).value;
        KeyFoldFields(q, ws);
        RegIdempotent(p.nombre, ws, NameWrite);
        RegIdempotent(p.categoria, ws, CategoriaWrite);
        RegIdempotent(p.precioVenta, ws, PrecioWrite);
      case None =>
        var z := ws[0];
        var rest := ws[1..];
        assert ws == [z] + rest;
        KeyFoldFront(None, z, rest);
        var n := NewProducto(z);
        KeyFoldFields(n, rest);
        var q := KeyFold(o, ws).value;
        KeyFoldFields(q, ws);
        RegAgain(n.nombre, z, rest, NameWrite);
        RegAgain(n.categoria, z, rest, CategoriaWrite);
        RegAgain(n.precioVenta, z, rest, PrecioWrite);
    }
  }

  lemma MapsByGet(a: map<string, Producto>, b: map<string, Producto>)
    requires forall k :: Get(a, k) == Get(b, k)
    ensures a == b
  {
    assert a.Keys == b.Keys by {
      forall k | k in a ensures k in b { assert Get(a, k).Some?; }
      forall k | k in b ensures k in a { assert Get(b, k).Some?; }
    }
    forall k | k in a ensures a[k] == b[k] { assert Get(a, k) == Get(b, k); }
  }

  /**
   * Upserting the products of the same lines again changes no product and
   * adds none, even when several lines name the same product.
   */
  lemma UpsertProductosIdempotent(ps: map<string, Producto>, ds: seq<VentaDetDto>)
    ensures UpsertProductos(UpsertProductos(ps, ds), ds) == UpsertProductos(ps, ds)
    ensures ProductoInserts(UpsertProductos(ps, ds), ds) == 0
  {
    var q := UpsertProductos(ps, ds);
    forall k
      ensures Get(UpsertProductos(q, ds), k) == Get(q, k)
    {
      KeyWise(q, ds, k);
      KeyWise(ps, ds, k);
      KeyFoldIdempotent(Get(ps, k), Writes(ds, k));
    }
    MapsByGet(UpsertProductos(q, ds), q);
    UpsertProductosHas(ps, ds);
    UpsertProductosKnown(q, ds);
  }

  // ---------------------------------------------------------------------
  // Sale headers, lines and payments

  /** The header a sale number and a warehouse identify. */
  function SameSale(numero: string, almacen: string): (p: VentaCab -> bool)
    ensures forall c :: p(c) <==> c.numero == Some(numero) && c.almacen == almacen
  {
    (c: VentaCab) => c.numero == Some(numero) && c.almacen == almacen
  }

  /** The header a sale replaces: only a sale with a number is looked up. */
  function CabMatch(vs: seq<VentaCab>, numero: Option<string>, almacen: string): (r: Option<nat>)
    ensures !Given(numero) ==> r.None?
    ensures r.Some? ==> r.value < |vs| && vs[r.value].numero == numero && vs[r.value].almacen == almacen
  {
    if Given(numero) then First(vs, SameSale(numero.value, almacen)) else None
  }

  /** A line as stored: netted, its category falling back to the product's. */
  function LineRow(d: VentaDetDto): VentaDet {
    VentaDet(d.producto.codigo, d.cantidad, d.precioUnitario, d.descuento,
             LineNet(d.subtotal, d.precioUnitario, d.cantidad, d.descuento),
             if d.categoria.Some? then d.categoria else d.producto.categoria, d.attributes)
  }

  function LineRows(ds: seq<VentaDetDto>): (r: seq<VentaDet>)
    ensures |r| == |ds|
    ensures forall i :: 0 <= i < |ds| ==> r[i] == LineRow(ds[i])
  {
    if ds == [] then [] else LineRows(ds[..|ds| - 1]) + [LineRow(ds[|ds| - 1])]
  }

  /** A payment as stored: its method is the blank-to-cash method name. */
  function PagoRow(p: VentaPagoDto): VentaPago {
    VentaPago(MethodKey(p.metodo), p.monto)
  }

  function PagoRows(ps: seq<VentaPagoDto>): (r: seq<VentaPago>)
    ensures |r| == |ps|
    ensures forall i :: 0 <= i < |ps| ==> r[i] == PagoRow(ps[i])
  {
    if ps == [] then [] else PagoRows(ps[..|ps| - 1]) + [PagoRow(ps[|ps| - 1])]
  }

  /** The nets of stored lines. */
  function Nets(rows: seq<VentaDet>): (r: seq<real>)
    ensures |r| == |rows|
    ensures forall i :: 0 <= i < |rows| ==> r[i] == rows[i].subtotal
  {
    if rows == [] then [] else Nets(rows[..|rows| - 1]) + [rows[|rows| - 1].subtotal]
  }

  /** The date a sale stores: its own, or the given one when the file gave none. */
  function DateOr(fecha: int, other: int): int {
    if fecha == DefaultDate then other else fecha
  }

  /** A new header for a sale, stamped with now when the sale has no date. */
  function NewCab(v: VentaDto, now: int, cliente: Option<nat>, empleado: Option<nat>, almacen: string): VentaCab {
    var rows := LineRows(v.detalles);
    VentaCab(DateOr(v.fecha, now), v.numero, cliente, empleado, almacen, Sum(Nets(rows)), v.observacion,
             rows, PagoRows(v.pagos))
  }

  /**
   * An existing header imported again: it keeps its date when the sale has
   * none, and its client, seller, note, lines, payments and total are replaced.
   */
  function UpdatedCab(c: VentaCab, v: VentaDto, cliente: Option<nat>, empleado: Option<nat>): VentaCab {
    var rows := LineRows(v.detalles);
    c.(fecha := DateOr(v.fecha, c.fecha), cliente := cliente, empleado := empleado,
       observacion := v.observacion, detalles := rows, pagos := PagoRows(v.pagos), total := Sum(Nets(rows)))
  }

  // ---------------------------------------------------------------------
  // One sale of a file

  /** The tables, the counters and the headers touched so far (for materialisation). */
  datatype Session = Session(db: Db, res: Counters, tocadas: set<nat>)

  /** The error a sale without a warehouse adds. */
  function MissingAlmacen(numero: Option<string>): string {
    "Venta " + numero.GetOr("(sin n\U{00FA}mero)") + " sin almac\U{00E9}n."
  }

  function AlmacenPhase(s: Session, a: AlmacenDto): Session {
    s.(db := s.db.(almacenes := UpsertAlmacen(s.db.almacenes, a)),
       res := s.res.(almacenesUpsert := s.res.almacenesUpsert + (if a.codigo in s.db.almacenes then 0 else 1)))
  }

  function ClientePhase(s: Session, c: Option<ClienteDto>): (Session, Option<nat>) {
    match c
    case None => (s, None)
    case Some(dto) =>
      var (cs, i) := UpsertCliente(s.db.clientes, dto);
      (s.(db := s.db.(clientes := cs),
          res := s.res.(clientesUpsert := s.res.clientesUpsert + (if FindCliente(s.db.clientes, dto).None? then 1 else 0))),
       Some(i))
  }

  function EmpleadoPhase(s: Session, e: Option<EmpleadoDto>, almacen: string, guid: string): (Session, Option<nat>) {
    var (es, i) := ResolveEmpleado(s.db.empleados, e, almacen, guid);
    (s.(db := s.db.(empleados := es)), i)
  }

  function ProductosPhase(s: Session, ds: seq<VentaDetDto>): Session {
    s.(db := s.db.(productos := UpsertProductos(s.db.productos, ds)),
       res := s.res.(productosUpsert := s.res.productosUpsert + ProductoInserts(s.db.productos, ds)))
  }

  function MetodosPhase(s: Session, ps: seq<VentaPagoDto>): Session {
    s.(db := s.db.(metodos := UpsertMetodos(s.db.metodos, ps)),
       res := s.res.(metodosPagoUpsert := s.res.metodosPagoUpsert + MetodoInserts(s.db.metodos, ps)))
  }

  /** The header written for a sale: a new one appended and counted, or the matching one replaced. */
  function CabPhase(s: Session, v: VentaDto, now: int, almacen: string, cliente: Option<nat>,
                    empleado: Option<nat>): Session
  {
    var vs := s.db.ventas;
    match CabMatch(vs, v.numero, almacen)
    case None =>
      s.(db := s.db.(ventas := vs + [NewCab(v, now, cliente, empleado, almacen)]),
         res := s.res.(ventasInsertadas := s.res.ventasInsertadas + 1),
         tocadas := s.tocadas + {|vs|})
    case Some(i) =>
      s.(db := s.db.(ventas := vs[i := UpdatedCab(vs[i], v, cliente, empleado)]),
         tocadas := s.tocadas + {i})
  }

  /** A sale has a warehouse when it names one with a non-blank code. */
  predicate HasAlmacen(v: VentaDto) {
    v.almacen.Some? && !Blank(v.almacen.value.codigo)
  }

  /**
   * One iteration of the import loop: a sale without a warehouse only adds
   * an error; otherwise warehouse, client and seller are written in the
   * application's order, then the products of its lines and the methods of
   * its payments, and last its header with the lines and payments it holds.
   * The application adds the header before its lines; the product and
   * method upserts neither read nor write headers, so the result is the same.
   */
  function SaleStep(s: Session, v: VentaDto, now: int, guid: string): Session {
    if !HasAlmacen(v) then s.(res := s.res.(errores := s.res.errores + [MissingAlmacen(v.numero)]))
    else
      var a := v.almacen.value;
      var s1 := AlmacenPhase(s, a);
      var (s2, cli) := ClientePhase(s1, v.cliente);
      var (s3, emp) := EmpleadoPhase(s2, v.empleado, a.codigo, guid);
      var s4 := MetodosPhase(ProductosPhase(s3, v.detalles), v.pagos);
      CabPhase(s4, v, now, a.codigo, cli, emp)
  }

  /** The sales of a file, imported in order; the i-th sale may draw the fresh id guid(i). */
  function SalesStep(s: Session, vs: seq<VentaDto>, now: int, guid: nat -> string): Session {
    if vs == [] then s
    else SaleStep(SalesStep(s, vs[..|vs| - 1], now, guid), vs[|vs| - 1], now, guid(|vs| - 1))
  }

  // ---------------------------------------------------------------------
  // What one sale does

  /** A sale without a warehouse is skipped: it only adds its error, and the tables and the other counters stay. */
  lemma SaleWithoutAlmacen(s: Session, v: VentaDto, now: int, guid: string)
    requires !HasAlmacen(v)
    ensures var r := SaleStep(s, v, now, guid);
            r.db == s.db && r.tocadas == s.tocadas && r.res.(errores := s.res.errores) == s.res
            && r.res.errores == s.res.errores + [MissingAlmacen(v.numero)]
  {
  }

  /** A sale with a warehouse is its phases one after the other. */
  lemma SaleStepPhases(s: Session, v: VentaDto, now: int, guid: string, s1: Session, s2: Session,
                       cli: Option<nat>, s3: Session, emp: Option<nat>, s4: Session, t: set<nat>)
    requires HasAlmacen(v)
    requires s1 == AlmacenPhase(s, v.almacen.value)
    requires (s2, cli) == ClientePhase(s1, v.cliente)
    requires (s3, emp) == EmpleadoPhase(s2, v.empleado, v.almacen.value.codigo, guid)
    requires s4 == MetodosPhase(ProductosPhase(s3, v.detalles), v.pagos)
    ensures SaleStep(s.(tocadas := t), v, now, guid) == CabPhase(s4.(tocadas := t), v, now, v.almacen.value.codigo, cli, emp)
  {
  }

  /** The message names the sale's number, or says it has none. */
  lemma MissingAlmacenText(numero: Option<string>)
    ensures numero.None? ==> MissingAlmacen(numero) == "Venta (sin n\U{00FA}mero) sin almac\U{00E9}n."
    ensures numero.Some? ==> MissingAlmacen(numero) == "Venta " + numero.value + " sin almac\U{00E9}n."
  {
  }

  /** The row of the header a sale writes: the one it matches, or a new last one. */
  function SaleCab(s: Session, v: VentaDto): nat
    requires HasAlmacen(v)
  {
    match CabMatch(s.db.ventas, v.numero, v.almacen.value.codigo)
    case None => |s.db.ventas|
    case Some(i) => i
  }

  /**
   * A sale with a warehouse writes exactly one header, which it marks as
   * touched: its lines and payments are the sale's own, its total is the
   * sum of its lines' nets, its date is the sale's when it has one; the
   * header is new (and counted) exactly when no header has the sale's
   * number in that warehouse, which is always the case for a sale without
   * a number. No other header changes.
   */
  lemma SaleStepHeader(s: Session, v: VentaDto, now: int, guid: string)
    requires HasAlmacen(v)
    ensures var r := SaleStep(s, v, now, guid);
            var i := SaleCab(s, v);
            var c := r.db.ventas[i];
            i < |r.db.ventas| && r.tocadas == s.tocadas + {i}
            && c.detalles == LineRows(v.detalles) && c.pagos == PagoRows(v.pagos)
            && c.total == Sum(Nets(c.detalles))
            && c.numero == v.numero && c.almacen == v.almacen.value.codigo && c.observacion == v.observacion
            && (v.fecha != DefaultDate ==> c.fecha == v.fecha)
            && (forall j :: 0 <= j < |s.db.ventas| && j != i ==> r.db.ventas[j] == s.db.ventas[j])
    ensures var r := SaleStep(s, v, now, guid);
            var isNew := CabMatch(s.db.ventas, v.numero, v.almacen.value.codigo).None?;
            (isNew ==> |r.db.ventas| == |s.db.ventas| + 1 && r.res.ventasInsertadas == s.res.ventasInsertadas + 1
                       && (v.fecha == DefaultDate ==> r.db.ventas[SaleCab(s, v)].fecha == now))
            && (!isNew ==> |r.db.ventas| == |s.db.ventas| && r.res.ventasInsertadas == s.res.ventasInsertadas
                           && (v.fecha == DefaultDate ==>
                                 r.db.ventas[SaleCab(s, v)].fecha == s.db.ventas[SaleCab(s, v)].fecha))
    ensures !Given(v.numero) ==> |SaleStep(s, v, now, guid).db.ventas| == |s.db.ventas| + 1
  {
  }

  // ---------------------------------------------------------------------
  // The counters follow the tables

  /**
   * Since the start of a run from base, every table has only grown, each
   * insert counter is the number of rows its table gained, and every
   * touched header exists.
   */
  predicate Tracks(base: Db, s: Session) {
    TablesTrack(base, s) && HeadersTrack(base, s)
  }

  predicate TablesTrack(base: Db, s: Session) {
    base.productos.Keys <= s.db.productos.Keys
    && |s.db.productos.Keys| == |base.productos.Keys| + s.res.productosUpsert
    && base.almacenes.Keys <= s.db.almacenes.Keys
    && |s.db.almacenes.Keys| == |base.almacenes.Keys| + s.res.almacenesUpsert
    && base.metodos.Keys <= s.db.metodos.Keys
    && |s.db.metodos.Keys| == |base.metodos.Keys| + s.res.metodosPagoUpsert
    && |base.clientes| <= |s.db.clientes| && |s.db.clientes| == |base.clientes| + s.res.clientesUpsert
    && |base.empleados| <= |s.db.empleados|
  }

  predicate HeadersTrack(base: Db, s: Session) {
    |base.ventas| <= |s.db.ventas| && |s.db.ventas| == |base.ventas| + s.res.ventasInsertadas
    && (forall i :: i in s.tocadas ==> i < |s.db.ventas|)
  }

  lemma AlmacenPhaseTracks(base: Db, s: Session, a: AlmacenDto)
    requires Tracks(base, s)
    ensures Tracks(base, AlmacenPhase(s, a))
  {
    if a.codigo !in s.db.almacenes {
      assert UpsertAlmacen(s.db.almacenes, a).Keys == s.db.almacenes.Keys + {a.codigo};
    } else {
      assert UpsertAlmacen(s.db.almacenes, a).Keys == s.db.almacenes.Keys;
    }
  }

  lemma ClientePhaseTracks(base: Db, s: Session, c: Option<ClienteDto>)
    requires Tracks(base, s)
    ensures Tracks(base, ClientePhase(s, c).0)
  {
    if c.Some? {
      UpsertClienteRows(s.db.clientes, c.value);
    }
  }

  lemma ProductosPhaseTracks(base: Db, s: Session, ds: seq<VentaDetDto>)
    requires Tracks(base, s)
    ensures Tracks(base, ProductosPhase(s, ds))
  {
    UpsertProductosCount(s.db.productos, ds);
  }

  lemma MetodosPhaseTracks(base: Db, s: Session, ps: seq<VentaPagoDto>)
    requires Tracks(base, s)
    ensures Tracks(base, MetodosPhase(s, ps))
  {
    UpsertMetodosCount(s.db.metodos, ps);
  }

  lemma EmpleadoPhaseTracks(base: Db, s: Session, e: Option<EmpleadoDto>, almacen: string, guid: string)
    requires Tracks(base, s)
    ensures Tracks(base, EmpleadoPhase(s, e, almacen, guid).0)
  {
    ResolveEmpleadoAppends(s.db.empleados, e, almacen, guid);
  }

  /** A header write changes only the headers, the header counter and the touched set. */
  lemma CabPhaseShape(s: Session, v: VentaDto, now: int, almacen: string, cliente: Option<nat>,
                      empleado: Option<nat>)
    ensures var r := CabPhase(s, v, now, almacen, cliente, empleado);
            r.db == s.db.(ventas := r.db.ventas) && r.res == s.res.(ventasInsertadas := r.res.ventasInsertadas)
            && ((|r.db.ventas| == |s.db.ventas| + 1 && r.res.ventasInsertadas == s.res.ventasInsertadas + 1
                 && r.tocadas == s.tocadas + {|s.db.ventas|})
                || (|r.db.ventas| == |s.db.ventas| && r.res.ventasInsertadas == s.res.ventasInsertadas
                    && exists i :: i < |s.db.ventas| && r.tocadas == s.tocadas + {i}))
  {
    match CabMatch(s.db.ventas, v.numero, almacen)
    case None =>
    case Some(i) =>
      var r := CabPhase(s, v, now, almacen, cliente, empleado);
      assert i < |s.db.ventas| && r.tocadas == s.tocadas + {i};
  }

  lemma HeaderWriteTracks(base: Db, s: Session, r: Session)
    requires Tracks(base, s)
    requires r.db == s.db.(ventas := r.db.ventas) && r.res == s.res.(ventasInsertadas := r.res.ventasInsertadas)
    requires (|r.db.ventas| == |s.db.ventas| + 1 && r.res.ventasInsertadas == s.res.ventasInsertadas + 1
              && r.tocadas == s.tocadas + {|s.db.ventas|})
             || (|r.db.ventas| == |s.db.ventas| && r.res.ventasInsertadas == s.res.ventasInsertadas
                 && exists i :: i < |s.db.ventas| && r.tocadas == s.tocadas + {i})
    ensures Tracks(base, r)
  {
  }

  lemma CabPhaseTracks(base: Db, s: Session, v: VentaDto, now: int, almacen: string, cliente: Option<nat>,
                       empleado: Option<nat>)
    requires Tracks(base, s)
    ensures Tracks(base, CabPhase(s, v, now, almacen, cliente, empleado))
  {
    CabPhaseShape(s, v, now, almacen, cliente, empleado);
    HeaderWriteTracks(base, s, CabPhase(s, v, now, almacen, cliente, empleado));
  }

  /** Importing one sale keeps the counters in step with the tables. */
  lemma SaleStepTracks(base: Db, s: Session, v: VentaDto, now: int, guid: string)
    requires Tracks(base, s)
    ensures Tracks(base, SaleStep(s, v, now, guid))
  {
    if HasAlmacen(v) {
      var a := v.almacen.value;
      var s1 := AlmacenPhase(s, a);
      AlmacenPhaseTracks(base, s, a);
      var (s2, cli) := ClientePhase(s1, v.cliente);
      ClientePhaseTracks(base, s1, v.cliente);
      var (s3, emp) := EmpleadoPhase(s2, v.empleado, a.codigo, guid);
      EmpleadoPhaseTracks(base, s2, v.empleado, a.codigo, guid);
      ProductosPhaseTracks(base, s3, v.detalles);
      MetodosPhaseTracks(base, ProductosPhase(s3, v.detalles), v.pagos);
      var s4 := MetodosPhase(ProductosPhase(s3, v.detalles), v.pagos);
      CabPhaseTracks(base, s4, v, now, a.codigo, cli, emp);
    }
  }

  /** Importing a run of sales keeps the counters in step with the tables. */
  lemma {:induction false} SalesStepTracks(base: Db, s: Session, vs: seq<VentaDto>, now: int, guid: nat -> string)
    requires Tracks(base, s)
    ensures Tracks(base, SalesStep(s, vs, now, guid))
    decreases |vs|
  {
    if vs != [] {
      SalesStepTracks(base, s, vs[..|vs| - 1], now, guid);
      SaleStepTracks(base, SalesStep(s, vs[..|vs| - 1], now, guid), vs[|vs| - 1], now, guid(|vs| - 1));
    }
  }

  /** The run reports one error per sale without a warehouse, and no other. */
  function Skipped(vs: seq<VentaDto>): (r: seq<string>)
    ensures |r| <= |vs|
  {
    if vs == [] then []
    else
      var v := vs[|vs| - 1];
      Skipped(vs[..|vs| - 1]) + (if HasAlmacen(v) then [] else [MissingAlmacen(v.numero)])
  }

  lemma {:induction false} SalesStepErrors(s: Session, vs: seq<VentaDto>, now: int, guid: nat -> string)
    ensures SalesStep(s, vs, now, guid).res.errores == s.res.errores + Skipped(vs)
    decreases |vs|
  {
    if vs != [] {
      var pre := vs[..|vs| - 1];
      SalesStepErrors(s, pre, now, guid);
      var t := SalesStep(s, pre, now, guid);
      var v := vs[|vs| - 1];
      if HasAlmacen(v) {
        var a := v.almacen.value;
        var s1 := AlmacenPhase(t, a);
        var (s2, cli) := ClientePhase(s1, v.cliente);
        var (s3, emp) := EmpleadoPhase(s2, v.empleado, a.codigo, guid(|vs| - 1));
        assert s3.res.errores == t.res.errores;
      }
    }
  }

  /** Sales that all have a warehouse add no error. */
  lemma {:induction false} SkippedNone(vs: seq<VentaDto>)
    requires forall v :: v in vs ==> HasAlmacen(v)
    ensures Skipped(vs) == []
    decreases |vs|
  {
    if vs != [] {
      assert forall v :: v in vs[..|vs| - 1] ==> v in vs;
      assert vs[|vs| - 1] in vs;
      SkippedNone(vs[..|vs| - 1]);
    }
  }

  // ---------------------------------------------------------------------
  // Importing a numbered sale again

  lemma AlmacenPhaseAgain(t: Session, als: map<string, string>, a: AlmacenDto)
    requires t.db.almacenes == UpsertAlmacen(als, a)
    ensures AlmacenPhase(t, a) == t
  {
    UpsertAlmacenIdempotent(als, a);
  }

  lemma ClientePhaseAgain(t: Session, cs: seq<Cliente>, c: Option<ClienteDto>)
    requires c.Some? ==> t.db.clientes == UpsertCliente(cs, c.value).0
    ensures ClientePhase(t, c) == (t, if c.Some? then Some(UpsertCliente(cs, c.value).1) else None)
  {
    if c.Some? {
      UpsertClienteIdempotent(cs, c.value);
      UpsertClienteRows(t.db.clientes, c.value);
      assert FindCliente(t.db.clientes, c.value).Some?;
    }
  }

  lemma EmpleadoPhaseAgain(t: Session, es: seq<Empleado>, e: Option<EmpleadoDto>, almacen: string,
                           guid: string, guid': string)
    requires t.db.empleados == ResolveEmpleado(es, e, almacen, guid).0
    ensures EmpleadoPhase(t, e, almacen, guid') == (t, ResolveEmpleado(es, e, almacen, guid).1)
  {
    ResolveEmpleadoIdempotent(es, e, almacen, guid, guid');
  }

  lemma ProductosPhaseAgain(t: Session, ps: map<string, Producto>, ds: seq<VentaDetDto>)
    requires t.db.productos == UpsertProductos(ps, ds)
    ensures ProductosPhase(t, ds) == t
  {
    UpsertProductosIdempotent(ps, ds);
  }

  lemma MetodosPhaseAgain(t: Session, ms: map<string, bool>, pagos: seq<VentaPagoDto>)
    requires t.db.metodos == UpsertMetodos(ms, pagos)
    ensures MetodosPhase(t, pagos) == t
  {
    UpsertMetodosIdempotent(ms, pagos);
  }

  /** Rewriting a header from the same sale leaves it as it is. */
  lemma UpdatedCabAgain(c: VentaCab, v: VentaDto, cliente: Option<nat>, empleado: Option<nat>)
    ensures var u := UpdatedCab(c, v, cliente, empleado);
            UpdatedCab(u, v, cliente, empleado) == u && u.numero == c.numero && u.almacen == c.almacen
  {
  }

  lemma UpdatedNewCab(v: VentaDto, now: int, cliente: Option<nat>, empleado: Option<nat>, almacen: string)
    ensures var n := NewCab(v, now, cliente, empleado, almacen);
            UpdatedCab(n, v, cliente, empleado) == n
  {
  }

  lemma CabAgainNew(t: Session, vs: seq<VentaCab>, v: VentaDto, now: int, now': int, almacen: string,
                    cliente: Option<nat>, empleado: Option<nat>)
    requires Given(v.numero) && CabMatch(vs, v.numero, almacen).None?
    requires t.db.ventas == vs + [NewCab(v, now, cliente, empleado, almacen)] && |vs| in t.tocadas
    ensures CabPhase(t, v, now', almacen, cliente, empleado) == t
  {
    var n := NewCab(v, now, cliente, empleado, almacen);
    FirstAppend(vs, n, SameSale(v.numero.value, almacen));
    assert CabMatch(t.db.ventas, v.numero, almacen) == Some(|vs|);
    UpdatedNewCab(v, now, cliente, empleado, almacen);
    assert t.db.ventas[|vs| := n] == t.db.ventas;
  }

  lemma CabAgainUpdated(t: Session, vs: seq<VentaCab>, i: nat, v: VentaDto, now': int, almacen: string,
                        cliente: Option<nat>, empleado: Option<nat>)
    requires Given(v.numero) && CabMatch(vs, v.numero, almacen) == Some(i)
    requires t.db.ventas == vs[i := UpdatedCab(vs[i], v, cliente, empleado)] && i in t.tocadas
    ensures CabPhase(t, v, now', almacen, cliente, empleado) == t
  {
    var u := UpdatedCab(vs[i], v, cliente, empleado);
    UpdatedCabAgain(vs[i], v, cliente, empleado);
    FirstUpdate(vs, i, u, SameSale(v.numero.value, almacen));
    assert CabMatch(t.db.ventas, v.numero, almacen) == Some(i);
    assert t.db.ventas[i := u] == t.db.ventas;
  }

  /** Writing a numbered sale's header again finds the header it wrote and leaves it as it is. */
  lemma CabPhaseAgain(t: Session, s: Session, v: VentaDto, now: int, now': int, almacen: string,
                      cliente: Option<nat>, empleado: Option<nat>)
    requires Given(v.numero)
    requires var r := CabPhase(s, v, now, almacen, cliente, empleado);
             t.db.ventas == r.db.ventas && r.tocadas <= t.tocadas
    ensures CabPhase(t, v, now', almacen, cliente, empleado) == t
  {
    match CabMatch(s.db.ventas, v.numero, almacen)
    case None =>
      CabAgainNew(t, s.db.ventas, v, now, now', almacen, cliente, empleado);
    case Some(i) =>
      CabAgainUpdated(t, s.db.ventas, i, v, now', almacen, cliente, empleado);
  }

  /**
   * The importer's idempotence: importing a numbered sale with a warehouse
   * a second time, at any time and with any fresh id, finds every row the
   * first import wrote, changes nothing and counts nothing.
   */
  lemma SaleStepIdempotent(s: Session, v: VentaDto, now: int, now': int, guid: string, guid': string)
    requires HasAlmacen(v) && Given(v.numero)
    ensures SaleStep(SaleStep(s, v, now, guid), v, now', guid') == SaleStep(s, v, now, guid)
  {
    var a := v.almacen.value;
    var s1 := AlmacenPhase(s, a);
    var (s2, cli) := ClientePhase(s1, v.cliente);
    var (s3, emp) := EmpleadoPhase(s2, v.empleado, a.codigo, guid);
    var s4 := ProductosPhase(s3, v.detalles);
    var s5 := MetodosPhase(s4, v.pagos);
    var t := CabPhase(s5, v, now, a.codigo, cli, emp);
    AlmacenPhaseAgain(t, s.db.almacenes, a);
    ClientePhaseAgain(t, s1.db.clientes, v.cliente);
    EmpleadoPhaseAgain(t, s2.db.empleados, v.empleado, a.codigo, guid, guid');
    ProductosPhaseAgain(t, s3.db.productos, v.detalles);
    MetodosPhaseAgain(t, s4.db.metodos, v.pagos);
    CabPhaseAgain(t, s5, v, now, now', a.codigo, cli, emp);
  }

  // ---------------------------------------------------------------------
  // A whole file (ImportarAsync)

  datatype Format = Json | Xml | Csv

  /** The reader a file name selects, by its extension in any case; .json is tried first, then .xml, then .csv. */
  function FormatOf(fileName: string): (r: Option<Format>)
    ensures r == Some(Json) <==> EndsWithIgnoreCase(fileName, ".json")
    ensures r == Some(Xml) <==> !EndsWithIgnoreCase(fileName, ".json") && EndsWithIgnoreCase(fileName, ".xml")
    ensures r == Some(Csv) <==> !EndsWithIgnoreCase(fileName, ".json") && !EndsWithIgnoreCase(fileName, ".xml")
                                && EndsWithIgnoreCase(fileName, ".csv")
  {
    if EndsWithIgnoreCase(fileName, ".json") then Some(Json)
    else if EndsWithIgnoreCase(fileName, ".xml") then Some(Xml)
    else if EndsWithIgnoreCase(fileName, ".csv") then Some(Csv)
    else None
  }

  const UnsupportedFormat: string := "Formato no soportado. Use .json, .xml o .csv"

  const NoSales: string := "No se encontraron ventas v\U{00E1}lidas en el archivo."

  /** A run's starting point: the tables as they are, all counters zero, nothing touched. */
  function Start(db: Db, fileName: string): Session {
    Session(db, Counters(fileName, 0, 0, 0, 0, 0, []), {})
  }

  /**
   * The import of one file: parse stands for what the selected reader makes
   * of the file's text (nothing when it cannot read it), now for the clock
   * and guid for the fresh ids the sales may draw. The result holds the new
   * tables, the counters and the headers handed to materialisation.
   */
  function Importar(db: Db, fileName: string, parse: Format -> Option<seq<VentaDto>>, now: int,
                    guid: nat -> string): Session
  {
    var s := Start(db, fileName);
    match FormatOf(fileName)
    case None => s.(res := s.res.(errores := [UnsupportedFormat]))
    case Some(f) =>
      var ventas := parse(f);
      if ventas.None? || ventas.value == [] then s.(res := s.res.(errores := [NoSales]))
      else SalesStep(s, ventas.value, now, guid)
  }

  /** A file of another kind is refused with one error, before anything is read or written. */
  lemma ImportarUnsupported(db: Db, fileName: string, parse: Format -> Option<seq<VentaDto>>, now: int,
                            guid: nat -> string)
    requires !EndsWithIgnoreCase(fileName, ".json") && !EndsWithIgnoreCase(fileName, ".xml")
             && !EndsWithIgnoreCase(fileName, ".csv")
    ensures var r := Importar(db, fileName, parse, now, guid);
            r.db == db && r.tocadas == {} && r.res == Start(db, fileName).res.(errores := [UnsupportedFormat])
  {
  }

  /** A file with no sales is reported with one error and changes nothing. */
  lemma ImportarNoSales(db: Db, fileName: string, parse: Format -> Option<seq<VentaDto>>, now: int,
                        guid: nat -> string)
    requires FormatOf(fileName).Some?
    requires var ventas := parse(FormatOf(fileName).value); ventas.None? || ventas.value == []
    ensures var r := Importar(db, fileName, parse, now, guid);
            r.db == db && r.tocadas == {} && r.res == Start(db, fileName).res.(errores := [NoSales])
  {
  }

  /** Nothing written and nothing counted is in step. */
  lemma UntouchedTracks(db: Db, r: Session)
    requires r.db == db && r.tocadas == {}
    requires r.res.ventasInsertadas == 0 && r.res.productosUpsert == 0 && r.res.clientesUpsert == 0
             && r.res.almacenesUpsert == 0 && r.res.metodosPagoUpsert == 0
    ensures Tracks(db, r)
  {
  }

  /**
   * After any import, each insert counter is the number of rows its table
   * gained, no table lost a row, and every header handed to
   * materialisation exists.
   */
  lemma ImportarTracks(db: Db, fileName: string, parse: Format -> Option<seq<VentaDto>>, now: int,
                       guid: nat -> string)
    ensures Tracks(db, Importar(db, fileName, parse, now, guid))
  {
    var s := Start(db, fileName);
    UntouchedTracks(db, s);
    var r := Importar(db, fileName, parse, now, guid);
    if FormatOf(fileName).None? {
      UntouchedTracks(db, r);
    } else {
      var ventas := parse(FormatOf(fileName).value);
      if ventas.None? || ventas.value == [] {
        UntouchedTracks(db, r);
      } else {
        SalesStepTracks(db, s, ventas.value, now, guid);
      }
    }
  }

  /** The result names the imported file. */
  lemma ImportarName(db: Db, fileName: string, parse: Format -> Option<seq<VentaDto>>, now: int,
                     guid: nat -> string)
    ensures Importar(db, fileName, parse, now, guid).res.nombreArchivo == fileName
  {
    if FormatOf(fileName).Some? {
      var ventas := parse(FormatOf(fileName).value);
      if ventas.Some? && ventas.value != [] {
        SalesStepName(Start(db, fileName), ventas.value, now, guid);
      }
    }
  }

  lemma {:induction false} SalesStepName(s: Session, vs: seq<VentaDto>, now: int, guid: nat -> string)
    ensures SalesStep(s, vs, now, guid).res.nombreArchivo == s.res.nombreArchivo
    decreases |vs|
  {
    if vs != [] {
      SalesStepName(s, vs[..|vs| - 1], now, guid);
    }
  }

  /** A file with sales reports exactly one error per sale without a warehouse. */
  lemma ImportarErrors(db: Db, fileName: string, parse: Format -> Option<seq<VentaDto>>, now: int,
                       guid: nat -> string)
    requires FormatOf(fileName).Some?
    requires var ventas := parse(FormatOf(fileName).value); ventas.Some? && ventas.value != []
    ensures Importar(db, fileName, parse, now, guid).res.errores == Skipped(parse(FormatOf(fileName).value).value)
  {
    SalesStepErrors(Start(db, fileName), parse(FormatOf(fileName).value).value, now, guid);
  }

  /**
   * A CSV file read by the CSV reader never reports a sale without a
   * warehouse: the reader already drops the groups whose branch is blank.
   */
  lemma ImportarCsvNoSkips(db: Db, fileName: string, parse: Format -> Option<seq<VentaDto>>, now: int,
                           guid: nat -> string, rows: seq<ImportCsv.CsvRow>, parseDate: string -> int)
    requires FormatOf(fileName) == Some(Csv) && parse(Csv) == ImportCsv.CsvSales(rows, parseDate)
    ensures var r := Importar(db, fileName, parse, now, guid);
            r.res.errores == (if rows == [] || ImportCsv.CsvSales(rows, parseDate).value == [] then [NoSales] else [])
  {
    if rows != [] && ImportCsv.CsvSales(rows, parseDate).value != [] {
      var vs := ImportCsv.CsvSales(rows, parseDate).value;
      ImportCsv.SalesHaveBranch(rows, parseDate);
      SkippedNone(vs);
      ImportarErrors(db, fileName, parse, now, guid);
    }
  }

  // ---------------------------------------------------------------------
  // One more line or payment (the steps of the application's loops)

  /** One product upsert, counted when the product is new. */
  function ProductoStep(s: Session, d: ProductoDto): Session {
    s.(db := s.db.(productos := UpsertProducto(s.db.productos, d)),
       res := s.res.(productosUpsert := s.res.productosUpsert + (if d.codigo in s.db.productos then 0 else 1)))
  }

  /** One payment-method upsert, counted when the method is new. */
  function MetodoStep(s: Session, nombre: string): Session {
    s.(db := s.db.(metodos := UpsertMetodo(s.db.metodos, nombre)),
       res := s.res.(metodosPagoUpsert := s.res.metodosPagoUpsert + (if MethodKey(nombre) in s.db.metodos then 0 else 1)))
  }

  lemma ProductosPhaseSnoc(s: Session, ds: seq<VentaDetDto>, j: nat)
    requires j < |ds|
    ensures ProductosPhase(s, ds[..j + 1]) == ProductoStep(ProductosPhase(s, ds[..j]), ds[j].producto)
  {
    assert ds[..j + 1][..j] == ds[..j];
  }

  lemma MetodosPhaseSnoc(s: Session, ps: seq<VentaPagoDto>, j: nat)
    requires j < |ps|
    ensures MetodosPhase(s, ps[..j + 1]) == MetodoStep(MetodosPhase(s, ps[..j]), ps[j].metodo)
  {
    assert ps[..j + 1][..j] == ps[..j];
  }

  lemma LineRowsSnoc(ds: seq<VentaDetDto>, j: nat)
    requires j < |ds|
    ensures LineRows(ds[..j + 1]) == LineRows(ds[..j]) + [LineRow(ds[j])]
  {
    assert ds[..j + 1][..j] == ds[..j];
  }

  lemma PagoRowsSnoc(ps: seq<VentaPagoDto>, j: nat)
    requires j < |ps|
    ensures PagoRows(ps[..j + 1]) == PagoRows(ps[..j]) + [PagoRow(ps[j])]
  {
    assert ps[..j + 1][..j] == ps[..j];
  }

  /** A header's total grows by each line's net. */
  lemma TotalSnoc(rows: seq<VentaDet>, x: VentaDet)
    ensures Sum(Nets(rows + [x])) == Sum(Nets(rows)) + x.subtotal
  {
    assert (rows + [x])[..|rows|] == rows;
  }
}
