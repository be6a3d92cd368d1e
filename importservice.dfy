/**
 * The import service as the application runs it: an object holding the
 * tables, whose upserts update them in place and bump the counters of an
 * ImportResult, and whose import loop walks the sales of a file, the lines
 * and the payments of each sale. Every method is proved to leave the
 * tables, the counters and the touched headers exactly as the functions of
 * module Importer say, so the properties proved there hold of it.
 */
module Import {
  import opened Wrappers
  import opened Text
  import opened Numeric
  import opened ImportDtos
  import opened Importer

  /** The counters of one import (ImportResultVm). */
  class ImportResult {
    var nombreArchivo: string
    var ventasInsertadas: nat
    var productosUpsert: nat
    var clientesUpsert: nat
    var almacenesUpsert: nat
    var metodosPagoUpsert: nat
    var errores: seq<string>

    function Value(): Counters
      reads this
    {
      Counters(nombreArchivo, ventasInsertadas, productosUpsert, clientesUpsert, almacenesUpsert,
               metodosPagoUpsert, errores)
    }

    constructor (fileName: string)
      ensures Value() == Start(Db(map[], [], map[], map[], [], []), fileName).res
    {
      nombreArchivo := fileName;
      ventasInsertadas := 0;
      productosUpsert := 0;
      clientesUpsert := 0;
      almacenesUpsert := 0;
      metodosPagoUpsert := 0;
      errores := [];
    }
  }

  class ImportService {
    var productos: map<string, Producto>
    var clientes: seq<Cliente>
    var almacenes: map<string, string>
    var metodos: map<string, bool>
    var empleados: seq<Empleado>
    var ventas: seq<VentaCab>

    function Tables(): Db
      reads this
    {
      Db(productos, clientes, almacenes, metodos, empleados, ventas)
    }

    constructor (db: Db)
      ensures Tables() == db
    {
      productos := db.productos;
      clientes := db.clientes;
      almacenes := db.almacenes;
      metodos := db.metodos;
      empleados := db.empleados;
      ventas := db.ventas;
    }

    method UpsertAlmacenAsync(dto: AlmacenDto, res: ImportResult)
      modifies this, res
      ensures Session(Tables(), res.Value(), {}) == AlmacenPhase(Session(old(Tables()), old(res.Value()), {}), dto)
    {
      if dto.codigo !in almacenes {
        almacenes := almacenes[dto.codigo := dto.nombre];
        res.almacenesUpsert := res.almacenesUpsert + 1;
      } else if !Blank(dto.nombre) && almacenes[dto.codigo] != dto.nombre {
        almacenes := almacenes[dto.codigo := dto.nombre];
      }
    }

    method UpsertClienteAsync(dto: ClienteDto, res: ImportResult) returns (id: nat)
      modifies this, res
      ensures (Session(Tables(), res.Value(), {}), Some(id))
              == ClientePhase(Session(old(Tables()), old(res.Value()), {}), Some(dto))
    {
      var found := FindCliente(clientes, dto);
      if found.None? {
        clientes := clientes + [Cliente(dto.nombre, dto.identificacion, dto.email, dto.telefono)];
        id := |clientes| - 1;
        res.clientesUpsert := res.clientesUpsert + 1;
      } else {
        id := found.value;
        var cli := clientes[id];
        var changed := false;
        if !Blank(dto.nombre) && cli.nombre != dto.nombre {
          cli := cli.(nombre := dto.nombre);
          changed := true;
        }
        if Given(dto.email) && cli.email != dto.email {
          cli := cli.(email := dto.email);
          changed := true;
        }
        if Given(dto.telefono) && cli.telefono != dto.telefono {
          cli := cli.(telefono := dto.telefono);
          changed := true;
        }
        assert cli == MergeCliente(clientes[id], dto);
        if changed {
          clientes := clientes[id := cli];
        } else {
          assert clientes[id := cli] == clientes;
        }
      }
    }

    /** The seller of a sale (the employee block of the import loop). */
    method ResolveEmpleadoAsync(e: Option<EmpleadoDto>, almacen: string, guid: string) returns (id: Option<nat>)
      modifies this
      ensures (Tables(), id) == (old(Tables()).(empleados := ResolveEmpleado(old(empleados), e, almacen, guid).0),
                                 ResolveEmpleado(old(empleados), e, almacen, guid).1)
    {
      id := None;
      if e.Some? {
        var dto := e.value;
        if Given(dto.usuarioIdIdentity) {
          id := EmpleadoByUser(empleados, dto.usuarioIdIdentity.value);
        }
        if id.None? && !Blank(dto.nombre) {
          id := EmpleadoByName(empleados, dto.nombre, almacen);
          if id.None? {
            empleados := empleados + [Empleado(dto.usuarioIdIdentity.GetOr(guid), dto.nombre, Some(almacen))];
            id := Some(|empleados| - 1);
          }
        }
      }
    }

    method UpsertProductoAsync(dto: ProductoDto, res: ImportResult)
      modifies this, res
      ensures Session(Tables(), res.Value(), {}) == ProductoStep(Session(old(Tables()), old(res.Value()), {}), dto)
    {
      if dto.codigo !in productos {
        productos := productos[dto.codigo := Producto(dto.nombre, dto.categoria, dto.precioVenta.GetOr(0.0))];
        res.productosUpsert := res.productosUpsert + 1;
      } else {
        var prod := productos[dto.codigo];
        var changed := false;
        if !Blank(dto.nombre) && prod.nombre != dto.nombre {
          prod := prod.(nombre := dto.nombre);
          changed := true;
        }
        if dto.categoria.Some? && prod.categoria != dto.categoria {
          prod := prod.(categoria := dto.categoria);
          changed := true;
        }
        if dto.precioVenta.Some? && prod.precioVenta != dto.precioVenta.value {
          prod := prod.(precioVenta := dto.precioVenta.value);
          changed := true;
        }
        assert prod == MergeProducto(productos[dto.codigo], dto);
        if changed {
          productos := productos[dto.codigo := prod];
        }
      }
    }

    /** Returns the name of the method the payment is recorded under. */
    method UpsertMetodoPagoAsync(nombre: string, res: ImportResult) returns (metodo: string)
      modifies this, res
      ensures metodo == MethodKey(nombre)
      ensures Session(Tables(), res.Value(), {}) == MetodoStep(Session(old(Tables()), old(res.Value()), {}), nombre)
    {
      metodo := nombre;
      if Blank(metodo) {
        metodo := "Efectivo";
      }
      if metodo !in metodos {
        metodos := metodos[metodo := EqualsIgnoreCase(metodo, "Efectivo")];
        res.metodosPagoUpsert := res.metodosPagoUpsert + 1;
      }
    }

    /** The lines of a sale: each product upserted, each line netted and added to the total. */
    method ReadDetalles(ds: seq<VentaDetDto>, res: ImportResult) returns (detalles: seq<VentaDet>, total: real)
      modifies this, res
      ensures detalles == LineRows(ds) && total == Sum(Nets(detalles))
      ensures Session(Tables(), res.Value(), {}) == ProductosPhase(Session(old(Tables()), old(res.Value()), {}), ds)
    {
      ghost var s0 := Session(Tables(), res.Value(), {});
      detalles := [];
      total := 0.0;
      var j := 0;
      while j < |ds|
        invariant j <= |ds|
        invariant detalles == LineRows(ds[..j]) && total == Sum(Nets(detalles))
        invariant Session(Tables(), res.Value(), {}) == ProductosPhase(s0, ds[..j])
      {
        var d := ds[j];
        ProductosPhaseSnoc(s0, ds, j);
        UpsertProductoAsync(d.producto, res);
        var neto := LineNet(d.subtotal, d.precioUnitario, d.cantidad, d.descuento);
        var det := VentaDet(d.producto.codigo, d.cantidad, d.precioUnitario, d.descuento, neto,
                            if d.categoria.Some? then d.categoria else d.producto.categoria, d.attributes);
        LineRowsSnoc(ds, j);
        TotalSnoc(detalles, det);
        detalles := detalles + [det];
        total := total + neto;
        j := j + 1;
      }
      assert ds[..j] == ds;
    }

    /** The payments of a sale: each method upserted, each payment recorded under it. */
    method ReadPagos(ps: seq<VentaPagoDto>, res: ImportResult) returns (pagos: seq<VentaPago>)
      modifies this, res
      ensures pagos == PagoRows(ps)
      ensures Session(Tables(), res.Value(), {}) == MetodosPhase(Session(old(Tables()), old(res.Value()), {}), ps)
    {
      ghost var s0 := Session(Tables(), res.Value(), {});
      pagos := [];
      var j := 0;
      while j < |ps|
        invariant j <= |ps|
        invariant pagos == PagoRows(ps[..j])
        invariant Session(Tables(), res.Value(), {}) == MetodosPhase(s0, ps[..j])
      {
        var p := ps[j];
        MetodosPhaseSnoc(s0, ps, j);
        PagoRowsSnoc(ps, j);
        var mp := UpsertMetodoPagoAsync(p.metodo, res);
        pagos := pagos + [VentaPago(mp, p.monto)];
        j := j + 1;
      }
      assert ps[..j] == ps;
    }

    /** One iteration of the import loop, on the set of touched headers it is given. */
    method ImportSale(v: VentaDto, now: int, guid: string, res: ImportResult, tocadas: set<nat>)
      returns (tocadas': set<nat>)
      modifies this, res
      ensures Session(Tables(), res.Value(), tocadas')
              == SaleStep(Session(old(Tables()), old(res.Value()), tocadas), v, now, guid)
    {
      if !HasAlmacen(v) {
        res.errores := res.errores + [MissingAlmacen(v.numero)];
        return tocadas;
      }
      var almacen := v.almacen.value;
      ghost var s0 := Session(Tables(), res.Value(), {});
      var cliente, empleado := UpsertParties(v, guid, res);
      ghost var s3 := Session(Tables(), res.Value(), {});
      ghost var s1 := AlmacenPhase(s0, almacen);
      ghost var s2 := ClientePhase(s1, v.cliente).0;
      var detalles, total := ReadDetalles(v.detalles, res);
      ghost var s4 := Session(Tables(), res.Value(), {});
      var pagos := ReadPagos(v.pagos, res);
      ghost var s5 := Session(Tables(), res.Value(), {});
      SaleStepPhases(s0, v, now, guid, s1, s2, cliente, s3, empleado, s5, tocadas);
      assert s5.(tocadas := tocadas) == Session(Tables(), res.Value(), tocadas);
      tocadas' := WriteCab(v, now, almacen.codigo, cliente, empleado, detalles, pagos, total, res, tocadas);
    }

    /** The warehouse, the client and the seller of a sale, in that order. */
    method UpsertParties(v: VentaDto, guid: string, res: ImportResult) returns (cliente: Option<nat>, empleado: Option<nat>)
      requires HasAlmacen(v)
      modifies this, res
      ensures var s1 := AlmacenPhase(Session(old(Tables()), old(res.Value()), {}), v.almacen.value);
              var (s2, cli) := ClientePhase(s1, v.cliente);
              var (s3, emp) := EmpleadoPhase(s2, v.empleado, v.almacen.value.codigo, guid);
              Session(Tables(), res.Value(), {}) == s3 && cliente == cli && empleado == emp
    {
      var almacen := v.almacen.value;
      ghost var s0 := Session(Tables(), res.Value(), {});
      UpsertAlmacenAsync(almacen, res);
      ghost var s1 := Session(Tables(), res.Value(), {});
      assert s1 == AlmacenPhase(s0, almacen);
      cliente := None;
      if v.cliente.Some? {
        var id := UpsertClienteAsync(v.cliente.value, res);
        cliente := Some(id);
      }
      ghost var s2 := Session(Tables(), res.Value(), {});
      assert (s2, cliente) == ClientePhase(s1, v.cliente);
      empleado := ResolveEmpleadoAsync(v.empleado, almacen.codigo, guid);
    }

    /** The header of a sale, written once its lines and payments are known. */
    method WriteCab(v: VentaDto, now: int, almacen: string, cliente: Option<nat>, empleado: Option<nat>,
                    detalles: seq<VentaDet>, pagos: seq<VentaPago>, total: real, res: ImportResult,
                    tocadas: set<nat>) returns (tocadas': set<nat>)
      requires detalles == LineRows(v.detalles) && pagos == PagoRows(v.pagos) && total == Sum(Nets(detalles))
      modifies this, res
      ensures Session(Tables(), res.Value(), tocadas')
              == CabPhase(Session(old(Tables()), old(res.Value()), tocadas), v, now, almacen, cliente, empleado)
    {
      var cab := CabMatch(ventas, v.numero, almacen);
      if cab.None? {
        tocadas' := AddCab(v, now, almacen, cliente, empleado, detalles, pagos, total, res, tocadas);
      } else {
        tocadas' := ReplaceCab(v, now, cab.value, almacen, cliente, empleado, detalles, pagos, total, res, tocadas);
      }
    }

    /** A sale whose header is not there yet: a new header, and one more sale inserted. */
    method AddCab(v: VentaDto, now: int, almacen: string, cliente: Option<nat>, empleado: Option<nat>,
                  detalles: seq<VentaDet>, pagos: seq<VentaPago>, total: real, res: ImportResult,
                  tocadas: set<nat>) returns (tocadas': set<nat>)
      requires detalles == LineRows(v.detalles) && pagos == PagoRows(v.pagos) && total == Sum(Nets(detalles))
      requires CabMatch(ventas, v.numero, almacen).None?
      modifies this, res
      ensures Session(Tables(), res.Value(), tocadas')
              == CabPhase(Session(old(Tables()), old(res.Value()), tocadas), v, now, almacen, cliente, empleado)
    {
      var row := VentaCab(DateOr(v.fecha, now), v.numero, cliente, empleado, almacen, total,
                          v.observacion, detalles, pagos);
      assert row == NewCab(v, now, cliente, empleado, almacen);
      ventas := ventas + [row];
      res.ventasInsertadas := res.ventasInsertadas + 1;
      tocadas' := tocadas + {|ventas| - 1};
    }

    /** A sale whose header is the i-th: that header is rewritten in place. */
    method ReplaceCab(v: VentaDto, now: int, i: nat, almacen: string, cliente: Option<nat>, empleado: Option<nat>,
                      detalles: seq<VentaDet>, pagos: seq<VentaPago>, total: real, res: ImportResult,
                      tocadas: set<nat>) returns (tocadas': set<nat>)
      requires detalles == LineRows(v.detalles) && pagos == PagoRows(v.pagos) && total == Sum(Nets(detalles))
      requires CabMatch(ventas, v.numero, almacen) == Some(i)
      modifies this
      ensures Session(Tables(), res.Value(), tocadas')
              == CabPhase(Session(old(Tables()), res.Value(), tocadas), v, now, almacen, cliente, empleado)
    {
      var c := ventas[i];
      var row := c.(fecha := DateOr(v.fecha, c.fecha), cliente := cliente, empleado := empleado,
                    observacion := v.observacion, detalles := detalles, pagos := pagos, total := total);
      assert row == UpdatedCab(c, v, cliente, empleado);
      ventas := ventas[i := row];
      tocadas' := tocadas + {i};
    }

    /**
     * ImportarAsync: parse stands for what the selected reader makes of
     * the file's text, now for the clock and guid for the fresh ids.
     * Returns the counters and the headers handed to materialisation.
     */
    method ImportarAsync(fileName: string, parse: Format -> Option<seq<VentaDto>>, now: int, guid: nat -> string)
      returns (res: ImportResult, tocadas: set<nat>)
      modifies this
      ensures fresh(res)
      ensures Session(Tables(), res.Value(), tocadas) == Importar(old(Tables()), fileName, parse, now, guid)
    {
      res := new ImportResult(fileName);
      tocadas := {};
      var format := FormatOf(fileName);
      if format.None? {
        res.errores := res.errores + [UnsupportedFormat];
        return;
      }
      var dto := parse(format.value);
      if dto.None? || dto.value == [] {
        res.errores := res.errores + [NoSales];
        return;
      }
      var vs := dto.value;
      ghost var s0 := Session(Tables(), res.Value(), tocadas);
      var k := 0;
      while k < |vs|
        invariant k <= |vs|
        invariant fresh(res)
        invariant Session(Tables(), res.Value(), tocadas) == SalesStep(s0, vs[..k], now, guid)
      {
        assert vs[..k + 1][..k] == vs[..k];
        tocadas := ImportSale(vs[k], now, guid(k), res, tocadas);
        k := k + 1;
      }
      assert vs[..k] == vs;
    }
  }
}
