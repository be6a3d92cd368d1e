/**
 * The records a sales file is read into before it reaches the database
 * (one sale with its header data, lines and payments), and the line-net
 * rule both the CSV reader and the importer apply.
 */
module ImportDtos {
  import opened Wrappers
  import opened Text

  /**
   * The date of a sale as a number of ticks; 0 is default(DateTime), the
   * value a sale carries when its file gave no date.
   */
  const DefaultDate: int := 0

  datatype ProductoDto = ProductoDto(codigo: string, nombre: string, categoria: Option<string>,
                                     precioVenta: Option<real>)

  datatype ClienteDto = ClienteDto(identificacion: Option<string>, nombre: string,
                                   email: Option<string>, telefono: Option<string>)

  datatype AlmacenDto = AlmacenDto(codigo: string, nombre: string)

  datatype EmpleadoDto = EmpleadoDto(usuarioIdIdentity: Option<string>, nombre: string)

  /** The descriptive attributes a line carries through unchanged. */
  datatype Attributes = Attributes(marca: Option<string>, genero: Option<string>, color: Option<string>,
                                   referencia: Option<string>, talla: Option<string>)

  datatype VentaDetDto = VentaDetDto(producto: ProductoDto, cantidad: real, precioUnitario: real,
                                     descuento: real, subtotal: real, categoria: Option<string>,
                                     attributes: Attributes)

  datatype VentaPagoDto = VentaPagoDto(metodo: string, monto: real)

  datatype VentaDto = VentaDto(numero: Option<string>, fecha: int, cliente: Option<ClienteDto>,
                               almacen: Option<AlmacenDto>, empleado: Option<EmpleadoDto>,
                               observacion: Option<string>, detalles: seq<VentaDetDto>,
                               pagos: seq<VentaPagoDto>)

  /**
   * string.IsNullOrWhiteSpace on a non-null string, written one character
   * at a time.
   */
  predicate Blank(s: string) {
    s == [] || (IsSpace(DotNet, s[0]) && Blank(s[1..]))
  }

  /** Blank agrees with the all-white-space reading of the same test. */
  lemma {:induction false} BlankIsAllSpace(s: string)
    ensures Blank(s) <==> IsBlank(s)
  {
    if s != [] {
      BlankIsAllSpace(s[1..]);
      assert forall i :: 1 <= i < |s| ==> s[1..][i - 1] == s[i];
    }
  }

  /**
   * A line's net: the given subtotal when it is positive, otherwise
   * price times quantity minus discount.
   */
  function LineNet(subtotal: real, precio: real, cantidad: real, descuento: real): (n: real)
    ensures subtotal > 0.0 ==> n == subtotal
    ensures subtotal <= 0.0 ==> n == precio * cantidad - descuento
  {
    if subtotal > 0.0 then subtotal else precio * cantidad - descuento
  }

  /**
   * Applying the rule to a net it produced changes nothing, so a line the
   * CSV reader has netted keeps its net when the importer nets it again.
   */
  lemma LineNetStable(subtotal: real, precio: real, cantidad: real, descuento: real)
    ensures LineNet(LineNet(subtotal, precio, cantidad, descuento), precio, cantidad, descuento)
            == LineNet(subtotal, precio, cantidad, descuento)
  {
  }
}
