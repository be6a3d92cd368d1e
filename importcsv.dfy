/**
 * Reading a pipe-separated sales file: the header normaliser used to match
 * file columns to record fields, and the grouping of the record rows into
 * sales, each with its lines and its payments.
 */
module ImportCsv {
  import opened Wrappers
  import opened Text
  import opened ImportDtos

  // ---------------------------------------------------------------------
  // Header normaliser

  /**
   * Unicode punctuation (general category P) in Basic Latin and Latin-1.
   * The ASCII symbols $ + < = > ^ ` | ~ belong to category S and stay.
   */
  predicate IsPunctuation(c: char) {
    ('!' <= c <= '#') || ('%' <= c <= '*') || (',' <= c <= '/') || c == ':' || c == ';'
    || c == '?' || c == '@' || ('[' <= c <= ']') || c == '_' || c == '{' || c == '}'
    || c == '\U{00A1}' || c == '\U{00A7}' || c == '\U{00AB}' || c == '\U{00B6}'
    || c == '\U{00B7}' || c == '\U{00BB}' || c == '\U{00BF}'
  }

  /** The characters the class [\s\p{P} ] matches. */
  predicate Removed(c: char) {
    IsSpace(DotNet, c) || IsPunctuation(c)
  }

  /** The text with every removed character deleted. */
  function Strip(s: string): (r: string)
    ensures |r| <= |s|
  {
    if s == [] then []
    else if Removed(s[|s| - 1]) then Strip(s[..|s| - 1])
    else Strip(s[..|s| - 1]) + [s[|s| - 1]]
  }

  /** The header as matched: a missing header is empty, then strip, then upper-case. */
  function NormalizeHeader(header: Option<string>): (r: string)
    ensures |r| <= |header.GetOr("")|
  {
    Upper(Strip(header.GetOr("")))
  }

  lemma {:induction false} StripRemoves(s: string)
    ensures forall i :: 0 <= i < |Strip(s)| ==> !Removed(Strip(s)[i])
    decreases |s|
  {
    if s != [] {
      StripRemoves(s[..|s| - 1]);
    }
  }

  lemma {:induction false} StripKeeps(s: string)
    requires forall i :: 0 <= i < |s| ==> !Removed(s[i])
    ensures Strip(s) == s
    decreases |s|
  {
    if s != [] {
      StripKeeps(s[..|s| - 1]);
    }
  }

  /** A normalised header holds no white space, no punctuation and no lower-case letter. */
  lemma NormalizeClean(header: Option<string>)
    ensures var r := NormalizeHeader(header);
            forall i :: 0 <= i < |r| ==> !Removed(r[i]) && !IsLower(r[i])
  {
    var s := Strip(header.GetOr(""));
    StripRemoves(header.GetOr(""));
    assert forall i :: 0 <= i < |s| ==> !Removed(ToUpperChar(s[i]));
  }

  lemma {:induction false} StripConcat(a: string, b: string)
    ensures Strip(a + b) == Strip(a) + Strip(b)
    decreases |b|
  {
    if b == [] {
      assert a + b == a;
    } else {
      var b' := b[..|b| - 1];
      assert (a + b)[..|a + b| - 1] == a + b';
      StripConcat(a, b');
    }
  }

  lemma UpperConcat(a: string, b: string)
    ensures Upper(a + b) == Upper(a) + Upper(b)
  {
  }

  /** Normalising a concatenation normalises each part. */
  lemma NormalizeConcat(a: string, b: string)
    ensures NormalizeHeader(Some(a + b)) == NormalizeHeader(Some(a)) + NormalizeHeader(Some(b))
  {
    StripConcat(a, b);
    UpperConcat(Strip(a), Strip(b));
  }

  /** A run of removed characters normalises to nothing. */
  lemma NormalizeRemoved(s: string)
    requires forall i :: 0 <= i < |s| ==> Removed(s[i])
    ensures NormalizeHeader(Some(s)) == ""
  {
    if s != [] {
      NormalizeRemoved(s[..|s| - 1]);
    }
  }

  /** A word of capital letters A-Z is its own normal form. */
  lemma NormalizeCapitals(s: string)
    requires forall i :: 0 <= i < |s| ==> 'A' <= s[i] <= 'Z'
    ensures NormalizeHeader(Some(s)) == s
  {
    StripKeeps(s);
  }

  lemma {:induction false} StripUpperCommute(s: string)
    ensures Strip(Upper(s)) == Upper(Strip(s))
    decreases |s|
  {
    if s != [] {
      var s' := s[..|s| - 1];
      assert Upper(s)[..|s| - 1] == Upper(s');
      StripUpperCommute(s');
      UpperConcat(Strip(s'), [s[|s| - 1]]);
    }
  }

  lemma UpperIdempotent(s: string)
    ensures Upper(Upper(s)) == Upper(s)
  {
  }

  /** Normalising is idempotent, and headers equal up to case normalise alike. */
  lemma NormalizeIdempotent(header: Option<string>)
    ensures NormalizeHeader(Some(NormalizeHeader(header))) == NormalizeHeader(header)
  {
    NormalizeClean(header);
    StripKeeps(NormalizeHeader(header));
    UpperIdempotent(Strip(header.GetOr("")));
  }

  lemma NormalizeIgnoresCase(a: string, b: string)
    requires Upper(a) == Upper(b)
    ensures NormalizeHeader(Some(a)) == NormalizeHeader(Some(b))
  {
    StripUpperCommute(a);
    StripUpperCommute(b);
  }

  /** Two words joined by a run of removed characters normalise to the words run together. */
  lemma NormalizeJoined(a: string, sep: string, b: string)
    requires forall i :: 0 <= i < |sep| ==> Removed(sep[i])
    ensures NormalizeHeader(Some(a + sep + b)) == NormalizeHeader(Some(a)) + NormalizeHeader(Some(b))
  {
    NormalizeConcat(a + sep, b);
    NormalizeConcat(a, sep);
    NormalizeRemoved(sep);
  }

  /** Words of capitals joined by runs of removed characters normalise to the words run together. */
  lemma JoinedCapitals(a: string, sep: string, b: string)
    requires forall i :: 0 <= i < |a| ==> 'A' <= a[i] <= 'Z'
    requires forall i :: 0 <= i < |sep| ==> Removed(sep[i])
    requires forall i :: 0 <= i < |b| ==> 'A' <= b[i] <= 'Z'
    ensures NormalizeHeader(Some(a + sep + b)) == a + b
  {
    NormalizeJoined(a, sep, b);
    NormalizeCapitals(a);
    NormalizeCapitals(b);
  }

  lemma JoinedCapitals3(a: string, sep1: string, b: string, sep2: string, c: string)
    requires forall i :: 0 <= i < |a| ==> 'A' <= a[i] <= 'Z'
    requires forall i :: 0 <= i < |sep1| ==> Removed(sep1[i])
    requires forall i :: 0 <= i < |b| ==> 'A' <= b[i] <= 'Z'
    requires forall i :: 0 <= i < |sep2| ==> Removed(sep2[i])
    requires forall i :: 0 <= i < |c| ==> 'A' <= c[i] <= 'Z'
    ensures NormalizeHeader(Some(a + sep1 + b + sep2 + c)) == a + b + c
  {
    NormalizeJoined(a + sep1 + b, sep2, c);
    JoinedCapitals(a, sep1, b);
    NormalizeCapitals(c);
  }

  /** The renamings the record map relies on (its comments on lines 631, 639 and 646). */
  lemma InvoiceHeader()
    ensures NormalizeHeader(Some("NO.FACTURA VENTA")) == "NOFACTURAVENTA"
  {
    assert "NO.FACTURA VENTA" == "NO" + "." + "FACTURA" + " " + "VENTA";
    assert "NOFACTURAVENTA" == "NO" + "FACTURA" + "VENTA";
    JoinedCapitals3("NO", ".", "FACTURA", " ", "VENTA");
  }

  lemma PriceHeader()
    ensures NormalizeHeader(Some("PRECIO.VENTA")) == "PRECIOVENTA"
  {
    assert "PRECIO.VENTA" == "PRECIO" + "." + "VENTA";
    assert "PRECIOVENTA" == "PRECIO" + "VENTA";
    JoinedCapitals("PRECIO", ".", "VENTA");
  }

  lemma KindHeader()
    ensures NormalizeHeader(Some("TIPO / SUBTIPO")) == "TIPOSUBTIPO"
  {
    assert "TIPO / SUBTIPO" == "TIPO" + " / " + "SUBTIPO";
    assert "TIPOSUBTIPO" == "TIPO" + "SUBTIPO";
    JoinedCapitals("TIPO", " / ", "SUBTIPO");
  }

  /**
   * The first file column whose normalised header equals the normalised
   * field name, as the reader looks a mapped field up.
   */
  function FieldIndex(headers: seq<string>, name: string, norm: Option<string> -> string): (r: Option<nat>)
    ensures r.Some? ==> r.value < |headers| && norm(Some(headers[r.value])) == norm(Some(name))
                          && forall j :: 0 <= j < r.value ==> norm(Some(headers[j])) != norm(Some(name))
    ensures r.None? ==> forall j :: 0 <= j < |headers| ==> norm(Some(headers[j])) != norm(Some(name))
  {
    if headers == [] then None
    else if norm(Some(headers[0])) == norm(Some(name)) then Some(0)
    else match FieldIndex(headers[1..], name, norm)
         case None => None
         case Some(j) => Some(j + 1)
  }

  /** A field whose name matches the first header is found there. */
  lemma FirstColumn(headers: seq<string>, name: string, norm: Option<string> -> string)
    requires headers != [] && norm(Some(headers[0])) == norm(Some(name))
    ensures FieldIndex(headers, name, norm) == Some(0)
  {
  }

  /**
   * As written, "%DESCUENTO" loses its '%' as punctuation and becomes the
   * name of the discount column: in a file that lists "%DESCUENTO" before
   * "DESCUENTO", the discount amount is read from the percentage column and
   * the percentage field finds no column at all.
   */
  lemma PercentHeaderCollides()
    ensures NormalizeHeader(Some("%DESCUENTO")) == "DESCUENTO"
    ensures FieldIndex(["%DESCUENTO", "DESCUENTO"], "DESCUENTO", NormalizeHeader) == Some(0)
    ensures FieldIndex(["%DESCUENTO", "DESCUENTO"], "PORDESCUENTO", NormalizeHeader) == None
  {
    assert "%DESCUENTO" == "%" + "DESCUENTO";
    NormalizeRemoved("%");
    NormalizeCapitals("DESCUENTO");
    NormalizeCapitals("PORDESCUENTO");
    NormalizeConcat("%", "DESCUENTO");
  }

  /** Each '%' written out as "POR", the renaming the record map expects. */
  function SpellPercent(s: string): (r: string)
    ensures '%' !in s ==> r == s
    ensures '%' !in r
  {
    if s == [] then []
    else (if s[0] == '%' then "POR" else [s[0]]) + SpellPercent(s[1..])
  }

  /** The normaliser with '%' read as "POR" before anything is stripped. */
  function NormalizeHeaderIntended(header: Option<string>): (r: string)
    ensures |r| <= |SpellPercent(header.GetOr(""))|
  {
    NormalizeHeader(Some(SpellPercent(header.GetOr(""))))
  }

  /** The intended normaliser differs from the written one only on headers with a '%'. */
  lemma IntendedAgrees(header: Option<string>)
    ensures header.Some? && '%' !in header.value ==> NormalizeHeaderIntended(header) == NormalizeHeader(header)
    ensures header.None? ==> NormalizeHeaderIntended(header) == ""
  {
  }

  /** Text of capital letters has nothing to spell out. */
  lemma SpellPlain(s: string)
    requires forall i :: 0 <= i < |s| ==> 'A' <= s[i] <= 'Z'
    ensures SpellPercent(s) == s
  {
    assert '%' !in s;
  }

  /** Spelling a '%' out keeps a header of capitals one of capitals. */
  lemma SpelledCapitals(s: string)
    requires forall i :: 0 <= i < |s| ==> 'A' <= s[i] <= 'Z'
    ensures forall i :: 0 <= i < |"POR" + s| ==> 'A' <= ("POR" + s)[i] <= 'Z'
  {
  }

  /** The intended normaliser keeps a header of capital letters as it is ... */
  lemma IntendedCapitals(s: string)
    requires forall i :: 0 <= i < |s| ==> 'A' <= s[i] <= 'Z'
    ensures NormalizeHeaderIntended(Some(s)) == s
  {
    SpellPlain(s);
    NormalizeCapitals(s);
  }

  /** ... and reads a leading '%' as "POR". */
  lemma IntendedPercent(s: string)
    requires forall i :: 0 <= i < |s| ==> 'A' <= s[i] <= 'Z'
    ensures NormalizeHeaderIntended(Some(['%'] + s)) == "POR" + s
  {
    var t := ['%'] + s;
    assert t[0] == '%' && t[1..] == s;
    SpellPlain(s);
    assert SpellPercent(t) == "POR" + s;
    NormalizeCapitals("POR" + s);
  }

  /** So "%DESCUENTO" keeps its own name ... */
  lemma IntendedPercentHeader()
    ensures NormalizeHeaderIntended(Some("%DESCUENTO")) == "PORDESCUENTO"
  {
    assert "%DESCUENTO" == ['%'] + "DESCUENTO";
    assert "PORDESCUENTO" == "POR" + "DESCUENTO";
    IntendedPercent("DESCUENTO");
  }

  /**
   * ... and in general, with a header of capitals and the same header
   * behind a '%' in the file, the field named by the header finds the
   * header's own column ...
   */
  lemma IntendedPlainColumnFound(s: string)
    requires forall i :: 0 <= i < |s| ==> 'A' <= s[i] <= 'Z'
    ensures FieldIndex([['%'] + s, s], s, NormalizeHeaderIntended) == Some(1)
  {
    var p := ['%'] + s;
    assert NormalizeHeaderIntended(Some(p)) == "POR" + s by {
      IntendedPercent(s);
    }
    assert NormalizeHeaderIntended(Some(s)) == s by {
      IntendedCapitals(s);
    }
    assert |"POR" + s| != |s|;
    var hs := [p, s];
    assert hs[1..] == [s];
  }

  /** ... and the field named with "POR" finds the column behind the '%'. */
  lemma IntendedPercentColumnFound(s: string)
    requires forall i :: 0 <= i < |s| ==> 'A' <= s[i] <= 'Z'
    ensures FieldIndex([['%'] + s, s], "POR" + s, NormalizeHeaderIntended) == Some(0)
  {
    IntendedPercent(s);
    IntendedSpelled(s);
    FirstColumn([['%'] + s, s], "POR" + s, NormalizeHeaderIntended);
  }

  /** A header of capitals with "POR" in front is kept as it is. */
  lemma IntendedSpelled(s: string)
    requires forall i :: 0 <= i < |s| ==> 'A' <= s[i] <= 'Z'
    ensures NormalizeHeaderIntended(Some("POR" + s)) == "POR" + s
  {
    SpelledCapitals(s);
    IntendedCapitals("POR" + s);
  }


  // ---------------------------------------------------------------------
  // Grouping

  /** Distinct keys in order of first appearance (Enumerable.GroupBy). */
  function GroupKeys<T, K(==)>(xs: seq<T>, key: T -> K): seq<K> {
    if xs == [] then []
    else
      var ks := GroupKeys(xs[..|xs| - 1], key);
      var k := key(xs[|xs| - 1]);
      if k in ks then ks else ks + [k]
  }

  /** The elements with the given key, in their original order. */
  function GroupOf<T, K(==)>(xs: seq<T>, key: T -> K, k: K): seq<T> {
    if xs == [] then []
    else
      var g := GroupOf(xs[..|xs| - 1], key, k);
      var x := xs[|xs| - 1];
      if key(x) == k then g + [x] else g
  }

  /** The keys are distinct, and they are exactly the keys of the elements. */
  lemma {:induction false} GroupKeysSpec<T(!new), K(!new)>(xs: seq<T>, key: T -> K)
    ensures forall i, j :: 0 <= i < j < |GroupKeys(xs, key)| ==> GroupKeys(xs, key)[i] != GroupKeys(xs, key)[j]
    ensures forall k :: k in GroupKeys(xs, key) <==> exists i :: 0 <= i < |xs| && key(xs[i]) == k
    decreases |xs|
  {
    if xs != [] {
      var xs' := xs[..|xs| - 1];
      GroupKeysSpec(xs', key);
      assert forall i :: 0 <= i < |xs'| ==> xs'[i] == xs[i];
      var ks := GroupKeys(xs, key);
      forall k | k in ks
        ensures exists i :: 0 <= i < |xs| && key(xs[i]) == k
      {
        if k in GroupKeys(xs', key) {
          var i :| 0 <= i < |xs'| && key(xs'[i]) == k;
          assert key(xs[i]) == k;
        } else {
          assert key(xs[|xs| - 1]) == k;
        }
      }
    } else {
      assert GroupKeys(xs, key) == [];
    }
  }

  /** A group holds exactly the elements with its key. */
  lemma {:induction false} GroupOfSpec<T(!new), K(!new)>(xs: seq<T>, key: T -> K, k: K)
    ensures forall x :: x in GroupOf(xs, key, k) ==> x in xs && key(x) == k
    ensures forall i :: 0 <= i < |xs| && key(xs[i]) == k ==> xs[i] in GroupOf(xs, key, k)
    decreases |xs|
  {
    if xs != [] {
      var xs' := xs[..|xs| - 1];
      GroupOfSpec(xs', key, k);
      assert forall i :: 0 <= i < |xs'| ==> xs'[i] == xs[i];
    } else {
      assert GroupOf(xs, key, k) == [];
    }
  }

  /** Every group of the grouping has at least one element. */
  lemma GroupNonEmpty<T(!new), K(!new)>(xs: seq<T>, key: T -> K, k: K)
    requires k in GroupKeys(xs, key)
    ensures GroupOf(xs, key, k) != []
  {
    GroupKeysSpec(xs, key);
    GroupOfSpec(xs, key, k);
    var i :| 0 <= i < |xs| && key(xs[i]) == k;
    assert xs[i] in GroupOf(xs, key, k);
  }

  /** The groups of the given keys, one after another. */
  function Regroup<T, K(==)>(xs: seq<T>, key: T -> K, ks: seq<K>): seq<T> {
    if ks == [] then [] else Regroup(xs, key, ks[..|ks| - 1]) + GroupOf(xs, key, ks[|ks| - 1])
  }

  lemma {:induction false} RegroupStep<T, K>(xs: seq<T>, key: T -> K, x: T, ks: seq<K>)
    requires forall i, j :: 0 <= i < j < |ks| ==> ks[i] != ks[j]
    ensures multiset(Regroup(xs + [x], key, ks))
            == multiset(Regroup(xs, key, ks)) + (if key(x) in ks then multiset{x} else multiset{})
    decreases |ks|
  {
    if ks != [] {
      var ks' := ks[..|ks| - 1];
      assert (xs + [x])[..|xs + [x]| - 1] == xs;
      RegroupStep(xs, key, x, ks');
      assert key(x) in ks <==> key(x) in ks' || key(x) == ks[|ks| - 1];
      if key(x) == ks[|ks| - 1] {
        assert key(x) !in ks';
      }
    }
  }

  lemma {:induction false} GroupOfAbsent<T, K>(xs: seq<T>, key: T -> K, k: K)
    requires forall i :: 0 <= i < |xs| ==> key(xs[i]) != k
    ensures GroupOf(xs, key, k) == []
    decreases |xs|
  {
    if xs != [] {
      var xs' := xs[..|xs| - 1];
      assert forall i :: 0 <= i < |xs'| ==> xs'[i] == xs[i];
      GroupOfAbsent(xs', key, k);
    }
  }

  /** Grouping neither loses nor duplicates an element: the groups are a permutation of the input. */
  lemma {:induction false} GroupsPartition<T(!new), K(!new)>(xs: seq<T>, key: T -> K)
    ensures multiset(Regroup(xs, key, GroupKeys(xs, key))) == multiset(xs)
    decreases |xs|
  {
    if xs != [] {
      var xs' := xs[..|xs| - 1];
      var x := xs[|xs| - 1];
      assert xs == xs' + [x];
      var ks := GroupKeys(xs', key);
      GroupKeysSpec(xs', key);
      GroupsPartition(xs', key);
      RegroupStep(xs', key, x, ks);
      if key(x) !in ks {
        GroupOfAbsent(xs', key, key(x));
        assert GroupOf(xs, key, key(x)) == [x];
      }
    }
  }

  // ---------------------------------------------------------------------
  // Keeping some elements and mapping them

  /** f of each element that passes keep, in order (a foreach with continue). */
  function FilterMap<T, U>(keep: T -> bool, f: T --> U, xs: seq<T>): (ys: seq<U>)
    requires forall i :: 0 <= i < |xs| && keep(xs[i]) ==> f.requires(xs[i])
    ensures |ys| <= |xs|
  {
    if xs == [] then []
    else
      var xs' := xs[..|xs| - 1];
      assert forall i :: 0 <= i < |xs'| ==> xs'[i] == xs[i];
      var ys := FilterMap(keep, f, xs');
      var x := xs[|xs| - 1];
      if keep(x) then ys + [f(x)] else ys
  }

  /** Each result is f of a kept element. */
  lemma {:induction false} FilterMapFrom<T, U>(keep: T -> bool, f: T --> U, xs: seq<T>)
    requires forall i :: 0 <= i < |xs| && keep(xs[i]) ==> f.requires(xs[i])
    ensures forall y :: y in FilterMap(keep, f, xs) ==> exists x :: x in xs && keep(x) && y == f(x)
    decreases |xs|
  {
    if xs == [] {
      assert FilterMap(keep, f, xs) == [];
    } else {
      var xs' := xs[..|xs| - 1];
      assert forall i :: 0 <= i < |xs'| ==> xs'[i] == xs[i];
      FilterMapFrom(keep, f, xs');
      var x := xs[|xs| - 1];
      assert x in xs;
      forall y | y in FilterMap(keep, f, xs)
        ensures exists x :: x in xs && keep(x) && y == f(x)
      {
        if y in FilterMap(keep, f, xs') {
          var z :| z in xs' && keep(z) && y == f(z);
          assert z in xs;
        } else {
          assert keep(x) && y == f(x);
        }
      }
    }
  }

  /** Each kept element contributes f of itself. */
  lemma {:induction false} FilterMapHas<T, U>(keep: T -> bool, f: T --> U, xs: seq<T>)
    requires forall i :: 0 <= i < |xs| && keep(xs[i]) ==> f.requires(xs[i])
    ensures forall x :: x in xs && keep(x) ==> f(x) in FilterMap(keep, f, xs)
    decreases |xs|
  {
    if xs != [] {
      var xs' := xs[..|xs| - 1];
      assert forall i :: 0 <= i < |xs'| ==> xs'[i] == xs[i];
      FilterMapHas(keep, f, xs');
      forall x | x in xs && keep(x)
        ensures f(x) in FilterMap(keep, f, xs)
      {
        var i :| 0 <= i < |xs| && xs[i] == x;
        if i < |xs'| {
          assert x in xs';
        }
      }
    }
  }

  /** Extending the input by one element extends the result by that element's image, if it is kept. */
  lemma FilterMapSnoc<T, U>(keep: T -> bool, f: T --> U, xs: seq<T>, n: nat)
    requires forall i :: 0 <= i < |xs| && keep(xs[i]) ==> f.requires(xs[i])
    requires n < |xs|
    ensures FilterMap(keep, f, xs[..n + 1])
            == FilterMap(keep, f, xs[..n]) + (if keep(xs[n]) then [f(xs[n])] else [])
  {
    assert xs[..n + 1][..n] == xs[..n];
  }

  // ---------------------------------------------------------------------
  // Rows and the sales built from them

  /** One record of the file, as the reader fills it (fields already trimmed). */
  datatype CsvRow = CsvRow(sucursal: string, noFacturaVenta: string, vendedor: string, fecha: string,
                           cliente: string, producto: string, categoria: string, descripcion: string,
                           cantidad: real, precioVenta: real, descuento: real, porcDescuento: string,
                           neto: real, descripcionPago: string, codFormaPago: string, marca: string,
                           tipoSubtipo: string, genero: string, color: string, referencia: string,
                           talla: string)

  /** The sale key: invoice number and branch. */
  function SaleKey(r: CsvRow): (string, string) {
    (r.noFacturaVenta, r.sucursal)
  }

  /** The payment key: payment code and payment description. */
  function PayKey(r: CsvRow): (string, string) {
    (r.codFormaPago, r.descripcionPago)
  }

  /** A blank text read as missing. */
  function Blanked(s: string): (r: Option<string>)
    ensures r.None? <==> Blank(s)
    ensures r.Some? ==> r.value == s
  {
    if Blank(s) then None else Some(s)
  }

  /** A row that names a product. */
  predicate HasProduct(r: CsvRow) {
    !Blank(r.producto)
  }

  /** The line a row with a product contributes. */
  function LineOf(r: CsvRow): (d: VentaDetDto)
    ensures d.producto.codigo == r.producto
    ensures d.subtotal == LineNet(r.neto, r.precioVenta, r.cantidad, r.descuento)
    ensures d.producto.precioVenta == Some(r.precioVenta) && d.precioUnitario == r.precioVenta
  {
    VentaDetDto(ProductoDto(r.producto, r.descripcion, Some(r.categoria), Some(r.precioVenta)),
                r.cantidad, r.precioVenta, r.descuento,
                LineNet(r.neto, r.precioVenta, r.cantidad, r.descuento),
                Blanked(r.categoria),
                Attributes(Blanked(r.marca), Blanked(r.genero), Blanked(r.color),
                           Blanked(r.referencia), Blanked(r.talla)))
  }

  /** The lines of a group: one per row with a product, in row order. */
  function Lines(g: seq<CsvRow>): seq<VentaDetDto> {
    FilterMap(HasProduct, LineOf, g)
  }

  /** Each line comes from a row with a product, and each row with a product gives its line. */
  lemma LinesFromRows(g: seq<CsvRow>)
    ensures forall d :: d in Lines(g) ==> exists r :: r in g && HasProduct(r) && d == LineOf(r)
    ensures forall r :: r in g && HasProduct(r) ==> LineOf(r) in Lines(g)
  {
    FilterMapFrom(HasProduct, LineOf, g);
    FilterMapHas(HasProduct, LineOf, g);
  }

  /** A payment method name: the code when it is not blank, otherwise the description. */
  function MethodName(pk: (string, string)): (m: string)
    ensures !Blank(pk.0) ==> m == pk.0
    ensures Blank(pk.0) ==> m == pk.1
  {
    if !Blank(pk.0) then pk.0 else pk.1
  }

  /** The raw NETO of the rows, added up. */
  function SumNeto(rows: seq<CsvRow>): real {
    if rows == [] then 0.0 else SumNeto(rows[..|rows| - 1]) + rows[|rows| - 1].neto
  }

  /** The payment of one payment key of a group. */
  function PaymentOf(g: seq<CsvRow>, pk: (string, string)): VentaPagoDto {
    VentaPagoDto(MethodName(pk), SumNeto(GroupOf(g, PayKey, pk)))
  }

  /** PaymentOf for one group, as a function of the key. */
  function PaymentIn(g: seq<CsvRow>): (f: ((string, string)) -> VentaPagoDto)
    ensures forall pk :: f(pk) == PaymentOf(g, pk)
  {
    pk => PaymentOf(g, pk)
  }

  /** A payment key that names a method. */
  predicate Named(pk: (string, string)) {
    !Blank(pk.0) || !Blank(pk.1)
  }

  /** The payments of a group, leaving out the keys whose code and description are both blank. */
  function Payments(g: seq<CsvRow>): seq<VentaPagoDto> {
    FilterMap(Named, PaymentIn(g), GroupKeys(g, PayKey))
  }

  /**
   * Each payment is the payment of a named key of the group, and each named
   * key has its payment: the method from the code or the description, the
   * amount the NETO of all the key's rows, the ones without a product
   * included.
   */
  lemma PaymentsOfKeys(g: seq<CsvRow>)
    ensures forall p :: p in Payments(g) ==>
              exists pk :: pk in GroupKeys(g, PayKey) && Named(pk) && p == PaymentOf(g, pk)
    ensures forall pk :: pk in GroupKeys(g, PayKey) && Named(pk) ==> PaymentOf(g, pk) in Payments(g)
  {
    FilterMapFrom(Named, PaymentIn(g), GroupKeys(g, PayKey));
    FilterMapHas(Named, PaymentIn(g), GroupKeys(g, PayKey));
  }

  /** The payment keys of a group are its distinct (code, description) pairs. */
  lemma PaymentKeysDistinct(g: seq<CsvRow>)
    ensures var pks := GroupKeys(g, PayKey);
            (forall i, j :: 0 <= i < j < |pks| ==> pks[i] != pks[j])
            && forall i :: 0 <= i < |g| ==> PayKey(g[i]) in pks
  {
    GroupKeysSpec(g, PayKey);
  }

  /** A payment method read from a file is never blank. */
  lemma PaymentMethodsNamed(g: seq<CsvRow>)
    ensures forall p :: p in Payments(g) ==> !Blank(p.metodo)
  {
    PaymentsOfKeys(g);
  }

  /** The sale a group of rows becomes, read from its first row. */
  function SaleOf(g: seq<CsvRow>, parseDate: string -> int): (v: VentaDto)
    requires g != []
    ensures v.almacen == Some(AlmacenDto(g[0].sucursal, g[0].sucursal))
    ensures v.numero.None? <==> Blank(g[0].noFacturaVenta)
    ensures v.numero.Some? ==> v.numero.value == g[0].noFacturaVenta
  {
    var first := g[0];
    VentaDto(Blanked(first.noFacturaVenta),
             parseDate(first.fecha),
             if Blank(first.cliente) then None else Some(ClienteDto(None, first.cliente, None, None)),
             Some(AlmacenDto(first.sucursal, first.sucursal)),
             if Blank(first.vendedor) then None else Some(EmpleadoDto(None, first.vendedor)),
             None,
             Lines(g),
             Payments(g))
  }

  /** SaleOf for one date reader, as a function of the group. */
  function SaleWith(parseDate: string -> int): (f: seq<CsvRow> --> VentaDto)
    ensures forall g :: g != [] ==> f.requires(g) && f(g) == SaleOf(g, parseDate)
  {
    g requires g != [] => SaleOf(g, parseDate)
  }

  /** A group whose first row names a branch. */
  predicate HasBranch(g: seq<CsvRow>) {
    g != [] && !Blank(g[0].sucursal)
  }

  /** The groups of a grouping, in key order; none of them is empty. */
  function Groups(rows: seq<CsvRow>): (gs: seq<seq<CsvRow>>)
    ensures var ks := GroupKeys(rows, SaleKey);
            |gs| == |ks| && forall i :: 0 <= i < |gs| ==> gs[i] == GroupOf(rows, SaleKey, ks[i]) && gs[i] != []
  {
    var ks := GroupKeys(rows, SaleKey);
    AllGroupsNonEmpty(rows, SaleKey);
    seq(|ks|, i requires 0 <= i < |ks| => GroupOf(rows, SaleKey, ks[i]))
  }

  lemma AllGroupsNonEmpty<T(!new), K(!new)>(xs: seq<T>, key: T -> K)
    ensures forall k :: k in GroupKeys(xs, key) ==> GroupOf(xs, key, k) != []
  {
    forall k | k in GroupKeys(xs, key)
      ensures GroupOf(xs, key, k) != []
    {
      GroupNonEmpty(xs, key, k);
    }
  }

  /** The sales of the given groups, leaving out the groups whose branch is blank. */
  function Sales(gs: seq<seq<CsvRow>>, parseDate: string -> int): seq<VentaDto> {
    FilterMap(HasBranch, SaleWith(parseDate), gs)
  }

  /** What ParseCsv returns: nothing for a file without rows, otherwise the sales of its groups. */
  function CsvSales(rows: seq<CsvRow>, parseDate: string -> int): (r: Option<seq<VentaDto>>)
    ensures r.None? <==> rows == []
  {
    if rows == [] then None else Some(Sales(Groups(rows), parseDate))
  }

  /** Each sale read from a file is the sale of one of its groups whose branch is not blank. */
  lemma SalesFromGroups(rows: seq<CsvRow>, parseDate: string -> int)
    requires rows != []
    ensures forall v :: v in CsvSales(rows, parseDate).value ==>
              exists k :: k in GroupKeys(rows, SaleKey) && !Blank(k.1)
                          && v == SaleOf(GroupOf(rows, SaleKey, k), parseDate)
  {
    var ks := GroupKeys(rows, SaleKey);
    var gs := Groups(rows);
    FilterMapFrom(HasBranch, SaleWith(parseDate), gs);
    forall v | v in CsvSales(rows, parseDate).value
      ensures exists k :: k in ks && !Blank(k.1) && v == SaleOf(GroupOf(rows, SaleKey, k), parseDate)
    {
      var g: seq<CsvRow> :| g in gs && HasBranch(g) && v == SaleWith(parseDate)(g);
      var n :| 0 <= n < |gs| && gs[n] == g;
      GroupOfSpec(rows, SaleKey, ks[n]);
      assert g[0] in g;
      assert ks[n] in ks && g[0].sucursal == ks[n].1;
    }
  }

  /** Every sale read from a file names a branch, so none is turned away for lacking one. */
  lemma SalesHaveBranch(rows: seq<CsvRow>, parseDate: string -> int)
    requires rows != []
    ensures forall v :: v in CsvSales(rows, parseDate).value ==>
              v.almacen.Some? && !Blank(v.almacen.value.codigo)
  {
    FilterMapFrom(HasBranch, SaleWith(parseDate), Groups(rows));
  }

  /**
   * A group whose branch is not blank becomes one of the sales; a group
   * whose branch is blank becomes none.
   */
  lemma SaleOfEveryBranch(rows: seq<CsvRow>, k: (string, string), parseDate: string -> int)
    requires k in GroupKeys(rows, SaleKey)
    ensures var g := GroupOf(rows, SaleKey, k);
            g != [] && (!Blank(k.1) <==> SaleOf(g, parseDate) in CsvSales(rows, parseDate).value)
  {
    var ks := GroupKeys(rows, SaleKey);
    var gs := Groups(rows);
    GroupKeysSpec(rows, SaleKey);
    var n :| 0 <= n < |ks| && ks[n] == k;
    var g := gs[n];
    assert g in gs && g[0] in g;
    GroupOfSpec(rows, SaleKey, k);
    assert g[0].sucursal == k.1;
    FilterMapHas(HasBranch, SaleWith(parseDate), gs);
    FilterMapFrom(HasBranch, SaleWith(parseDate), gs);
    if SaleOf(g, parseDate) in Sales(gs, parseDate) {
      var h: seq<CsvRow> :| h in gs && HasBranch(h) && SaleOf(g, parseDate) == SaleWith(parseDate)(h);
      assert SaleOf(g, parseDate).almacen == SaleOf(h, parseDate).almacen;
    }
  }

  // ---------------------------------------------------------------------
  // ParseCsv as the application writes it: loops that append.

  /** The lines of one group (the inner loop over the group's rows). */
  method ReadLines(g: seq<CsvRow>) returns (detalles: seq<VentaDetDto>)
    ensures detalles == Lines(g)
  {
    detalles := [];
    for j := 0 to |g|
      invariant detalles == FilterMap(HasProduct, LineOf, g[..j])
    {
      FilterMapSnoc(HasProduct, LineOf, g, j);
      var r := g[j];
      if Blank(r.producto) {
        continue;
      }
      detalles := detalles + [LineOf(r)];
    }
    assert g[..|g|] == g;
  }

  /** The payments of one group (grouping by payment key, then the loop over the named keys). */
  method ReadPayments(g: seq<CsvRow>) returns (pagos: seq<VentaPagoDto>)
    ensures pagos == Payments(g)
  {
    var pks := GroupKeys(g, PayKey);
    pagos := [];
    for j := 0 to |pks|
      invariant pagos == FilterMap(Named, PaymentIn(g), pks[..j])
    {
      FilterMapSnoc(Named, PaymentIn(g), pks, j);
      var pk := pks[j];
      if Named(pk) {
        pagos := pagos + [VentaPagoDto(MethodName(pk), SumNeto(GroupOf(g, PayKey, pk)))];
      }
    }
    assert pks[..|pks|] == pks;
  }

  /** ImportService.ParseCsv after the records are read. */
  method ParseCsv(rows: seq<CsvRow>, parseDate: string -> int) returns (dto: Option<seq<VentaDto>>)
    ensures dto == CsvSales(rows, parseDate)
  {
    if |rows| == 0 {
      return None;
    }
    var grupos := Groups(rows);
    var ventas: seq<VentaDto> := [];
    for i := 0 to |grupos|
      invariant ventas == FilterMap(HasBranch, SaleWith(parseDate), grupos[..i])
    {
      FilterMapSnoc(HasBranch, SaleWith(parseDate), grupos, i);
      var g := grupos[i];
      var first := g[0];
      if Blank(first.sucursal) {
        continue;
      }
      var detalles := ReadLines(g);
      var pagos := ReadPayments(g);
      var venta := VentaDto(if Blank(first.noFacturaVenta) then None else Some(first.noFacturaVenta),
                            parseDate(first.fecha),
                            if Blank(first.cliente) then None else Some(ClienteDto(None, first.cliente, None, None)),
                            Some(AlmacenDto(first.sucursal, first.sucursal)),
                            if Blank(first.vendedor) then None else Some(EmpleadoDto(None, first.vendedor)),
                            None, detalles, pagos);
      ventas := ventas + [venta];
    }
    assert grupos[..|grupos|] == grupos;
    return Some(ventas);
  }
}
