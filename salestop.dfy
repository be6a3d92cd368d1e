/**
 * The top-products page's client logic: the query-string builder, the
 * top-N input rule, the warehouse selection (a JavaScript Set, kept here
 * in its insertion order) with its summary label, and the parameters the
 * page sends for that selection.
 */
module SalesTop {
  import opened Wrappers
  import opened Text

  // ---------------------------------------------------------------------
  // buildQuery

  /**
   * A parameter value: null or undefined, one value, or an array of values;
   * each value is already in its String() form.
   */
  datatype Param = Missing | Scalar(text: string) | Many(items: seq<string>)

  /** One own property of the params object, in insertion order. */
  type Entry = (string, Param)

  /** The values a parameter holds, in order. */
  function ValuesOf(p: Param): seq<string> {
    match p
    case Missing => []
    case Scalar(t) => [t]
    case Many(items) => items
  }

  /**
   * What encodeURIComponent guarantees and the query shape relies on: the
   * delimiters '&' and '=' never survive encoding.
   */
  ghost predicate EscapesDelimiters(enc: string -> string) {
    forall s :: '&' !in enc(s) && '=' !in enc(s)
  }

  /** One `key=value` pair, both halves encoded. */
  function Pair(enc: string -> string, k: string, s: string): string {
    enc(k) + "=" + enc(s)
  }

  /** The pair a value emits: none when it is blank once trimmed. */
  function Emit(enc: string -> string, k: string, t: string): seq<string> {
    var s := Trim(JavaScript, t);
    if s != "" then [Pair(enc, k, s)] else []
  }

  /** The pieces f gives for each element, concatenated in order. */
  function FlatMap<T>(f: T -> seq<string>, xs: seq<T>): seq<string> {
    if xs == [] then [] else FlatMap(f, xs[..|xs| - 1]) + f(xs[|xs| - 1])
  }

  /** The pairs one array emits, in element order. */
  function ItemPairs(enc: string -> string, k: string, items: seq<string>): seq<string> {
    FlatMap(t => Emit(enc, k, t), items)
  }

  /**
   * The pairs one entry emits: a null or undefined value none, and a single
   * value the same as an array holding just that value.
   */
  function EntryPairs(enc: string -> string, e: Entry): seq<string> {
    ItemPairs(enc, e.0, ValuesOf(e.1))
  }

  /** The `parts` array once every entry has been visited. */
  function Pairs(enc: string -> string, params: seq<Entry>): seq<string> {
    FlatMap(e => EntryPairs(enc, e), params)
  }

  /** The base URL, followed by "?" and the pairs joined by "&" when there are any. */
  function WithQuery(baseUrl: string, parts: seq<string>): string {
    if parts == [] then baseUrl else baseUrl + "?" + Join(parts, "&")
  }

  /** buildQuery: visit the entries in order and push a pair per non-blank value. */
  method BuildQuery(baseUrl: string, params: seq<Entry>, enc: string -> string) returns (url: string)
    ensures url == WithQuery(baseUrl, Pairs(enc, params))
  {
    var parts: seq<string> := [];
    for i := 0 to |params|
      invariant parts == Pairs(enc, params[..i])
    {
      PairsStep(enc, params, i);
      var (k, v) := params[i];
      match v {
        case Missing =>
        case Many(items) =>
          var ps := ArrayPairs(enc, k, items);
          parts := parts + ps;
        case Scalar(t) =>
          ScalarPairs(enc, k, t);
          var s := Trim(JavaScript, t);
          if s != "" {
            parts := parts + [Pair(enc, k, s)];
          }
      }
    }
    assert params[..|params|] == params;
    url := if |parts| > 0 then baseUrl + "?" + Join(parts, "&") else baseUrl;
  }

  lemma PairsStep(enc: string -> string, params: seq<Entry>, i: nat)
    requires i < |params|
    ensures Pairs(enc, params[..i + 1]) == Pairs(enc, params[..i]) + EntryPairs(enc, params[i])
  {
    assert params[..i + 1][..i] == params[..i];
  }

  lemma ScalarPairs(enc: string -> string, k: string, t: string)
    ensures EntryPairs(enc, (k, Scalar(t))) == Emit(enc, k, t)
  {
    assert ValuesOf(Scalar(t)) == [t];
    assert [t][..|[t]| - 1] == [];
    assert [t][|[t]| - 1] == t;
    assert FlatMap(u => Emit(enc, k, u), [t]) == [] + Emit(enc, k, t);
  }

  /** The inner forEach over an array value. */
  method ArrayPairs(enc: string -> string, k: string, items: seq<string>) returns (out: seq<string>)
    ensures out == ItemPairs(enc, k, items)
  {
    out := [];
    for j := 0 to |items|
      invariant out == ItemPairs(enc, k, items[..j])
    {
      assert items[..j + 1][..j] == items[..j];
      var s := Trim(JavaScript, items[j]);
      if s != "" {
        out := out + [Pair(enc, k, s)];
      }
    }
    assert items[..|items|] == items;
  }

  lemma {:induction false} FlatMapAppend<T>(f: T -> seq<string>, xs: seq<T>, ys: seq<T>)
    ensures FlatMap(f, xs + ys) == FlatMap(f, xs) + FlatMap(f, ys)
    decreases |ys|
  {
    if ys == [] {
      assert xs + ys == xs;
    } else {
      assert (xs + ys)[..|xs + ys| - 1] == xs + ys[..|ys| - 1];
      FlatMapAppend(f, xs, ys[..|ys| - 1]);
    }
  }

  lemma {:induction false} FlatMapMembership<T>(f: T -> seq<string>, xs: seq<T>, x: string)
    ensures x in FlatMap(f, xs) <==> exists i :: 0 <= i < |xs| && x in f(xs[i])
  {
    if xs != [] {
      var init := xs[..|xs| - 1];
      FlatMapMembership(f, init, x);
      if x in FlatMap(f, init) {
        var i :| 0 <= i < |init| && x in f(init[i]);
        assert xs[i] == init[i];
      }
      if exists i :: 0 <= i < |xs| && x in f(xs[i]) {
        var i :| 0 <= i < |xs| && x in f(xs[i]);
        if i < |init| {
          assert init[i] == xs[i];
        }
      }
    }
  }

  /** Entries are visited in insertion order: the pairs of a concatenation concatenate. */
  lemma PairsAppend(enc: string -> string, p: seq<Entry>, q: seq<Entry>)
    ensures Pairs(enc, p + q) == Pairs(enc, p) + Pairs(enc, q)
  {
    FlatMapAppend(e => EntryPairs(enc, e), p, q);
  }

  /** A null or undefined entry adds nothing, wherever it stands. */
  lemma MissingSkipped(enc: string -> string, p: seq<Entry>, k: string, q: seq<Entry>)
    ensures Pairs(enc, p + [(k, Missing)] + q) == Pairs(enc, p + q)
  {
    var m := [(k, Missing)];
    MissingPairs(enc, k);
    PairsAppend(enc, p + m, q);
    PairsAppend(enc, p, m);
    PairsAppend(enc, p, q);
    assert Pairs(enc, p) + [] == Pairs(enc, p);
  }

  lemma MissingPairs(enc: string -> string, k: string)
    ensures Pairs(enc, [(k, Missing)]) == []
  {
    var m := [(k, Missing)];
    assert m[..0] == [];
    assert EntryPairs(enc, m[0]) == [];
    assert Pairs(enc, m) == Pairs(enc, []) + EntryPairs(enc, m[0]);
  }

  lemma EmitMembership(enc: string -> string, k: string, t: string, x: string)
    ensures x in Emit(enc, k, t) <==> Trim(JavaScript, t) != "" && x == Pair(enc, k, Trim(JavaScript, t))
  {
  }

  /** The pairs an array emits are exactly its non-blank trimmed elements, under its key. */
  lemma ItemPairsMembership(enc: string -> string, k: string, items: seq<string>, x: string)
    ensures x in ItemPairs(enc, k, items) <==>
            exists j :: 0 <= j < |items| && Trim(JavaScript, items[j]) != ""
                        && x == Pair(enc, k, Trim(JavaScript, items[j]))
  {
    FlatMapMembership(t => Emit(enc, k, t), items, x);
    forall j | 0 <= j < |items|
      ensures x in Emit(enc, k, items[j]) <==>
              Trim(JavaScript, items[j]) != "" && x == Pair(enc, k, Trim(JavaScript, items[j]))
    {
      EmitMembership(enc, k, items[j], x);
    }
  }

  /**
   * A pair is in the query exactly when some entry holds a value that is not
   * blank once trimmed, and the pair is that entry's key with that trimmed value.
   */
  lemma PairsMembership(enc: string -> string, params: seq<Entry>, x: string)
    ensures x in Pairs(enc, params) <==>
            exists i, j :: 0 <= i < |params| && 0 <= j < |ValuesOf(params[i].1)|
                           && Trim(JavaScript, ValuesOf(params[i].1)[j]) != ""
                           && x == Pair(enc, params[i].0, Trim(JavaScript, ValuesOf(params[i].1)[j]))
  {
    FlatMapMembership(e => EntryPairs(enc, e), params, x);
    forall i | 0 <= i < |params|
      ensures x in EntryPairs(enc, params[i]) <==>
              exists j :: 0 <= j < |ValuesOf(params[i].1)| && Trim(JavaScript, ValuesOf(params[i].1)[j]) != ""
                          && x == Pair(enc, params[i].0, Trim(JavaScript, ValuesOf(params[i].1)[j]))
    {
      ItemPairsMembership(enc, params[i].0, ValuesOf(params[i].1), x);
    }
  }

  /** String.prototype.split with a one-character separator. */
  function SplitOn(s: string, c: char): (r: seq<string>)
    ensures |r| >= 1
    decreases |s|
  {
    var i := IndexOf(s, c);
    if i == -1 then [s] else [s[..i]] + SplitOn(s[i + 1..], c)
  }

  lemma SplitOnFree(p: string, c: char)
    requires c !in p
    ensures SplitOn(p, c) == [p]
  {
  }

  lemma SplitOnStep(p: string, c: char, rest: string)
    requires c !in p
    ensures SplitOn(p + [c] + rest, c) == [p] + SplitOn(rest, c)
  {
    var s := p + [c] + rest;
    var i := IndexOf(s, c);
    assert s[|p|] == c;
    assert s[..|p|] == p;
    assert i == |p|;
    assert s[i + 1..] == rest;
  }

  /** Splitting on the separator undoes joining with it when no piece contains it. */
  lemma {:induction false} SplitOnJoin(parts: seq<string>, c: char)
    requires |parts| >= 1
    requires forall i :: 0 <= i < |parts| ==> c !in parts[i]
    ensures SplitOn(Join(parts, [c]), c) == parts
  {
    if |parts| == 1 {
      SplitOnFree(parts[0], c);
    } else {
      SplitOnStep(parts[0], c, Join(parts[1..], [c]));
      SplitOnJoin(parts[1..], c);
      assert parts == [parts[0]] + parts[1..];
    }
  }

  /** A server's reading of a URL: the path before the first '?', and the '&'-separated pairs after it. */
  function ReadQuery(url: string): (string, seq<string>) {
    var i := IndexOf(url, '?');
    if i == -1 then (url, []) else (url[..i], SplitOn(url[i + 1..], '&'))
  }

  /** Every emitted pair is free of '&' and splits at its '=' into the encoded key and value. */
  lemma PairShape(enc: string -> string, k: string, s: string)
    requires EscapesDelimiters(enc)
    ensures '&' !in Pair(enc, k, s)
    ensures SplitOn(Pair(enc, k, s), '=') == [enc(k), enc(s)]
  {
    assert '=' !in enc(k) && '=' !in enc(s);
    assert '&' !in enc(k) && '&' !in enc(s);
    SplitOnStep(enc(k), '=', enc(s));
    SplitOnFree(enc(s), '=');
  }

  lemma {:induction false} PairsFreeOfAmpersand(enc: string -> string, params: seq<Entry>)
    requires EscapesDelimiters(enc)
    ensures forall i :: 0 <= i < |Pairs(enc, params)| ==> '&' !in Pairs(enc, params)[i]
  {
    forall i | 0 <= i < |Pairs(enc, params)|
      ensures '&' !in Pairs(enc, params)[i]
    {
      var x := Pairs(enc, params)[i];
      PairsMembership(enc, params, x);
      var a, j :| 0 <= a < |params| && 0 <= j < |ValuesOf(params[a].1)|
                  && Trim(JavaScript, ValuesOf(params[a].1)[j]) != ""
                  && x == Pair(enc, params[a].0, Trim(JavaScript, ValuesOf(params[a].1)[j]));
      PairShape(enc, params[a].0, Trim(JavaScript, ValuesOf(params[a].1)[j]));
    }
  }

  /**
   * The built URL reads back as the base and the emitted pairs, in order;
   * with no pairs it is the base unchanged.
   */
  lemma QueryRoundTrip(baseUrl: string, parts: seq<string>)
    requires '?' !in baseUrl
    requires forall i :: 0 <= i < |parts| ==> '&' !in parts[i]
    ensures ReadQuery(WithQuery(baseUrl, parts)) == (baseUrl, parts)
    ensures WithQuery(baseUrl, parts) == baseUrl <==> parts == []
  {
    if parts != [] {
      var url := baseUrl + "?" + Join(parts, "&");
      assert url[|baseUrl|] == '?';
      assert url[..|baseUrl|] == baseUrl;
      assert IndexOf(url, '?') == |baseUrl|;
      assert url[|baseUrl| + 1..] == Join(parts, "&");
      SplitOnJoin(parts, '&');
    }
  }

  /** What the page's buildQuery promises, end to end, for an encoder that escapes the delimiters. */
  lemma BuildQueryReadsBack(baseUrl: string, params: seq<Entry>, enc: string -> string)
    requires '?' !in baseUrl && EscapesDelimiters(enc)
    ensures ReadQuery(WithQuery(baseUrl, Pairs(enc, params))) == (baseUrl, Pairs(enc, params))
  {
    PairsFreeOfAmpersand(enc, params);
    QueryRoundTrip(baseUrl, Pairs(enc, params));
  }

  // ---------------------------------------------------------------------
  // getTopN

  /** getTopN: the parsed integer when it is at least 1, otherwise 10; a missing input reads as "10". */
  function TopN(input: Option<string>): (n: int)
    ensures n >= 1
    ensures n != 10 ==> ParseInt(input.GetOr("10")) == Some(n)
    ensures input.Some? && ParseInt(input.value).Some? && ParseInt(input.value).value >= 1 ==>
              n == ParseInt(input.value).value
    ensures input.Some? && (ParseInt(input.value).None? || ParseInt(input.value).value < 1) ==> n == 10
  {
    match ParseInt(input.GetOr("10"))
    case Some(v) => if v >= 1 then v else 10
    case None => 10
  }

  /** The text of a positive integer, followed by anything but a digit, is read as that integer. */
  lemma TopNReads(n: int, rest: string)
    requires n >= 1
    requires rest == [] || !IsDigit(rest[0])
    ensures TopN(Some(IntToString(n) + rest)) == n
  {
    ParseIntToString(n, rest);
  }

  /** The text of an integer below 1 falls back to 10. */
  lemma TopNBelowOne(n: int)
    requires n < 1
    ensures TopN(Some(IntToString(n))) == 10
  {
    ParseIntToString(n, "");
    assert IntToString(n) + "" == IntToString(n);
  }

  /** A missing input reads as "10". */
  lemma TopNMissing()
    ensures TopN(None) == 10
  {
    assert NatToString(1) == "1";
    assert IntToString(10) == "10";
    ParseIntToString(10, "");
    assert IntToString(10) + "" == "10";
  }

  // ---------------------------------------------------------------------
  // Warehouse selection

  datatype Almacen = Almacen(id: int, nombre: string)

  predicate Distinct(s: seq<int>) {
    forall i, j :: 0 <= i < j < |s| ==> s[i] != s[j]
  }

  /** The checkbox values, one per warehouse, in list order. */
  function Ids(alm: seq<Almacen>): (r: seq<int>)
    ensures |r| == |alm|
    ensures forall i :: 0 <= i < |alm| ==> r[i] == alm[i].id
  {
    if alm == [] then [] else Ids(alm[..|alm| - 1]) + [alm[|alm| - 1].id]
  }

  /** Adding each value to a Set in turn: the first occurrences, in order. */
  function Dedup(xs: seq<int>): (r: seq<int>)
    ensures Distinct(r)
    ensures forall x :: x in r <==> x in xs
  {
    if xs == [] then []
    else
      var d := Dedup(xs[..|xs| - 1]);
      var x := xs[|xs| - 1];
      assert forall y :: y in xs <==> y in xs[..|xs| - 1] || y == x;
      if x in d then d else d + [x]
  }

  /** Set.delete: the value removed, the others kept in order. */
  function Remove(s: seq<int>, x: int): (r: seq<int>)
    ensures forall y :: y in r <==> y in s && y != x
    ensures Distinct(s) ==> Distinct(r)
  {
    if s == [] then []
    else
      var d := Remove(s[..|s| - 1], x);
      var y := s[|s| - 1];
      assert forall z :: z in s <==> z in s[..|s| - 1] || z == y;
      assert Distinct(s) ==> y !in s[..|s| - 1];
      if y == x then d else d + [y]
  }

  /** almacenes.filter(a => seleccionados.has(a.id)). */
  function Selected(alm: seq<Almacen>, sel: seq<int>): (r: seq<Almacen>)
    ensures |r| <= |alm|
    ensures forall a :: a in r <==> a in alm && a.id in sel
  {
    if alm == [] then []
    else
      var d := Selected(alm[..|alm| - 1], sel);
      var a := alm[|alm| - 1];
      assert forall b :: b in alm <==> b in alm[..|alm| - 1] || b == a;
      if a.id in sel then d + [a] else d
  }

  function Names(xs: seq<Almacen>): (r: seq<string>)
    ensures |r| == |xs|
    ensures forall i :: 0 <= i < |xs| ==> r[i] == xs[i].nombre
  {
    if xs == [] then [] else Names(xs[..|xs| - 1]) + [xs[|xs| - 1].nombre]
  }

  /** updateSummary's text for a selection. */
  function Summary(alm: seq<Almacen>, sel: seq<int>): string {
    if |sel| == 0 then "Ninguno"
    else if |sel| == |alm| then "Todos"
    else NamesLabel(Names(Selected(alm, sel)))
  }

  /** The first two names joined by ", ", then " +k" for the k names left over. */
  function NamesLabel(names: seq<string>): string {
    Join(names[..if |names| < 2 then |names| else 2], ", ")
    + (if |names| > 2 then " +" + IntToString(|names| - 2) else "")
  }

  lemma NamesLabelOf(names: seq<string>)
    requires names != []
    ensures NamesLabel(names) ==
              if |names| == 1 then names[0]
              else if |names| == 2 then names[0] + ", " + names[1]
              else names[0] + ", " + names[1] + " +" + IntToString(|names| - 2)
  {
    if |names| >= 2 {
      var two := names[..2];
      assert two == [names[0], names[1]];
      assert two[1..] == [names[1]];
      assert Join(two, ", ") == names[0] + ", " + names[1];
      if |names| > 2 {
        var k := IntToString(|names| - 2);
        assert Join(two, ", ") + (" +" + k) == names[0] + ", " + names[1] + " +" + k;
      }
    } else {
      assert names[..1] == [names[0]];
    }
  }

  /** Distinct warehouse ids: each id names one warehouse. */
  predicate UniqueIds(alm: seq<Almacen>) {
    forall i, j :: 0 <= i < j < |alm| ==> alm[i].id != alm[j].id
  }

  /** A selection drawn from the warehouses' ids. */
  predicate Within(alm: seq<Almacen>, sel: seq<int>) {
    forall i :: 0 <= i < |sel| ==> sel[i] in Ids(alm)
  }

  lemma {:induction false} DistinctCard(s: seq<int>)
    requires Distinct(s)
    ensures |set x | x in s| == |s|
  {
    if s != [] {
      var init := s[..|s| - 1];
      DistinctCard(init);
      assert s[|s| - 1] !in init;
      assert (set x | x in s) == (set x | x in init) + {s[|s| - 1]};
    }
  }

  /** As many warehouses are selected as the selection holds ids. */
  lemma {:induction false} SelectedCount(alm: seq<Almacen>, sel: seq<int>)
    requires UniqueIds(alm) && Distinct(sel) && Within(alm, sel)
    ensures |Selected(alm, sel)| == |sel|
  {
    var r := Selected(alm, sel);
    var ids := Ids(r);
    SelectedIdsDistinct(alm, sel);
    assert (set x | x in ids) == (set x | x in sel) by {
      forall x | x in sel
        ensures x in ids
      {
        var i :| 0 <= i < |sel| && sel[i] == x;
        assert x in Ids(alm);
        var k :| 0 <= k < |alm| && Ids(alm)[k] == x;
        assert alm[k] in r;
        var m :| 0 <= m < |r| && r[m] == alm[k];
        assert ids[m] == x;
      }
      forall x | x in ids
        ensures x in sel
      {
        var m :| 0 <= m < |ids| && ids[m] == x;
        assert r[m] in r;
      }
    }
    DistinctCard(ids);
    DistinctCard(sel);
  }

  /** The selected warehouses keep the warehouses' distinct ids. */
  lemma {:induction false} SelectedIdsDistinct(alm: seq<Almacen>, sel: seq<int>)
    requires UniqueIds(alm)
    ensures Distinct(Ids(Selected(alm, sel)))
  {
    if alm != [] {
      var init := alm[..|alm| - 1];
      var a := alm[|alm| - 1];
      SelectedIdsDistinct(init, sel);
      var d := Selected(init, sel);
      if a.id in sel {
        forall b | b in d
          ensures b.id != a.id
        {
          var k :| 0 <= k < |init| && init[k] == b;
          assert alm[k] == b;
        }
        var ids := Ids(d + [a]);
        forall i, j | 0 <= i < j < |ids|
          ensures ids[i] != ids[j]
        {
          if j == |d| {
            assert d[i] in d;
          } else {
            assert ids[i] == Ids(d)[i] && ids[j] == Ids(d)[j];
          }
        }
      }
    }
  }

  /**
   * The label of a partial selection: the first one or two selected names in
   * list order, and, past two, " +k" where k counts the other selected ids.
   */
  lemma SummaryOfPartial(alm: seq<Almacen>, sel: seq<int>)
    requires UniqueIds(alm) && Distinct(sel) && Within(alm, sel)
    requires 0 < |sel| && |sel| != |alm|
    ensures var names := Names(Selected(alm, sel));
            |names| == |sel| &&
            Summary(alm, sel) ==
              if |sel| == 1 then names[0]
              else if |sel| == 2 then names[0] + ", " + names[1]
              else names[0] + ", " + names[1] + " +" + IntToString(|sel| - 2)
  {
    SelectedCount(alm, sel);
    NamesLabelOf(Names(Selected(alm, sel)));
  }

  /** No selection and a full selection have their own labels. */
  lemma SummaryOfExtremes(alm: seq<Almacen>)
    requires UniqueIds(alm) && alm != []
    ensures Summary(alm, []) == "Ninguno"
    ensures Summary(alm, Dedup(Ids(alm))) == "Todos"
  {
    AllIdsDistinct(alm);
    assert Dedup(Ids(alm)) == Ids(alm) by {
      DedupOfDistinct(Ids(alm));
    }
  }

  lemma AllIdsDistinct(alm: seq<Almacen>)
    requires UniqueIds(alm)
    ensures Distinct(Ids(alm))
  {
  }

  lemma {:induction false} DedupOfDistinct(xs: seq<int>)
    requires Distinct(xs)
    ensures Dedup(xs) == xs
  {
    if xs != [] {
      var init := xs[..|xs| - 1];
      DedupOfDistinct(init);
      assert xs[|xs| - 1] !in init;
      assert init + [xs[|xs| - 1]] == xs;
    }
  }

  /**
   * The dropdown: the warehouses, the selected ids (a Set, in insertion
   * order), the state of the "all" checkbox and the summary label.
   */
  class Selection {
    var almacenes: seq<Almacen>
    var seleccionados: seq<int>
    var allChecked: bool
    var summary: string

    ghost predicate Valid()
      reads this
    {
      Distinct(seleccionados) && Within(almacenes, seleccionados)
      && summary == Summary(almacenes, seleccionados)
    }

    /** renderChecks: every warehouse checked, "all" checked. */
    constructor (list: seq<Almacen>)
      ensures almacenes == list && seleccionados == Dedup(Ids(list))
      ensures allChecked && summary == Summary(list, seleccionados)
      ensures Valid()
    {
      var all := Dedup(Ids(list));
      AllWithin(list);
      almacenes := list;
      seleccionados := all;
      allChecked := true;
      new;
      summary := Summary(almacenes, seleccionados);
    }

    /** A warehouse checkbox changes: add or delete its id, then "all" is checked iff every warehouse counts. */
    method Toggle(id: int, checked: bool)
      requires Valid() && id in Ids(almacenes)
      modifies this
      ensures Valid() && almacenes == old(almacenes)
      ensures checked ==> seleccionados == if id in old(seleccionados) then old(seleccionados) else old(seleccionados) + [id]
      ensures !checked ==> seleccionados == Remove(old(seleccionados), id)
      ensures forall x :: x != id ==> (x in seleccionados <==> x in old(seleccionados))
      ensures id in seleccionados <==> checked
      ensures allChecked <==> |seleccionados| == |almacenes|
    {
      if checked {
        if id !in seleccionados {
          AddWithin(almacenes, seleccionados, id);
          seleccionados := seleccionados + [id];
        }
      } else {
        seleccionados := Remove(seleccionados, id);
        RemoveWithin(almacenes, old(seleccionados), id);
      }
      allChecked := |seleccionados| == |almacenes|;
      summary := Summary(almacenes, seleccionados);
    }

    /** The "all" checkbox changes: every warehouse follows it. */
    method SetAll(checked: bool)
      requires Valid()
      modifies this
      ensures Valid() && almacenes == old(almacenes) && allChecked == checked
      ensures seleccionados == if checked then Dedup(Ids(almacenes)) else []
    {
      allChecked := checked;
      seleccionados := if checked then Dedup(Ids(almacenes)) else [];
      summary := Summary(almacenes, seleccionados);
    }

    /** resetFilters, as far as the selection goes: every warehouse selected again. */
    method Reset()
      requires Valid()
      modifies this
      ensures Valid() && almacenes == old(almacenes) && allChecked
      ensures seleccionados == Dedup(Ids(almacenes))
    {
      allChecked := true;
      seleccionados := Dedup(Ids(almacenes));
      summary := Summary(almacenes, seleccionados);
    }
  }

  /** Selecting every checkbox selects warehouse ids only. */
  lemma AllWithin(alm: seq<Almacen>)
    ensures Within(alm, Dedup(Ids(alm)))
  {
    var d := Dedup(Ids(alm));
    forall i | 0 <= i < |d|
      ensures d[i] in Ids(alm)
    {
      assert d[i] in d;
    }
  }

  lemma AddWithin(alm: seq<Almacen>, sel: seq<int>, id: int)
    requires Distinct(sel) && Within(alm, sel) && id in Ids(alm) && id !in sel
    ensures Distinct(sel + [id]) && Within(alm, sel + [id])
    ensures forall x :: x in sel + [id] <==> x in sel || x == id
  {
    var r := sel + [id];
    forall i, j | 0 <= i < j < |r|
      ensures r[i] != r[j]
    {
      if j == |sel| {
        assert r[i] == sel[i];
        assert sel[i] in sel;
      }
    }
  }

  lemma RemoveWithin(alm: seq<Almacen>, sel: seq<int>, id: int)
    requires Within(alm, sel)
    ensures Within(alm, Remove(sel, id))
  {
    var r := Remove(sel, id);
    forall i | 0 <= i < |r|
      ensures r[i] in Ids(alm)
    {
      assert r[i] in r;
    }
  }

  // ---------------------------------------------------------------------
  // The parameters sent for a selection

  function IntTexts(xs: seq<int>): (r: seq<string>)
    ensures |r| == |xs|
    ensures forall i :: 0 <= i < |xs| ==> r[i] == IntToString(xs[i])
  {
    if xs == [] then [] else IntTexts(xs[..|xs| - 1]) + [IntToString(xs[|xs| - 1])]
  }

  /** getYearRaw / getMonthRaw: the input's trimmed value, a missing input reading as "". */
  function RawInput(input: Option<string>): string {
    Trim(JavaScript, input.GetOr(""))
  }

  /**
   * fetchTopProductos: year, limit, _t, then month when given, then
   * almacenIds for a partial selection. The year and month are the inputs'
   * trimmed values (RawInput), the limit is getTopN's (TopN) and the time
   * stamp is Date.now(), all passed in.
   */
  function TopParams(alm: seq<Almacen>, sel: seq<int>, year: string, month: string, limit: int, now: int): seq<Entry>
  {
    [("year", Scalar(year)), ("limit", Scalar(IntToString(limit))), ("_t", Scalar(IntToString(now)))]
    + (if month != "" then [("month", Scalar(month))] else [])
    + (if |sel| > 0 && |sel| != |alm| then [("almacenIds", Many(IntTexts(sel)))] else [])
  }

  /** fetchTopProductosMulti: year, limit, almacenIds (always), _t, then month when given. */
  function MultiParams(sel: seq<int>, year: string, month: string, limit: int, now: int): seq<Entry>
  {
    [("year", Scalar(year)), ("limit", Scalar(IntToString(limit))),
     ("almacenIds", Many(IntTexts(sel))), ("_t", Scalar(IntToString(now)))]
    + (if month != "" then [("month", Scalar(month))] else [])
  }

  predicate HasKey(params: seq<Entry>, k: string) {
    exists i :: 0 <= i < |params| && params[i].0 == k
  }

  /** The single-chart request names warehouses only for a selection that is neither empty nor complete. */
  lemma TopParamsIds(alm: seq<Almacen>, sel: seq<int>, year: string, month: string, limit: int, now: int)
    ensures HasKey(TopParams(alm, sel, year, month, limit, now), "almacenIds") <==> 0 < |sel| && |sel| != |alm|
  {
    var ps := TopParams(alm, sel, year, month, limit, now);
    if 0 < |sel| && |sel| != |alm| {
      assert ps[|ps| - 1].0 == "almacenIds";
    }
    if HasKey(ps, "almacenIds") {
      var i :| 0 <= i < |ps| && ps[i].0 == "almacenIds";
      assert i >= 3;
    }
  }

  /** The comparison request always names the selected warehouses. */
  lemma MultiParamsIds(sel: seq<int>, year: string, month: string, limit: int, now: int)
    ensures MultiParams(sel, year, month, limit, now)[2] == ("almacenIds", Many(IntTexts(sel)))
  {
  }

  lemma IntTextTrimmed(n: int)
    ensures IntToString(n) != "" && Trim(JavaScript, IntToString(n)) == IntToString(n)
  {
    var t := IntToString(n);
    var m: nat := if n < 0 then -n else n;
    assert !IsSpace(JavaScript, t[0]) && !IsSpace(JavaScript, t[|t| - 1]) by {
      assert t[|t| - 1] == NatToString(m)[|NatToString(m)| - 1];
    }
    TrimUnique(JavaScript, [], t, []);
    assert [] + t + [] == t;
  }

  /** The ids travel as one almacenIds pair per selected id, in selection order. */
  lemma {:induction false} IdsPairs(enc: string -> string, sel: seq<int>)
    ensures var r := ItemPairs(enc, "almacenIds", IntTexts(sel));
            |r| == |sel| && forall i :: 0 <= i < |sel| ==> r[i] == Pair(enc, "almacenIds", IntToString(sel[i]))
  {
    if sel != [] {
      var k := "almacenIds";
      var init := sel[..|sel| - 1];
      var x := sel[|sel| - 1];
      var t := IntTexts(sel);
      IdsPairs(enc, init);
      IntTextTrimmed(x);
      assert t[..|t| - 1] == IntTexts(init);
      assert ItemPairs(enc, k, t) == ItemPairs(enc, k, IntTexts(init)) + Emit(enc, k, t[|t| - 1]);
      assert Emit(enc, k, IntToString(x)) == [Pair(enc, k, IntToString(x))];
      assert forall i :: 0 <= i < |init| ==> init[i] == sel[i];
    }
  }
}
