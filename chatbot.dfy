/**
 * The chat-bot wizard of the sales site: it asks for the three required
 * filters (year, limit, warehouse ids) and then the three optional ones
 * (category, payment method, month) one at a time, checks each answer, and
 * queries the top-products endpoint once everything has been asked.
 */
module ChatBot {
  import opened Wrappers
  import opened Text

  // ---------------------------------------------------------------------
  // Parsing the answers

  /** toInt: parseInt(v, 10) when it gives a number, otherwise null. */
  function ToInt(s: string): Option<int> {
    ParseInt(s)
  }

  /** The integers among the pieces, in order; pieces that do not parse are dropped. */
  function Ints(pieces: seq<string>): seq<int> {
    if pieces == [] then []
    else
      match ToInt(pieces[0])
      case Some(n) => [n] + Ints(pieces[1..])
      case None => Ints(pieces[1..])
  }

  /** toIntList: null for null, otherwise the integers of the text split on runs of ',', ';' and white space. */
  function ToIntList(v: Option<string>): (r: Option<seq<int>>)
    ensures r.None? <==> v.None?
  {
    match v
    case None => None
    case Some(s) => Some(Ints(SplitList(s)))
  }

  /** Decimal text of a number, as String(n) writes an integer. */
  function IdsText(xs: seq<int>): (r: seq<string>)
    ensures |r| == |xs| && forall i :: 0 <= i < |xs| ==> r[i] == IntToString(xs[i])
  {
    seq(|xs|, i requires 0 <= i < |xs| => IntToString(xs[i]))
  }

  /** The text of a number reads back as that number. */
  lemma ToIntOfString(n: int)
    ensures ToInt(IntToString(n)) == Some(n)
  {
    ParseIntToString(n, []);
    assert IntToString(n) + [] == IntToString(n);
  }

  lemma NumberHasNoSeparator(n: int)
    ensures IntToString(n) != [] && NoListSep(IntToString(n))
  {
    var d := NatToString(if n < 0 then -n else n);
    assert forall i :: 0 <= i < |d| ==> IsDigit(d[i]);
    if n < 0 {
      assert IntToString(n) == "-" + d;
      assert forall i :: 1 <= i < |IntToString(n)| ==> IntToString(n)[i] == d[i - 1];
    }
  }

  lemma {:induction false} IntsOfTexts(xs: seq<int>)
    ensures Ints(IdsText(xs)) == xs
  {
    if xs != [] {
      ToIntOfString(xs[0]);
      assert IdsText(xs)[1..] == IdsText(xs[1..]);
      IntsOfTexts(xs[1..]);
    }
  }

  /** A comma-joined list of numbers splits back into the same numbers. */
  lemma IdsRoundTrip(xs: seq<int>)
    requires xs != []
    ensures ToIntList(Some(Join(IdsText(xs), ","))) == Some(xs)
  {
    var t := IdsText(xs);
    forall i | 0 <= i < |t|
      ensures t[i] != [] && NoListSep(t[i])
    {
      NumberHasNoSeparator(xs[i]);
    }
    SplitJoin(t);
    IntsOfTexts(xs);
  }

  /** The integers of one piece: its value, or nothing when it does not parse. */
  function PieceInts(p: string): seq<int> {
    match ToInt(p)
    case Some(n) => [n]
    case None => []
  }

  lemma IntsCons(p: string, ps: seq<string>)
    ensures Ints([p] + ps) == PieceInts(p) + Ints(ps)
  {
    var s := [p] + ps;
    assert s[0] == p && s[1..] == ps;
  }

  /**
   * toIntList reads one piece at a time: the separator-free text before the
   * first run of ',', ';' or white space (empty when the text starts with
   * one) gives its integer or nothing, and the rest is read after the run.
   */
  lemma ToIntListStep(p: string, r: string, rest: string)
    requires NoListSep(p)
    requires r != [] && AllListSep(r)
    requires rest == [] || !IsListSep(rest[0])
    ensures ToIntList(Some(p + r + rest)) == Some(PieceInts(p) + ToIntList(Some(rest)).value)
  {
    SplitRun(p, r, rest);
    IntsCons(p, SplitList(rest));
  }

  /** Text without a separator is a single piece. */
  lemma ToIntListSingle(p: string)
    requires NoListSep(p)
    ensures ToIntList(Some(p)) == Some(PieceInts(p))
  {
    SplitSingle(p);
    IntsCons(p, []);
    assert [p] + [] == [p];
    assert Ints([]) == [];
    assert PieceInts(p) + [] == PieceInts(p);
  }

  /** An integer is in the list exactly when some piece reads as it. */
  lemma {:induction false} IntsMembers(pieces: seq<string>, n: int)
    ensures n in Ints(pieces) <==> exists i :: 0 <= i < |pieces| && ToInt(pieces[i]) == Some(n)
  {
    if pieces != [] {
      IntsMembers(pieces[1..], n);
      if n in Ints(pieces[1..]) {
        var i :| 0 <= i < |pieces[1..]| && ToInt(pieces[1..][i]) == Some(n);
        assert ToInt(pieces[i + 1]) == Some(n);
      }
      if exists i :: 0 <= i < |pieces| && ToInt(pieces[i]) == Some(n) {
        var i :| 0 <= i < |pieces| && ToInt(pieces[i]) == Some(n);
        if i > 0 {
          assert ToInt(pieces[1..][i - 1]) == Some(n);
        }
      }
    }
  }

  /** A piece that starts with neither a digit nor a sign is not a number. */
  lemma WordIsNotInt(w: string)
    requires w != [] && NoListSep(w)
    requires !IsDigit(w[0]) && w[0] != '-' && w[0] != '+'
    ensures ToInt(w) == None
  {
    TrimStartNoSpace(JavaScript, w);
  }

  /**
   * A number, a run of separators, a word, another run and a number read
   * as the two numbers: "1, x;2" reads as [1, 2].
   */
  lemma ToIntListSkipsWord(n: int, r1: string, w: string, r2: string, m: int)
    requires r1 != [] && AllListSep(r1) && r2 != [] && AllListSep(r2)
    requires w != [] && NoListSep(w) && !IsDigit(w[0]) && w[0] != '-' && w[0] != '+'
    ensures ToIntList(Some(IntToString(n) + r1 + (w + r2 + IntToString(m)))) == Some([n, m])
  {
    NumberHasNoSeparator(n);
    NumberHasNoSeparator(m);
    ToIntOfString(n);
    ToIntOfString(m);
    WordIsNotInt(w);
    ToIntListSingle(IntToString(m));
    ToIntListStep(w, r2, IntToString(m));
    assert PieceInts(w) + PieceInts(IntToString(m)) == [m];
    assert (w + r2 + IntToString(m))[0] == w[0];
    ToIntListStep(IntToString(n), r1, w + r2 + IntToString(m));
    assert PieceInts(IntToString(n)) + [m] == [n, m];
  }

  // ---------------------------------------------------------------------
  // Fields and answers

  datatype Field = Year | Limit | AlmacenIds | Categoria | MetodoPago | Month

  /** A stored answer: a number, or a text. */
  datatype Value = IntVal(n: int) | TextVal(s: string)

  /** TOP.reqOrder and TOP.optOrder. */
  const ReqOrder: seq<Field> := [Year, Limit, AlmacenIds]
  const OptOrder: seq<Field> := [Categoria, MetodoPago, Month]

  predicate IsNumberField(f: Field) {
    f == Year || f == Limit || f == Month
  }

  /** What Coerce can store for a field. */
  predicate Fits(f: Field, v: Value) {
    if IsNumberField(f) then v.IntVal?
    else if f == AlmacenIds then v.TextVal? && v.s != []
    else v.TextVal?
  }

  /**
   * coerce: a number for year, limit and month; the comma-joined warehouse
   * ids (null when there are none); the trimmed text for the rest. None
   * stands for null, an answer the wizard rejects.
   */
  function Coerce(f: Field, raw: string): (r: Option<Value>)
    ensures r.Some? ==> Fits(f, r.value)
    ensures IsNumberField(f) ==> (r.Some? <==> ToInt(raw).Some?) && (r.Some? ==> r.value.n == ToInt(raw).value)
    ensures f == AlmacenIds ==> (r.Some? <==> ToIntList(Some(raw)).value != [])
    ensures !IsNumberField(f) && f != AlmacenIds ==> r == Some(TextVal(Trim(JavaScript, raw)))
  {
    if IsNumberField(f) then
      match ToInt(raw)
      case Some(n) => Some(IntVal(n))
      case None => None
    else if f == AlmacenIds then
      var list := ToIntList(Some(raw)).value;
      if list == [] then None
      else
        var csv := Join(IdsText(list), ",");
        JoinStarts(IdsText(list));
        Some(TextVal(csv))
    else Some(TextVal(Trim(JavaScript, raw)))
  }

  /** The warehouse list the query sends, parsed again from the stored answer, is the list typed in. */
  lemma CoerceIdsRoundTrip(raw: string)
    requires Coerce(AlmacenIds, raw).Some?
    ensures ToIntList(Some(Coerce(AlmacenIds, raw).value.s)) == ToIntList(Some(raw))
  {
    IdsRoundTrip(ToIntList(Some(raw)).value);
  }

  /** JavaScript truthiness of a stored answer (absent answers are undefined, hence falsy). */
  predicate Truthy(v: Value) {
    match v
    case IntVal(n) => n != 0
    case TextVal(s) => s != []
  }

  /** The last check of fetchTop: year, limit and a non-empty warehouse list are present. */
  predicate HasRequired(p: map<Field, Value>) {
    Year in p && Limit in p && AlmacenIds in p && Truthy(p[AlmacenIds])
  }

  /** Once the required fields are stored, the final check of fetchTop passes. */
  lemma RequiredPresent(p: map<Field, Value>, reqIdx: int, optIdx: int)
    requires reqIdx == 3
    requires forall i :: 0 <= i < reqIdx ==> ReqOrder[i] in p
    requires forall f :: f in p ==> Fits(f, p[f])
    ensures HasRequired(p)
  {
    assert ReqOrder[0] == Year && ReqOrder[1] == Limit && ReqOrder[2] == AlmacenIds;
  }

  // ---------------------------------------------------------------------
  // The wizard

  datatype Mode = Idle | Top

  /** What the wizard shows or sends. */
  datatype Event =
    | UserSaid(text: string)
    | Asked(field: Field, optional: bool)
    | InvalidAnswer(field: Field, optional: bool)
    | StartHint
    | MissingData
    | Query(params: map<Field, Value>)
    | Results
    | QueryError

  class Wizard {
    var mode: Mode
    var reqIdx: int
    var optIdx: int
    var params: map<Field, Value>
    var askingOptional: bool
    /** The messages of the chat log and the queries sent, oldest first. */
    var log: seq<Event>

    /** The fields asked for so far. */
    ghost function AskedFields(): set<Field>
      reads this
      requires 0 <= reqIdx <= 3 && 0 <= optIdx <= 3
    {
      (set i | 0 <= i < reqIdx :: ReqOrder[i]) + (set j | 0 <= j < optIdx :: OptOrder[j])
    }

    /**
     * The wizard's invariant: the required fields come first, each stored
     * answer is one that Coerce produces for an already asked field, and in
     * mode "top" an optional field is being asked exactly when the required
     * ones are all answered. In mode "top" either a question is pending or,
     * with both indices at 3, the query is (IsPending).
     */
    ghost predicate Valid()
      reads this
    {
      && 0 <= reqIdx <= 3 && 0 <= optIdx <= 3
      && (mode == Idle ==> reqIdx == 0 && optIdx == 0 && params == map[] && !askingOptional)
      && (mode == Top ==> askingOptional == (reqIdx == 3))
      && (reqIdx < 3 ==> optIdx == 0)
      && (forall i :: 0 <= i < reqIdx ==> ReqOrder[i] in params)
      && (forall f :: f in params ==> f in AskedFields() && Fits(f, params[f]))
    }

    ghost predicate IsReset()
      reads this
    {
      mode == Idle && reqIdx == 0 && optIdx == 0 && params == map[] && !askingOptional
    }

    ghost predicate IsStarted()
      reads this
    {
      mode == Top && reqIdx == 0 && optIdx == 0 && params == map[] && !askingOptional
    }

    /** The query has been sent and its reply has not arrived yet. */
    ghost predicate IsPending()
      reads this
    {
      mode == Top && reqIdx == 3 && optIdx == 3 && askingOptional
    }

    constructor ()
      ensures Valid() && IsReset() && log == []
    {
      mode, reqIdx, optIdx, params, askingOptional := Idle, 0, 0, map[], false;
      log := [];
    }

    /** startTop: a hard reset into mode "top", then the first question. */
    method StartTop()
      modifies this
      ensures Valid() && IsStarted()
      ensures log == old(log) + [Asked(Year, false)]
      decreases 1
    {
      mode, reqIdx, optIdx, params, askingOptional := Top, 0, 0, map[], false;
      AskNext();
    }

    /**
     * askNext: the next required field, else the next optional one, else the
     * query. Outside mode "top" it does nothing.
     */
    method AskNext()
      requires 0 <= reqIdx <= 3 && 0 <= optIdx <= 3
      modifies this
      ensures old(mode) != Top ==> mode == old(mode) && reqIdx == old(reqIdx) && optIdx == old(optIdx)
                                   && params == old(params) && askingOptional == old(askingOptional) && log == old(log)
      ensures old(mode) == Top && old(reqIdx) < 3 ==>
                mode == Top && reqIdx == old(reqIdx) && optIdx == old(optIdx) && params == old(params)
                && !askingOptional && log == old(log) + [Asked(ReqOrder[old(reqIdx)], false)]
      ensures old(mode) == Top && old(reqIdx) == 3 && old(optIdx) < 3 ==>
                mode == Top && reqIdx == 3 && optIdx == old(optIdx) && params == old(params)
                && askingOptional && log == old(log) + [Asked(OptOrder[old(optIdx)], true)]
      ensures old(mode) == Top && old(reqIdx) == 3 && old(optIdx) == 3 ==>
                if HasRequired(old(params)) then
                  mode == Top && reqIdx == 3 && optIdx == 3 && params == old(params)
                  && askingOptional == old(askingOptional) && log == old(log) + [Query(old(params))]
                else IsStarted() && log == old(log) + [MissingData, Asked(Year, false)]
      decreases if reqIdx == 3 && optIdx == 3 then 3 else 0
    {
      if mode != Top {
        return;
      }
      if reqIdx < 3 {
        askingOptional := false;
        log := log + [Asked(ReqOrder[reqIdx], false)];
        return;
      }
      if optIdx < 3 {
        askingOptional := true;
        log := log + [Asked(OptOrder[optIdx], true)];
        return;
      }
      FetchTop();
    }

    /**
     * fetchTop up to its await: without the required data it restarts the
     * wizard; otherwise it sends the query and leaves the state as it is
     * until the reply arrives (Settle).
     */
    method FetchTop()
      modifies this
      ensures HasRequired(old(params)) ==>
                mode == old(mode) && reqIdx == old(reqIdx) && optIdx == old(optIdx) && params == old(params)
                && askingOptional == old(askingOptional) && log == old(log) + [Query(old(params))]
      ensures !HasRequired(old(params)) ==> Valid() && IsStarted() && log == old(log) + [MissingData, Asked(Year, false)]
      decreases 2
    {
      var p := params;
      if !HasRequired(p) {
        log := log + [MissingData];
        StartTop();
        return;
      }
      log := log + [Query(p)];
    }

    /**
     * The rest of fetchTop, once the request has finished or failed: the
     * results or the error are shown and, in `finally`, the wizard returns
     * to mode null with no data, whatever state it has reached meanwhile.
     */
    method Settle(failed: bool)
      modifies this
      ensures Valid() && IsReset()
      ensures log == old(log) + [if failed then QueryError else Results]
    {
      log := log + [if failed then QueryError else Results];
      mode, reqIdx, optIdx, params, askingOptional := Idle, 0, 0, map[], false;
    }

    /** The "Omitir" button: skips the optional field being asked, and only that. */
    method Omit()
      requires Valid()
      modifies this
      ensures Valid()
      ensures !(old(mode) == Top && old(askingOptional) && old(optIdx) < 3) ==>
                mode == old(mode) && reqIdx == old(reqIdx) && optIdx == old(optIdx)
                && params == old(params) && askingOptional == old(askingOptional) && log == old(log)
      ensures old(mode) == Top && old(askingOptional) && old(optIdx) + 1 < 3 ==>
                mode == Top && reqIdx == old(reqIdx) && optIdx == old(optIdx) + 1 && params == old(params)
                && askingOptional && log == old(log) + [Asked(OptOrder[optIdx], true)]
      ensures old(mode) == Top && old(askingOptional) && old(optIdx) + 1 == 3 ==>
                IsPending() && params == old(params) && log == old(log) + [Query(old(params))]
    {
      if mode == Top && askingOptional && optIdx < 3 {
        RequiredPresent(params, reqIdx, optIdx);
        optIdx := optIdx + 1;
        AskNext();
      }
    }

    /** handleSend on a required question: a valid answer is stored and the next question asked. */
    method AnswerRequired(raw: string)
      requires Valid() && mode == Top && reqIdx < 3
      modifies this
      ensures Valid()
      ensures var f := ReqOrder[old(reqIdx)];
              match Coerce(f, raw)
              case None =>
                mode == Top && reqIdx == old(reqIdx) && optIdx == old(optIdx) && params == old(params)
                && log == old(log) + [InvalidAnswer(f, false)]
              case Some(v) =>
                mode == Top && reqIdx == old(reqIdx) + 1 && optIdx == old(optIdx) && params == old(params)[f := v]
                && log == old(log) + [if reqIdx < 3 then Asked(ReqOrder[reqIdx], false) else Asked(OptOrder[0], true)]
    {
      var f := ReqOrder[reqIdx];
      var v := Coerce(f, raw);
      if v.None? {
        log := log + [InvalidAnswer(f, false)];
        return;
      }
      params := params[f := v.value];
      reqIdx := reqIdx + 1;
      AskNext();
    }

    /** handleSend on an optional question: a valid answer is stored; after the last one the query is sent. */
    method AnswerOptional(raw: string)
      requires Valid() && mode == Top && reqIdx == 3 && optIdx < 3
      modifies this
      ensures Valid()
      ensures var f := OptOrder[old(optIdx)];
              match Coerce(f, raw)
              case None =>
                mode == Top && reqIdx == 3 && optIdx == old(optIdx) && params == old(params)
                && log == old(log) + [InvalidAnswer(f, true)]
              case Some(v) =>
                if old(optIdx) + 1 < 3 then
                  mode == Top && reqIdx == 3 && optIdx == old(optIdx) + 1 && params == old(params)[f := v]
                  && log == old(log) + [Asked(OptOrder[optIdx], true)]
                else
                  IsPending() && params == old(params)[f := v] && log == old(log) + [Query(old(params)[f := v])]
    {
      var f := OptOrder[optIdx];
      var v := Coerce(f, raw);
      if v.None? {
        log := log + [InvalidAnswer(f, true)];
        return;
      }
      params := params[f := v.value];
      optIdx := optIdx + 1;
      RequiredPresent(params, reqIdx, optIdx);
      AskNext();
    }

    /**
     * handleSend: blank input is ignored; outside the wizard only a text
     * containing "top productos" (in any case) starts it; inside, the answer
     * goes to the field being asked, and while the query is pending the text
     * is only echoed.
     */
    method HandleSend(input: string)
      requires Valid()
      modifies this
      ensures Valid()
      ensures var raw := Trim(JavaScript, input);
              raw == [] ==>
                mode == old(mode) && reqIdx == old(reqIdx) && optIdx == old(optIdx)
                && params == old(params) && askingOptional == old(askingOptional) && log == old(log)
      ensures var raw := Trim(JavaScript, input);
              raw != [] && old(mode) == Idle ==>
                if Contains(Lower(raw), "top productos") then
                  IsStarted() && log == old(log) + [UserSaid(raw)] + [Asked(Year, false)]
                else
                  IsReset() && log == old(log) + [UserSaid(raw)] + [StartHint]
      ensures var raw := Trim(JavaScript, input);
              raw != [] && old(mode) == Top && old(reqIdx) < 3 ==>
                var f := ReqOrder[old(reqIdx)];
                match Coerce(f, raw)
                case None =>
                  mode == Top && reqIdx == old(reqIdx) && optIdx == old(optIdx) && params == old(params)
                  && log == old(log) + [UserSaid(raw)] + [InvalidAnswer(f, false)]
                case Some(v) =>
                  mode == Top && reqIdx == old(reqIdx) + 1 && optIdx == old(optIdx) && params == old(params)[f := v]
                  && log == old(log) + [UserSaid(raw)]
                            + [if reqIdx < 3 then Asked(ReqOrder[reqIdx], false) else Asked(OptOrder[0], true)]
      ensures var raw := Trim(JavaScript, input);
              raw != [] && old(mode) == Top && old(reqIdx) == 3 && old(optIdx) < 3 ==>
                var f := OptOrder[old(optIdx)];
                match Coerce(f, raw)
                case None =>
                  mode == Top && reqIdx == 3 && optIdx == old(optIdx) && params == old(params)
                  && log == old(log) + [UserSaid(raw)] + [InvalidAnswer(f, true)]
                case Some(v) =>
                  if old(optIdx) + 1 < 3 then
                    mode == Top && reqIdx == 3 && optIdx == old(optIdx) + 1 && params == old(params)[f := v]
                    && log == old(log) + [UserSaid(raw)] + [Asked(OptOrder[optIdx], true)]
                  else
                    IsPending() && params == old(params)[f := v]
                    && log == old(log) + [UserSaid(raw)] + [Query(old(params)[f := v])]
      ensures var raw := Trim(JavaScript, input);
              raw != [] && old(mode) == Top && old(reqIdx) == 3 && old(optIdx) == 3 ==>
                mode == old(mode) && reqIdx == old(reqIdx) && optIdx == old(optIdx)
                && params == old(params) && askingOptional == old(askingOptional) && log == old(log) + [UserSaid(raw)]
    {
      var raw := Trim(JavaScript, input);
      if raw == [] {
        return;
      }
      if mode == Idle {
        StartOrHint(raw);
      } else {
        Answer(raw);
      }
    }

    /** handleSend outside the wizard: start it on "top productos", otherwise show the hint. */
    method StartOrHint(raw: string)
      requires Valid() && mode == Idle
      modifies this
      ensures Valid()
      ensures if Contains(Lower(raw), "top productos") then
                IsStarted() && log == old(log) + [UserSaid(raw)] + [Asked(Year, false)]
              else
                IsReset() && log == old(log) + [UserSaid(raw)] + [StartHint]
    {
      log := log + [UserSaid(raw)];
      if Contains(Lower(raw), "top productos") {
        StartTop();
        return;
      }
      log := log + [StartHint];
    }

    /**
     * handleSend inside the wizard: the answer goes to the question being
     * asked; with the query pending neither branch applies.
     */
    method Answer(raw: string)
      requires Valid() && mode == Top
      modifies this
      ensures Valid()
      ensures old(reqIdx) < 3 ==>
                var f := ReqOrder[old(reqIdx)];
                match Coerce(f, raw)
                case None =>
                  mode == Top && reqIdx == old(reqIdx) && optIdx == old(optIdx) && params == old(params)
                  && log == old(log) + [UserSaid(raw)] + [InvalidAnswer(f, false)]
                case Some(v) =>
                  mode == Top && reqIdx == old(reqIdx) + 1 && optIdx == old(optIdx) && params == old(params)[f := v]
                  && log == old(log) + [UserSaid(raw)]
                            + [if reqIdx < 3 then Asked(ReqOrder[reqIdx], false) else Asked(OptOrder[0], true)]
      ensures old(reqIdx) == 3 && old(optIdx) < 3 ==>
                var f := OptOrder[old(optIdx)];
                match Coerce(f, raw)
                case None =>
                  mode == Top && reqIdx == 3 && optIdx == old(optIdx) && params == old(params)
                  && log == old(log) + [UserSaid(raw)] + [InvalidAnswer(f, true)]
                case Some(v) =>
                  if old(optIdx) + 1 < 3 then
                    mode == Top && reqIdx == 3 && optIdx == old(optIdx) + 1 && params == old(params)[f := v]
                    && log == old(log) + [UserSaid(raw)] + [Asked(OptOrder[optIdx], true)]
                  else
                    IsPending() && params == old(params)[f := v]
                    && log == old(log) + [UserSaid(raw)] + [Query(old(params)[f := v])]
      ensures old(reqIdx) == 3 && old(optIdx) == 3 ==>
                mode == Top && reqIdx == 3 && optIdx == 3 && params == old(params)
                && askingOptional == old(askingOptional) && log == old(log) + [UserSaid(raw)]
    {
      log := log + [UserSaid(raw)];
      if reqIdx < 3 {
        AnswerRequired(raw);
        return;
      }
      if optIdx < 3 {
        AnswerOptional(raw);
        return;
      }
    }
  }

  /**
   * A chip click while the query is pending restarts the wizard, and the
   * reply's `finally` then discards that restart: the wizard ends reset.
   */
  method ChipDuringFetch(w: Wizard, failed: bool)
    requires w.Valid() && w.IsPending()
    modifies w
    ensures w.IsReset()
    ensures w.log == old(w.log) + [Asked(Year, false), if failed then QueryError else Results]
  {
    w.StartTop();
    w.Settle(failed);
  }
}
